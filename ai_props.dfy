/**
 * What one tick of the AI loop keeps and changes: the generation invariant, fitness
 * bookkeeping, pass events and pipe retirement, and the consequences of mutating the lists
 * while they are enumerated.
 */
module AiProps {
  import opened Common
  import opened Kinematics
  import opened Pipes
  import opened AiRules

  /** `main` creates the three lists with equal lengths, one entry per genome, and a single fresh pipe. */
  lemma StartValid(n: nat, dice: Dice, sizes: Sprites)
    ensures var g := Start(n, dice, sizes);
      Valid(g, sizes) && |g.birds| == |g.fitness| == n && g.score == 0 &&
      (forall k :: 0 <= k < n ==> g.birds[k].tag == k && g.birds[k].body == Spawn(BirdX, StartY) && g.fitness[k] == 0) &&
      g.pipes == [NewPipe(0, SpawnX, dice(0), sizes.pipeHeight)]
  {
    var g := Start(n, dice, sizes);
    forall k | 0 <= k < n
      ensures g.birds[k].body.x == BirdX
    {
      assert g.birds[k] == Agent(k, Spawn(BirdX, StartY));
    }
  }

  lemma PopValid(g: Gen, x: nat, sizes: Sprites)
    requires Valid(g, sizes) && x < |g.birds|
    ensures Valid(Pop(g, x), sizes)
  {
    var r := Pop(g, x);
    forall j, k | 0 <= j < k < |r.ge|
      ensures r.ge[j] != r.ge[k]
    {
      var j' := if j < x then j else j + 1;
      var k' := if k < x then k else k + 1;
      assert r.ge[j] == g.ge[j'] && r.ge[k] == g.ge[k'];
    }
  }

  lemma PassValid(g: Gen, i: nat, x: nat, dice: Dice, sizes: Sprites)
    requires Valid(g, sizes) && i < |g.pipes| && x < |g.ge|
    ensures Valid(Pass(g, i, x, dice, sizes), sizes)
  {
    var r := Pass(g, i, x, dice, sizes);
    assert forall k :: 0 <= k < |g.pipes| ==> r.pipes[k].id == g.pipes[k].id;
    assert r.pipes[|g.pipes|].id == g.spawned;
  }

  lemma VisitValid(s: Sweep, i: nat, x: nat, overlap: Overlap, dice: Dice, sizes: Sprites)
    requires Valid(s.g, sizes) && i < |s.g.pipes| && x < |s.g.birds|
    ensures var r := Visit(s, i, x, overlap, dice, sizes); r.Ok? ==> Valid(r.value.g, sizes)
  {
    var a := s.g.birds[x];
    if Collide(s.g.pipes[i], a.body, overlap) {
      PopValid(Credit(s.g, x, -CrashPenalty), x, sizes);
    }
    var g1 := if Collide(s.g.pipes[i], a.body, overlap) then Pop(Credit(s.g, x, -CrashPenalty), x) else s.g;
    if Eligible(g1.pipes[i], a.body.x) && x < |g1.ge| {
      PassValid(g1, i, x, dice, sizes);
    }
  }

  lemma {:induction false} BirdSweepValid(s: Sweep, i: nat, x: nat, overlap: Overlap, dice: Dice, sizes: Sprites)
    requires Valid(s.g, sizes) && i < |s.g.pipes|
    ensures var r := BirdSweep(s, i, x, overlap, dice, sizes); r.Ok? ==> Valid(r.value.g, sizes)
    decreases |s.g.birds| - x
  {
    if x < |s.g.birds| {
      VisitValid(s, i, x, overlap, dice, sizes);
      var v := Visit(s, i, x, overlap, dice, sizes);
      if v.Ok? {
        BirdSweepValid(v.value, i, x + 1, overlap, dice, sizes);
      }
    }
  }

  lemma {:induction false} PipeSweepValid(s: Sweep, i: nat, overlap: Overlap, dice: Dice, sizes: Sprites)
    requires Valid(s.g, sizes) && i <= |s.g.pipes|
    ensures var r := PipeSweep(s, i, overlap, dice, sizes); r.Ok? ==> Valid(r.value.g, sizes)
    decreases |s.g.pipes| - i + Pending(s.g.pipes[i..], BirdX)
  {
    if i < |s.g.pipes| {
      BirdSweepValid(s, i, 0, overlap, dice, sizes);
      var b := BirdSweep(s, i, 0, overlap, dice, sizes);
      if b.Ok? {
        var s1 := b.value;
        var p := s1.g.pipes[i];
        var rem := if p.x + sizes.pipeWidth < 0 then s1.rem + [p.id] else s1.rem;
        var g2 := s1.g.(pipes := s1.g.pipes[i := MovePipe(p)]);
        AdvanceShrinks(s.g.pipes, s1.g.pipes, i, BirdX);
        MoveValid(s1.g, i, sizes);
        PipeSweepValid(Sweep(g2, rem, s1.last), i + 1, overlap, dice, sizes);
      }
    }
  }

  lemma MoveValid(g: Gen, i: nat, sizes: Sprites)
    requires Valid(g, sizes) && i < |g.pipes|
    ensures Valid(g.(pipes := g.pipes[i := MovePipe(g.pipes[i])]), sizes)
  {
    var ps := g.pipes[i := MovePipe(g.pipes[i])];
    assert forall k :: 0 <= k < |ps| ==> ps[k].id == g.pipes[k].id;
  }

  lemma {:induction false} CullValid(g: Gen, x: nat, last: nat, sizes: Sprites)
    requires Valid(g, sizes)
    ensures Valid(Cull(g, x, last, sizes).0, sizes)
    decreases |g.birds| - x
  {
    if x < |g.birds| {
      if OutOfBounds(g.birds[x].body, sizes) {
        PopValid(g, x, sizes);
      }
      CullValid(if OutOfBounds(g.birds[x].body, sizes) then Pop(g, x) else g, x + 1, g.birds[x].tag, sizes);
    }
  }

  lemma FlapValid(g: Gen, target: PipeState, policy: Policy, sizes: Sprites)
    requires Valid(g, sizes)
    ensures Valid(Flap(g, target, policy), sizes)
  {
  }

  lemma NudgeValid(g: Gen, tag: nat, sizes: Sprites)
    requires Valid(g, sizes)
    ensures Valid(Nudge(g, tag), sizes)
  {
  }

  /** A tick that goes on leaves a valid generation: the lists stay aligned, genomes distinct, pipes well formed and the score in step with the pipes created. */
  lemma TickValid(g: Gen, sizes: Sprites, policy: Policy, overlap: Overlap, dice: Dice)
    requires Valid(g, sizes)
    ensures var r := Tick(g, sizes, policy, overlap, dice); r.Continued? ==> Valid(r.next, sizes)
  {
    if |g.birds| > 0 && |g.pipes| > 0 {
      var target := g.pipes[PipeIndex(g, sizes)];
      var g1 := Flap(g, target, policy);
      FlapValid(g, target, policy, sizes);
      var s0 := Sweep(g1, [], g1.birds[|g1.birds| - 1].tag);
      PipeSweepValid(s0, 0, overlap, dice, sizes);
      var sw := PipeSweep(s0, 0, overlap, dice, sizes);
      assert sw == Swept(g, sizes, policy, overlap, dice);
      if sw.Ok? {
        var s := sw.value;
        var g2 := s.g.(pipes := Retire(s.g.pipes, s.rem));
        RetireWellFormed(s.g.pipes, s.rem, s.g.spawned, sizes.pipeHeight);
        CullValid(g2, 0, s.last, sizes);
        var c := Cull(g2, 0, s.last, sizes);
        NudgeValid(c.0, c.1, sizes);
        TickContinues(g, sizes, policy, overlap, dice, s);
      }
    }
  }

  /** One more genome of the move loop gains 0.1: the genomes credited so far grow by ge[x]. */
  lemma CreditNext(f0: seq<int>, f: seq<int>, ge: seq<nat>, x: nat)
    requires x < |ge| && ge[x] < |f| == |f0| && ge[x] !in ge[..x]
    requires forall j :: 0 <= j < |f| ==> f[j] == f0[j] + (if j in ge[..x] then TickReward else 0)
    ensures forall j :: 0 <= j < |f| ==>
      f[ge[x] := f[ge[x]] + TickReward][j] == f0[j] + (if j in ge[..x + 1] then TickReward else 0)
  {
    assert ge[..x + 1] == ge[..x] + [ge[x]];
  }

  /** The move loop: every bird keeps its identity and x, and exactly the genomes with a bird gain 0.1. */
  lemma FlapFitness(g: Gen, target: PipeState, policy: Policy, sizes: Sprites)
    requires Valid(g, sizes)
    ensures var r := Flap(g, target, policy);
      (forall k :: 0 <= k < |g.birds| ==> r.birds[k].tag == g.birds[k].tag) &&
      (forall k :: 0 <= k < |g.birds| ==> r.fitness[g.birds[k].tag] == g.fitness[g.birds[k].tag] + TickReward) &&
      (forall j :: 0 <= j < |g.fitness| && (forall k :: 0 <= k < |g.birds| ==> g.birds[k].tag != j) ==>
         r.fitness[j] == g.fitness[j])
  {
    var r := Flap(g, target, policy);
    forall k | 0 <= k < |g.birds|
      ensures r.fitness[g.birds[k].tag] == g.fitness[g.birds[k].tag] + TickReward
    {
      assert g.ge[k] in g.ge;
    }
  }

  /**
   * A bird that hits pipe i costs its genome exactly 1 and leaves all three lists. If the pipe is
   * waiting for its pass, the pass test then runs with the popped bird but `ge[x]`: the +5 goes
   * to the genome of the next bird, or, when there is none, the index is out of range.
   */
  lemma VisitCollision(s: Sweep, i: nat, x: nat, overlap: Overlap, dice: Dice, sizes: Sprites)
    requires Valid(s.g, sizes) && i < |s.g.pipes| && x < |s.g.birds|
    requires Collide(s.g.pipes[i], s.g.birds[x].body, overlap)
    ensures var r := Visit(s, i, x, overlap, dice, sizes); var f := s.g.fitness; var id := s.g.ge[x];
      (!Eligible(s.g.pipes[i], BirdX) ==>
         r.Ok? && r.value.g.fitness == f[id := f[id] - CrashPenalty] && r.value.g.pipes == s.g.pipes &&
         r.value.g.birds == Without(s.g.birds, x) && r.value.g.ge == Without(s.g.ge, x)) &&
      (Eligible(s.g.pipes[i], BirdX) && x + 1 < |s.g.birds| ==>
         r.Ok? && r.value.g.score == s.g.score + 1 && s.g.ge[x + 1] != id &&
         r.value.g.fitness == f[id := f[id] - CrashPenalty][s.g.ge[x + 1] := f[s.g.ge[x + 1]] + PassBonus]) &&
      (Eligible(s.g.pipes[i], BirdX) && x + 1 == |s.g.birds| ==> r == Raised(IndexError))
  {
  }

  /** A bird that clears pipe i just as the pipe falls behind it scores the pass for its own genome. */
  lemma VisitPass(s: Sweep, i: nat, x: nat, overlap: Overlap, dice: Dice, sizes: Sprites)
    requires Valid(s.g, sizes) && i < |s.g.pipes| && x < |s.g.birds|
    requires !Collide(s.g.pipes[i], s.g.birds[x].body, overlap) && Eligible(s.g.pipes[i], BirdX)
    ensures var r := Visit(s, i, x, overlap, dice, sizes); var f := s.g.fitness; var id := s.g.birds[x].tag;
      r.Ok? && r.value.g.fitness == f[id := f[id] + PassBonus] &&
      r.value.g.score == s.g.score + 1 && r.value.g.birds == s.g.birds &&
      r.value.g.pipes == s.g.pipes[i := s.g.pipes[i].(passed := true)] +
                         [NewPipe(s.g.spawned, SpawnX, dice(s.g.spawned), sizes.pipeHeight)]
  {
  }

  /** Every second element, starting with the second. */
  function Odds<T>(s: seq<T>): (r: seq<T>)
    ensures |r| == |s| / 2
    ensures forall k :: 0 <= k < |r| ==> r[k] == s[2 * k + 1]
  {
    if |s| < 2 then [] else [s[1]] + Odds(s[2..])
  }

  /** Popping slot x and resuming at x + 1 keeps the element that slid into x. */
  lemma OddsStep<T>(bs: seq<T>, x: nat)
    requires x + 1 < |bs|
    ensures Without(bs, x)[..x + 1] + Odds(Without(bs, x)[x + 1..]) == bs[..x] + Odds(bs[x..])
  {
    var w := Without(bs, x);
    assert w[..x + 1] == bs[..x] + [bs[x + 1]];
    assert w[x + 1..] == bs[x + 2..];
    assert bs[x..][2..] == bs[x + 2..];
  }

  /** Popping the last slot ends the loop. */
  lemma OddsLast<T>(bs: seq<T>, x: nat)
    requires x + 1 == |bs|
    ensures Without(bs, x) == bs[..x] + Odds(bs[x..])
  {
    assert Without(bs, x) == bs[..x];
  }

  /**
   * Enumerate-while-pop in the collision loop: when every bird from index x on hits pipe i
   * (and the pipe awaits no pass), only every other bird is removed; each bird that slides
   * into a popped slot escapes the test.
   */
  lemma {:induction false} SweepHalves(s: Sweep, i: nat, x: nat, overlap: Overlap, dice: Dice, sizes: Sprites)
    requires Shape(s.g) && i < |s.g.pipes| && x <= |s.g.birds|
    requires !Eligible(s.g.pipes[i], BirdX)
    requires forall k :: x <= k < |s.g.birds| ==> Collide(s.g.pipes[i], s.g.birds[k].body, overlap)
    ensures var r := BirdSweep(s, i, x, overlap, dice, sizes);
      r.Ok? && r.value.g.birds == s.g.birds[..x] + Odds(s.g.birds[x..]) && r.value.g.pipes == s.g.pipes
    decreases |s.g.birds| - x
  {
    var bs := s.g.birds;
    if x < |bs| {
      var s1 := Sweep(Pop(Credit(s.g, x, -CrashPenalty), x), s.rem, bs[x].tag);
      assert Visit(s, i, x, overlap, dice, sizes) == Ok(s1);
      assert BirdSweep(s, i, x, overlap, dice, sizes) == BirdSweep(s1, i, x + 1, overlap, dice, sizes);
      if x + 1 < |bs| {
        SweepHalves(s1, i, x + 1, overlap, dice, sizes);
        OddsStep(bs, x);
      } else {
        OddsLast(bs, x);
      }
    } else {
      assert bs[x..] == [];
    }
  }

  /** One bird's turn removes that bird exactly when it hits pipe i. */
  lemma VisitBirds(s: Sweep, i: nat, x: nat, overlap: Overlap, dice: Dice, sizes: Sprites)
    requires Shape(s.g) && i < |s.g.pipes| && x < |s.g.birds|
    ensures var r := Visit(s, i, x, overlap, dice, sizes);
      r.Ok? ==>
        r.value.g.birds == (if Collide(s.g.pipes[i], s.g.birds[x].body, overlap) then Without(s.g.birds, x) else s.g.birds)
  {
  }

  /** One bird's turn leaves the collisions with pipe i as they were. */
  lemma VisitKeepsCollide(s: Sweep, i: nat, x: nat, overlap: Overlap, dice: Dice, sizes: Sprites)
    requires Shape(s.g) && i < |s.g.pipes| && x < |s.g.birds|
    ensures var r := Visit(s, i, x, overlap, dice, sizes);
      r.Ok? ==> forall b :: Collide(r.value.g.pipes[i], b, overlap) == Collide(s.g.pipes[i], b, overlap)
  {
    var r := Visit(s, i, x, overlap, dice, sizes);
    if r.Ok? && r.value.g.pipes != s.g.pipes {
      assert r.value.g.pipes[i] == r.value.g.pipes[..|s.g.pipes|][i];
    }
  }

  /** The collision loop is one bird's turn followed by the loop from the next index. */
  lemma BirdSweepUnfold(s: Sweep, i: nat, x: nat, overlap: Overlap, dice: Dice, sizes: Sprites)
    requires Shape(s.g) && i < |s.g.pipes| && x < |s.g.birds|
    ensures var v := Visit(s, i, x, overlap, dice, sizes); var r := BirdSweep(s, i, x, overlap, dice, sizes);
      (v.Raised? ==> r.Raised?) && (v.Ok? ==> r == BirdSweep(v.value, i, x + 1, overlap, dice, sizes))
  {
  }

  /**
   * The collision loop only removes birds: the survivors are input birds in their order, and a
   * bird it examines against pipe i and finds colliding is among the removed.
   */
  lemma {:induction false} BirdSweepSurvivors(s: Sweep, i: nat, x: nat, overlap: Overlap, dice: Dice, sizes: Sprites)
    requires Shape(s.g) && i < |s.g.pipes|
    ensures var r := BirdSweep(s, i, x, overlap, dice, sizes);
      r.Ok? ==> Sublist(r.value.g.birds, s.g.birds)
    ensures var r := BirdSweep(s, i, x, overlap, dice, sizes);
      r.Ok? && x < |s.g.birds| && Collide(s.g.pipes[i], s.g.birds[x].body, overlap) ==>
        Sublist(r.value.g.birds, Without(s.g.birds, x))
    decreases |s.g.birds| - x
  {
    var r := BirdSweep(s, i, x, overlap, dice, sizes);
    if x < |s.g.birds| {
      VisitBirds(s, i, x, overlap, dice, sizes);
      var v := Visit(s, i, x, overlap, dice, sizes);
      if v.Ok? {
        BirdSweepSurvivors(v.value, i, x + 1, overlap, dice, sizes);
        if r.Ok? && v.value.g.birds != s.g.birds {
          SublistWithout(r.value.g.birds, s.g.birds, x);
        }
      }
    } else {
      SublistSelf(s.g.birds);
    }
  }

  /** Every bird before index x, and every bird that does not hit pipe i, survives the collision loop. */
  lemma {:induction false} BirdSweepKeeps(s: Sweep, i: nat, x: nat, overlap: Overlap, dice: Dice, sizes: Sprites)
    requires Shape(s.g) && i < |s.g.pipes|
    ensures var r := BirdSweep(s, i, x, overlap, dice, sizes);
      r.Ok? ==> forall k :: 0 <= k < |s.g.birds| && (k < x || !Collide(s.g.pipes[i], s.g.birds[k].body, overlap)) ==>
        s.g.birds[k] in r.value.g.birds
    decreases |s.g.birds| - x
  {
    var r := BirdSweep(s, i, x, overlap, dice, sizes);
    if x < |s.g.birds| && r.Ok? {
      VisitBirds(s, i, x, overlap, dice, sizes);
      VisitKeepsCollide(s, i, x, overlap, dice, sizes);
      BirdSweepUnfold(s, i, x, overlap, dice, sizes);
      var v := Visit(s, i, x, overlap, dice, sizes).value;
      BirdSweepKeeps(v, i, x + 1, overlap, dice, sizes);
      forall k | 0 <= k < |s.g.birds| && (k < x || !Collide(s.g.pipes[i], s.g.birds[k].body, overlap))
        ensures s.g.birds[k] in r.value.g.birds
      {
        if k < x || v.g.birds == s.g.birds {
          assert s.g.birds[k] == v.g.birds[k];
        } else {
          assert s.g.birds[k] == v.g.birds[k - 1];
        }
      }
    }
  }

  /** The out-of-bounds loop never changes the birds before the index it starts from. */
  lemma {:induction false} CullPrefix(g: Gen, x: nat, last: nat, sizes: Sprites)
    requires Shape(g) && x <= |g.birds|
    ensures var r := Cull(g, x, last, sizes).0; |r.birds| >= x && r.birds[..x] == g.birds[..x]
    decreases |g.birds| - x
  {
    if x < |g.birds| {
      var g' := if OutOfBounds(g.birds[x].body, sizes) then Pop(g, x) else g;
      var r' := Cull(g', x + 1, g.birds[x].tag, sizes).0;
      assert Cull(g, x, last, sizes).0 == r';
      assert g'.birds[..x] == g.birds[..x];
      if x + 1 <= |g'.birds| {
        CullPrefix(g', x + 1, g.birds[x].tag, sizes);
        assert r'.birds[..x] == r'.birds[..x + 1][..x];
      } else {
        assert r' == g';
      }
    }
  }

  /**
   * Enumerate-while-pop in the out-of-bounds loop: after the bird at x is popped, the bird that
   * followed it takes slot x and is never examined, whether it is out of bounds or not.
   */
  lemma SkipAfterPop(g: Gen, x: nat, last: nat, sizes: Sprites)
    requires Shape(g) && x + 1 < |g.birds| && OutOfBounds(g.birds[x].body, sizes)
    ensures var r := Cull(g, x, last, sizes).0; x < |r.birds| && r.birds[x] == g.birds[x + 1]
  {
    CullPrefix(Pop(g, x), x + 1, g.birds[x].tag, sizes);
  }

  /** When every bird from x on is out of bounds, the loop keeps every other one of them. */
  lemma {:induction false} CullHalves(g: Gen, x: nat, last: nat, sizes: Sprites)
    requires Shape(g) && x <= |g.birds|
    requires forall k :: x <= k < |g.birds| ==> OutOfBounds(g.birds[k].body, sizes)
    ensures Cull(g, x, last, sizes).0.birds == g.birds[..x] + Odds(g.birds[x..])
    decreases |g.birds| - x
  {
    var bs := g.birds;
    if x < |bs| {
      var g1 := Pop(g, x);
      if x + 1 < |bs| {
        CullHalves(g1, x + 1, bs[x].tag, sizes);
        OddsStep(bs, x);
      } else {
        OddsLast(bs, x);
      }
    } else {
      assert bs[x..] == [];
    }
  }

  /** With no bird out of bounds, the loop changes nothing and leaves `bird` naming the last bird. */
  lemma {:induction false} CullNone(g: Gen, x: nat, last: nat, sizes: Sprites)
    requires Shape(g) && x < |g.birds|
    requires forall k :: x <= k < |g.birds| ==> !OutOfBounds(g.birds[k].body, sizes)
    ensures Cull(g, x, last, sizes) == (g, g.birds[|g.birds| - 1].tag)
    decreases |g.birds| - x
  {
    if x + 1 < |g.birds| {
      CullNone(g, x + 1, g.birds[x].tag, sizes);
    }
  }

  /**
   * The out-of-bounds loop only removes birds: the survivors are input birds in their order,
   * and a bird it examines out of bounds is among the removed.
   */
  lemma {:induction false} CullSurvivors(g: Gen, x: nat, last: nat, sizes: Sprites)
    requires Shape(g)
    ensures Sublist(Cull(g, x, last, sizes).0.birds, g.birds)
    ensures x < |g.birds| && OutOfBounds(g.birds[x].body, sizes) ==>
      Sublist(Cull(g, x, last, sizes).0.birds, Without(g.birds, x))
    decreases |g.birds| - x
  {
    if x < |g.birds| {
      var g1 := if OutOfBounds(g.birds[x].body, sizes) then Pop(g, x) else g;
      CullSurvivors(g1, x + 1, g.birds[x].tag, sizes);
      if g1 != g {
        SublistWithout(Cull(g1, x + 1, g.birds[x].tag, sizes).0.birds, g.birds, x);
      }
    } else {
      SublistSelf(g.birds);
    }
  }

  /** Every bird before index x, and every bird in bounds, survives the out-of-bounds loop. */
  lemma {:induction false} CullKeeps(g: Gen, x: nat, last: nat, sizes: Sprites)
    requires Shape(g)
    ensures var r := Cull(g, x, last, sizes).0;
      forall k :: 0 <= k < |g.birds| && (k < x || !OutOfBounds(g.birds[k].body, sizes)) ==> g.birds[k] in r.birds
    decreases |g.birds| - x
  {
    var r := Cull(g, x, last, sizes).0;
    if x < |g.birds| {
      CullPrefix(g, x, last, sizes);
      var g1 := if OutOfBounds(g.birds[x].body, sizes) then Pop(g, x) else g;
      assert r == Cull(g1, x + 1, g.birds[x].tag, sizes).0;
      CullKeeps(g1, x + 1, g.birds[x].tag, sizes);
      forall k | 0 <= k < |g.birds| && (k < x || !OutOfBounds(g.birds[k].body, sizes))
        ensures g.birds[k] in r.birds
      {
        if k < x {
          assert r.birds[..x][k] == g.birds[..x][k];
        } else if g1 != g {
          assert g.birds[k] == g1.birds[k - 1];
        }
      }
    }
  }

  /**
   * The stray `bird.move()` after the loops: when no bird is out of bounds, it is the last bird
   * of the list that moves a second time in the tick.
   */
  lemma StrayMove(g: Gen, last: nat, sizes: Sprites)
    requires Shape(g) && |g.birds| > 0
    requires forall k :: 0 <= k < |g.birds| ==> !OutOfBounds(g.birds[k].body, sizes)
    ensures var c := Cull(g, 0, last, sizes); var n := |g.birds| - 1;
      Nudge(c.0, c.1).birds == g.birds[n := Agent(g.birds[n].tag, MoveBird(g.birds[n].body))]
  {
    CullNone(g, 0, last, sizes);
  }

  /** The last bird hitting a pipe that awaits its pass makes the tick raise IndexError on `ge[x]`. */
  lemma LoneBirdCrash(g: Gen, sizes: Sprites, policy: Policy, overlap: Overlap, dice: Dice)
    requires Shape(g) && |g.birds| == 1 && |g.pipes| > 0 && Eligible(g.pipes[0], BirdX)
    requires Collide(g.pipes[0], Flap(g, g.pipes[PipeIndex(g, sizes)], policy).birds[0].body, overlap)
    ensures Tick(g, sizes, policy, overlap, dice) == Crashed(IndexError)
  {
    var g1 := Flap(g, g.pipes[PipeIndex(g, sizes)], policy);
    var s := Sweep(g1, [], g1.birds[0].tag);
    assert Visit(s, 0, 0, overlap, dice, sizes) == Raised(IndexError);
  }

  /** The pipe loop from index i on changes the pipe list as SweptFrom says. */
  lemma {:induction false} PipeSweepMoves(s: Sweep, i: nat, overlap: Overlap, dice: Dice, sizes: Sprites)
    requires Shape(s.g) && i <= |s.g.pipes|
    ensures var r := PipeSweep(s, i, overlap, dice, sizes);
      r.Ok? ==> SweptFrom(s.g.pipes, r.value.g.pipes, i, BirdX)
    decreases |s.g.pipes| - i + Pending(s.g.pipes[i..], BirdX)
  {
    var ps := s.g.pipes;
    if i < |ps| {
      var b := BirdSweep(s, i, 0, overlap, dice, sizes);
      if b.Ok? {
        var s1 := b.value;
        var p := s1.g.pipes[i];
        var rem := if p.x + sizes.pipeWidth < 0 then s1.rem + [p.id] else s1.rem;
        var g2 := s1.g.(pipes := s1.g.pipes[i := MovePipe(p)]);
        AdvanceShrinks(ps, s1.g.pipes, i, BirdX);
        PipeSweepMoves(Sweep(g2, rem, s1.last), i + 1, overlap, dice, sizes);
        var r := PipeSweep(Sweep(g2, rem, s1.last), i + 1, overlap, dice, sizes);
        if r.Ok? {
          SweptStep(ps, s1.g.pipes, r.value.g.pipes, i, BirdX);
        }
      }
    } else {
      assert ps[..i] == ps;
    }
  }

  /** Each pass event of the pipe loop marks one pipe passed, scores 1 and appends one pipe. */
  lemma {:induction false} PipeSweepCounts(s: Sweep, i: nat, overlap: Overlap, dice: Dice, sizes: Sprites)
    requires Shape(s.g) && i <= |s.g.pipes|
    ensures var r := PipeSweep(s, i, overlap, dice, sizes);
      r.Ok? ==> r.value.g.score - s.g.score == |r.value.g.pipes| - |s.g.pipes| ==
                Passes(r.value.g.pipes) - Passes(s.g.pipes)
    decreases |s.g.pipes| - i + Pending(s.g.pipes[i..], BirdX)
  {
    var ps := s.g.pipes;
    if i < |ps| {
      var b := BirdSweep(s, i, 0, overlap, dice, sizes);
      if b.Ok? {
        var s1 := b.value;
        var p := s1.g.pipes[i];
        var rem := if p.x + sizes.pipeWidth < 0 then s1.rem + [p.id] else s1.rem;
        var g2 := s1.g.(pipes := s1.g.pipes[i := MovePipe(p)]);
        AdvanceShrinks(ps, s1.g.pipes, i, BirdX);
        PipeSweepCounts(Sweep(g2, rem, s1.last), i + 1, overlap, dice, sizes);
        PassesAdvance(ps, s1.g.pipes, i, BirdX);
        PassesFlags(s1.g.pipes, g2.pipes);
      }
    }
  }

  /** The pipe loop from index i on marks in `rem` exactly the pipes it found off screen, in order. */
  lemma {:induction false} PipeSweepMarks(s: Sweep, i: nat, overlap: Overlap, dice: Dice, sizes: Sprites)
    requires Shape(s.g) && i <= |s.g.pipes|
    ensures var r := PipeSweep(s, i, overlap, dice, sizes);
      r.Ok? ==> |r.value.g.pipes| >= |s.g.pipes| && r.value.g.pipes[..i] == s.g.pipes[..i] &&
                r.value.rem == s.rem + Marked(r.value.g.pipes[i..], sizes.pipeWidth)
    decreases |s.g.pipes| - i + Pending(s.g.pipes[i..], BirdX)
  {
    var ps := s.g.pipes;
    if i < |ps| {
      var b := BirdSweep(s, i, 0, overlap, dice, sizes);
      if b.Ok? {
        var s1 := b.value;
        var p := s1.g.pipes[i];
        var rem := if p.x + sizes.pipeWidth < 0 then s1.rem + [p.id] else s1.rem;
        var g2 := s1.g.(pipes := s1.g.pipes[i := MovePipe(p)]);
        AdvanceShrinks(ps, s1.g.pipes, i, BirdX);
        PipeSweepMarks(Sweep(g2, rem, s1.last), i + 1, overlap, dice, sizes);
        var r := PipeSweep(Sweep(g2, rem, s1.last), i + 1, overlap, dice, sizes);
        if r.Ok? {
          MarksStep(ps, s1.g.pipes, r.value.g.pipes, i, sizes.pipeWidth, s.rem, r.value.rem, BirdX);
        }
      }
    } else {
      assert PipeSweep(s, i, overlap, dice, sizes) == Ok(s);
      assert s.g.pipes[i..] == [];
    }
  }

  /**
   * After a tick, the pipes are exactly those the pipe loop left whose right edge had not passed
   * 0 before their move; ids keep increasing, so the survivors keep their order.
   */
  lemma TickPipes(g: Gen, sizes: Sprites, policy: Policy, overlap: Overlap, dice: Dice)
    requires Valid(g, sizes) && |g.birds| > 0
    ensures var r := Tick(g, sizes, policy, overlap, dice); var sw := Swept(g, sizes, policy, overlap, dice);
      r.Continued? ==>
        (sw.Ok? && Increasing(r.next.pipes) &&
         forall q :: q in r.next.pipes <==> q in sw.value.g.pipes && q.x + PipeVel + sizes.pipeWidth >= 0)
  {
    if |g.pipes| > 0 {
      var target := g.pipes[PipeIndex(g, sizes)];
      var g1 := Flap(g, target, policy);
      FlapValid(g, target, policy, sizes);
      var s0 := Sweep(g1, [], g1.birds[|g1.birds| - 1].tag);
      PipeSweepValid(s0, 0, overlap, dice, sizes);
      PipeSweepMarks(s0, 0, overlap, dice, sizes);
      var sw := PipeSweep(s0, 0, overlap, dice, sizes);
      assert sw == Swept(g, sizes, policy, overlap, dice);
      if sw.Ok? {
        var s := sw.value;
        assert s.rem == Marked(s.g.pipes, sizes.pipeWidth) by {
          assert s.g.pipes[0..] == s.g.pipes;
        }
        RetireMarked(s.g.pipes, s.rem, sizes.pipeWidth);
        TickContinues(g, sizes, policy, overlap, dice, s);
      }
    }
  }

  /**
   * The score never decreases: a tick scores exactly one point per pipe it marks passed, which
   * is also the number of pipes it appends.
   */
  lemma TickScore(g: Gen, sizes: Sprites, policy: Policy, overlap: Overlap, dice: Dice)
    requires Valid(g, sizes) && |g.birds| > 0
    ensures var r := Tick(g, sizes, policy, overlap, dice); var sw := Swept(g, sizes, policy, overlap, dice);
      r.Continued? ==>
        (sw.Ok? && r.next.score >= g.score &&
         r.next.score - g.score == |sw.value.g.pipes| - |g.pipes| == Passes(sw.value.g.pipes) - Passes(g.pipes))
  {
    var sw := Swept(g, sizes, policy, overlap, dice);
    if sw.Ok? {
      var g1 := Flap(g, g.pipes[PipeIndex(g, sizes)], policy);
      PipeSweepCounts(Sweep(g1, [], g1.birds[|g1.birds| - 1].tag), 0, overlap, dice, sizes);
      PipeSweepMarks(Sweep(g1, [], g1.birds[|g1.birds| - 1].tag), 0, overlap, dice, sizes);
      var s := sw.value;
      assert s.g.score - g.score == |s.g.pipes| - |g.pipes| == Passes(s.g.pipes) - Passes(g.pipes);
      var culled := Cull(s.g.(pipes := Retire(s.g.pipes, s.rem)), 0, s.last, sizes);
      assert Tick(g, sizes, policy, overlap, dice) == Continued(Nudge(culled.0, culled.1));
      assert culled.0.score == s.g.score;
    }
  }

  /**
   * Pipes appended during the pipe loop are visited and moved in the same tick: each pipe created
   * by the tick ends it at 695, not yet passed.
   */
  lemma TickNewPipes(g: Gen, sizes: Sprites, policy: Policy, overlap: Overlap, dice: Dice)
    requires Valid(g, sizes) && |g.birds| > 0
    ensures var r := Tick(g, sizes, policy, overlap, dice);
      r.Continued? ==>
        forall q :: q in r.next.pipes && q.id >= g.spawned ==> q.x == SpawnX - PipeVel && !q.passed
  {
    var r := Tick(g, sizes, policy, overlap, dice);
    if r.Continued? {
      TickPipes(g, sizes, policy, overlap, dice);
      var g1 := Flap(g, g.pipes[PipeIndex(g, sizes)], policy);
      PipeSweepMoves(Sweep(g1, [], g1.birds[|g1.birds| - 1].tag), 0, overlap, dice, sizes);
      var sp := Swept(g, sizes, policy, overlap, dice).value.g.pipes;
      SweptNew(g.pipes, sp, g.spawned, BirdX);
    }
  }
}
