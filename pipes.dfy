/**
 * Pipes shared by both modes: `Pipe.__init__`/`set_height`, `Pipe.move`, `Pipe.collide`,
 * and the retirement of pipes through `pipes.remove`.
 *
 * Horizontal positions and pipe heights are whole pixels; the bird's height is in
 * half-units (see Kinematics) and is rounded the way `round(bird.y)` does.
 */
module Pipes {
  import opened Common
  import opened Kinematics

  /** Vertical gap between the two pipes of a pair. */
  const Gap: int := 200
  /** Pixels a pipe moves left per tick. */
  const PipeVel: int := 5
  /** Where every new pipe is created: `Pipe(700)`. */
  const SpawnX: int := 700

  /** A value of `random.randrange(50, 450)`. */
  type GapHeight = h: int | 50 <= h < 450 witness 50
  /** The random source: the k-th call of `randrange` made in a run. */
  type Dice = nat -> GapHeight

  /** A pair of pipes. `id` stands for the object's identity: the k-th pipe created has id k. */
  datatype PipeState = PipeState(id: nat, x: int, height: int, top: int, bottom: int, passed: bool)

  /** The geometry `set_height` establishes, which nothing afterwards changes. */
  predicate Shaped(p: PipeState, pipeHeight: int)
  {
    50 <= p.height < 450 && p.bottom == p.height + Gap && p.top + pipeHeight == p.height
  }

  /** `set_height` with the drawn value h; pipeHeight is the pipe image's height. */
  function WithHeight(p: PipeState, h: GapHeight, pipeHeight: int): (r: PipeState)
    ensures Shaped(r, pipeHeight) && r.height == h
    ensures r.id == p.id && r.x == p.x && r.passed == p.passed
  {
    p.(height := h, top := h - pipeHeight, bottom := h + Gap)
  }

  /** `Pipe(x)`: fields zeroed, `passed` false, then `set_height`. */
  function NewPipe(id: nat, x: int, h: GapHeight, pipeHeight: int): (p: PipeState)
    ensures Shaped(p, pipeHeight) && p.height == h
    ensures p.id == id && p.x == x && !p.passed
  {
    WithHeight(PipeState(id, x, 0, 0, 0, false), h, pipeHeight)
  }

  /** `Pipe.move`. */
  function MovePipe(p: PipeState): (q: PipeState)
    ensures q.x == p.x - PipeVel
    ensures q.(x := p.x) == p
  {
    p.(x := p.x - PipeVel)
  }

  /** The two pipe images of a pair. */
  datatype Segment = Upper | Lower

  /**
   * The pixel-mask test `bird_mask.overlap(mask, (dx, dy))` of the bird's image against the
   * given pipe image placed at offset (dx, dy): true when it returns a point.
   */
  type Overlap = (Segment, int, int) -> bool

  /** `Pipe.collide`: the masks overlap at the bottom pipe's offset or at the top pipe's. */
  function Collide(p: PipeState, b: BirdState, overlap: Overlap): bool
  {
    var ry := RoundHalf(b.y);
    overlap(Lower, p.x - b.x, p.bottom - ry) || overlap(Upper, p.x - b.x, p.top - ry)
  }

  /** Masks that are full rectangles of the given sizes (a bird box against a pipe box). */
  function Boxes(birdWidth: int, birdHeight: int, pipeWidth: int, pipeHeight: int): Overlap
  {
    (s: Segment, dx: int, dy: int) =>
      dx < birdWidth && -dx < pipeWidth && dy < birdHeight && -dy < pipeHeight
  }

  /**
   * With rectangular masks, a collision is exactly: the bird and the pipe overlap horizontally,
   * and the rounded bird top lies within reach of the top pipe (above the gap) or of the
   * bottom pipe (below the gap).
   */
  lemma BoxCollide(p: PipeState, b: BirdState, bw: int, bh: int, pw: int, ph: int)
    requires Shaped(p, ph)
    ensures Collide(p, b, Boxes(bw, bh, pw, ph)) <==>
      (p.x - b.x < bw && b.x - p.x < pw) &&
      ((p.height - ph - bh < RoundHalf(b.y) < p.height) ||
       (p.height + Gap - bh < RoundHalf(b.y) < p.height + Gap + ph))
  {
    var ry := RoundHalf(b.y);
    assert p.top - ry < bh <==> p.height - ph - bh < ry;
    assert -(p.top - ry) < ph <==> ry < p.height;
    assert p.bottom - ry < bh <==> p.height + Gap - bh < ry;
    assert -(p.bottom - ry) < ph <==> ry < p.height + Gap + ph;
  }

  /**
   * Gap height 300 with rectangular masks: a bird at height 400 (inside the gap) does not
   * collide, a bird at height 50 (level with the top pipe) does.
   */
  lemma GapScenarios(b: BirdState, bw: Pos, bh: Pos, pw: Pos, ph: Pos)
    requires b.x == SpawnX && bh <= 100 && ph + bh > 250
    ensures !Collide(NewPipe(0, SpawnX, 300, ph), b.(y := 800), Boxes(bw, bh, pw, ph))
    ensures Collide(NewPipe(0, SpawnX, 300, ph), b.(y := 100), Boxes(bw, bh, pw, ph))
  {
    var p := NewPipe(0, SpawnX, 300, ph);
    BoxCollide(p, b.(y := 800), bw, bh, pw, ph);
    BoxCollide(p, b.(y := 100), bw, bh, pw, ph);
  }

  /** A pipe that the pass test `not pipe.passed and pipe.x < bird.x` accepts. */
  predicate Eligible(p: PipeState, birdX: int)
  {
    !p.passed && p.x < birdX
  }

  /** How many pipes are still waiting for their pass event (a termination measure). */
  function Pending(ps: seq<PipeState>, birdX: int): nat
  {
    if ps == [] then 0 else (if Eligible(ps[0], birdX) then 1 else 0) + Pending(ps[1..], birdX)
  }

  lemma {:induction false} PendingAppend(ps: seq<PipeState>, q: PipeState, birdX: int)
    ensures Pending(ps + [q], birdX) == Pending(ps, birdX) + (if Eligible(q, birdX) then 1 else 0)
  {
    if ps != [] {
      assert (ps + [q])[1..] == ps[1..] + [q];
      PendingAppend(ps[1..], q, birdX);
    }
  }

  /** Pipe ids strictly increase along the list (so they are distinct). */
  predicate Increasing(ps: seq<PipeState>)
  {
    forall j, k :: 0 <= j < k < |ps| ==> ps[j].id < ps[k].id
  }

  /** `pipes.remove(r)`: drop the first pipe that is the object r. */
  function RemoveId(ps: seq<PipeState>, id: nat): seq<PipeState>
  {
    if ps == [] then []
    else if ps[0].id == id then ps[1..]
    else [ps[0]] + RemoveId(ps[1..], id)
  }

  /** `for r in rem: pipes.remove(r)`. */
  function Retire(ps: seq<PipeState>, rem: seq<nat>): seq<PipeState>
  {
    if rem == [] then ps else RemoveId(Retire(ps, rem[..|rem| - 1]), rem[|rem| - 1])
  }

  /** The pipes whose id is not in rem, in their original order. */
  function Keep(ps: seq<PipeState>, rem: seq<nat>): seq<PipeState>
  {
    if ps == [] then [] else (if ps[0].id in rem then [] else [ps[0]]) + Keep(ps[1..], rem)
  }

  /** Keep drops exactly the marked pipes. */
  lemma {:induction false} KeepMembers(ps: seq<PipeState>, rem: seq<nat>, q: PipeState)
    ensures q in Keep(ps, rem) <==> q in ps && q.id !in rem
  {
    if ps != [] {
      KeepMembers(ps[1..], rem, q);
      assert q in ps <==> q == ps[0] || q in ps[1..];
    }
  }

  lemma {:induction false} KeepIncreasing(ps: seq<PipeState>, rem: seq<nat>)
    requires Increasing(ps)
    ensures Increasing(Keep(ps, rem))
  {
    if ps != [] {
      KeepIncreasing(ps[1..], rem);
      var tail := Keep(ps[1..], rem);
      forall q | q in tail
        ensures ps[0].id < q.id
      {
        KeepMembers(ps[1..], rem, q);
        var k :| 0 <= k < |ps[1..]| && ps[1..][k] == q;
        assert ps[k + 1] == q;
      }
    }
  }

  lemma {:induction false} KeepAll(ps: seq<PipeState>, rem: seq<nat>)
    requires forall q :: q in ps ==> q.id !in rem
    ensures Keep(ps, rem) == ps
  {
    if ps != [] {
      assert ps[0] in ps;
      KeepAll(ps[1..], rem);
      assert ps == [ps[0]] + ps[1..];
    }
  }

  lemma {:induction false} RemoveIdIsKeep(ps: seq<PipeState>, id: nat)
    requires Increasing(ps)
    ensures RemoveId(ps, id) == Keep(ps, [id])
  {
    if ps != [] {
      if ps[0].id == id {
        forall q | q in ps[1..]
          ensures q.id !in [id]
        {
          var k :| 0 <= k < |ps[1..]| && ps[1..][k] == q;
          assert ps[k + 1] == q;
        }
        KeepAll(ps[1..], [id]);
      } else {
        RemoveIdIsKeep(ps[1..], id);
      }
    }
  }

  lemma {:induction false} KeepKeep(ps: seq<PipeState>, rem: seq<nat>, id: nat)
    ensures Keep(Keep(ps, rem), [id]) == Keep(ps, rem + [id])
  {
    if ps != [] {
      KeepKeep(ps[1..], rem, id);
      var head := if ps[0].id in rem then [] else [ps[0]];
      assert Keep(ps, rem) == head + Keep(ps[1..], rem);
      KeepConcat(head, Keep(ps[1..], rem), [id]);
    }
  }

  lemma {:induction false} KeepConcat(a: seq<PipeState>, b: seq<PipeState>, rem: seq<nat>)
    ensures Keep(a + b, rem) == Keep(a, rem) + Keep(b, rem)
  {
    if a != [] {
      assert (a + b)[1..] == a[1..] + b;
      KeepConcat(a[1..], b, rem);
    } else {
      assert a + b == b;
    }
  }

  /**
   * Retiring by identity is a stable filter: with distinct (increasing) ids, removing the
   * marked pipes one by one leaves exactly the unmarked pipes, in their original order.
   */
  lemma {:induction false} RetireIsKeep(ps: seq<PipeState>, rem: seq<nat>)
    requires Increasing(ps)
    ensures Retire(ps, rem) == Keep(ps, rem)
  {
    if rem != [] {
      var init := rem[..|rem| - 1];
      RetireIsKeep(ps, init);
      KeepIncreasing(ps, init);
      RemoveIdIsKeep(Keep(ps, init), rem[|rem| - 1]);
      KeepKeep(ps, init, rem[|rem| - 1]);
      assert init + [rem[|rem| - 1]] == rem;
    } else {
      KeepAll(ps, rem);
    }
  }

  /**
   * Removing pipes keeps the list well formed: ids still increase, and every pipe left is one
   * created before `spawned`, with its gap geometry.
   */
  lemma RetireWellFormed(ps: seq<PipeState>, rem: seq<nat>, spawned: nat, pipeHeight: int)
    requires Increasing(ps)
    requires forall k :: 0 <= k < |ps| ==> ps[k].id < spawned && Shaped(ps[k], pipeHeight)
    ensures var r := Retire(ps, rem);
      Increasing(r) && forall k :: 0 <= k < |r| ==> r[k].id < spawned && Shaped(r[k], pipeHeight)
  {
    RetireIsKeep(ps, rem);
    KeepIncreasing(ps, rem);
    var kept := Keep(ps, rem);
    forall k | 0 <= k < |kept|
      ensures kept[k].id < spawned && Shaped(kept[k], pipeHeight)
    {
      KeepMembers(ps, rem, kept[k]);
    }
  }

  /**
   * How the pipe list changes while the birds are checked against pipe i: not at all, or
   * (once, for a pipe waiting for its pass) pipe i is marked passed and one new pipe appended.
   */
  predicate Advance(before: seq<PipeState>, after: seq<PipeState>, i: nat, birdX: int)
  {
    after == before ||
    (i < |before| && Eligible(before[i], birdX) && |after| == |before| + 1 &&
     after[..|before|] == before[i := before[i].(passed := true)] &&
     after[|before|].x == SpawnX && !after[|before|].passed)
  }

  lemma AdvanceTwice(a: seq<PipeState>, b: seq<PipeState>, c: seq<PipeState>, i: nat, birdX: int)
    requires Advance(a, b, i, birdX) && Advance(b, c, i, birdX)
    ensures Advance(a, c, i, birdX)
  {
    if b != a {
      assert b[i] == b[..|a|][i];
    }
  }

  /** After pipe i's turn the remaining work (pipes left plus passes pending) shrinks. */
  lemma AdvanceShrinks(before: seq<PipeState>, after: seq<PipeState>, i: nat, birdX: int)
    requires i < |before| && Advance(before, after, i, birdX) && birdX <= SpawnX
    ensures |after| - (i + 1) + Pending(after[i := MovePipe(after[i])][i + 1..], birdX)
          < |before| - i + Pending(before[i..], birdX)
  {
    var moved := after[i := MovePipe(after[i])];
    assert before[i..][1..] == before[i + 1..];
    if after == before {
      assert moved[i + 1..] == before[i + 1..];
    } else {
      assert moved[i + 1..] == before[i + 1..] + [after[|before|]];
      PendingAppend(before[i + 1..], after[|before|], birdX);
    }
  }

  /** How many pipes of the list have been passed. */
  function Passes(ps: seq<PipeState>): nat
  {
    if ps == [] then 0 else Passes(ps[..|ps| - 1]) + (if ps[|ps| - 1].passed then 1 else 0)
  }

  lemma {:induction false} PassesFlags(ps: seq<PipeState>, qs: seq<PipeState>)
    requires |ps| == |qs| && forall k :: 0 <= k < |ps| ==> ps[k].passed == qs[k].passed
    ensures Passes(ps) == Passes(qs)
  {
    if ps != [] {
      PassesFlags(ps[..|ps| - 1], qs[..|qs| - 1]);
    }
  }

  lemma {:induction false} PassesMark(ps: seq<PipeState>, i: nat)
    requires i < |ps| && !ps[i].passed
    ensures Passes(ps[i := ps[i].(passed := true)]) == Passes(ps) + 1
  {
    var n := |ps|;
    var qs := ps[i := ps[i].(passed := true)];
    if i == n - 1 {
      assert qs[..n - 1] == ps[..n - 1];
    } else {
      assert qs[..n - 1] == ps[..n - 1][i := ps[i].(passed := true)];
      PassesMark(ps[..n - 1], i);
    }
  }

  /** A turn of the collision loop passes as many pipes as it appends. */
  lemma PassesAdvance(before: seq<PipeState>, after: seq<PipeState>, i: nat, birdX: int)
    requires Advance(before, after, i, birdX)
    ensures Passes(after) == Passes(before) + (|after| - |before|)
  {
    if after != before {
      PassesMark(before, i);
      assert after[..|after| - 1] == after[..|before|];
    }
  }

  /**
   * How the pipe loop from index i on changes the list ps into rp: the pipes before i are
   * untouched; every pipe from i on, those appended during the loop included, is moved
   * exactly once; a pipe is only marked passed once it is behind the birds; and the appended
   * pipes end the loop unpassed, at 695.
   */
  predicate SweptFrom(ps: seq<PipeState>, rp: seq<PipeState>, i: nat, birdX: int)
  {
    i <= |ps| <= |rp| && rp[..i] == ps[..i] &&
    (forall k :: i <= k < |ps| ==> rp[k].(passed := ps[k].passed) == MovePipe(ps[k])) &&
    (forall k :: i <= k < |ps| ==> (ps[k].passed ==> rp[k].passed) && (rp[k].passed ==> ps[k].passed || ps[k].x < birdX)) &&
    (forall k :: |ps| <= k < |rp| ==> rp[k].x == SpawnX - PipeVel && !rp[k].passed)
  }

  /** One turn of the pipe loop (the birds' turns, then the move) composed with the rest of the loop. */
  lemma SweptStep(ps: seq<PipeState>, s1: seq<PipeState>, rp: seq<PipeState>, i: nat, birdX: int)
    requires i < |ps| && Advance(ps, s1, i, birdX) && birdX <= SpawnX
    requires SweptFrom(s1[i := MovePipe(s1[i])], rp, i + 1, birdX)
    ensures SweptFrom(ps, rp, i, birdX)
  {
    var q2 := s1[i := MovePipe(s1[i])];
    assert rp[..i + 1][..i] == rp[..i];
    assert q2[..i + 1][..i] == q2[..i];
    assert rp[i] == q2[i];
    if s1 != ps {
      forall k | 0 <= k < |ps| && k != i
        ensures q2[k] == ps[k]
      {
        assert s1[k] == s1[..|ps|][k];
      }
      assert s1[i] == s1[..|ps|][i];
      assert q2[..i] == ps[..i];
    } else {
      assert q2[..i] == ps[..i];
    }
  }

  /** A whole pipe loop over pipes created before `spawned` leaves every pipe created since unpassed at 695. */
  lemma SweptNew(ps: seq<PipeState>, rp: seq<PipeState>, spawned: nat, birdX: int)
    requires SweptFrom(ps, rp, 0, birdX) && forall k :: 0 <= k < |ps| ==> ps[k].id < spawned
    ensures forall q :: q in rp && q.id >= spawned ==> q.x == SpawnX - PipeVel && !q.passed
  {
    forall k | 0 <= k < |ps|
      ensures rp[k].id < spawned
    {
      assert rp[k].(passed := ps[k].passed) == MovePipe(ps[k]);
    }
    forall q | q in rp && q.id >= spawned
      ensures q.x == SpawnX - PipeVel && !q.passed
    {
      var k :| 0 <= k < |rp| && rp[k] == q;
    }
  }

  /** The ids of the pipes whose right edge was past 0 before they moved 5 to the left. */
  function Marked(ps: seq<PipeState>, pipeWidth: int): seq<nat>
  {
    if ps == [] then []
    else (if ps[0].x + PipeVel + pipeWidth < 0 then [ps[0].id] else []) + Marked(ps[1..], pipeWidth)
  }

  /** One turn of the pipe loop (the birds' turns, the mark, the move) composed with the rest of the loop. */
  lemma MarksStep(ps: seq<PipeState>, s1: seq<PipeState>, rp: seq<PipeState>, i: nat, w: int,
                  rem0: seq<nat>, remR: seq<nat>, birdX: int)
    requires i < |ps| && Advance(ps, s1, i, birdX)
    requires var q2 := s1[i := MovePipe(s1[i])];
      |rp| >= |q2| && rp[..i + 1] == q2[..i + 1] &&
      remR == rem0 + (if s1[i].x + w < 0 then [s1[i].id] else []) + Marked(rp[i + 1..], w)
    ensures |rp| >= |ps| && rp[..i] == ps[..i] && remR == rem0 + Marked(rp[i..], w)
  {
    var q2 := s1[i := MovePipe(s1[i])];
    assert rp[i] == rp[..i + 1][i] == q2[i];
    assert rp[i..][1..] == rp[i + 1..];
    assert rp[..i] == rp[..i + 1][..i];
    assert q2[..i] == q2[..i + 1][..i];
    if s1 != ps {
      assert s1[..i] == s1[..|ps|][..i];
    }
  }

  lemma {:induction false} MarkedAbove(ps: seq<PipeState>, pipeWidth: int, id: nat)
    requires forall k :: 0 <= k < |ps| ==> ps[k].id > id
    ensures id !in Marked(ps, pipeWidth)
  {
    if ps != [] {
      MarkedAbove(ps[1..], pipeWidth, id);
    }
  }

  /** With distinct ids, a pipe's id is marked exactly when that pipe was off screen. */
  lemma {:induction false} MarkedIds(ps: seq<PipeState>, pipeWidth: int, q: PipeState)
    requires Increasing(ps) && q in ps
    ensures q.id in Marked(ps, pipeWidth) <==> q.x + PipeVel + pipeWidth < 0
  {
    if q == ps[0] {
      MarkedAbove(ps[1..], pipeWidth, q.id);
    } else {
      var k :| 0 <= k < |ps| && ps[k] == q;
      assert ps[1..][k - 1] == q;
      MarkedIds(ps[1..], pipeWidth, q);
    }
  }

  /**
   * Removing the marked pipes keeps exactly the pipes whose right edge had not passed 0 before
   * their move; ids keep increasing, so the survivors keep their order.
   */
  lemma RetireMarked(ps: seq<PipeState>, rem: seq<nat>, pipeWidth: int)
    requires Increasing(ps) && rem == Marked(ps, pipeWidth)
    ensures Increasing(Retire(ps, rem))
    ensures forall q :: q in Retire(ps, rem) <==> q in ps && q.x + PipeVel + pipeWidth >= 0
  {
    RetireIsKeep(ps, rem);
    KeepIncreasing(ps, rem);
    forall q
      ensures q in Keep(ps, rem) <==> q in ps && q.x + PipeVel + pipeWidth >= 0
    {
      KeepMembers(ps, rem, q);
      if q in ps {
        MarkedIds(ps, pipeWidth, q);
      }
    }
  }

  /** A `Pipe` object: the fields `set_height`, `move` and the pass event update in place. */
  class Pipe {
    const id: nat
    var x: int
    var height: int
    var top: int
    var bottom: int
    var passed: bool
    /** `PIPE_TOP.get_height()`. */
    const pipeHeight: int

    function State(): PipeState
      reads this
    {
      PipeState(id, x, height, top, bottom, passed)
    }

    constructor (id: nat, x: int, h: GapHeight, pipeHeight: Pos)
      ensures State() == NewPipe(id, x, h, pipeHeight) && this.pipeHeight == pipeHeight
    {
      this.id := id;
      this.x := x;
      this.height := 0;
      this.top := 0;
      this.bottom := 0;
      this.passed := false;
      this.pipeHeight := pipeHeight;
      new;
      SetHeight(h);
    }

    method SetHeight(h: GapHeight)
      modifies this
      ensures State() == WithHeight(old(State()), h, pipeHeight)
    {
      height := h;
      top := height - pipeHeight;
      bottom := height + Gap;
    }

    method Move()
      modifies this
      ensures State() == MovePipe(old(State()))
    {
      x := x - PipeVel;
    }
  }
}
