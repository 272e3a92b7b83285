/**
 * The AI mode's `main` as the program runs it: the generation's lists are fields that the
 * loops update step by step, and each loop is proved to compute the corresponding function
 * of AiRules.
 */
module AiLoop {
  import opened Common
  import opened Kinematics
  import opened Pipes
  import opened Ground
  import opened AiRules
  import AiProps

  class Generation {
    var birds: seq<Agent>
    var nets: seq<Net>
    var ge: seq<nat>
    var fitness: seq<int>
    var pipes: seq<PipeState>
    var score: nat
    /** Pipes created so far (and random heights drawn). */
    var spawned: nat
    const base: Base
    const sizes: Sprites
    const dice: Dice

    function State(): Gen
      reads this
    {
      Gen(birds, nets, ge, fitness, pipes, score, spawned)
    }

    /** The set-up of `main` for n genomes: one network, bird and fitness 0 per genome, one pipe, the ground. */
    constructor (n: nat, dice: Dice, sizes: Sprites)
      ensures State() == Start(n, dice, sizes) && Valid(State(), sizes)
      ensures this.dice == dice && this.sizes == sizes
      ensures fresh(base) && base.Valid() && base.width == sizes.baseWidth
    {
      var bs: seq<Agent> := [];
      var ns: seq<Net> := [];
      var gs: seq<nat> := [];
      var fs: seq<int> := [];
      var k := 0;
      while k < n
        invariant k <= n
        invariant bs == seq(k, j requires 0 <= j => Agent(j, Spawn(BirdX, StartY)))
        invariant ns == seq(k, j requires 0 <= j => Net(j))
        invariant gs == seq(k, j requires 0 <= j => j)
        invariant fs == seq(k, j => 0)
      {
        ns := ns + [Net(k)];
        bs := bs + [Agent(k, Spawn(BirdX, StartY))];
        fs := fs + [0];
        gs := gs + [k];
        k := k + 1;
      }
      birds, nets, ge, fitness := bs, ns, gs, fs;
      this.dice := dice;
      this.sizes := sizes;
      base := new Base(BaseY, sizes.baseWidth);
      pipes := [NewPipe(0, SpawnX, dice(0), sizes.pipeHeight)];
      score := 0;
      spawned := 1;
      AiProps.StartValid(n, dice, sizes);
    }

    /** The move loop: move each bird, credit its genome, and let its network decide on a jump. */
    method MoveBirds(target: PipeState, policy: Policy)
      requires Valid(State(), sizes)
      modifies this
      ensures State() == Flap(old(State()), target, policy)
    {
      ghost var g0 := State();
      var x := 0;
      while x < |birds|
        invariant 0 <= x <= |birds| == |g0.birds|
        invariant nets == g0.nets && ge == g0.ge && pipes == g0.pipes && score == g0.score && spawned == g0.spawned
        invariant forall k :: 0 <= k < x ==> birds[k] == Think(g0.birds[k], g0.nets[k], target, policy)
        invariant forall k :: x <= k < |birds| ==> birds[k] == g0.birds[k]
        invariant |fitness| == |g0.fitness|
        invariant forall j :: 0 <= j < |fitness| ==> fitness[j] == g0.fitness[j] + (if j in ge[..x] then TickReward else 0)
      {
        assert ge[x] !in ge[..x];
        AiProps.CreditNext(g0.fitness, fitness, ge, x);
        FlapBird(x, target, policy);
        x := x + 1;
      }
      assert ge[..x] == ge;
      ghost var r := Flap(g0, target, policy);
      assert birds == r.birds && fitness == r.fitness;
    }

    /** One turn of the move loop: bird x moves, its genome gains 0.1, and its network may make it jump. */
    method FlapBird(x: nat, target: PipeState, policy: Policy)
      requires Shape(State()) && x < |birds|
      modifies this
      ensures birds == old(birds)[x := Think(old(birds[x]), old(nets[x]), target, policy)]
      ensures fitness == old(fitness)[old(ge[x]) := old(fitness[ge[x]]) + TickReward]
      ensures nets == old(nets) && ge == old(ge) && pipes == old(pipes) && score == old(score) && spawned == old(spawned)
    {
      var a := birds[x];
      birds := birds[x := Agent(a.tag, MoveBird(a.body))];
      fitness := fitness[ge[x] := fitness[ge[x]] + TickReward];
      if policy(nets[x], Observe(birds[x].body, target)) {
        birds := birds[x := Agent(a.tag, JumpBird(birds[x].body, AiJumpVel))];
      }
    }

    /**
     * One turn of the collision loop: bird x against pipe i. `raised` says that `ge[x]` was out of
     * range; otherwise `tag` is the bird the loop variable names.
     */
    method VisitBird(i: nat, x: nat, overlap: Overlap, ghost rem: seq<nat>, ghost last: nat) returns (raised: bool, tag: nat)
      requires Shape(State()) && i < |pipes| && x < |birds|
      modifies this
      ensures var v := Visit(Sweep(old(State()), rem, last), i, x, overlap, dice, sizes);
        raised == v.Raised? && (!raised ==> v == Ok(Sweep(State(), rem, tag)))
    {
      ghost var g0 := State();
      var a := HitBird(i, x, overlap);
      tag := a.tag;
      ghost var g1 := State();
      ghost var v := Visit(Sweep(g0, rem, last), i, x, overlap, dice, sizes);
      assert v == if Eligible(g1.pipes[i], a.body.x) then
          (if x < |g1.ge| then Ok(Sweep(Pass(g1, i, x, dice, sizes), rem, a.tag)) else Raised(IndexError))
        else Ok(Sweep(g1, rem, a.tag));
      if !pipes[i].passed && pipes[i].x < a.body.x {
        raised := PassBird(i, x);
      } else {
        raised := false;
      }
    }

    /** The collision test of bird x against pipe i: a hit costs its genome 1 and pops the bird. */
    method HitBird(i: nat, x: nat, overlap: Overlap) returns (a: Agent)
      requires Shape(State()) && i < |pipes| && x < |birds|
      modifies this
      ensures a == old(birds[x])
      ensures State() == if Collide(old(pipes[i]), a.body, overlap) then Pop(Credit(old(State()), x, -CrashPenalty), x)
                         else old(State())
    {
      ghost var g0 := State();
      a := birds[x];
      if Collide(pipes[i], a.body, overlap) {
        fitness := fitness[ge[x] := fitness[ge[x]] - CrashPenalty];
        birds := birds[..x] + birds[x + 1..];
        nets := nets[..x] + nets[x + 1..];
        ge := ge[..x] + ge[x + 1..];
        assert State() == Pop(Credit(g0, x, -CrashPenalty), x);
      }
    }

    /** The pass event with `ge[x]`: true when x is out of range, after the pipe was marked and the score counted. */
    method PassBird(i: nat, x: nat) returns (raised: bool)
      requires Shape(State()) && i < |pipes|
      modifies this
      ensures raised == (x >= |old(ge)|)
      ensures !raised ==> State() == Pass(old(State()), i, x, dice, sizes)
    {
      pipes := pipes[i := pipes[i].(passed := true)];
      score := score + 1;
      if x >= |ge| {
        return true;
      }
      fitness := fitness[ge[x] := fitness[ge[x]] + PassBonus];
      pipes := pipes + [NewPipe(spawned, SpawnX, dice(spawned), sizes.pipeHeight)];
      spawned := spawned + 1;
      raised := false;
    }

    /** The collision loop `for x, bird in enumerate(birds)` against pipe i, popping in place. */
    method SweepBirds(i: nat, overlap: Overlap, ghost rem: seq<nat>, last0: nat) returns (raised: bool, last: nat)
      requires Shape(State()) && i < |pipes|
      modifies this
      ensures var r := BirdSweep(Sweep(old(State()), rem, last0), i, 0, overlap, dice, sizes);
        raised == r.Raised? && (!raised ==> r == Ok(Sweep(State(), rem, last)))
    {
      last := last0;
      var x := 0;
      while x < |birds|
        invariant Shape(State()) && i < |pipes|
        invariant BirdSweep(Sweep(State(), rem, last), i, x, overlap, dice, sizes) ==
                  BirdSweep(Sweep(old(State()), rem, last0), i, 0, overlap, dice, sizes)
        decreases |birds| - x
      {
        raised, last := VisitBird(i, x, overlap, rem, last);
        if raised {
          return;
        }
        x := x + 1;
      }
      raised := false;
    }

    /**
     * The pipe loop `for pipe in pipes`, which also reaches the pipes appended while it runs.
     * Returns the ids marked in `rem` and the tag of the bird the loop variable `bird` names at
     * the end, or the exception `ge[x]` raises.
     */
    method SweepPipes(last0: nat, overlap: Overlap) returns (out: Outcome<(seq<nat>, nat)>)
      requires Shape(State())
      modifies this
      ensures var r := PipeSweep(Sweep(old(State()), [], last0), 0, overlap, dice, sizes);
        out.Ok? == r.Ok? && (r.Ok? ==> State() == r.value.g && out.value == (r.value.rem, r.value.last))
    {
      ghost var s0 := Sweep(State(), [], last0);
      var rem: seq<nat> := [];
      var last := last0;
      var i := 0;
      while i < |pipes|
        invariant Shape(State()) && i <= |pipes|
        invariant PipeSweep(Sweep(State(), rem, last), i, overlap, dice, sizes) == PipeSweep(s0, 0, overlap, dice, sizes)
        decreases |pipes| - i + Pending(pipes[i..], BirdX)
      {
        ghost var before := Sweep(State(), rem, last);
        var raised;
        raised, last := SweepBirds(i, overlap, rem, last);
        if raised {
          return Raised(IndexError);
        }
        AdvanceShrinks(before.g.pipes, pipes, i, BirdX);
        if pipes[i].x + sizes.pipeWidth < 0 {
          rem := rem + [pipes[i].id];
        }
        pipes := pipes[i := MovePipe(pipes[i])];
        i := i + 1;
      }
      return Ok((rem, last));
    }

    /** `for r in rem: pipes.remove(r)`. */
    method RetirePipes(rem: seq<nat>)
      modifies this
      ensures State() == old(State()).(pipes := Retire(old(pipes), rem))
    {
      var k := 0;
      while k < |rem|
        invariant k <= |rem|
        invariant State() == old(State()).(pipes := Retire(old(pipes), rem[..k]))
      {
        assert rem[..k + 1][..k] == rem[..k];
        pipes := RemoveId(pipes, rem[k]);
        k := k + 1;
      }
      assert rem[..k] == rem;
    }

    /** The out-of-bounds loop; returns the tag of the bird the loop variable names at the end. */
    method CullBirds(last0: nat) returns (last: nat)
      requires Shape(State())
      modifies this
      ensures (State(), last) == Cull(old(State()), 0, last0, sizes)
    {
      last := last0;
      var x := 0;
      while x < |birds|
        invariant Shape(State())
        invariant Cull(State(), x, last, sizes) == Cull(old(State()), 0, last0, sizes)
        decreases |birds| - x
      {
        var a := birds[x];
        if a.body.y + 2 * sizes.birdHeight >= Floor || a.body.y < 0 {
          birds := birds[..x] + birds[x + 1..];
          nets := nets[..x] + nets[x + 1..];
          ge := ge[..x] + ge[x + 1..];
        }
        last := a.tag;
        x := x + 1;
      }
    }

    /** The stray `bird.move()`: it moves the bird named by the loop variable, if it is still in the list. */
    method MoveStray(tag: nat)
      requires Shape(State())
      modifies this
      ensures State() == Nudge(old(State()), tag)
    {
      var k := FindTag(birds, tag);
      if k >= 0 {
        birds := birds[k := Agent(tag, MoveBird(birds[k].body))];
      }
    }

    /** One pass of `while run`, including the ground's move. */
    method Tick(policy: Policy, overlap: Overlap) returns (step: Step)
      requires Valid(State(), sizes) && base.Valid()
      modifies this, base
      ensures step == AiRules.Tick(old(State()), sizes, policy, overlap, dice)
      ensures step.Continued? ==> State() == step.next
      ensures base.Valid()
      ensures base.Pair() == if step.Continued? then Scroll(old(base.Pair()), base.width) else old(base.Pair())
    {
      if |birds| == 0 {
        return Stopped;
      }
      ghost var g0 := State();
      var swept := Loops(policy, overlap);
      if swept.Raised? {
        return Crashed(IndexError);
      }
      ghost var s := Swept(g0, sizes, policy, overlap, dice).value;
      TickContinues(g0, sizes, policy, overlap, dice, s);
      Finish(swept.value.0, swept.value.1);
      step := Continued(State());
    }

    /**
     * The move loop, looking at `pipes[pipe_ind]`, then the pipe loop. Returns the ids marked in
     * `rem` and the tag the loop variable `bird` names at the end, or the exception raised.
     */
    method Loops(policy: Policy, overlap: Overlap) returns (out: Outcome<(seq<nat>, nat)>)
      requires Valid(State(), sizes) && |birds| > 0
      modifies this
      ensures var sw := Swept(old(State()), sizes, policy, overlap, dice);
        out.Ok? == sw.Ok? && (sw.Ok? ==> State() == sw.value.g && out.value == (sw.value.rem, sw.value.last))
    {
      ghost var g0 := State();
      if |pipes| == 0 {
        // `pipes[pipe_ind]` in the move loop
        return Raised(IndexError);
      }
      var pipeInd := 0;
      if |pipes| > 1 && birds[0].body.x > pipes[0].x + sizes.pipeWidth {
        pipeInd := 1;
      }
      assert pipeInd == PipeIndex(g0, sizes);
      var target := pipes[pipeInd];
      MoveBirds(target, policy);
      ghost var g1 := State();
      assert g1 == Flap(g0, g0.pipes[PipeIndex(g0, sizes)], policy);
      var last := birds[|birds| - 1].tag;
      assert last == g1.birds[|g1.birds| - 1].tag;
      ghost var r := PipeSweep(Sweep(g1, [], last), 0, overlap, dice, sizes);
      assert Swept(g0, sizes, policy, overlap, dice) == r;
      out := SweepPipes(last, overlap);
    }

    /** The end of a pass: the removals of `rem`, the out-of-bounds loop, the stray move and the ground's move. */
    method Finish(rem: seq<nat>, last0: nat)
      requires Shape(State()) && base.Valid()
      modifies this, base
      ensures var c := Cull(old(State()).(pipes := Retire(old(pipes), rem)), 0, last0, sizes);
        State() == Nudge(c.0, c.1)
      ensures base.Valid() && base.Pair() == Scroll(old(base.Pair()), base.width)
    {
      RetirePipes(rem);
      var last := CullBirds(last0);
      MoveStray(last);
      base.Move();
    }

    /**
     * `while run` for at most budget passes; `ticks` counts the passes that completed. The
     * generation stays valid, and the ground has scrolled once per completed pass.
     */
    method Run(policy: Policy, overlap: Overlap, budget: nat) returns (step: Step, ticks: nat)
      requires Valid(State(), sizes) && base.Valid()
      modifies this, base
      ensures step == Ticks(old(State()), budget, sizes, policy, overlap, dice)
      ensures step.Continued? ==> State() == step.next && Valid(State(), sizes)
      ensures base.Valid() && base.Pair() == Slide(old(base.Pair()), base.width, ticks)
    {
      ghost var g0 := State();
      step := Continued(State());
      ticks := 0;
      var left := budget;
      while left > 0
        invariant base.Valid() && base.Pair() == Slide(old(base.Pair()), base.width, ticks)
        invariant step == Continued(State()) && Valid(State(), sizes)
        invariant Ticks(g0, budget, sizes, policy, overlap, dice) == Ticks(State(), left, sizes, policy, overlap, dice)
      {
        var rest := left - 1;
        var t := Turn(policy, overlap, left, rest);
        if !t.Continued? {
          return t, ticks;
        }
        step := t;
        ticks := ticks + 1;
        left := rest;
      }
    }

    /** One pass of the run, when `left` passes are still allowed: the `rest` that remain afterwards. */
    method Turn(policy: Policy, overlap: Overlap, ghost left: nat, ghost rest: nat) returns (t: Step)
      requires Valid(State(), sizes) && base.Valid() && left == rest + 1
      modifies this, base
      ensures t.Continued? ==> (State() == t.next && Valid(State(), sizes) &&
        Ticks(old(State()), left, sizes, policy, overlap, dice) == Ticks(State(), rest, sizes, policy, overlap, dice))
      ensures !t.Continued? ==> t == Ticks(old(State()), left, sizes, policy, overlap, dice)
      ensures base.Valid()
      ensures base.Pair() == if t.Continued? then Scroll(old(base.Pair()), base.width) else old(base.Pair())
    {
      ghost var g := State();
      AiProps.TickValid(g, sizes, policy, overlap, dice);
      t := Tick(policy, overlap);
      RepeatStep(g, left, rest, Stepper(sizes, policy, overlap, dice));
    }
  }
}
