/**
 * The player mode's `main` as the program runs it: the loop's variables are fields, the bird
 * and the ground are objects updated in place, and each loop is proved to compute the
 * corresponding function of PlayerRules.
 */
module PlayerLoop {
  import opened Common
  import opened Kinematics
  import opened Pipes
  import opened Ground
  import opened PlayerRules
  import PlayerProps

  class Game {
    const bird: Bird
    const base: Base
    var pipes: seq<PipeState>
    var score: Score
    var toJump: bool
    var run: bool
    /** Pipes created so far (and random heights drawn). */
    var spawned: nat
    const sizes: Sprites
    const dice: Dice

    function State(): Play
      reads this, bird
    {
      Play(bird.State(), pipes, score, toJump, run, spawned)
    }

    /** The set-up of `main`: the bird, the ground, one pipe, a count of 0, `run` and `to_jump` set. */
    constructor (dice: Dice, sizes: Sprites)
      ensures State() == Begin(dice, sizes) && Valid(State(), sizes)
      ensures this.dice == dice && this.sizes == sizes
      ensures fresh(bird) && bird.jumpVel == PlayerJumpVel
      ensures fresh(base) && base.Valid() && base.width == sizes.baseWidth
    {
      bird := new Bird(PlayerX, StartY, PlayerJumpVel);
      base := new Base(BaseY, sizes.baseWidth);
      pipes := [NewPipe(0, SpawnX, dice(0), sizes.pipeHeight)];
      score := Points(0);
      toJump := true;
      run := true;
      spawned := 1;
      this.dice := dice;
      this.sizes := sizes;
      new;
      PlayerProps.BeginValid(dice, sizes);
    }

    /** `for event in pygame.event.get()`, with the events of this pass given. */
    method Poll(events: seq<Event>)
      requires bird.jumpVel == PlayerJumpVel
      modifies this, bird
      ensures State() == Handle(old(State()), events)
    {
      var k := 0;
      while k < |events|
        invariant k <= |events|
        invariant State() == Handle(old(State()), events[..k])
      {
        if events[k] == Quit {
          run := false;
        }
        if toJump {
          bird.Jump();
        }
        assert events[..k + 1][..k] == events[..k];
        k := k + 1;
      }
      assert events[..k] == events;
    }

    /** The body of `for pipe in pipes` for pipe i, up to the `rem` test; true when `score += 1` raised. */
    method CheckPipe(i: nat, overlap: Overlap) returns (raised: bool)
      requires i < |pipes|
      modifies this
      ensures var c := Check(old(State()), i, overlap, dice, sizes);
        raised == c.Raised? && (c.Ok? ==> State() == c.value)
    {
      var pipe := pipes[i];
      if Collide(pipe, bird.State(), overlap) || bird.y + 2 * sizes.birdHeight >= Floor {
        score := Failed;
        toJump := false;
      }
      if !pipe.passed && pipe.x < bird.x && bird.y + 2 * sizes.birdHeight < Floor {
        pipes := pipes[i := pipe.(passed := true)];
        match score {
          case Failed =>
            return true;
          case Points(n) =>
            score := Points(n + 1);
        }
        pipes := pipes + [NewPipe(spawned, SpawnX, dice(spawned), sizes.pipeHeight)];
        spawned := spawned + 1;
      }
      raised := false;
    }

    /**
     * The pipe loop `for pipe in pipes`, which also reaches the pipes appended while it runs.
     * Returns the ids marked in `rem`, or the exception `score += 1` raised.
     */
    method SweepPipes(overlap: Overlap) returns (out: Outcome<seq<nat>>)
      requires bird.x == PlayerX
      modifies this
      ensures var r := PlaySweep(Round(old(State()), []), 0, overlap, dice, sizes);
        out.Ok? == r.Ok? && (r.Ok? ==> State() == r.value.p && out.value == r.value.rem)
    {
      ghost var s0 := Round(State(), []);
      var rem: seq<nat> := [];
      var i := 0;
      while i < |pipes|
        invariant i <= |pipes|
        invariant PlaySweep(Round(State(), rem), i, overlap, dice, sizes) == PlaySweep(s0, 0, overlap, dice, sizes)
        decreases |pipes| - i + Pending(pipes[i..], PlayerX)
      {
        ghost var before := State();
        var raised := CheckPipe(i, overlap);
        if raised {
          assert PlaySweep(Round(before, rem), i, overlap, dice, sizes) == Raised(TypeError);
          return Raised(TypeError);
        }
        AdvanceShrinks(before.pipes, pipes, i, PlayerX);
        if pipes[i].x + sizes.pipeWidth < 0 {
          rem := rem + [pipes[i].id];
        }
        pipes := pipes[i := MovePipe(pipes[i])];
        i := i + 1;
      }
      return Ok(rem);
    }

    /** `for r in rem: pipes.remove(r)`. */
    method RetirePipes(rem: seq<nat>)
      modifies this
      ensures State() == old(State()).(pipes := Retire(old(pipes), rem))
    {
      var k := 0;
      while k < |rem|
        invariant k <= |rem|
        invariant State() == old(State()).(pipes := Retire(old(pipes), rem[..k]))
      {
        assert rem[..k + 1][..k] == rem[..k];
        pipes := RemoveId(pipes, rem[k]);
        k := k + 1;
      }
      assert rem[..k] == rem;
    }

    /** One pass of `while run`: the events, the pipe loop, the removals, then the bird's and the ground's moves. */
    method Tick(events: seq<Event>, overlap: Overlap) returns (r: Outcome<Play>)
      requires bird.x == PlayerX && bird.jumpVel == PlayerJumpVel && base.Valid()
      modifies this, bird, base
      ensures r == PlayerRules.Tick(old(State()), events, overlap, dice, sizes)
      ensures r.Ok? ==> State() == r.value
      ensures base.Valid()
      ensures base.Pair() == if r.Ok? then Scroll(old(base.Pair()), base.width) else old(base.Pair())
    {
      Poll(events);
      var swept := SweepPipes(overlap);
      if swept.Raised? {
        return Raised(TypeError);
      }
      RetirePipes(swept.value);
      bird.Move();
      base.Move();
      r := Ok(State());
    }

    /**
     * `while run` with one batch of events per pass, for at most as many passes as batches;
     * `ticks` counts the passes that completed. The game stays valid, and the ground has
     * scrolled once per completed pass.
     */
    method Run(batches: seq<seq<Event>>, overlap: Overlap) returns (r: Outcome<Play>, ticks: nat)
      requires Valid(State(), sizes) && bird.jumpVel == PlayerJumpVel && base.Valid()
      modifies this, bird, base
      ensures r == Plays(old(State()), batches, overlap, dice, sizes)
      ensures r.Ok? ==> State() == r.value && Valid(State(), sizes)
      ensures base.Valid() && base.Pair() == Slide(old(base.Pair()), base.width, ticks)
    {
      ghost var p0 := State();
      ticks := 0;
      var k := 0;
      while k < |batches| && run
        invariant k <= |batches| && Valid(State(), sizes) && base.Valid()
        invariant base.Pair() == Slide(old(base.Pair()), base.width, ticks)
        invariant Plays(p0, batches, overlap, dice, sizes) == Plays(State(), batches[k..], overlap, dice, sizes)
      {
        PlayerProps.TickValid(State(), batches[k], overlap, dice, sizes);
        assert batches[k..][1..] == batches[k + 1..];
        var t := Tick(batches[k], overlap);
        if t.Raised? {
          return t, ticks;
        }
        ticks := ticks + 1;
        k := k + 1;
      }
      r := Ok(State());
    }
  }
}
