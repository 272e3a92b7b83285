/**
 * What the player loop keeps and changes: the event loop's jump and quit handling, the
 * failure latch, the score, the TypeError a point on the failure marker raises, and pipe
 * retirement.
 */
module PlayerProps {
  import opened Common
  import opened Kinematics
  import opened Pipes
  import opened PlayerRules

  /** `main` starts with a count of 0, `to_jump` and `run` set, and one fresh pipe. */
  lemma BeginValid(dice: Dice, sizes: Sprites)
    ensures var p := Begin(dice, sizes);
      Valid(p, sizes) && p.score == Points(0) && p.toJump && p.run && p.bird == Spawn(PlayerX, StartY)
  {
  }

  /**
   * The event loop: `run` ends up cleared exactly when a QUIT event came; however many events
   * came, the bird is left as after a single jump if there was one and `to_jump` holds, and
   * untouched otherwise.
   */
  lemma {:induction false} HandleEvents(p: Play, events: seq<Event>)
    ensures var r := Handle(p, events);
      (r.run <==> p.run && Quit !in events) &&
      r.bird == if p.toJump && events != [] then JumpBird(p.bird, PlayerJumpVel) else p.bird
  {
    if events != [] {
      var init, e := events[..|events| - 1], events[|events| - 1];
      HandleEvents(p, init);
      assert events == init + [e];
      assert Quit in events <==> Quit in init || e == Quit;
      var h := Handle(p, init);
      assert Handle(p, events) == Poll(h, e);
      if p.toJump {
        assert JumpBird(h.bird, PlayerJumpVel) == JumpBird(p.bird, PlayerJumpVel);
      }
    }
  }

  lemma CheckValid(p: Play, i: nat, overlap: Overlap, dice: Dice, sizes: Sprites)
    requires Valid(p, sizes) && i < |p.pipes|
    ensures var r := Check(p, i, overlap, dice, sizes); r.Ok? ==> Valid(r.value, sizes)
  {
    var r := Check(p, i, overlap, dice, sizes);
    if r.Ok? && |r.value.pipes| != |p.pipes| {
      var ps := r.value.pipes;
      assert ps[..|p.pipes|] == p.pipes[i := p.pipes[i].(passed := true)];
      forall k | 0 <= k < |p.pipes|
        ensures ps[k].id == p.pipes[k].id && Shaped(ps[k], sizes.pipeHeight)
      {
        assert ps[k] == ps[..|p.pipes|][k];
      }
    }
  }

  lemma MarkValid(p: Play, rem: seq<nat>, i: nat, sizes: Sprites)
    requires Valid(p, sizes) && i < |p.pipes|
    ensures Valid(Mark(p, rem, i, sizes).p, sizes)
  {
    var ps := Mark(p, rem, i, sizes).p.pipes;
    assert forall k :: 0 <= k < |ps| ==> ps[k].id == p.pipes[k].id;
  }

  lemma {:induction false} PlaySweepValid(s: Round, i: nat, overlap: Overlap, dice: Dice, sizes: Sprites)
    requires Valid(s.p, sizes) && i <= |s.p.pipes|
    ensures var r := PlaySweep(s, i, overlap, dice, sizes); r.Ok? ==> Valid(r.value.p, sizes)
    decreases |s.p.pipes| - i + Pending(s.p.pipes[i..], PlayerX)
  {
    if i < |s.p.pipes| {
      CheckValid(s.p, i, overlap, dice, sizes);
      var c := Check(s.p, i, overlap, dice, sizes);
      if c.Ok? {
        AdvanceShrinks(s.p.pipes, c.value.pipes, i, PlayerX);
        MarkValid(c.value, s.rem, i, sizes);
        PlaySweepValid(Mark(c.value, s.rem, i, sizes), i + 1, overlap, dice, sizes);
      }
    }
  }

  /** A pass that goes on leaves a valid game. */
  lemma TickValid(p: Play, events: seq<Event>, overlap: Overlap, dice: Dice, sizes: Sprites)
    requires Valid(p, sizes)
    ensures var r := Tick(p, events, overlap, dice, sizes); r.Ok? ==> Valid(r.value, sizes)
  {
    var h := Handle(p, events);
    PlaySweepValid(Round(h, []), 0, overlap, dice, sizes);
    var sw := PlaySweep(Round(h, []), 0, overlap, dice, sizes);
    if sw.Ok? {
      RetireWellFormed(sw.value.p.pipes, sw.value.rem, sw.value.p.spawned, sizes.pipeHeight);
    }
  }

  /** The pipe loop from index i on changes the pipe list as SweptFrom says. */
  lemma {:induction false} PlaySweepMoves(s: Round, i: nat, overlap: Overlap, dice: Dice, sizes: Sprites)
    requires s.p.bird.x == PlayerX && i <= |s.p.pipes|
    ensures var r := PlaySweep(s, i, overlap, dice, sizes);
      r.Ok? ==> SweptFrom(s.p.pipes, r.value.p.pipes, i, PlayerX)
    decreases |s.p.pipes| - i + Pending(s.p.pipes[i..], PlayerX)
  {
    var ps := s.p.pipes;
    if i < |ps| {
      var c := Check(s.p, i, overlap, dice, sizes);
      if c.Ok? {
        var s2 := Mark(c.value, s.rem, i, sizes);
        AdvanceShrinks(ps, c.value.pipes, i, PlayerX);
        PlaySweepMoves(s2, i + 1, overlap, dice, sizes);
        var r := PlaySweep(s2, i + 1, overlap, dice, sizes);
        if r.Ok? {
          SweptStep(ps, c.value.pipes, r.value.p.pipes, i, PlayerX);
        }
      }
    } else {
      assert ps[..i] == ps;
    }
  }

  /**
   * Each point of the pipe loop marks one pipe passed and appends one pipe; while the score
   * stays a count, it grows by exactly that number. A count at the end means a count at the start.
   */
  lemma {:induction false} PlaySweepCounts(s: Round, i: nat, overlap: Overlap, dice: Dice, sizes: Sprites)
    requires s.p.bird.x == PlayerX && i <= |s.p.pipes|
    ensures var r := PlaySweep(s, i, overlap, dice, sizes);
      r.Ok? ==>
        r.value.p.spawned - s.p.spawned == |r.value.p.pipes| - |s.p.pipes| ==
          Passes(r.value.p.pipes) - Passes(s.p.pipes) &&
        (r.value.p.score.Points? ==>
           s.p.score.Points? && r.value.p.score.n - s.p.score.n == |r.value.p.pipes| - |s.p.pipes|)
    decreases |s.p.pipes| - i + Pending(s.p.pipes[i..], PlayerX)
  {
    var ps := s.p.pipes;
    if i < |ps| {
      var c := Check(s.p, i, overlap, dice, sizes);
      if c.Ok? {
        var s2 := Mark(c.value, s.rem, i, sizes);
        AdvanceShrinks(ps, c.value.pipes, i, PlayerX);
        PlaySweepCounts(s2, i + 1, overlap, dice, sizes);
        PassesAdvance(ps, c.value.pipes, i, PlayerX);
        PassesFlags(c.value.pipes, s2.p.pipes);
      }
    }
  }

  /** The pipe loop from index i on marks in `rem` exactly the pipes it found off screen, in order. */
  lemma {:induction false} PlaySweepMarks(s: Round, i: nat, overlap: Overlap, dice: Dice, sizes: Sprites)
    requires s.p.bird.x == PlayerX && i <= |s.p.pipes|
    ensures var r := PlaySweep(s, i, overlap, dice, sizes);
      r.Ok? ==> |r.value.p.pipes| >= |s.p.pipes| && r.value.p.pipes[..i] == s.p.pipes[..i] &&
                r.value.rem == s.rem + Marked(r.value.p.pipes[i..], sizes.pipeWidth)
    decreases |s.p.pipes| - i + Pending(s.p.pipes[i..], PlayerX)
  {
    var ps := s.p.pipes;
    if i < |ps| {
      var c := Check(s.p, i, overlap, dice, sizes);
      if c.Ok? {
        var s2 := Mark(c.value, s.rem, i, sizes);
        AdvanceShrinks(ps, c.value.pipes, i, PlayerX);
        PlaySweepMarks(s2, i + 1, overlap, dice, sizes);
        var r := PlaySweep(s2, i + 1, overlap, dice, sizes);
        if r.Ok? {
          MarksStep(ps, c.value.pipes, r.value.p.pipes, i, sizes.pipeWidth, s.rem, r.value.rem, PlayerX);
        }
      }
    } else {
      assert PlaySweep(s, i, overlap, dice, sizes) == Ok(s);
      assert ps[i..] == [];
    }
  }

  /**
   * Whether the bird hits one of these pipes where the pipe loop checked it, given the pipes
   * as the loop left them (each moved once since its check).
   */
  predicate Hits(ps: seq<PipeState>, b: BirdState, overlap: Overlap)
  {
    ps != [] && (Collide(ps[0].(x := ps[0].x + PipeVel), b, overlap) || Hits(ps[1..], b, overlap))
  }

  /**
   * The failure latch over the pipe loop from index i on: the score ends as the failure marker
   * exactly when it already was, or the loop checked a pipe while the bird was on the ground,
   * or the bird hit one of the pipes checked; `to_jump` ends set exactly when it was set and
   * none of that happened.
   */
  lemma {:induction false} PlaySweepLatch(s: Round, i: nat, overlap: Overlap, dice: Dice, sizes: Sprites)
    requires s.p.bird.x == PlayerX && i <= |s.p.pipes|
    ensures var r := PlaySweep(s, i, overlap, dice, sizes);
      r.Ok? ==> (|r.value.p.pipes| >= i &&
        var hit := (i < |s.p.pipes| && Grounded(s.p.bird, sizes)) || Hits(r.value.p.pipes[i..], s.p.bird, overlap);
        (r.value.p.score.Failed? <==> s.p.score.Failed? || hit) &&
        (r.value.p.toJump <==> s.p.toJump && !hit))
    decreases |s.p.pipes| - i + Pending(s.p.pipes[i..], PlayerX)
  {
    var ps := s.p.pipes;
    PlaySweepMoves(s, i, overlap, dice, sizes);
    if i < |ps| {
      var c := Check(s.p, i, overlap, dice, sizes);
      if c.Ok? {
        var s2 := Mark(c.value, s.rem, i, sizes);
        AdvanceShrinks(ps, c.value.pipes, i, PlayerX);
        PlaySweepLatch(s2, i + 1, overlap, dice, sizes);
        var r := PlaySweep(s2, i + 1, overlap, dice, sizes);
        assert PlaySweep(s, i, overlap, dice, sizes) == r;
        if r.Ok? {
          assert r.value.p.pipes[i].(passed := ps[i].passed) == MovePipe(ps[i]);
          HitsStep(r.value.p.pipes, i, ps[i], s.p.bird, overlap);
          assert s2.p.score.Failed? <==> s.p.score.Failed? || Collide(ps[i], s.p.bird, overlap) || Grounded(s.p.bird, sizes);
        }
      }
    } else {
      assert PlaySweep(s, i, overlap, dice, sizes) == Ok(s);
      assert s.p.pipes[i..] == [];
    }
  }

  /** A pipe the loop moved after checking it is found by Hits exactly when its check collided. */
  lemma HitsStep(rp: seq<PipeState>, i: nat, q: PipeState, b: BirdState, overlap: Overlap)
    requires i < |rp| && rp[i].(passed := q.passed) == MovePipe(q)
    ensures Hits(rp[i..], b, overlap) == (Collide(q, b, overlap) || Hits(rp[i + 1..], b, overlap))
  {
    assert rp[i..][0] == rp[i] && rp[i..][1..] == rp[i + 1..];
    assert rp[i].(x := rp[i].x + PipeVel).(passed := q.passed) == q;
  }

  /** On the ground there is no pass event: the pipe loop cannot raise and appends nothing. */
  lemma {:induction false} PlaySweepGrounded(s: Round, i: nat, overlap: Overlap, dice: Dice, sizes: Sprites)
    requires s.p.bird.x == PlayerX && i <= |s.p.pipes| && Grounded(s.p.bird, sizes)
    ensures var r := PlaySweep(s, i, overlap, dice, sizes);
      r.Ok? && |r.value.p.pipes| == |s.p.pipes| && r.value.p.spawned == s.p.spawned
    decreases |s.p.pipes| - i + Pending(s.p.pipes[i..], PlayerX)
  {
    if i < |s.p.pipes| {
      var c := Check(s.p, i, overlap, dice, sizes);
      AdvanceShrinks(s.p.pipes, c.value.pipes, i, PlayerX);
      PlaySweepGrounded(Mark(c.value, s.rem, i, sizes), i + 1, overlap, dice, sizes);
    }
  }

  /**
   * The events of a pass: `run` is cleared exactly when a QUIT came, and the bird makes its
   * move from where a single jump left it if any event came while `to_jump` held.
   */
  lemma TickEvents(p: Play, events: seq<Event>, overlap: Overlap, dice: Dice, sizes: Sprites)
    requires p.bird.x == PlayerX
    ensures var r := Tick(p, events, overlap, dice, sizes);
      r.Ok? ==> (r.value.run <==> p.run && Quit !in events) &&
                r.value.bird == MoveBird(if p.toJump && events != [] then JumpBird(p.bird, PlayerJumpVel) else p.bird)
  {
    HandleEvents(p, events);
  }

  /**
   * The failure latch over a pass: the score becomes (or stays) the failure marker exactly when
   * it already was, or the bird was on the ground while a pipe was checked, or it hit a pipe;
   * `to_jump` is never set again, and once it is clear no event moves the bird.
   */
  lemma TickLatch(p: Play, events: seq<Event>, overlap: Overlap, dice: Dice, sizes: Sprites)
    requires p.bird.x == PlayerX
    ensures var r := Tick(p, events, overlap, dice, sizes);
      var h := Handle(p, events);
      var sw := PlaySweep(Round(h, []), 0, overlap, dice, sizes);
      r.Ok? ==> (sw.Ok? &&
        var hit := (|p.pipes| > 0 && Grounded(h.bird, sizes)) || Hits(sw.value.p.pipes, h.bird, overlap);
        (r.value.score.Failed? <==> p.score.Failed? || hit) &&
        (r.value.toJump <==> p.toJump && !hit) &&
        (!p.toJump ==> r.value.bird == MoveBird(p.bird)))
  {
    var h := Handle(p, events);
    HandleEvents(p, events);
    PlaySweepLatch(Round(h, []), 0, overlap, dice, sizes);
    var sw := PlaySweep(Round(h, []), 0, overlap, dice, sizes);
    if sw.Ok? {
      assert sw.value.p.pipes[0..] == sw.value.p.pipes;
    }
  }

  /**
   * The score never decreases: if it is still a count after a pass, it was one before and
   * grew by one per pipe the pass marked passed, which is also the number of pipes it appended.
   */
  lemma TickScore(p: Play, events: seq<Event>, overlap: Overlap, dice: Dice, sizes: Sprites)
    requires p.bird.x == PlayerX
    ensures var r := Tick(p, events, overlap, dice, sizes);
      var sw := PlaySweep(Round(Handle(p, events), []), 0, overlap, dice, sizes);
      r.Ok? && r.value.score.Points? ==>
        (sw.Ok? && p.score.Points? && r.value.score.n >= p.score.n &&
         r.value.score.n - p.score.n == |sw.value.p.pipes| - |p.pipes| == Passes(sw.value.p.pipes) - Passes(p.pipes))
  {
    var h := Handle(p, events);
    PlaySweepCounts(Round(h, []), 0, overlap, dice, sizes);
    PlaySweepMarks(Round(h, []), 0, overlap, dice, sizes);
  }

  /**
   * Once the score is the failure marker, a pass event raises: with the first pipe behind the
   * bird and not yet passed, and the bird above the ground, the pass raises TypeError.
   */
  lemma FailedPassRaises(p: Play, events: seq<Event>, overlap: Overlap, dice: Dice, sizes: Sprites)
    requires Valid(p, sizes) && p.score == Failed
    requires |p.pipes| > 0 && Eligible(p.pipes[0], PlayerX) && !Grounded(p.bird, sizes)
    ensures Tick(p, events, overlap, dice, sizes) == Raised(TypeError)
  {
    HandleEvents(p, events);
  }

  /**
   * Touching a pipe in the very check that passes it also raises: the hit writes the failure
   * marker, and the pass event that follows adds 1 to it.
   */
  lemma HitPassRaises(p: Play, events: seq<Event>, overlap: Overlap, dice: Dice, sizes: Sprites)
    requires p.bird.x == PlayerX && |p.pipes| > 0 && Eligible(p.pipes[0], PlayerX)
    requires var b := Handle(p, events).bird; !Grounded(b, sizes) && Collide(p.pipes[0], b, overlap)
    ensures Tick(p, events, overlap, dice, sizes) == Raised(TypeError)
  {
  }

  /**
   * A pass whose bird is on the ground cannot raise and creates no pipe; if there is a pipe to
   * check, the score ends as the failure marker with `to_jump` clear.
   */
  lemma TickGrounded(p: Play, events: seq<Event>, overlap: Overlap, dice: Dice, sizes: Sprites)
    requires p.bird.x == PlayerX && Grounded(Handle(p, events).bird, sizes)
    ensures var r := Tick(p, events, overlap, dice, sizes);
      r.Ok? && r.value.spawned == p.spawned &&
      (|p.pipes| > 0 ==> r.value.score == Failed && !r.value.toJump)
  {
    var h := Handle(p, events);
    PlaySweepGrounded(Round(h, []), 0, overlap, dice, sizes);
    TickLatch(p, events, overlap, dice, sizes);
  }

  /**
   * After a pass, the pipes are exactly those the pipe loop left whose right edge had not
   * passed 0 before their move; ids keep increasing, so the survivors keep their order.
   */
  lemma TickPipes(p: Play, events: seq<Event>, overlap: Overlap, dice: Dice, sizes: Sprites)
    requires Valid(p, sizes)
    ensures var r := Tick(p, events, overlap, dice, sizes);
      var sw := PlaySweep(Round(Handle(p, events), []), 0, overlap, dice, sizes);
      r.Ok? ==>
        (sw.Ok? && Increasing(r.value.pipes) &&
         forall q :: q in r.value.pipes <==> q in sw.value.p.pipes && q.x + PipeVel + sizes.pipeWidth >= 0)
  {
    var h := Handle(p, events);
    var sw := PlaySweep(Round(h, []), 0, overlap, dice, sizes);
    if sw.Ok? {
      PlaySweepValid(Round(h, []), 0, overlap, dice, sizes);
      PlaySweepMarks(Round(h, []), 0, overlap, dice, sizes);
      var s := sw.value;
      assert s.rem == Marked(s.p.pipes, sizes.pipeWidth) by {
        assert s.p.pipes[0..] == s.p.pipes;
      }
      RetireMarked(s.p.pipes, s.rem, sizes.pipeWidth);
    }
  }

  /**
   * Pipes appended during the pipe loop are visited and moved in the same pass: each pipe
   * created by the pass ends it at 695, not yet passed.
   */
  lemma TickNewPipes(p: Play, events: seq<Event>, overlap: Overlap, dice: Dice, sizes: Sprites)
    requires Valid(p, sizes)
    ensures var r := Tick(p, events, overlap, dice, sizes);
      r.Ok? ==> forall q :: q in r.value.pipes && q.id >= p.spawned ==> q.x == SpawnX - PipeVel && !q.passed
  {
    var r := Tick(p, events, overlap, dice, sizes);
    if r.Ok? {
      TickPipes(p, events, overlap, dice, sizes);
      var h := Handle(p, events);
      PlaySweepMoves(Round(h, []), 0, overlap, dice, sizes);
      var sp := PlaySweep(Round(h, []), 0, overlap, dice, sizes).value.p.pipes;
      SweptNew(p.pipes, sp, p.spawned, PlayerX);
    }
  }

  /**
   * Over any number of passes: the game stays valid, `to_jump` is never set again, the failure
   * marker is never replaced, and a score that is still a count has not decreased.
   */
  lemma {:induction false} PlaysLatch(p: Play, batches: seq<seq<Event>>, overlap: Overlap, dice: Dice, sizes: Sprites)
    requires Valid(p, sizes)
    ensures var r := Plays(p, batches, overlap, dice, sizes);
      r.Ok? ==> Valid(r.value, sizes) && (r.value.toJump ==> p.toJump) &&
                (p.score.Failed? ==> r.value.score.Failed?) &&
                (r.value.score.Points? ==> p.score.Points? && r.value.score.n >= p.score.n)
    decreases |batches|
  {
    if batches != [] && p.run {
      var t := Tick(p, batches[0], overlap, dice, sizes);
      if t.Ok? {
        TickValid(p, batches[0], overlap, dice, sizes);
        TickLatch(p, batches[0], overlap, dice, sizes);
        TickScore(p, batches[0], overlap, dice, sizes);
        PlaysLatch(t.value, batches[1..], overlap, dice, sizes);
      }
    }
  }
}
