/**
 * One pass of the player mode's `while run` loop, as functions over the game's state.
 *
 * The `score` variable holds a count until the bird first hits a pipe or the ground, and
 * from then on the string "YOU FAILED" (the failure latch, which also clears `to_jump`).
 * `score += 1` on that string raises TypeError and ends the program; the functions below
 * return that as an outcome. Like the AI loop, `for pipe in pipes` also visits the pipes
 * appended while it runs.
 */
module PlayerRules {
  import opened Common
  import opened Kinematics
  import opened Pipes

  /** The player's bird is created by `Bird(200, 350)`. */
  const PlayerX: int := 200
  /** The `score` variable: a count, or the failure marker "YOU FAILED". */
  datatype Score = Points(n: nat) | Failed

  /** An event from the queue: the window's close request, or any other event. */
  datatype Event = Quit | Other

  /**
   * The locals of `main` that the loop updates. `spawned` counts the pipes created so far,
   * which is also the number of random draws.
   */
  datatype Play = Play(bird: BirdState, pipes: seq<PipeState>, score: Score, toJump: bool, run: bool, spawned: nat)

  /** What the pipe loop carries besides the state: the ids marked in `rem`. */
  datatype Round = Round(p: Play, rem: seq<nat>)

  /** `bird.y + bird.img.get_height() >= 730`. */
  predicate Grounded(b: BirdState, sizes: Sprites)
  {
    b.y + 2 * sizes.birdHeight >= Floor
  }

  /**
   * The game's invariant: the bird stays at x = 200, pipes are created in id order with
   * their gap geometry, the failure marker comes with `to_jump` cleared, and while the
   * score is a count every pipe beyond the first was created by a point.
   */
  predicate Valid(p: Play, sizes: Sprites)
  {
    p.bird.x == PlayerX &&
    Increasing(p.pipes) &&
    (forall k :: 0 <= k < |p.pipes| ==> p.pipes[k].id < p.spawned && Shaped(p.pipes[k], sizes.pipeHeight)) &&
    (p.score.Failed? ==> !p.toJump) &&
    (p.score.Points? ==> p.spawned == p.score.n + 1)
  }

  /** The state `main` builds before its loop. */
  function Begin(dice: Dice, sizes: Sprites): Play
  {
    Play(Spawn(PlayerX, StartY), [NewPipe(0, SpawnX, dice(0), sizes.pipeHeight)], Points(0), true, true, 1)
  }

  /**
   * One turn of the event loop: a QUIT event clears `run`; then, since the test
   * `pygame.key.get_pressed and to_jump == True` reads the function object, every event
   * (QUIT included) makes the bird jump while `to_jump` holds.
   */
  function Poll(p: Play, e: Event): Play
  {
    var p1 := if e == Quit then p.(run := false) else p;
    if p1.toJump then p1.(bird := JumpBird(p1.bird, PlayerJumpVel)) else p1
  }

  /** The event loop over the events of one pass, in order. */
  function Handle(p: Play, events: seq<Event>): (r: Play)
    ensures r.pipes == p.pipes && r.score == p.score && r.toJump == p.toJump && r.spawned == p.spawned
    ensures r.bird.x == p.bird.x
  {
    if events == [] then p else Poll(Handle(p, events[..|events| - 1]), events[|events| - 1])
  }

  /**
   * The body of `for pipe in pipes` for pipe i, up to the `rem` test. A hit (the masks
   * overlap, or the bird reaches the ground) latches the failure marker and clears `to_jump`.
   * A pass (the pipe is not yet passed and behind the bird, and the bird is above the ground)
   * raises TypeError exactly when the score is the marker by then; otherwise it marks the
   * pipe, adds 1 to the score and appends `Pipe(700)`.
   */
  function Check(p: Play, i: nat, overlap: Overlap, dice: Dice, sizes: Sprites): (r: Outcome<Play>)
    requires i < |p.pipes|
    ensures var hit := Collide(p.pipes[i], p.bird, overlap) || Grounded(p.bird, sizes);
      var pass := Eligible(p.pipes[i], p.bird.x) && !Grounded(p.bird, sizes);
      (r.Raised? <==> pass && (hit || p.score.Failed?)) &&
      (r.Raised? ==> r.error == TypeError) &&
      (r.Ok? ==> r.value.bird == p.bird && r.value.run == p.run &&
                 r.value.toJump == (p.toJump && !hit) &&
                 (r.value.score.Failed? <==> p.score.Failed? || hit) &&
                 Advance(p.pipes, r.value.pipes, i, p.bird.x) &&
                 (pass ==> r.value.score == Points(p.score.n + 1) && r.value.spawned == p.spawned + 1 &&
                           |r.value.pipes| == |p.pipes| + 1 &&
                           r.value.pipes[|p.pipes|].id == p.spawned &&
                           Shaped(r.value.pipes[|p.pipes|], sizes.pipeHeight)) &&
                 (!pass ==> r.value.pipes == p.pipes && r.value.spawned == p.spawned &&
                            (r.value.score == p.score || r.value.score == Failed)))
  {
    var pipe := p.pipes[i];
    var p1 := if Collide(pipe, p.bird, overlap) || Grounded(p.bird, sizes) then p.(score := Failed, toJump := false) else p;
    if Eligible(pipe, p.bird.x) && !Grounded(p.bird, sizes) then
      match p1.score
      case Failed => Raised(TypeError)
      case Points(n) =>
        var spawn := NewPipe(p1.spawned, SpawnX, dice(p1.spawned), sizes.pipeHeight);
        Ok(p1.(pipes := p1.pipes[i := pipe.(passed := true)] + [spawn], score := Points(n + 1),
               spawned := p1.spawned + 1))
    else Ok(p1)
  }

  /**
   * `for pipe in pipes` from index i on, including the pipes appended during the loop: each
   * pipe is checked, marked in `rem` if its right edge is past 0, then moved.
   */
  function PlaySweep(s: Round, i: nat, overlap: Overlap, dice: Dice, sizes: Sprites): (r: Outcome<Round>)
    requires s.p.bird.x == PlayerX && i <= |s.p.pipes|
    ensures r.Ok? ==> r.value.p.bird == s.p.bird && r.value.p.run == s.p.run
    ensures r.Raised? ==> r.error == TypeError
    decreases |s.p.pipes| - i + Pending(s.p.pipes[i..], PlayerX)
  {
    if i == |s.p.pipes| then Ok(s)
    else
      match Check(s.p, i, overlap, dice, sizes)
      case Raised(e) => Raised(e)
      case Ok(p1) =>
        AdvanceShrinks(s.p.pipes, p1.pipes, i, PlayerX);
        PlaySweep(Mark(p1, s.rem, i, sizes), i + 1, overlap, dice, sizes)
  }

  /** The end of pipe i's turn: `rem.append(pipe)` if its right edge is past 0, then `pipe.move()`. */
  function Mark(p: Play, rem: seq<nat>, i: nat, sizes: Sprites): Round
    requires i < |p.pipes|
  {
    var q := p.pipes[i];
    Round(p.(pipes := p.pipes[i := MovePipe(q)]), if q.x + sizes.pipeWidth < 0 then rem + [q.id] else rem)
  }

  /**
   * One pass of `while run` (the ground's move aside): the event loop, the pipe loop, the
   * removals of `rem` and the bird's move.
   */
  function Tick(p: Play, events: seq<Event>, overlap: Overlap, dice: Dice, sizes: Sprites): (r: Outcome<Play>)
    requires p.bird.x == PlayerX
    ensures r.Ok? ==> r.value.bird.x == PlayerX
    ensures r.Raised? ==> r.error == TypeError
  {
    var h := Handle(p, events);
    match PlaySweep(Round(h, []), 0, overlap, dice, sizes)
    case Raised(e) => Raised(e)
    case Ok(s) => Ok(s.p.(pipes := Retire(s.p.pipes, s.rem), bird := MoveBird(s.p.bird)))
  }

  /** `while run` with one batch of events per pass, for as many passes as there are batches. */
  function Plays(p: Play, batches: seq<seq<Event>>, overlap: Overlap, dice: Dice, sizes: Sprites): (r: Outcome<Play>)
    requires p.bird.x == PlayerX
    ensures r.Ok? ==> r.value.bird.x == PlayerX
    decreases |batches|
  {
    if batches == [] || !p.run then Ok(p)
    else
      match Tick(p, batches[0], overlap, dice, sizes)
      case Raised(e) => Raised(e)
      case Ok(q) => Plays(q, batches[1..], overlap, dice, sizes)
  }
}
