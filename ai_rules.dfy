/**
 * One tick of the AI mode's `main` loop, as functions over the generation's state.
 *
 * The lists `birds`, `nets` and `ge` are popped in place while they are enumerated, and
 * pipes appended to `pipes` while it is iterated are visited in the same pass; the
 * functions below follow those loops index by index, so the skips and misdirected
 * updates that in-place mutation causes are part of the model.
 */
module AiRules {
  import opened Common
  import opened Kinematics
  import opened Pipes

  /** Every AI bird is created by `Bird(230, 350)`. */
  const BirdX: int := 230
  /** Fitness is counted in tenths: +0.1 per tick, -1 per collision, +5 per pass. */
  const TickReward: int := 1
  const CrashPenalty: int := 10
  const PassBonus: int := 50

  /** A `Bird` object of the generation; `tag` is its identity (the genome it was created for). */
  datatype Agent = Agent(tag: nat, body: BirdState)
  /** The network `FeedForwardNetwork.create(g, config)` built for genome `genome`. */
  datatype Net = Net(genome: nat)
  /** The network's inputs, in half-units: the bird's height and its distances to the gap's edges. */
  datatype Observation = Observation(y: int, toTop: int, toBottom: int)
  /** `nets[x].activate(obs)[0] > 0.5`. */
  type Policy = (Net, Observation) -> bool

  /**
   * The generation's state. Genomes are numbered 0..n-1; `ge` lists genome numbers and
   * `fitness[g]` is the fitness of genome g (kept by the genome object, so it survives a pop).
   * `spawned` counts the pipes created so far, which is also the number of random draws.
   */
  datatype Gen = Gen(birds: seq<Agent>, nets: seq<Net>, ge: seq<nat>, fitness: seq<int>,
                     pipes: seq<PipeState>, score: nat, spawned: nat)

  /** What the pipe loop carries besides the state: the pipes marked in `rem`, and the bird `bird` last named. */
  datatype Sweep = Sweep(g: Gen, rem: seq<nat>, last: nat)

  /** How a tick ends: the loop breaks on an empty population, goes on, or raises. */
  datatype Step = Stopped | Continued(next: Gen) | Crashed(error: PyError)

  /** What the loops need to run: aligned list lengths, fitness slots, birds at their fixed x. */
  predicate Shape(g: Gen)
  {
    |g.birds| == |g.nets| == |g.ge| &&
    (forall k :: 0 <= k < |g.ge| ==> g.ge[k] < |g.fitness|) &&
    (forall k :: 0 <= k < |g.birds| ==> g.birds[k].body.x == BirdX)
  }

  /**
   * The generation's invariant: position k of `birds`, `nets` and `ge` belongs to one genome,
   * genomes are distinct, pipes are created in id order with their gap geometry, and every
   * pipe beyond the first was created by a pass event that also scored.
   */
  predicate Valid(g: Gen, sizes: Sprites)
  {
    Shape(g) &&
    (forall k :: 0 <= k < |g.birds| ==> g.birds[k].tag == g.ge[k] && g.nets[k].genome == g.ge[k]) &&
    (forall j, k :: 0 <= j < k < |g.ge| ==> g.ge[j] != g.ge[k]) &&
    Increasing(g.pipes) &&
    (forall k :: 0 <= k < |g.pipes| ==> g.pipes[k].id < g.spawned && Shaped(g.pipes[k], sizes.pipeHeight)) &&
    g.spawned == g.score + 1
  }

  /** The state `main` builds before its loop, for n genomes. */
  function Start(n: nat, dice: Dice, sizes: Sprites): Gen
  {
    Gen(seq(n, k requires 0 <= k => Agent(k, Spawn(BirdX, StartY))), seq(n, k requires 0 <= k => Net(k)),
        seq(n, k requires 0 <= k => k), seq(n, k => 0),
        [NewPipe(0, SpawnX, dice(0), sizes.pipeHeight)], 0, 1)
  }

  /** `pipe_ind`: look at the second pipe once the lead bird is past the first one's right edge. */
  function PipeIndex(g: Gen, sizes: Sprites): (k: nat)
    requires |g.birds| > 0
    ensures k == 0 || k == 1
    ensures k == 1 <==> |g.pipes| > 1 && g.birds[0].body.x > g.pipes[0].x + sizes.pipeWidth
    ensures |g.pipes| > 0 ==> k < |g.pipes|
  {
    if |g.pipes| > 1 && g.birds[0].body.x > g.pipes[0].x + sizes.pipeWidth then 1 else 0
  }

  /** The network's inputs for a bird and the pipe it looks at. */
  function Observe(b: BirdState, p: PipeState): Observation
  {
    Observation(b.y, Abs(b.y - 2 * p.height), Abs(b.y - 2 * p.bottom))
  }

  /** One bird's turn in the move loop: move, then jump if its network says so. */
  function Think(a: Agent, net: Net, target: PipeState, policy: Policy): Agent
  {
    var moved := MoveBird(a.body);
    Agent(a.tag, if policy(net, Observe(moved, target)) then JumpBird(moved, AiJumpVel) else moved)
  }

  /**
   * The move loop: every bird takes its turn (nothing is removed here), and every genome
   * with a bird in the list gains 0.1.
   */
  function Flap(g: Gen, target: PipeState, policy: Policy): (r: Gen)
    requires Shape(g)
    ensures Shape(r) && |r.birds| == |g.birds| && |r.fitness| == |g.fitness|
    ensures r.nets == g.nets && r.ge == g.ge && r.pipes == g.pipes
    ensures r.score == g.score && r.spawned == g.spawned
  {
    g.(birds := seq(|g.birds|, k requires 0 <= k < |g.birds| => Think(g.birds[k], g.nets[k], target, policy)),
       fitness := seq(|g.fitness|, j requires 0 <= j < |g.fitness| => g.fitness[j] + (if j in g.ge then TickReward else 0)))
  }

  /** `ge[x].fitness += delta`. */
  function Credit(g: Gen, x: nat, delta: int): (r: Gen)
    requires Shape(g) && x < |g.ge|
    ensures Shape(r) && r.birds == g.birds && r.ge == g.ge && r.pipes == g.pipes
    ensures r.nets == g.nets && r.score == g.score && r.spawned == g.spawned
  {
    g.(fitness := g.fitness[g.ge[x] := g.fitness[g.ge[x]] + delta])
  }

  /** `birds.pop(x); nets.pop(x); ge.pop(x)`. */
  function Pop(g: Gen, x: nat): (r: Gen)
    requires Shape(g) && x < |g.birds|
    ensures Shape(r) && |r.birds| == |g.birds| - 1 && r.pipes == g.pipes
    ensures r.fitness == g.fitness && r.score == g.score && r.spawned == g.spawned
  {
    g.(birds := Without(g.birds, x), nets := Without(g.nets, x), ge := Without(g.ge, x))
  }

  /** The pass event: mark pipe i, score, reward `ge[x]`, append `Pipe(700)`. */
  function Pass(g: Gen, i: nat, x: nat, dice: Dice, sizes: Sprites): (r: Gen)
    requires Shape(g) && i < |g.pipes| && x < |g.ge|
    ensures Shape(r) && r.birds == g.birds
  {
    var spawn := NewPipe(g.spawned, SpawnX, dice(g.spawned), sizes.pipeHeight);
    Credit(g, x, PassBonus).(pipes := g.pipes[i := g.pipes[i].(passed := true)] + [spawn],
                             score := g.score + 1, spawned := g.spawned + 1)
  }

  /**
   * One turn of `for x, bird in enumerate(birds)` against pipe i: a colliding bird costs its
   * genome 1 and is popped, then the pass test runs with the same bird and `ge[x]`, which
   * after a pop is the next genome, or out of range.
   */
  function Visit(s: Sweep, i: nat, x: nat, overlap: Overlap, dice: Dice, sizes: Sprites): (r: Outcome<Sweep>)
    requires Shape(s.g) && i < |s.g.pipes| && x < |s.g.birds|
    ensures r.Ok? ==> Shape(r.value.g) && |r.value.g.birds| <= |s.g.birds|
    ensures r.Ok? ==> Advance(s.g.pipes, r.value.g.pipes, i, BirdX)
    ensures r.Ok? ==> r.value.g.score == s.g.score + (|r.value.g.pipes| - |s.g.pipes|) && r.value.rem == s.rem
    ensures r.Raised? ==> r.error == IndexError
  {
    var a := s.g.birds[x];
    var g1 := if Collide(s.g.pipes[i], a.body, overlap) then Pop(Credit(s.g, x, -CrashPenalty), x) else s.g;
    if Eligible(g1.pipes[i], a.body.x) then
      if x < |g1.ge| then Ok(Sweep(Pass(g1, i, x, dice, sizes), s.rem, a.tag))
      else Raised(IndexError)
    else Ok(Sweep(g1, s.rem, a.tag))
  }

  /** The inner loop over the birds, from enumerate index x on, against pipe i. */
  function BirdSweep(s: Sweep, i: nat, x: nat, overlap: Overlap, dice: Dice, sizes: Sprites): (r: Outcome<Sweep>)
    requires Shape(s.g) && i < |s.g.pipes|
    ensures r.Ok? ==> Shape(r.value.g) && |r.value.g.birds| <= |s.g.birds|
    ensures r.Ok? ==> Advance(s.g.pipes, r.value.g.pipes, i, BirdX)
    ensures r.Ok? ==> r.value.g.score == s.g.score + (|r.value.g.pipes| - |s.g.pipes|) && r.value.rem == s.rem
    ensures r.Raised? ==> r.error == IndexError
    decreases |s.g.birds| - x
  {
    if x >= |s.g.birds| then Ok(s)
    else
      match Visit(s, i, x, overlap, dice, sizes)
      case Raised(e) => Raised(e)
      case Ok(s1) =>
        var r := BirdSweep(s1, i, x + 1, overlap, dice, sizes);
        AdvanceTwice(s.g.pipes, s1.g.pipes, if r.Ok? then r.value.g.pipes else s1.g.pipes, i, BirdX);
        r
  }

  /**
   * The outer loop `for pipe in pipes` from index i on: it also visits the pipes appended
   * during the loop. Each pipe is checked against every bird, marked for removal if its
   * right edge is past 0, and then moved.
   */
  function PipeSweep(s: Sweep, i: nat, overlap: Overlap, dice: Dice, sizes: Sprites): (r: Outcome<Sweep>)
    requires Shape(s.g) && i <= |s.g.pipes|
    ensures r.Ok? ==> Shape(r.value.g)
    ensures r.Raised? ==> r.error == IndexError
    decreases |s.g.pipes| - i + Pending(s.g.pipes[i..], BirdX)
  {
    if i == |s.g.pipes| then Ok(s)
    else
      match BirdSweep(s, i, 0, overlap, dice, sizes)
      case Raised(e) => Raised(e)
      case Ok(s1) =>
        var p := s1.g.pipes[i];
        var rem := if p.x + sizes.pipeWidth < 0 then s1.rem + [p.id] else s1.rem;
        var g2 := s1.g.(pipes := s1.g.pipes[i := MovePipe(p)]);
        AdvanceShrinks(s.g.pipes, s1.g.pipes, i, BirdX);
        PipeSweep(Sweep(g2, rem, s1.last), i + 1, overlap, dice, sizes)
  }

  /** `bird.y + bird.img.get_height() >= 730 or bird.y < 0`. */
  predicate OutOfBounds(b: BirdState, sizes: Sprites)
  {
    b.y + 2 * sizes.birdHeight >= Floor || b.y < 0
  }

  /** The out-of-bounds loop from enumerate index x on, popping in place; also returns the bird last named. */
  function Cull(g: Gen, x: nat, last: nat, sizes: Sprites): (r: (Gen, nat))
    requires Shape(g)
    ensures Shape(r.0) && r.0.pipes == g.pipes && r.0.fitness == g.fitness
    ensures r.0.score == g.score && r.0.spawned == g.spawned
    decreases |g.birds| - x
  {
    if x >= |g.birds| then (g, last)
    else
      var a := g.birds[x];
      Cull(if OutOfBounds(a.body, sizes) then Pop(g, x) else g, x + 1, a.tag, sizes)
  }

  /** Where the bird with this tag sits in the list, or -1. */
  function FindTag(birds: seq<Agent>, tag: nat): (k: int)
    ensures -1 <= k < |birds|
    ensures k >= 0 ==> birds[k].tag == tag
    ensures k < 0 ==> forall j :: 0 <= j < |birds| ==> birds[j].tag != tag
  {
    if birds == [] then -1
    else if birds[|birds| - 1].tag == tag then |birds| - 1
    else FindTag(birds[..|birds| - 1], tag)
  }

  /** The stray `bird.move()` after the loops: it moves the bird last named, if that bird is still in the list. */
  function Nudge(g: Gen, tag: nat): (r: Gen)
    requires Shape(g)
    ensures Shape(r) && |r.birds| == |g.birds| && r.ge == g.ge && r.nets == g.nets
    ensures r.pipes == g.pipes && r.fitness == g.fitness && r.score == g.score && r.spawned == g.spawned
    ensures forall j :: 0 <= j < |g.birds| ==> r.birds[j].tag == g.birds[j].tag
    ensures forall j :: 0 <= j < |g.birds| && g.birds[j].tag != tag ==> r.birds[j] == g.birds[j]
    ensures forall j :: 0 <= j < |g.birds| && r.birds[j] != g.birds[j] ==> r.birds[j].body == MoveBird(g.birds[j].body)
    ensures forall j, k :: 0 <= j < k < |g.birds| && r.birds[j] != g.birds[j] ==> r.birds[k] == g.birds[k]
  {
    var k := FindTag(g.birds, tag);
    if k < 0 then g else g.(birds := g.birds[k := Agent(tag, MoveBird(g.birds[k].body))])
  }

  /**
   * The first half of a tick with birds: choose `pipe_ind` (indexing `pipes[pipe_ind]` raises
   * on an empty pipe list), run the move loop, then the pipe loop. The loop variable `bird`
   * starts out as the last bird of the move loop.
   */
  function Swept(g: Gen, sizes: Sprites, policy: Policy, overlap: Overlap, dice: Dice): (r: Outcome<Sweep>)
    requires Shape(g) && |g.birds| > 0
    ensures r.Ok? ==> Shape(r.value.g)
    ensures r.Raised? ==> r.error == IndexError
  {
    if |g.pipes| == 0 then Raised(IndexError)
    else
      var g1 := Flap(g, g.pipes[PipeIndex(g, sizes)], policy);
      PipeSweep(Sweep(g1, [], g1.birds[|g1.birds| - 1].tag), 0, overlap, dice, sizes)
  }

  /**
   * One pass of `while run`: stop on an empty population; otherwise the move and pipe loops,
   * the removals of `rem`, the out-of-bounds loop and the stray move.
   */
  function Tick(g: Gen, sizes: Sprites, policy: Policy, overlap: Overlap, dice: Dice): (r: Step)
    requires Shape(g)
    ensures r.Stopped? <==> |g.birds| == 0
    ensures r.Continued? ==> Shape(r.next)
  {
    if |g.birds| == 0 then Stopped
    else
      match Swept(g, sizes, policy, overlap, dice)
      case Raised(e) => Crashed(e)
      case Ok(s) =>
        var culled := Cull(s.g.(pipes := Retire(s.g.pipes, s.rem)), 0, s.last, sizes);
        Continued(Nudge(culled.0, culled.1))
  }

  /** A pass as a total function of the state: a state without the generation's shape does not run. */
  function Stepper(sizes: Sprites, policy: Policy, overlap: Overlap, dice: Dice): Gen -> Step
  {
    g => if Shape(g) then Tick(g, sizes, policy, overlap, dice) else Stopped
  }

  /** Up to n applications of pass: the first that does not continue ends the run. */
  function Repeat(g: Gen, n: nat, pass: Gen -> Step): Step
    decreases n
  {
    if n == 0 then Continued(g)
    else
      var t := pass(g);
      if t.Continued? then Repeat(t.next, n - 1, pass) else t
  }

  /** Up to n passes of `while run`: the first that stops or raises ends the run. */
  function Ticks(g: Gen, n: nat, sizes: Sprites, policy: Policy, overlap: Overlap, dice: Dice): Step
  {
    Repeat(g, n, Stepper(sizes, policy, overlap, dice))
  }

  /** A pass whose two loops complete goes on with the removals, the out-of-bounds loop and the stray move. */
  lemma TickContinues(g: Gen, sizes: Sprites, policy: Policy, overlap: Overlap, dice: Dice, s: Sweep)
    requires Shape(g) && |g.birds| > 0 && Swept(g, sizes, policy, overlap, dice) == Ok(s)
    ensures var c := Cull(s.g.(pipes := Retire(s.g.pipes, s.rem)), 0, s.last, sizes);
      Tick(g, sizes, policy, overlap, dice) == Continued(Nudge(c.0, c.1))
  {
  }

  /** One more pass of a run of n = m + 1 passes. */
  lemma RepeatStep(g: Gen, n: nat, m: nat, pass: Gen -> Step)
    requires n == m + 1
    ensures var t := pass(g);
      Repeat(g, n, pass) == if t.Continued? then Repeat(t.next, m, pass) else t
  {
  }
}
