# Flappy Bird simulation loops in Dafny

This project models the simulation rules of the two Flappy Bird programs in
`flappy-bird/`. It proves what one tick of each game loop keeps and changes.

- `flappy_AI.py` evolves a population of birds, one per NEAT genome.
- `flappy_player.py` runs a single bird for a human player.

The model has these modules:

- `Kinematics` (kinematics.dfy): `Bird.jump` and `Bird.move`. The values are
  `JumpBird` and `MoveBird`, and the class `Bird` updates its fields in place.
  Every vertical quantity is an integer in half-units: 350 is 700, −10.5 is
  −21, −7.5 is −15, and the coefficient 1.5, the cap 16 and the adjustment 2
  are 3, 32 and 4. All constants of the integrator are multiples of 0.5, so
  this is exact. `round(bird.y)` is Python's round-half-to-even (`RoundHalf`).
- `Pipes` (pipes.dfy): `Pipe.__init__`/`set_height`, `Pipe.move`,
  `Pipe.collide`, and `for r in rem: pipes.remove(r)`.
  - A pipe is a `PipeState` value. Its `id` stands for the object's
    identity: the k-th pipe created has id k and took the k-th random draw.
  - The random source is a parameter `Dice`, from draw number to a height
    in [50, 450).
  - The pixel-mask test `bird_mask.overlap(mask, offset)` is a parameter
    `Overlap`, a predicate on the pipe image and the offset.
- `Ground` (ground.dfy): the two-tile scroller `Base`.
- `AiRules`, `AiProps` and `AiLoop` (ai_rules.dfy, ai_props.dfy, ai_loop.dfy):
  one pass of the AI mode's `while run`.
  - `AiRules` states the pass as functions that follow the Python loops
    index by index. So the in-place `pop` during `enumerate` and the pipes
    appended during `for pipe in pipes` behave as they do in the program.
  - `AiProps` proves what a pass keeps and changes.
  - `AiLoop.Generation` is a class whose fields are `main`'s locals. Its
    methods run the loops with `while` and are proved to compute the
    functions of `AiRules`.
  - Fitness is counted in integer tenths: +1 per tick, −10 per collision,
    +50 per pass. A genome is a number 0..n−1, and `fitness[g]` belongs to
    the genome, so it survives a pop.
- `PlayerRules`, `PlayerProps` and `PlayerLoop` (player_rules.dfy,
  player_props.dfy, player_loop.dfy): one pass of the player mode's
  `while run`, in the same three layers. The score is `Points(n)` or the
  failure marker `Failed`, which stands for the string "YOU FAILED".

A pass that raises is the outcome `Raised(IndexError)` or `Raised(TypeError)`:
- the AI loop raises IndexError on `ge[x]` after a pop, or on
  `pipes[pipe_ind]` with no pipe;
- the player loop raises TypeError on `score += 1` once the score is the
  failure marker.

What the loops do, as the code is written:
- Birds are popped from the three parallel lists while the loop enumerates
  them.
- The +5 of a pass goes to the single genome `ge[x]`. After a pop, that is
  the next bird's genome.
- Each pass event appends one new pipe.
- The loops have no budget of their own. The model bounds a run by a
  parameter (`Generation.Run`'s budget, `Game.Run`'s batches).

The quirks of the code are proved as lemmas:
- The skip after a pop: `AiProps.SweepHalves`, `AiProps.SkipAfterPop` and
  `AiProps.CullHalves`.
- The misdirected or out-of-range `ge[x]`: `AiProps.VisitCollision` and
  `AiProps.LoneBirdCrash`.
- Pipes appended during the pipe loop are moved in the same tick:
  `AiProps.TickNewPipes` and `PlayerProps.TickNewPipes`.
- The extra `bird.move()` on the leftover loop variable: `AiProps.StrayMove`.
- The TypeError of a point scored on the failure marker:
  `PlayerProps.FailedPassRaises` and `PlayerProps.HitPassRaises`.

## Model

| member | source | states |
|---|---|---|
| Common.Without | flappy-bird/flappy_AI.py:259-261 | `list.pop(x)`: one element shorter, elements before x unchanged, later ones shifted down by one |
| Kinematics.JumpBird | flappy-bird/flappy_AI.py:52-56 | a jump sets the velocity, resets the tick counter to 0, records `height = y`, and leaves x and y unchanged |
| Kinematics.MoveBird | flappy-bird/flappy_AI.py:58-70 | a move adds exactly 1 to the tick counter; the displacement never exceeds 16; a negative raw displacement `vel*t + 1.5*t²` is applied 2 lower; one in [0, 16) is applied as is; one ≥ 16 is capped at 16; x, vel and height are unchanged |
| Kinematics.RoundHalf | flappy-bird/flappy_AI.py:150-151 | `round(bird.y)`: within half a unit of y, exact on whole values, and a tie goes to the even neighbour |
| Kinematics.RoundHalfUnique | flappy-bird/flappy_AI.py:150-151 | those three properties determine the rounding, so RoundHalf is exactly round-half-to-even |
| Kinematics.FlyAfterJump | flappy-bird/flappy_AI.py:52-70 | after a jump and n moves, the bird is at the jump height plus the sum of the first n clamped displacements, with tick counter n |
| Kinematics.AiJumpArc | flappy-bird/flappy_AI.py:52-70 | with −10.5, the moves after a jump displace the bird by −11, −17, −20, −20, −17, −11, 0, 12, 16, 16; after six moves it is 96 higher, which is the highest it ever gets after that jump; from the ninth move on it falls 16 per tick |
| Kinematics.PlayerJumpArc | flappy-bird/flappy_player.py:53-69 | with −7.5, the moves after a jump displace the bird by −8, −11, −11, −8, 0, 9, 16, 16; after four moves it is 38 higher, the highest it gets; from the seventh move on it falls 16 per tick |
| Kinematics.Bird.constructor | flappy-bird/flappy_AI.py:41-50 | `Bird(x, y)`: at (x, y), velocity 0, tick counter 0, height y; its state is `Kinematics.Spawn(x, y)` |
| Kinematics.Bird.Jump | flappy-bird/flappy_player.py:53-57 | updates the fields in place as JumpBird with the mode's preset velocity |
| Kinematics.Bird.Move | flappy-bird/flappy_player.py:59-69 | updates the fields in place as MoveBird |
| Ground.Scroll | flappy-bird/flappy_AI.py:171-181 | `Base.move` keeps the two tiles exactly WIDTH apart; if WIDTH ≥ 5 and both tiles are on screen, neither has `x + WIDTH < 0` after the move |
| Ground.WrapOnlyOffScreen | flappy-bird/flappy_AI.py:176-181 | a tile jumps to the right only when it has just left the screen; otherwise it moves exactly 5 left |
| Ground.Base.constructor | flappy-bird/flappy_player.py:161-164 | `Base(y)`: tiles at 0 and WIDTH, which satisfies the scroller's invariant |
| Ground.Base.Move | flappy-bird/flappy_player.py:166-175 | updates `x1`, `x2` in place as Scroll and keeps the invariant |
| Pipes.WithHeight | flappy-bird/flappy_AI.py:129-133 | `set_height` with the drawn h: height h in [50, 450), `bottom = height + 200`, `top + pipe image height = height`; x, passed and identity unchanged |
| Pipes.NewPipe | flappy-bird/flappy_AI.py:116-127 | `Pipe(x)`: at x, not passed, with the gap geometry of the drawn height |
| Pipes.MovePipe | flappy-bird/flappy_AI.py:135-137 | `Pipe.move` decreases x by exactly 5 and changes nothing else |
| Pipes.BoxCollide | flappy-bird/flappy_AI.py:144-158 | with rectangular masks, `collide` (`Pipes.Collide`) holds exactly when the bird and pipe overlap horizontally and the rounded bird top reaches into the top pipe or into the bottom pipe |
| Pipes.GapScenarios | flappy-bird/flappy_player.py:139-153 | with a gap at 300 and rectangular masks, a bird inside the gap does not collide and a bird level with the top pipe does |
| Pipes.RetireIsKeep | flappy-bird/flappy_player.py:239-240 | removing the marked pipes one by one, by identity (`Pipes.Retire` over `Pipes.RemoveId`), leaves exactly the unmarked pipes in their original order |
| Pipes.RetireWellFormed | flappy-bird/flappy_AI.py:281-282 | removing pipes keeps ids increasing and every remaining pipe's identity and gap geometry |
| Pipes.RetireMarked | flappy-bird/flappy_player.py:230-240 | removing the pipes marked by the pipe loop keeps exactly the pipes whose right edge had not passed 0; ids stay increasing |
| Pipes.Pipe.constructor | flappy-bird/flappy_player.py:111-122 | `Pipe(x)` sets its fields in place as NewPipe |
| Pipes.Pipe.SetHeight | flappy-bird/flappy_player.py:124-128 | updates `height`, `top`, `bottom` in place as WithHeight |
| Pipes.Pipe.Move | flappy-bird/flappy_player.py:130-132 | updates `x` in place as MovePipe |
| AiRules.PipeIndex | flappy-bird/flappy_AI.py:234-238 | `pipe_ind` is 0 or 1; it is 1 exactly when there is more than one pipe and the first bird is past the first pipe's right edge; it indexes an existing pipe |
| AiRules.Flap | flappy-bird/flappy_AI.py:244-251 | the move loop removes no bird and changes no list other than the birds and the fitness values |
| AiRules.Credit | flappy-bird/flappy_AI.py:258 | `ge[x].fitness += delta` changes only fitness values: birds, nets, ge, pipes, score and spawned stay the same |
| AiRules.Pop | flappy-bird/flappy_AI.py:259-261 | popping x from all three lists keeps them aligned and one shorter, and leaves pipes, fitness, score and spawned alone |
| AiRules.Pass | flappy-bird/flappy_AI.py:264-268 | the pass event keeps the lists aligned and removes no bird |
| AiRules.Visit | flappy-bird/flappy_AI.py:255-268 | one bird's turn against pipe i: it never adds birds; the pipes change only by marking pipe i and appending one pipe; the score grows by the number of pipes appended; the only exception is IndexError |
| AiRules.BirdSweep | flappy-bird/flappy_AI.py:255-268 | the bird loop against pipe i: as Visit, over all its turns |
| AiRules.PipeSweep | flappy-bird/flappy_AI.py:253-274 | the pipe loop keeps the lists aligned and can only raise IndexError |
| AiRules.Cull | flappy-bird/flappy_AI.py:285-289 | the out-of-bounds loop keeps the lists aligned and changes neither pipes, fitness nor score |
| AiRules.FindTag | flappy-bird/flappy_AI.py:291 | finds the position of the bird object that `bird` names, or reports that it is no longer in the list |
| AiRules.Nudge | flappy-bird/flappy_AI.py:291 | the stray `bird.move()` keeps every bird's tag; every bird not carrying the given tag is unchanged; a changed bird has the body MoveBird gives; at most one bird changes; lists, pipes, fitness and score are unchanged |
| AiRules.Swept | flappy-bird/flappy_AI.py:235-274 | move loop then pipe loop: keeps the lists aligned, and can only raise IndexError |
| AiRules.Tick | flappy-bird/flappy_AI.py:226-292 | a pass stops exactly when the population is empty; a pass that goes on keeps the lists aligned |
| AiProps.StartValid | flappy-bird/flappy_AI.py:208-224 | set-up: three lists of length n, bird k for genome k at (230, 350), fitness 0, score 0, one fresh pipe at 700; the invariant holds of `AiRules.Start` |
| AiProps.PopValid | flappy-bird/flappy_AI.py:259-261 | popping the same index from the three lists keeps them aligned and the genomes distinct |
| AiProps.PassValid | flappy-bird/flappy_AI.py:264-268 | a pass event keeps the invariant: pipe ids increasing, gap geometry, score equal to pipes created minus one |
| AiProps.VisitValid | flappy-bird/flappy_AI.py:255-268 | one bird's turn keeps the invariant |
| AiProps.BirdSweepValid | flappy-bird/flappy_AI.py:255-268 | the bird loop keeps the invariant |
| AiProps.PipeSweepValid | flappy-bird/flappy_AI.py:253-274 | the pipe loop keeps the invariant |
| AiProps.MoveValid | flappy-bird/flappy_AI.py:274 | moving a pipe keeps the invariant |
| AiProps.CullValid | flappy-bird/flappy_AI.py:285-289 | the out-of-bounds loop keeps the invariant |
| AiProps.FlapValid | flappy-bird/flappy_AI.py:244-251 | the move loop keeps the invariant |
| AiProps.NudgeValid | flappy-bird/flappy_AI.py:291 | the stray move keeps the invariant |
| AiProps.TickValid | flappy-bird/flappy_AI.py:226-292 | a pass that goes on keeps the invariant: lists aligned by genome, genomes distinct, pipes well formed, score in step with the pipes created |
| AiProps.FlapFitness | flappy-bird/flappy_AI.py:244-246 | in the move loop (each bird's `AiRules.Think` on `AiRules.Observe` of the target pipe) every bird keeps its identity, every genome with a bird gains 0.1, and every other genome's fitness is unchanged |
| AiProps.VisitCollision | flappy-bird/flappy_AI.py:257-267 | a colliding bird's genome loses exactly 1 and the bird is popped; if the pipe then awaits its pass, the +5 goes to the next bird's genome, or `ge[x]` raises IndexError when the popped bird was the last |
| AiProps.VisitPass | flappy-bird/flappy_AI.py:264-268 | a bird that clears a pipe just as it falls behind marks it passed, scores exactly 1, gives +5 to its own genome only and appends exactly one `Pipe(700)` |
| AiProps.SweepHalves | flappy-bird/flappy_AI.py:255-261 | when every bird from x on hits a pipe that awaits no pass, only every other bird is removed: each bird sliding into a popped slot escapes the test |
| AiProps.BirdSweepSurvivors | flappy-bird/flappy_AI.py:255-261 | the collision loop only removes birds: the survivors are input birds in their order, and a bird it examines against the pipe and finds colliding is not among them |
| AiProps.BirdSweepKeeps | flappy-bird/flappy_AI.py:255-261 | every bird before the start index and every bird that does not hit the pipe survives the collision loop |
| AiProps.CullPrefix | flappy-bird/flappy_AI.py:285-289 | the out-of-bounds loop never changes the birds before its current index |
| AiProps.SkipAfterPop | flappy-bird/flappy_AI.py:285-289 | after an out-of-bounds bird is popped, the bird that slides into its slot stays there and is not examined in that pass |
| AiProps.CullHalves | flappy-bird/flappy_AI.py:285-289 | when every bird from x on is out of bounds, every other one of them survives the loop |
| AiProps.CullNone | flappy-bird/flappy_AI.py:285-289 | with no bird out of bounds, the loop changes nothing and leaves `bird` naming the last bird |
| AiProps.CullSurvivors | flappy-bird/flappy_AI.py:284-289 | the out-of-bounds loop only removes birds: the survivors are input birds in their order, and a bird it examines out of bounds is not among them |
| AiProps.CullKeeps | flappy-bird/flappy_AI.py:284-289 | every bird before the start index and every bird in bounds (`AiRules.OutOfBounds` false) survives the out-of-bounds loop |
| AiProps.StrayMove | flappy-bird/flappy_AI.py:291 | when no bird is out of bounds, the last bird of the list moves a second time in the tick |
| AiProps.LoneBirdCrash | flappy-bird/flappy_AI.py:257-267 | a lone bird that, after its move, hits the first pipe while that pipe awaits its pass makes the pass raise IndexError on `ge[x]` |
| AiProps.PipeSweepMoves | flappy-bird/flappy_AI.py:253-274 | the pipe loop moves every pipe exactly once, those appended during it included; `passed` is only ever set, and only on a pipe behind the birds; appended pipes end unpassed at 695 |
| AiProps.PipeSweepCounts | flappy-bird/flappy_AI.py:264-268 | over the pipe loop, points scored = pipes appended = pipes newly marked passed |
| AiProps.PipeSweepMarks | flappy-bird/flappy_AI.py:270-272 | `rem` lists exactly the pipes whose right edge was past 0 when checked, in order |
| AiProps.TickPipes | flappy-bird/flappy_AI.py:270-282 | after a pass, the pipes are exactly those the pipe loop left whose right edge had not passed 0, in order |
| AiProps.TickScore | flappy-bird/flappy_AI.py:264-268 | the score never decreases; a pass scores exactly one point per pipe it marks passed, which equals the number of pipes it appends |
| AiProps.TickNewPipes | flappy-bird/flappy_AI.py:268 | every pipe created in a pass is moved in that same pass and ends it unpassed at 695 |
| AiLoop.Generation.constructor | flappy-bird/flappy_AI.py:208-224 | builds the lists, the ground and the first pipe as `main` does |
| AiLoop.Generation.MoveBirds | flappy-bird/flappy_AI.py:244-251 | the `enumerate` loop over the birds computes Flap |
| AiLoop.Generation.FlapBird | flappy-bird/flappy_AI.py:245-251 | one bird moves and thinks, and its genome gains 0.1; nothing else changes |
| AiLoop.Generation.HitBird | flappy-bird/flappy_AI.py:257-261 | a colliding bird's genome loses 1 and the bird is popped from all three lists; otherwise nothing changes |
| AiLoop.Generation.PassBird | flappy-bird/flappy_AI.py:264-268 | the pass event raises exactly when `ge[x]` is out of range, and otherwise computes Pass |
| AiLoop.Generation.VisitBird | flappy-bird/flappy_AI.py:255-268 | one turn of the bird loop computes Visit, including the exception |
| AiLoop.Generation.SweepBirds | flappy-bird/flappy_AI.py:255-268 | the bird loop computes BirdSweep |
| AiLoop.Generation.SweepPipes | flappy-bird/flappy_AI.py:253-274 | the pipe loop, which also visits appended pipes, computes PipeSweep |
| AiLoop.Generation.RetirePipes | flappy-bird/flappy_AI.py:281-282 | `for r in rem: pipes.remove(r)` computes Retire |
| AiLoop.Generation.CullBirds | flappy-bird/flappy_AI.py:285-289 | the out-of-bounds loop computes Cull |
| AiLoop.Generation.MoveStray | flappy-bird/flappy_AI.py:291 | the stray move computes Nudge |
| AiLoop.Generation.Loops | flappy-bird/flappy_AI.py:234-274 | `pipe_ind`, the move loop and the pipe loop compute Swept |
| AiLoop.Generation.Finish | flappy-bird/flappy_AI.py:281-292 | removals, out-of-bounds loop, stray move and ground move |
| AiLoop.Generation.Tick | flappy-bird/flappy_AI.py:226-292 | one pass of `while run` computes Tick and scrolls the ground once when it goes on |
| AiLoop.Generation.Turn | flappy-bird/flappy_AI.py:226-292 | one pass, stated as one step of the run |
| AiLoop.Generation.Run | flappy-bird/flappy_AI.py:226-292 | `while run` for up to a budget of passes computes Ticks; the generation stays valid and the ground scrolls once per completed pass |
| PlayerRules.Handle | flappy-bird/flappy_player.py:210-215 | the event loop changes neither pipes, score, `to_jump` nor the bird's x |
| PlayerRules.Check | flappy-bird/flappy_player.py:221-229 | a hit (mask overlap or ground) latches the failure marker and clears `to_jump`; a pass (pipe not passed, behind the bird, bird above ground) raises TypeError exactly when the score is the marker by then; otherwise it marks the pipe, adds exactly 1 and appends exactly one pipe; without a pass, the pipes are unchanged and the score stays or becomes the marker |
| PlayerRules.PlaySweep | flappy-bird/flappy_player.py:219-233 | the pipe loop leaves the bird and `run` alone and can only raise TypeError |
| PlayerRules.Tick | flappy-bird/flappy_player.py:207-242 | a pass keeps the bird at x = 200 and can only raise TypeError |
| PlayerRules.Plays | flappy-bird/flappy_player.py:207-242 | any number of passes keep the bird at x = 200 |
| PlayerProps.BeginValid | flappy-bird/flappy_player.py:196-205 | set-up: count 0, `to_jump` and `run` set, bird at (200, 350), one fresh pipe; the invariant holds of `PlayerRules.Begin` |
| PlayerProps.HandleEvents | flappy-bird/flappy_player.py:210-215 | for the event loop (`PlayerRules.Poll`, one event at a time): `run` ends cleared exactly when a QUIT came; any number of events while `to_jump` holds leave the bird as after one jump, and none leave it untouched |
| PlayerProps.CheckValid | flappy-bird/flappy_player.py:221-229 | one pipe's check keeps the invariant: failure marker with `to_jump` clear, score = pipes created − 1 |
| PlayerProps.MarkValid | flappy-bird/flappy_player.py:230-233 | marking and moving a pipe keeps the invariant |
| PlayerProps.PlaySweepValid | flappy-bird/flappy_player.py:219-233 | the pipe loop keeps the invariant |
| PlayerProps.TickValid | flappy-bird/flappy_player.py:207-242 | a pass that completes keeps the invariant |
| PlayerProps.PlaySweepMoves | flappy-bird/flappy_player.py:219-233 | the pipe loop moves every pipe exactly once, appended ones included; `passed` is only set, only on pipes behind the bird |
| PlayerProps.PlaySweepCounts | flappy-bird/flappy_player.py:225-229 | over the pipe loop, pipes appended = pipes newly passed, and a count at the end grew by exactly that much from a count at the start |
| PlayerProps.PlaySweepMarks | flappy-bird/flappy_player.py:230-231 | `rem`, appended by `PlayerRules.Mark`, lists exactly the pipes whose right edge was past 0 when checked, in order |
| PlayerProps.PlaySweepLatch | flappy-bird/flappy_player.py:221-223 | over the pipe loop the score ends as the marker exactly when it was one, or the bird was on the ground, or it hit a pipe; `to_jump` ends set exactly when it was and none of that happened |
| PlayerProps.PlaySweepGrounded | flappy-bird/flappy_player.py:221-229 | a bird on the ground (`PlayerRules.Grounded`) gets no pass event: the loop cannot raise and appends nothing |
| PlayerProps.TickEvents | flappy-bird/flappy_player.py:210-242 | after a pass, `run` is cleared exactly when a QUIT came, and the bird made its move from where a single jump left it if any event came while `to_jump` held |
| PlayerProps.TickLatch | flappy-bird/flappy_player.py:205-229 | the failure latch over a pass: marker exactly when already, or grounded, or hit; `to_jump` is never set again; once it is clear, no event moves the bird |
| PlayerProps.TickScore | flappy-bird/flappy_player.py:225-229 | a count after a pass was a count before and grew by exactly the pipes passed, which equals the pipes appended |
| PlayerProps.FailedPassRaises | flappy-bird/flappy_player.py:222-227 | once the score is the marker, a pass event raises TypeError |
| PlayerProps.HitPassRaises | flappy-bird/flappy_player.py:221-227 | hitting the pipe in the very check that passes it also raises TypeError |
| PlayerProps.TickGrounded | flappy-bird/flappy_player.py:221-229 | a grounded bird's pass cannot raise and creates no pipe; with a pipe to check, the score ends as the marker with `to_jump` clear |
| PlayerProps.TickPipes | flappy-bird/flappy_player.py:230-240 | after a pass, the pipes are exactly those the loop left whose right edge had not passed 0, in order |
| PlayerProps.TickNewPipes | flappy-bird/flappy_player.py:229 | every pipe created in a pass is moved in that pass and ends it unpassed at 695 |
| PlayerProps.PlaysLatch | flappy-bird/flappy_player.py:207-243 | over any number of passes the game stays valid, `to_jump` is never set again, the marker is never replaced, and a count never decreases |
| PlayerLoop.Game.constructor | flappy-bird/flappy_player.py:196-205 | the set-up of `main` computes Begin with a real Bird and Base |
| PlayerLoop.Game.Poll | flappy-bird/flappy_player.py:210-215 | the event loop computes Handle, jumping the Bird object in place |
| PlayerLoop.Game.CheckPipe | flappy-bird/flappy_player.py:221-229 | one pipe's check computes Check, including the TypeError |
| PlayerLoop.Game.SweepPipes | flappy-bird/flappy_player.py:219-233 | the pipe loop, which also visits appended pipes, computes PlaySweep |
| PlayerLoop.Game.RetirePipes | flappy-bird/flappy_player.py:239-240 | `for r in rem: pipes.remove(r)` computes Retire |
| PlayerLoop.Game.Tick | flappy-bird/flappy_player.py:207-243 | one pass of `while run` computes Tick and scrolls the ground once when it completes |
| PlayerLoop.Game.Run | flappy-bird/flappy_player.py:207-243 | `while run` over batches of events computes Plays; the game stays valid; the ground scrolls once per completed pass |

## Left out

- Drawing, fonts, the window, `draw_window`, and the bird's tilt and
  animation frame. The image sizes are the parameter `Sprites`.
- The frame switch in a nose-dive. `Bird.draw` sets `img` to the second
  frame once the tilt reaches −80, and `collide` and the ground test read
  the bird's mask and height from `img`. The model uses one bird mask
  (`Overlap`) and one bird height (`Sprites.birdHeight`) for the whole run,
  so a collision decided by the second frame's mask is not captured.
- `clock.tick(30)`. Time is counted in passes.
- The event queue. The player loop takes each pass's events as a list of
  `Quit | Other`. The AI loop's QUIT branch (`pygame.quit()` and `quit()`)
  ends the process and is not modelled.
- `pygame.key.get_pressed` is the function object, not a call, so the test
  is always true. The model lets every event jump the bird while `to_jump`
  holds.
- NEAT: network creation, `activate`, the trainer, and `GENS`.
  - The jump decision is the parameter `Policy`.
  - Genomes are numbers, and the +0.1/−1/+5 fitness is integer tenths
    without floating-point rounding.
- The internals of the pixel-mask overlap. It is the parameter `Overlap`.
- `random.randrange` is the parameter `Dice`.
- `add_pipe` is always False, so its branch never runs. `self.gap = 100` is
  never read.
- The state after an exception. A raising pass returns only the exception.
- Python object aliasing in the lists. Birds and pipes are values, tagged
  with an identity.
  - `pipes.remove(r)` is removal by that identity. The ValueError it would
    raise on a missing pipe cannot happen here, because marked pipes are
    in the list.
  - A bird popped from the list and then moved by the stray `bird.move()`
    is no longer observable, so that move is dropped.
- The loops never end by themselves except on an empty population, a QUIT,
  or an exception. `Generation.Run` takes a pass budget and `Game.Run` a
  list of event batches.
- `AiRules.Ticks` runs each pass through `AiRules.Stepper`, which does not
  run a state without the generation's shape. Every reachable state has that
  shape (`AiProps.TickValid`).
- AiRules.Flap: its contract states only what stays unchanged. The fitness
  effect is stated by `AiProps.FlapFitness`.
- AiRules.Credit: its contract states only what stays unchanged. The
  effect is stated by `AiProps.VisitCollision` and `AiProps.VisitPass`.
- AiRules.Pass: its contract states only that the lists stay aligned. The
  effect is stated by `AiProps.VisitPass`.
- AiRules.BirdSweep: its contract states only alignment, the pipe change and
  the exception. Which birds survive is stated by `AiProps.BirdSweepSurvivors`,
  `AiProps.BirdSweepKeeps` and `AiProps.SweepHalves`.
- AiRules.Cull: its contract states only alignment and what stays unchanged.
  Which birds survive is stated by `AiProps.CullSurvivors`,
  `AiProps.CullKeeps`, `AiProps.CullHalves` and `AiProps.CullNone`.
- AiRules.PipeSweep: its contract states only alignment and the exception.
  The effect on pipes, score and `rem` is stated by `AiProps.PipeSweepMoves`,
  `AiProps.PipeSweepCounts` and `AiProps.PipeSweepMarks`.
- AiRules.Swept: its contract states only alignment and the exception. The
  effect is stated by the AiProps lemmas on PipeSweep and Flap.
- AiRules.Tick: its contract states only when a pass stops. The effect is
  stated by `AiProps.TickValid`, `AiProps.TickPipes`, `AiProps.TickScore` and
  `AiProps.TickNewPipes`.
- PlayerRules.Handle: its contract states only what stays unchanged. The
  effect is stated by `PlayerProps.HandleEvents`.
- PlayerRules.PlaySweep: its contract states only what stays unchanged and
  the exception. The effect is stated by the PlaySweep lemmas of PlayerProps.
- PlayerRules.Tick: its contract states only the bird's x and the exception.
  The effect is stated by the Tick lemmas of PlayerProps.
- PlayerRules.Plays: its contract states only the bird's x. The effect is
  stated by `PlayerProps.PlaysLatch`.
