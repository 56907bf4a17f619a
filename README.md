# Breakout kernel in Dafny

A model of the simulation kernel of a small breakout game (`src/main.rs`). It covers everything except drawing, fonts and the frame driver.

The paddle (`Player`) moves left and right and is clamped to the field. Balls fly and bounce off the side and top edges, the paddle and the blocks. Blocks sit in a 6 × 6 grid with two lives each, and a few randomly picked blocks spawn a new ball when destroyed. A frame is one step of the state machine Menu → Game → LevelCompleted | Dead → Menu.

The model has two layers.

- **Values** (`Geometry`, `Entities`, `Level`, `Rules`): functions over `real` coordinates.
  - `Collide` is the collision step and `PlayerStep`/`BallStep` are the entity updates.
  - `LevelBlocks` is the level builder.
  - `Step` is one whole frame, with `GameTick` for the Game arm.
  - Lemmas state what each function guarantees, and `Inv` is preserved by every frame.
- **Objects** (`Entities` classes, `Game`): `Player`, `Block`, `Ball` and `GameContext` are classes whose fields are updated in place, as the game does.
  - The lists of blocks and balls are sequences of object references.
  - `GameContext.View()` reads the objects back as a value of type `World`.
  - Every method is proved to change that view exactly as the value-level function says, for example `Frame` ensures `View() == Step(old(View()), inp)`.
  - Loops and `retain` become `for` loops with invariants, and `Distinct` says that no object appears twice in a list.

Host values are parameters of type `Input`:

- frame time, held arrow keys, Space pressed, and the screen size;
- `rolls`, the random block indices drawn by the level builder, used front to back;
- `draws(k)`, the velocity of the k-th ball created during a frame. The served ball takes the draw after those of the queued balls.

Behaviour modelled as the code has it:

- Both branches of the collision correction shift by the overlap's height. On the x branch this covers, and may overshoot, the horizontal overlap (`SideCorrectionCoversOverlap`).
- The level builder picks three times, with a single reroll when a pick repeats the previous one, so between one and three distinct blocks become spawners. `SpecialBlockCount` proves the 1 to 3 bound, and `DistinctDrawsGiveThree` and `RepeatedDrawsGiveOne` show that both ends occur.
- A block that already has no lives left is still in the list for the rest of the frame. A further hit on it scores again (`DeadBlockScoresAgain`), so two balls of one frame hitting a one-life block score 20 (`SameFrameKillScoresTwice`).
- A level completed in the same frame as the last life is lost ends in LevelCompleted, not Dead (`GameTickOutcome`).

## Model

| member | source | states |
|---|---|---|
| Geometry.Intersect | src/main.rs:134-137 | The overlap exists exactly when the max-left/min-right extents are non-negative on both axes, so touching edges count. It then lies inside both rectangles and has non-negative size. |
| Geometry.IntersectIsCommonPart | src/main.rs:134-137 | There is an overlap exactly when the two closed rectangles share a point, and the overlap covers exactly the points that lie in both. |
| Geometry.Collide | src/main.rs:132-161 | The collision step as a value. What it guarantees is proved in `CollideFacts`, `BounceHeadsAway`, `SideCorrectionCoversOverlap` and `TouchingEdgesCollide`. |
| Geometry.CollideFacts | src/main.rs:132-161 | `Collide` hits exactly when the rectangles overlap. On a miss, rectangle and velocity are unchanged. A wide overlap changes only y and vel.y, any other overlap only x and vel.x, and both shift by the overlap's height. Size is kept. The changed velocity keeps its magnitude and points away from `b`'s centre, and a zero centre difference counts as positive. |
| Geometry.ResolveCollision | src/main.rs:132-161 | The in-place collision step (detect, correct the position, set the velocity sign) returns exactly the hit flag, rectangle and velocity that `Collide` specifies. |
| Geometry.BounceHeadsAway | src/main.rs:138-159 | After a bounce, moving along the new velocity for any non-negative time never brings the rectangle's centre closer to `b`'s centre on the bounce axis. |
| Geometry.SideCorrectionCoversOverlap | src/main.rs:151-153 | On the x branch the shift equals the overlap's height, which is at least the overlap's width. |
| Geometry.TouchingEdgesCollide | src/main.rs:134-137 | Rectangles that share only a vertical edge collide, with a zero-width overlap. |
| Entities.NewPlayer | src/main.rs:34-43 | The new paddle is 150 × 40, centred horizontally, with its bottom 60 units above the screen's bottom. |
| Entities.Player.constructor | src/main.rs:34-43 | The paddle's rectangle is `NewPlayer(width, height)`. |
| Entities.PlayerStep | src/main.rs:45-61 | Before clamping, x moves by (right − left) · dt · 700. The result is clamped to at most `width − w`, and to at least 0 when the field is wide enough. y, w and h are unchanged. Each clamp case is stated separately. |
| Entities.Player.Update | src/main.rs:45-61 | The in-place update leaves the rectangle equal to `PlayerStep` of the old one. |
| Entities.PlayerStaysOnField | src/main.rs:45-61 | After any non-empty run of updates on a fixed field at least as wide as the paddle, the paddle lies in [0, width − w] and keeps y, w and h. |
| Entities.BallStep | src/main.rs:113-125 | The position advances by vel · dt · 400. Past the right edge vel.x becomes −1, past the left edge +1, and above the top vel.y becomes +1. Otherwise the velocity is kept, and nothing reacts to the bottom. |
| Entities.Ball.Update | src/main.rs:113-125 | The in-place update leaves the ball's state equal to `BallStep` of the old one. |
| Entities.BallIgnoresFloor | src/main.rs:113-125 | A ball on the field that is heading down keeps its vertical velocity and moves down by vel.y · dt · 400, however low it is. |
| Entities.NewBall | src/main.rs:106-111 | A new ball as a value. `Ball.constructor` is proved to build exactly this state. |
| Entities.NewBlock | src/main.rs:81-87 | A new block as a value. `NewBlockSurvivesFirstHit` and `TwoHitsDestroyNewBlock` prove that it stands one hit and falls to the second. |
| Entities.Ball.constructor | src/main.rs:106-111 | A new ball is 50 × 50 at the given point, with the given velocity. |
| Entities.Block.constructor | src/main.rs:81-87 | A new block is 100 × 40 at the given point, with 2 lives and the given type. |
| Level.Grid | src/main.rs:186-193 | The first builder loop as a value: 36 blocks. `GridCellsApart` proves that no two of them touch, and `GridMargins` places the grid. |
| Level.Mark | src/main.rs:202-209 | Retagging the picked indices as spawners, keeping the length. `MarkFacts` proves that only types change and exactly the picked blocks become spawners. |
| Level.NextPick | src/main.rs:196-210 | One pick with its one-shot reroll, as a value. `RepeatOnlyByReroll` proves which draws it takes, and `Game.MarkOne` is proved against it. |
| Level.Picks | src/main.rs:194-211 | After n picks there are n chosen indices, all taken from the draws, using between n and 2n draws. The last pick is the previous-pick register, which starts at 36. |
| Level.RepeatOnlyByReroll | src/main.rs:196-210 | A pick takes two draws exactly when its first draw equals the previous pick. It is then the second draw, unchecked, and otherwise the first draw. So a pick repeats the previous one only when two draws in a row both equal it. |
| Level.RerollSkipsPairs | src/main.rs:194-211 | Draws a, a, b, b, c, c (a a valid index) pick a, b and c: every repeat is absorbed by the reroll. |
| Level.MarkFacts | src/main.rs:202-209 | Retagging changes only types. A block is a spawner afterwards exactly when it was one before or its index was picked. |
| Level.LevelBlocks | src/main.rs:178-212 | The builder appends 36 blocks. Block i sits at board start + ((i % 6) · 105, (i / 6) · 45) with size 100 × 40 and 2 lives. Earlier blocks keep their place and lives. A block is a spawner exactly when it was one before or was picked. |
| Level.GridCellsApart | src/main.rs:186-193 | No two grid blocks overlap, not even along an edge. |
| Level.SlotsApart | src/main.rs:186-188 | Two different slots are a whole cell apart: along the row when their columns differ, down the column otherwise. |
| Level.GridMargins | src/main.rs:182-185 | The grid's left edge is at (width − 630) / 2. The right margin is wider by the 5-unit padding of the last cell. The last row's top is 5 cells below y = 50. |
| Level.SpecialBlockCount | src/main.rs:194-211 | On a fresh board the spawners are exactly the picked indices, and there are between 1 and 3 of them. |
| Level.FirstPickKept | src/main.rs:194-200 | The first pick is never rerolled (the register starts at 36), so it is the first draw. |
| Level.DistinctDrawsPicked | src/main.rs:194-211 | With three different first draws nothing is rerolled, and the picks are those draws. |
| Level.DistinctDrawsGiveThree | src/main.rs:194-211 | Three different first draws give exactly three spawners. |
| Level.RepeatedDrawsPicked | src/main.rs:200-206 | When every draw is the same index, every pick is that index, rerolls included. |
| Level.RepeatedDrawsGiveOne | src/main.rs:194-211 | Draws that keep repeating one index leave a single spawner. |
| Rules.HitOne | src/main.rs:261-269 | One resolve-and-score step as a value. `HitOneAccounting` proves what it does to the block, the score and the queue. |
| Rules.HitOneAccounting | src/main.rs:261-269 | One ball against one block: the ball leaves with `Collide`'s rectangle and velocity. The block keeps its place and type and loses one life exactly when `Collide` reports a hit. The ball scores 10 exactly when the hit leaves the block with no lives. It then queues one ball, at the corrected ball's corner, exactly when the block is a spawner, and nothing otherwise. |
| Rules.HitBlocks | src/main.rs:260-271 | One ball's pass over the blocks in list order, keeping the block count. `HitBlocksAccounting` and `HitBlocksPerBlock` prove its effect. |
| Rules.HitBlocksAccounting | src/main.rs:260-271 | One ball's pass over the block list takes at most one life from each block and moves nothing. It scores 10 per kill and queues one ball per killed spawner. |
| Rules.HitBlocksPerBlock | src/main.rs:260-271 | After a pass, each block is what `HitOne` makes of it with the ball as that ball reaches it, after the blocks before it. So it loses a life exactly when that ball hits it. |
| Rules.HitBlocksThreads | src/main.rs:260-271 | A pass threads the ball through the blocks. Block k+1 meets the ball as block k sent it. Each block's points and queued balls are added after those of the blocks before it. The pass ends with the ball that left the last block. |
| Rules.BallPass | src/main.rs:259-271 | One ball's turn: the paddle, then a pass over every block, keeping the block count. `SweepKeepsBlocks` and `SweepScores` prove its effect over all balls. |
| Rules.SweepBalls | src/main.rs:258-272 | Every ball takes its turn in list order against the blocks left by the balls before it. The ball and block counts are kept. |
| Rules.SweepThreads | src/main.rs:258-271 | The balls share one block list. Ball k takes its turn (paddle, then blocks) against the blocks as the balls before it left them. Its ball, points and queued balls are added after theirs. |
| Rules.TwoBallSweep | src/main.rs:258-271 | A sweep of two balls: the second ball's pass runs on the blocks the first one's pass left. Points and queues add up in ball order. |
| Rules.SingleBlockPass | src/main.rs:260-270 | A pass over a single block is that block's `HitOne`. |
| Rules.KillsBound | src/main.rs:263-268 | A pass never kills more spawners than blocks: the spawner-kill count is at most the kill count. |
| Rules.SweepKeepsBlocks | src/main.rs:258-272 | All balls in turn (paddle, then every block) keep every ball and every block, with places and types unchanged. Each block loses at most one life per ball. |
| Rules.SweepScores | src/main.rs:258-272 | A sweep's score is a non-negative multiple of 10, and at least 10 per queued ball. |
| Rules.SweptAccounting | src/main.rs:252-275 | Movement, collisions and the queued balls never shrink the ball list and keep the block count, lives and state. The score only grows, in steps of 10. |
| Rules.OnField | src/main.rs:278 | The ball filter keeps only balls above the bottom edge, never more than it had. |
| Rules.OnFieldCounts | src/main.rs:278 | The ball filter keeps every ball above the bottom edge and drops every other one. Each ball above the edge is kept as often as it occurs in the input. |
| Rules.OnFieldConcat | src/main.rs:278 | The ball filter keeps survivors in input order: filtering `s + t` is filtering `s`, then `t`, joined. |
| Rules.OnFieldKeepsOrDrops | src/main.rs:278 | The ball filter keeps only balls of its input. It keeps all of them exactly when none is below the edge, and none exactly when all are. |
| Rules.Standing | src/main.rs:293 | The block filter keeps only blocks with lives left, never more than it had. |
| Rules.StandingCounts | src/main.rs:293 | The block filter keeps every block with lives left and drops every other one. Each such block is kept as often as it occurs in the input. |
| Rules.StandingConcat | src/main.rs:293 | The block filter keeps survivors in input order: filtering `s + t` is filtering `s`, then `t`, joined. |
| Rules.StandingKeepsOrDrops | src/main.rs:293 | The block filter keeps only blocks of its input. It keeps none exactly when every block is out of lives, and changes nothing when all have lives. |
| Rules.ServePoint | src/main.rs:244-247 | Where a served ball appears, at the game start and after a lost ball (lines 284-287 use the same point). `OnlyGameRunsPhysics` and `LastBallLost` prove that both serves put the ball at the paddle point + (w/2 + 25, −50). |
| Rules.MoveBalls | src/main.rs:253-255 | Every ball takes one `BallStep`, in place in the list. `MovedAccounting` proves that no ball is removed and each is stepped, and `GameContext.UpdateBalls` is proved against it. |
| Rules.Moved | src/main.rs:252-255 | The movement phase as a value. `MovedAccounting` proves that only the paddle and the balls change, the paddle stays on a wide enough field, and no ball is removed. |
| Rules.MovedAccounting | src/main.rs:252-255 | Moving keeps state, score, lives and blocks and the number of balls. Each ball is its own `BallStep`. The paddle keeps y, w and h and lies in [0, width − w] when the field is wide enough. |
| Rules.Struck | src/main.rs:257-275 | Collisions and the appended queued balls as a value. `SweptAccounting` proves its accounting, and `GameContext.Strike` is proved against it. |
| Rules.Swept | src/main.rs:252-275 | Movement, collisions and queued balls. `SweptAccounting` proves that the ball list never shrinks and that the block count, lives and state are kept, with the score rising in steps of 10. |
| Rules.Spawned | src/main.rs:273-275 | The queued balls as new balls, one per queued point, the k-th at its point with velocity `draws(base + k)`. `GameContext.QueueSpawns` is proved against it. |
| Rules.AfterFall | src/main.rs:277-292 | Ball pruning and life loss as a value. `LastBallLost`, `BallStillInPlay` and `PruneOutcome` prove its cases. |
| Rules.AfterClear | src/main.rs:293-296 | Block pruning and the LevelCompleted check as a value. `PruneOutcome` and `GameTickOutcome` prove its effect. |
| Rules.GameTick | src/main.rs:251-296 | The Game arm as a value. `GameTickOutcome` and `GameTickKeepsInv` prove what one Game frame does. |
| Rules.Step | src/main.rs:239-348 | One frame of the state machine. `StepKeepsInv`, `OnlyGameRunsPhysics` and `ResetForgetsHistory` prove its transitions. |
| Rules.Inv | src/main.rs:219-348 | What holds between frames. It is established by `FreshGameInv` and preserved by `StepKeepsInv`. |
| Rules.FreshGame | src/main.rs:163-176 | The world `reset_game` and the program start produce. `FreshGameInv` and `ResetForgetsHistory` prove its shape. |
| Rules.LastBallLost | src/main.rs:277-292 | When every ball fell, exactly one life is lost. With a life left, exactly one ball is served at the paddle point + (w/2 + 25, −50). Otherwise no ball is left and the state is Dead. Score and blocks are unchanged. |
| Rules.BallStillInPlay | src/main.rs:277-280 | While some ball is above the edge, no life is lost and only the fallen balls go. |
| Rules.PruneOutcome | src/main.rs:277-296 | After pruning in Game, a life is lost exactly when all balls fell. The state is LevelCompleted exactly when no block has lives, and Dead exactly when all balls fell on the last life with blocks still standing. Only standing blocks remain. |
| Rules.GameTickOutcome | src/main.rs:251-296 | Over a whole Game frame, lives drop by one exactly when every ball, including those queued this frame, fell. The score grows in steps of 10. LevelCompleted is reached exactly when no block has lives, and it overrides Dead. The board keeps only standing blocks, and no ball is left exactly on game over. |
| Rules.FreshGameInv | src/main.rs:219-227 | The starting world satisfies the invariant: Menu, score 0, 3 lives, no balls, and 36 standing blocks. |
| Rules.StepKeepsInv | src/main.rs:239-348 | Every frame preserves the invariant: the score is a non-negative multiple of 10, lives are in 0..3, Game has a ball and a life, Dead has no lives, LevelCompleted has no blocks, and Menu has score 0, 3 lives, no balls and 36 standing blocks. |
| Rules.GameTickKeepsInv | src/main.rs:251-296 | A Game frame preserves the invariant. |
| Rules.ResetForgetsHistory | src/main.rs:163-176 | From LevelCompleted or Dead, Space yields the same fresh game whatever came before: Menu, score 0, 3 lives, no balls, a new paddle and 36 fresh standing blocks. |
| Rules.OnlyGameRunsPhysics | src/main.rs:239-250 | Outside Game a frame without Space changes nothing. From Menu, Space switches to Game and adds exactly one ball, served above the paddle. |
| Rules.LastBlockFalls | src/main.rs:260-264 | A ball hitting a lone block that has one life kills it and scores 10, and the board is then empty. |
| Rules.DeadBlockScoresAgain | src/main.rs:261-264 | A block already out of lives that is hit again loses another life and scores again. |
| Rules.SameFrameKillScoresTwice | src/main.rs:258-268 | Two balls of one frame that both hit a one-life block: the first kills it, the second still finds it in the shared list and kills it again. The frame scores 20, leaves it at −1 lives, and the block filter drops it. |
| Rules.NewBlockSurvivesFirstHit | src/main.rs:261-268 | A new block survives its first hit with one life, without score or spawn. |
| Rules.TwoHitsDestroyNewBlock | src/main.rs:261-268 | When a second ball hits the survivor of a first hit on a new block, the block dies, scores 10 and is cleared from the board. |
| Game.InitBlocks | src/main.rs:178-212 | Building the level on a block list appends 36 new objects. Afterwards the values of the list are `LevelBlocks` of its old values. |
| Game.PushGrid | src/main.rs:186-193 | The first builder loop appends 36 new, distinct blocks in grid order, each equal to its grid slot's value. |
| Game.MarkSpecials | src/main.rs:194-211 | The pick loop retags in place exactly the blocks `Mark` selects for the picks `Picks` draws. |
| Game.MarkOne | src/main.rs:195-210 | One pick with its one-shot reroll. It advances the draw position and the previous-pick register exactly as `NextPick` does, and retags in step with `Mark`. |
| Game.Retag | src/main.rs:202-209 | Retagging a block by index changes only that block's type. |
| Game.RetainOnField | src/main.rs:278 | The ball `retain` keeps, in order, the objects whose values `OnField` keeps. |
| Game.RetainStanding | src/main.rs:293 | The block `retain` keeps, in order, the objects whose values `Standing` keeps. |
| Game.GameContext.constructor | src/main.rs:219-227 | The program starts with the fresh game: Menu, score 0, 3 lives, new paddle, built blocks, no balls. |
| Game.GameContext.Reset | src/main.rs:163-176 | `reset_game` puts back the fresh game's paddle, score, lives, balls and blocks, whatever the prior state, and leaves the state to the caller. |
| Game.GameContext.Frame | src/main.rs:239-348 | One frame on the objects changes the view exactly as `Step` does. |
| Game.GameContext.Play | src/main.rs:251-296 | The Game arm changes the view exactly as `GameTick` does. |
| Game.GameContext.MoveAll | src/main.rs:252-255 | The paddle and every ball take one update step. |
| Game.GameContext.UpdateBalls | src/main.rs:253-255 | Every ball object takes one `BallStep`, and nothing else changes. |
| Game.GameContext.Strike | src/main.rs:257-275 | Collisions plus appending the queued balls change the view as `Struck` does. It reports how many balls were queued. |
| Game.GameContext.Collisions | src/main.rs:257-272 | The nested collision loop updates balls, blocks and score as `SweepBalls` does, and collects its spawn points. |
| Game.GameContext.SweepStep | src/main.rs:258-271 | One ball's turn extends the sweep of the balls before it by that ball. |
| Game.GameContext.BounceBall | src/main.rs:259-271 | One ball against the paddle and then every block gives the state, score and spawns of `BallPass`. |
| Game.GameContext.HitAll | src/main.rs:260-271 | One ball against every block in order gives the state, score and spawns of `HitBlocks`. |
| Game.GameContext.HitBlock | src/main.rs:261-269 | One resolve-and-score step gives the ball, block, score and spawn of `HitOne`. |
| Game.GameContext.QueueSpawns | src/main.rs:273-275 | The queued balls are appended in order as new objects, the k-th with velocity `draws(k)`. Earlier balls are kept, so the list's values become the old values followed by `Spawned`. |
| Game.GameContext.DropFallenBalls | src/main.rs:277-292 | Ball pruning and life loss change the view exactly as `AfterFall` does. |
| Game.GameContext.ClearDeadBlocks | src/main.rs:293-296 | Block pruning and the LevelCompleted check change the view exactly as `AfterClear` does. |

## Left out

- Drawing (the `draw` methods, the background, the title, score and lives text) and font and asset loading are presentation and file I/O. They are not modelled.
- The async frame loop and `next_frame` are left out. One call of `Frame` (or `Step`) is one iteration.
- `is_key_down`, `is_key_pressed`, `get_frame_time`, `screen_width` and `screen_height` are parameters (`Input`). Each frame is modelled as reading one screen size.
- `rand::gen_range` becomes parameters. `rolls` is the builder's index draws, required to be in range. `draws(k)` is the k-th new ball's velocity in a frame.
- `normalize()` in `Ball::new` needs a square root, so a new ball's velocity is taken as given.
- `println!` output in the level builder is not modelled.
- f32 arithmetic is modelled as exact reals, with no rounding, NaN or infinities. `signum` is modelled for non-NaN values.
- i32 overflow of `score` and `lives` is not modelled (integers are unbounded). Neither can grow large in play.
- Game.GameContext.Collisions: the paddle rectangle is read once before the loop rather than at every ball. Nothing in the loop changes it.
- Game.GameContext.HitBlock: a killed spawner's ball is returned as a position, and the ball object is created after the loop (`QueueSpawns`). That is the same order and the same draws as creating it at the kill, because nothing else draws in between.
- Geometry.ResolveCollision: the `&mut` rectangle and velocity are returned as new values rather than written through references.
