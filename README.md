# An entity-component registry and a terminal snake game, in Dafny

This project models two parts of a small C entity-component system (ECS) written as a single header:

* the registry of `ecs.h`;
* the terminal snake game of `examples/snake.c`, which is built on it.

**The registry** (module `Ecs`, file `ecs.dfy`) has three parts:

* **The entity table and the free list.** The table is a growable array of `Entity {mask, id}` records indexed by id. Next to it is `dead_entities`, a LIFO free list of recycled ids. Both arrays are instances of one class, `DynArray`, which carries the `ecs_da_*` macros:
  * reserve: the capacity starts at 256 and doubles;
  * append;
  * last;
  * remove-unordered;
  * the freeing done by `ecs_deinit`.
* **`World`.** This class holds both arrays and the static counter of `component_type_iota`. Its methods are `spawn_entity`, `despawn_entity`, `get_entity_with_id`, the two query loops (`QueryByComponents`, `QueryById`) and `ecs_deinit`.
* **`ComponentStore<T>`.** One instance exists per `Component(name, ...)` declaration. It holds that type's `COMP_<name>` mask and its fixed array of 100 values, and it provides `register_`, `get_` and `add_`.

A mask is the set of the positions of its 1-bits. So `(m & r) == r` is `r <= m`, `|` is union and `1 << k` is `{k}`. Every bit must lie below 32.

**The game** (module `Snake`, file `snake.dfy`) has two layers:

* **Methods on the registry's classes.** These are the game's systems, in the source's imperative form:
  * the steering switch of `input_system`;
  * the shifting history buffer, the wrap-around and the body loop of `movement_system`;
  * the head, body and food loops of `collision_system`, which spawn a segment per meal;
  * `spawn_snake` and `spawn_food`;
  * the board fill of `render_system`.

  The class `Game` gathers them. Its fields are the registry, the six component stores, `game_state` and the history buffer.
* **Functions over plain values.** Each method is proved equal to one of them:
  * `Steer`/`SteerAll` for input;
  * `Recorded`, `Step` and `FollowAll` (combined in `MoveAll` over a `Motion`) for movement;
  * `Eat`, `EatAll` and `CollideAll` over a `Scene` for collision;
  * `Paint` for render.

  The lemmas state what these functions do.

The source's `snake.c` calls the registry's functions as `ecs_spawn_entity` and `ECSEntity`, and `ecs.h` does not declare those names. The model reads them as `spawn_entity` and `Entity` (ecs.h:77, 105).

## Model

| member | source | states |
|---|---|---|
| Ecs.Bit | ecs.h:57 | `1 << k` for k below 32 is a mask with exactly one bit, bit k |
| Ecs.BitsDisjoint | ecs.h:133-136 | two registrations with different counter values get different masks that share no bit |
| Ecs.HasComponents | ecs.h:129-131 | the `(mask & r) == r` test, as `r` being a subset of the mask; it has no contract of its own, and its meaning is carried by HasComponentsNoneMissing, HasComponentsUnion, HasOneComponent and HasComponentsEmpty below |
| Ecs.HasComponentsNoneMissing | ecs.h:129-131 | `has_components(e, m)` holds exactly when no bit of m is missing from e's mask |
| Ecs.HasComponentsUnion | ecs.h:129-131 | a request for the union of two masks matches exactly when each mask matches |
| Ecs.HasOneComponent | ecs.h:129-131 | for a single bit the test is that the bit is set |
| Ecs.HasComponentsEmpty | ecs.h:129-131 | mask 0 matches every entity, and an entity with mask 0 (a despawned one) matches only 0 |
| Ecs.HasComponentsMonotone | ecs.h:61 | ORing bits into a mask keeps every earlier match, and the added bits match |
| Ecs.Doubled | ecs.h:27-29 | the doubling loop ends at a capacity at least the expected one and at least the start |
| Ecs.ReservedCapacity | ecs.h:21-33 | the capacity after reserve is at least the old capacity and at least the expected one |
| Ecs.ReservedCapacityShape | ecs.h:21-33 | reserve leaves a sufficient capacity unchanged; otherwise it gives 256·2^k from 0, or cap·2^k, for the least k that suffices |
| Ecs.DoubledIsLeastPower | ecs.h:24-29 | the doubling loop from c stops at c·2^k, and c·2^(k-1) would not have been enough |
| Ecs.ReservedInSteps | ecs.h:35-39 | appending one item at a time ends at the capacity of a single reservation for the final count |
| Ecs.DynArray.constructor | ecs.h:89-90 | a static array starts with no items and capacity 0 |
| Ecs.DynArray.Reserve | ecs.h:21-33 | the array stays well formed, the capacity becomes the one the growth rule gives, and the items are untouched |
| Ecs.DynArray.Append | ecs.h:35-39 | the old items are kept, the new item is at the old count and the count grows by one; the capacity follows the growth rule |
| Ecs.DynArray.Last | ecs.h:42 | the last item when the count is positive, none where the assertion aborts |
| Ecs.DynArray.DropLast | ecs.h:109 | the array stays well formed, the count drops by one and the other items are kept |
| Ecs.DynArray.RemoveUnordered | ecs.h:43-48 | the last item moves into slot i and the count drops by one; an index out of range is the aborting case and changes nothing |
| Ecs.RemoveUnorderedKeepsRest | ecs.h:43-48 | after remove-unordered the items are exactly the old ones minus the removed one, as a multiset |
| Ecs.DynArray.Clear | ecs.h:139-142 | freeing leaves no items and capacity 0 |
| Ecs.Matching | ecs.h:66-67 | every slot the scan yields is a slot of the table |
| Ecs.MatchingExactly | ecs.h:66-67 | a slot is yielded exactly when its entity has every requested bit |
| Ecs.MatchingIncreasing | ecs.h:66-67 | the scan yields slots in strictly increasing order, so none twice |
| Ecs.MatchingAppendOther | ecs.h:66-67 | appending an entity without the requested bits leaves the scan unchanged |
| Ecs.MatchingUpdateOther | ecs.h:66-67 | changing a slot between two masks that both fail the request leaves the scan unchanged |
| Ecs.MatchingId | ecs.h:68-69 | every slot the id scan yields carries the requested id |
| Ecs.MatchingIdAtMostOne | ecs.h:68-69 | while slot i holds id i, the id scan yields slot `id` if it exists and nothing otherwise |
| Ecs.AddKeepsFreeSlotsClear | ecs.h:59-63 | add_ on a live slot keeps every free-list slot at mask 0; the entity keeps its other bits and gains the new one |
| Ecs.World.constructor | ecs.h:89-90 | the static registry starts with both arrays empty and the counter at 0 |
| Ecs.World.ComponentTypeIota | ecs.h:133-136 | returns the counter and increments it |
| Ecs.World.Spawn | ecs.h:105-118 | with a free list it pops the most recently freed id and leaves the table alone; without one it appends `{mask 0, id count}`; slot i keeps id i; free slots stay clear |
| Ecs.World.Despawn | ecs.h:120-123 | the slot's mask becomes 0, its id is pushed on the free list, and nothing else changes |
| Ecs.World.EntityWithId | ecs.h:125-127 | the entity at slot id carries that id |
| Ecs.World.QueryByComponents | ecs.h:66-67 | the foreach loop yields exactly the matching slots in table order |
| Ecs.World.QueryById | ecs.h:68-69 | the foreach loop yields exactly the slots carrying the id |
| Ecs.World.Deinit | ecs.h:138-147 | both arrays are empty with capacity 0; the counter is left as it is |
| Ecs.ComponentStore.constructor | ecs.h:54-56 | COMP_<name> starts at 0 and the array has 100 slots |
| Ecs.ComponentStore.Register | ecs.h:57 | the first call sets the mask to the bit of the next counter value; a later call changes neither the mask nor the counter |
| Ecs.ComponentStore.Get | ecs.h:58 | `get_` reads the slot of the entity's id; it has no contract beyond its `requires`, which is that the id is below 100, and ComponentStore.Set and ComponentStore.Add state what a later read gives |
| Ecs.ComponentStore.Set | ecs.h:58 | a write through get_ changes that entity's slot only, which then reads back the value |
| Ecs.ComponentStore.Add | ecs.h:59-63 | when unregistered it fails and changes nothing; otherwise the mask gains COMP_<name> and slot id holds the value |
| Ecs.RecycleScenario | ecs.h:105-123 | spawn three entities, give the third a component, despawn id 1 and spawn again: id 1 comes back, and the query for the component yields exactly slot 2 |
| Ecs.OnlyThirdMatches | ecs.h:66-67 | in the table `{0, id 0}, {0, id 1}, {bit 0, id 2}` the scan for bit 0 yields slot 2 alone |
| Ecs.RegisterScenario | ecs.h:57 | register A, B, A: A keeps mask 1 and B gets mask 2 |
| Ecs.AddScenario | ecs.h:59-63 | after adding bits 0 and 1, an entity matches either bit and both bits, but not bit 2 |
| Snake.Steer | examples/snake.c:61-82 | a movement key turns the snake to its direction unless that reverses the current motion on that axis; other keys leave the velocity unchanged |
| Snake.SteerNeverReverses | examples/snake.c:61-77 | a unit velocity stays a unit velocity and never becomes its own reverse |
| Snake.SteerAll | examples/snake.c:58-83 | the steering of the listed snakes in scan order keeps one velocity per slot; SteerAllAt states which slots it changes and how |
| Snake.SteerAllAt | examples/snake.c:58-83 | each steerable snake is steered once by the key, and every other velocity is unchanged |
| Snake.Recorded | examples/snake.c:95-103 | the buffer keeps 400 entries and the count never exceeds 400 |
| Snake.RecordKeepsLatest | examples/snake.c:95-103 | the recorded prefix of the buffer is always the latest (at most 400) head positions, oldest first: appended while there is room, otherwise the oldest is dropped |
| Snake.WrapCoord | examples/snake.c:108-111 | the wrapped coordinate always lies in `0 .. size - 1`, and a coordinate already on the board is kept; WrapIsModulo relates it to the modulo |
| Snake.WrapIsModulo | examples/snake.c:108-111 | after a step of at most one cell, the wrap gives the coordinate modulo the board size |
| Snake.Step | examples/snake.c:105-111 | the head's position after a move and the wrap is always on the board, whatever the velocity; StepOnTorus gives the toroidal coordinates |
| Snake.StepOnTorus | examples/snake.c:105-111 | a head on the 40 x 10 board with velocity components in {-1, 0, 1} is on the board after moving, at toroidal coordinates |
| Snake.FollowAll | examples/snake.c:113-123 | the body loop over the segments in scan order keeps one position per slot; FollowAllAt states which slots move and to which history entry |
| Snake.FollowAllAt | examples/snake.c:113-123 | a segment with index i < length and i < count - 1 takes history slot count - 2 - i; every other slot keeps its position |
| Snake.MoveOne | examples/snake.c:91-123 | one head's record, move, wrap and follow keeps 100 positions and a history of 400 entries with at most 400 recorded; its parts are stated by RecordKeepsLatest, StepOnTorus and FollowAllAt |
| Snake.MoveAll | examples/snake.c:90-124 | after a movement pass there are still 100 positions, and the history holds at most 400 entries |
| Snake.Eat | examples/snake.c:141-153 | one food test keeps the scene well formed (100 slots per store, the table within them); EatGrows and EatAddsSegment state its effect |
| Snake.EatGrows | examples/snake.c:142-153 | a head on a food: length + 1, score + 10, one appended entity at the head with index length - 1 and symbol 'o', food moved to spot, everything else unchanged; a head elsewhere changes nothing |
| Snake.EatAddsSegment | examples/snake.c:146-149 | the spawned entity is one more segment for the body queries and one more entity to draw, and not a food |
| Snake.EatAll | examples/snake.c:140-154 | a food loop only appends entities, segments only, at most one per food |
| Snake.GrowthKeepsQuery | examples/snake.c:140-149 | appended segments leave every query they lack a bit of unchanged, so a live scan and a snapshot agree |
| Snake.EatAllScores | examples/snake.c:140-154 | a food loop never stops the game and adds 10 points per spawned segment |
| Snake.EatAllKeepsFoodOnBoard | examples/snake.c:140-153 | food on the board stays on the board through a food loop when the new spot is on the board |
| Snake.StandsOn | examples/snake.c:132-137 | some listed entity stands at the position; it is a predicate without a contract, and HeadOnBody proves the body loop computes it |
| Snake.CollideAll | examples/snake.c:127-157 | the head loop over a snapshot of the heads; it has no contract of its own, and CollideStep, CollideAllGrows, CollideAllScores, CollideAllKeepsFoodOnBoard and CollideAllKeepsHeads state what a pass does |
| Snake.CollideStep | examples/snake.c:128-156 | a head on the body stops the game and ends the pass; otherwise it eats and the pass continues with the other heads, with room left for them |
| Snake.CollideAllGrows | examples/snake.c:127-157 | over a collision pass the table only grows, by segments appended at its end |
| Snake.CollideAllScores | examples/snake.c:127-157 | over a pass the score rises by 10 per spawned segment, and the game can stop but never restart |
| Snake.CollideAllKeepsFoodOnBoard | examples/snake.c:127-157 | food on the board stays on the board through a pass |
| Snake.CollideAllEffect | examples/snake.c:127-157 | over a pass the table grows by segments only, the score rises by 10 per segment, and running never turns back on |
| Snake.CollideAllKeepsHeads | examples/snake.c:127-157 | segments spawned during a pass leave the SnakeHead query unchanged, so the snapshot of heads agrees with a live scan |
| Snake.Paint | examples/snake.c:165-171 | the filled board is always 10 rows of 40 cells; PaintBlank and PaintLast state what each cell shows |
| Snake.PaintBlank | examples/snake.c:162-171 | a cell that no drawn entity stands on stays blank |
| Snake.PaintLast | examples/snake.c:165-171 | a cell shows the symbol of the last drawn entity in scan order standing on it; off-board entities are skipped |
| Snake.GameState.constructor | examples/snake.c:31 | game_state starts as not running with score 0 |
| Snake.PositionHistory.constructor | examples/snake.c:87-88 | the buffer starts zeroed with count 0 |
| Snake.PositionHistory.Record | examples/snake.c:95-103 | the in-place shift loop and the store give exactly the buffer and count of the recording rule |
| Snake.RegisterAll | examples/snake.c:220-225 | the six registrations give Position..Renderable the bits 0..5, in order |
| Snake.AddSegmentParts | examples/snake.c:147-149 | a segment gets Position, SnakeBody and Renderable 'o' at its id, and nothing else changes |
| Snake.SpawnSegment | examples/snake.c:146-149 | a new segment is appended at id count, with its three components; the free list stays empty and its capacity unchanged |
| Snake.AddHeadParts | examples/snake.c:197-200 | the head gets Position (20,5), Velocity (1,0), SnakeHead 3 and Renderable '@' |
| Snake.SpawnHead | examples/snake.c:196-200 | the head is appended at id count with its four components |
| Snake.SpawnBody | examples/snake.c:202-207 | three segments with indices 0, 1, 2 are appended at x = 19, 18, 17, y = 5 |
| Snake.SpawnSnake | examples/snake.c:195-208 | head then three segments are appended with their components; everything else is unchanged |
| Snake.AddFoodParts | examples/snake.c:212-214 | the food gets Position spot, Food 1 and Renderable '*' |
| Snake.SpawnFood | examples/snake.c:210-215 | a food entity is appended at id count at spot, which is on the board as the two `rand()` draws make it |
| Snake.SteerSnakes | examples/snake.c:58-83 | the loop steers exactly as SteerAll; q/Q clears running when there is a snake, and any other key leaves running alone |
| Snake.FollowBodies | examples/snake.c:113-123 | the body loop moves the segments exactly as FollowAll |
| Snake.MoveHead | examples/snake.c:91-123 | record, move, wrap and follow for one head, exactly as MoveOne |
| Snake.MoveHeads | examples/snake.c:90-124 | the head loop moves exactly as MoveAll |
| Snake.HeadOnBody | examples/snake.c:132-138 | the body loop finds a hit exactly when the head stands on a segment |
| Snake.EatOne | examples/snake.c:141-153 | one food test changes the registry, stores and score exactly as Eat, and leaves the free list's capacity alone |
| Snake.EatFoods | examples/snake.c:140-154 | the food loop changes them exactly as EatAll over the foods in scan order, and leaves the free list's capacity alone |
| Snake.CollideOne | examples/snake.c:128-155 | one head: a hit stops the game and is the pass's result; a miss eats and leaves the rest of the pass to do; the free list's capacity is kept |
| Snake.CollideHeads | examples/snake.c:128-156 | the head loop changes the registry, stores and game_state exactly as CollideAll, and keeps the free list's capacity |
| Snake.Draw | examples/snake.c:162-171 | the filled board is Paint of the drawable entities |
| Snake.StartQueries | examples/snake.c:195-215 | in the starting table the head, move and steer queries find slot 0, the body query slots 1..3, the food query slot 4, and the draw query all five |
| Snake.StartRoom | examples/snake.c:127-157 | the starting table leaves room for its one head to eat its one food, so a first collision pass may run |
| Snake.StartGame | examples/snake.c:228-231 | running is set, and the table is head, three segments, food at ids 0..4 with their components; the entity capacity is 256, the free list's capacity is unchanged, and every other store slot is unchanged |
| Snake.Game.constructor | examples/snake.c:220-225 | an empty registry with the six types registered, history count 0, not running, score 0; the registry, its two arrays, the six component arrays, game_state and the history buffer are all new objects |
| Snake.Game.Start | examples/snake.c:228-231 | running with the score unchanged, the initial snake and food of spawn_snake and spawn_food, the food on the board, every other store slot unchanged, entity capacity 256 |
| Snake.Game.Input | examples/snake.c:53-84 | the registry is untouched; no key changes nothing; a key steers every snake with SnakeHead and Velocity, and q/Q stops the game when there is a snake to steer |
| Snake.Game.Movement | examples/snake.c:86-125 | the registry is untouched; positions and the history buffer become those of MoveAll over the moving heads |
| Snake.Game.Collision | examples/snake.c:127-157 | the registry, stores and game_state become those of CollideAll over the heads; the free list's capacity is kept |
| Snake.Game.Render | examples/snake.c:159-171 | the board holds Paint of the entities with Position and Renderable |
| Snake.Update | examples/snake.c:242-244 | input, movement and collision in order keep the game valid; the table only grows by segments, the score rises by 10 per new segment, and a stopped game stays stopped |
| Snake.Tick | examples/snake.c:241-246 | one pass of main's loop: what Update promises, and the drawn 10 x 40 board holds Paint of the new state's drawable entities in every cell |
| Snake.FirstTick | examples/snake.c:217-254 | main's sequence runs on a new game: registrations, start, one tick, then ecs_deinit leaves both registry arrays empty with capacity 0 |

## Left out

- Terminal raw mode, `kbhit`, `getchar`, the `printf` drawing of borders, score and controls, and the saved `old_termios` are I/O. The pressed key, or none, is a parameter of `Input`.
- The timing loop of `main` (`clock_gettime`, `usleep`, the 0.15 s floating-point test) is not modelled, because it is wall-clock time and floating point. `Tick` is one pass of the loop body, without its elapsed-time test; `FirstTick` runs main's setup, one such pass and `ecs_deinit`. Repeating the pass while `running` holds is not modelled.
- `srand`/`rand()` are not modelled. The food position is a parameter `spot` of `Start`, `StartGame`, `SpawnFood` and `Collision`, each of which requires it to be on the board as `rand() % BOARD_WIDTH` and `rand() % BOARD_HEIGHT` guarantee. Every meal in one collision pass moves its food to the same `spot`.
- `game.c` (raylib window and drawing) and `nob.c` (build helper) are not part of this model.
- `realloc`, `free` and the out-of-memory assertion are not modelled. The arrays are sequences plus a capacity number.
- Pointer invalidation is not modelled. In the source, `spawn_entity` can reallocate `entities` during a query loop. Here a query is the list of slots taken when the loop starts. Segments spawned in the food loop carry neither the Food nor the SnakeHead bit, so the list agrees with a live scan. `GrowthKeepsQuery` proves this for the Food query, and `CollideAllKeepsHeads` proves it for the SnakeHead query over a whole pass.
- Snake.Game.Collision: requires room in the 100 slots for every head to eat every food (`RoomFor`). The source writes the 100-slot arrays unchecked when ids reach 100. This bound is stronger than the exact condition, which is that no id reaches 100 during the pass.
- Snake.Update: requires the same `RoomFor` bound as Snake.Game.Collision, for the collision pass it runs.
- Snake.Tick: requires the same `RoomFor` bound, through Snake.Update.
- Ecs.ComponentStore.Register: requires fewer than 32 earlier registrations, because `1 << 32` and beyond overflow the mask.
- Ecs.World.Despawn: requires the id not to be on the free list already. A double despawn is not guarded by the source.
- Ecs.ComponentStore.Add: requires the id to be below 100, because the source indexes the array unchecked.
- Ecs.World.EntityWithId: requires the id to be in range, because the source does not check it.
- Snake.CollideHeads: the head loop is written as recursion over the heads not yet visited, not as a `for` loop. The early `return` ends the recursion.
- Masks are sets of bit positions, not 32-bit words. `1 << 31` on a signed `int` is taken as bit 31.
- Component slots that were never written are unconstrained in the model, where C zeroes the static arrays.
- Lengths, segment indices and counts are non-negative integers without 32-bit wrap-around. The game only ever sets them to 0..3, increments them, or sets a segment index to a length minus one right after incrementing that length (examples/snake.c:148), so none is ever negative.
- `ecs_da_foreach` appears only through the two query loops.
- Aborting paths are modelled as a false or None result with no change: `add_` on an unregistered type, `ecs_da_last` on an empty array, `ecs_da_remove_unordered` out of range.
- `Game.Start` is split from the constructor. The constructor covers the zeroed statics and the six registrations; `Start` covers `running = true`, `spawn_snake` and `spawn_food`.
- Scene does not hold the free list or the component stores that collision does not touch.
