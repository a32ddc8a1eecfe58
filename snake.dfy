/** The snake game of examples/snake.c on top of the registry: the key press
    steers the head, the head's old position is kept in a bounded history,
    the head moves and wraps round the 40 x 10 board, body segments take the
    recorded positions, and a head on the body ends the game while a head on
    the food grows the snake. Each system is a method of `Game` proved
    against a function over plain values; the lemmas say what those
    functions do. */
module Snake {
  import opened Ecs

  const BOARD_WIDTH: int := 40
  const BOARD_HEIGHT: int := 10
  const MAX_SNAKE_LENGTH: nat := 400   // BOARD_WIDTH * BOARD_HEIGHT

  // The bits the six registrations in main hand out, in order.
  const POSITION: nat := 0
  const VELOCITY: nat := 1
  const SNAKE_HEAD: nat := 2
  const SNAKE_BODY: nat := 3
  const FOOD: nat := 4
  const RENDERABLE: nat := 5

  // The component masks the systems query and build.
  const STEER_QUERY: Mask := {SNAKE_HEAD, VELOCITY}
  const MOVE_QUERY: Mask := {SNAKE_HEAD, POSITION, VELOCITY}
  const BODY_QUERY: Mask := {SNAKE_BODY, POSITION}
  const HEAD_QUERY: Mask := {SNAKE_HEAD, POSITION}
  const FOOD_QUERY: Mask := {FOOD, POSITION}
  const DRAW_QUERY: Mask := {POSITION, RENDERABLE}
  const SEGMENT_MASK: Mask := {POSITION, SNAKE_BODY, RENDERABLE}

  // The six component types. Lengths and segment indices are C ints that the
  // game only ever sets to 0..3, increments, or sets to a length minus one
  // after an increment, so they are never negative.
  datatype Position = Position(x: int, y: int)
  datatype Velocity = Velocity(dx: int, dy: int)
  datatype SnakeHead = SnakeHead(length: nat)
  datatype SnakeBody = SnakeBody(segmentIndex: nat)
  datatype Food = Food(value: int)
  datatype Renderable = Renderable(symbol: char)

  predicate OnBoard(p: Position) {
    0 <= p.x < BOARD_WIDTH && 0 <= p.y < BOARD_HEIGHT
  }

  // ----------------------------------------------------------------------
  // input_system
  // ----------------------------------------------------------------------

  /** The direction a movement key asks for, in either case. */
  function Direction(key: char): Option<Velocity> {
    if key == 'w' || key == 'W' then Some(Velocity(0, -1))
    else if key == 's' || key == 'S' then Some(Velocity(0, 1))
    else if key == 'a' || key == 'A' then Some(Velocity(-1, 0))
    else if key == 'd' || key == 'D' then Some(Velocity(1, 0))
    else None
  }

  predicate Quits(key: char) {
    key == 'q' || key == 'Q'
  }

  /** A turn to d is refused when the current motion along d's axis points the other way. */
  predicate Opposes(v: Velocity, d: Velocity) {
    if d.dx == 0 then v.dy == -d.dy else v.dx == -d.dx
  }

  /** The switch of input_system for one snake. */
  function Steer(v: Velocity, key: char): (r: Velocity)
    ensures Direction(key).None? ==> r == v
    ensures Direction(key).Some? ==> r == if Opposes(v, Direction(key).value) then v else Direction(key).value
  {
    match key
    case 'w' | 'W' => if v.dy != 1 then Velocity(0, -1) else v
    case 's' | 'S' => if v.dy != -1 then Velocity(0, 1) else v
    case 'a' | 'A' => if v.dx != 1 then Velocity(-1, 0) else v
    case 'd' | 'D' => if v.dx != -1 then Velocity(1, 0) else v
    case _ => v
  }

  predicate IsUnit(v: Velocity) {
    v in {Velocity(1, 0), Velocity(-1, 0), Velocity(0, 1), Velocity(0, -1)}
  }

  /** A snake moving along an axis keeps moving along an axis and never turns
      straight back onto itself. */
  lemma SteerNeverReverses(v: Velocity, key: char)
    requires IsUnit(v)
    ensures IsUnit(Steer(v, key))
    ensures Steer(v, key) != Velocity(-v.dx, -v.dy)
  {
  }

  /** Steering the snakes `heads` in scan order. */
  function SteerAll(vel: seq<Velocity>, heads: seq<nat>, key: char): (r: seq<Velocity>)
    requires forall k :: 0 <= k < |heads| ==> heads[k] < |vel|
    ensures |r| == |vel|
  {
    if heads == [] then vel
    else
      var n := |heads| - 1;
      var w := SteerAll(vel, heads[..n], key);
      w[heads[n] := Steer(w[heads[n]], key)]
  }

  /** Each listed snake is steered once, every other velocity is unchanged. */
  lemma {:induction false} SteerAllAt(vel: seq<Velocity>, heads: seq<nat>, key: char, i: nat)
    requires forall k :: 0 <= k < |heads| ==> heads[k] < |vel|
    requires Increasing(heads) && i < |vel|
    ensures SteerAll(vel, heads, key)[i] == if i in heads then Steer(vel[i], key) else vel[i]
  {
    if heads != [] {
      var n := |heads| - 1;
      SteerAllAt(vel, heads[..n], key, i);
      if i == heads[n] {
        assert i !in heads[..n];
      }
    }
  }

  // ----------------------------------------------------------------------
  // movement_system
  // ----------------------------------------------------------------------

  /** The history buffer after recording p: appended while there is room,
      otherwise everything shifts one place left and p goes last. */
  function Recorded(hist: seq<Position>, count: nat, p: Position): (r: (seq<Position>, nat))
    requires |hist| == MAX_SNAKE_LENGTH && count <= MAX_SNAKE_LENGTH
    ensures |r.0| == MAX_SNAKE_LENGTH && r.1 <= MAX_SNAKE_LENGTH
  {
    if count < MAX_SNAKE_LENGTH then (hist[count := p], count + 1)
    else (hist[1..] + [p], count)
  }

  /** The most recent MAX_SNAKE_LENGTH entries of a trail. */
  function Latest(trail: seq<Position>): (r: seq<Position>)
    ensures |r| <= MAX_SNAKE_LENGTH
  {
    if |trail| <= MAX_SNAKE_LENGTH then trail else trail[|trail| - MAX_SNAKE_LENGTH..]
  }

  /** The recorded part of the buffer is always the latest head positions, oldest first. */
  lemma RecordKeepsLatest(hist: seq<Position>, count: nat, trail: seq<Position>, p: Position)
    requires |hist| == MAX_SNAKE_LENGTH && count <= MAX_SNAKE_LENGTH
    requires count == |Latest(trail)| && hist[..count] == Latest(trail)
    ensures Recorded(hist, count, p).1 == |Latest(trail + [p])|
    ensures Recorded(hist, count, p).0[..Recorded(hist, count, p).1] == Latest(trail + [p])
  {
    var t := trail + [p];
    if count < MAX_SNAKE_LENGTH {
      assert hist[count := p][..count + 1] == hist[..count] + [p];
    } else {
      assert Latest(t) == Latest(trail)[1..] + [p];
    }
  }

  /** One coordinate after the move: off one edge, back in at the opposite one. */
  function WrapCoord(v: int, size: int): (r: int)
    ensures size > 0 ==> 0 <= r < size
    ensures 0 <= v < size ==> r == v
  {
    if v < 0 then size - 1 else if v >= size then 0 else v
  }

  /** A step of at most one cell from a cell of the board lands on the board,
      at the coordinate taken modulo the board size. */
  lemma WrapIsModulo(v: int, size: int)
    requires size > 0 && -1 <= v <= size
    ensures 0 <= WrapCoord(v, size) < size
    ensures WrapCoord(v, size) == v % size
  {
    if v == -1 {
      assert (-1) % size == size - 1;
    }
  }

  /** The head's position after one move. */
  function Step(p: Position, v: Velocity): (r: Position)
    ensures OnBoard(r)
  {
    Position(WrapCoord(p.x + v.dx, BOARD_WIDTH), WrapCoord(p.y + v.dy, BOARD_HEIGHT))
  }

  predicate IsStep(v: Velocity) {
    -1 <= v.dx <= 1 && -1 <= v.dy <= 1
  }

  /** A head on the board with a velocity of unit components stays on the
      board, moving as on a torus. */
  lemma StepOnTorus(p: Position, v: Velocity)
    requires OnBoard(p) && IsStep(v)
    ensures OnBoard(Step(p, v))
    ensures Step(p, v) == Position((p.x + v.dx) % BOARD_WIDTH, (p.y + v.dy) % BOARD_HEIGHT)
  {
    WrapIsModulo(p.x + v.dx, BOARD_WIDTH);
    WrapIsModulo(p.y + v.dy, BOARD_HEIGHT);
  }

  /** Whether segment `seg` of a snake of this length is moved, given the
      number of recorded positions, and from which history slot. */
  predicate Follows(seg: nat, length: nat, count: nat) {
    seg < length && seg < count - 1 && count - 2 - seg >= 0
  }

  /** The body loop of movement_system: segments in scan order. */
  function FollowAll(pos: seq<Position>, bodies: seq<nat>, body: seq<SnakeBody>, length: nat,
                     hist: seq<Position>, count: nat): (r: seq<Position>)
    requires forall k :: 0 <= k < |bodies| ==> bodies[k] < |pos| && bodies[k] < |body|
    requires count <= |hist|
    ensures |r| == |pos|
  {
    if bodies == [] then pos
    else
      var n := |bodies| - 1;
      var q := FollowAll(pos, bodies[..n], body, length, hist, count);
      var b := bodies[n];
      if Follows(body[b].segmentIndex, length, count) then q[b := hist[count - 2 - body[b].segmentIndex]]
      else q
  }

  /** Segment i of length L takes the position recorded i + 1 moves ago,
      the newest record being the head's position before this move;
      segments outside the range keep their place. */
  lemma {:induction false} FollowAllAt(pos: seq<Position>, bodies: seq<nat>, body: seq<SnakeBody>, length: nat,
                                      hist: seq<Position>, count: nat, i: nat)
    requires forall k :: 0 <= k < |bodies| ==> bodies[k] < |pos| && bodies[k] < |body|
    requires count <= |hist| && Increasing(bodies) && i < |pos| && i < |body|
    ensures FollowAll(pos, bodies, body, length, hist, count)[i] ==
      if i in bodies && Follows(body[i].segmentIndex, length, count)
      then hist[count - 2 - body[i].segmentIndex] else pos[i]
  {
    if bodies != [] {
      var n := |bodies| - 1;
      FollowAllAt(pos, bodies[..n], body, length, hist, count, i);
      if i == bodies[n] {
        assert i !in bodies[..n];
      }
    }
  }

  /** The data movement_system changes: positions and the history buffer. */
  datatype Motion = Motion(pos: seq<Position>, hist: seq<Position>, count: nat)

  predicate MotionShape(m: Motion) {
    |m.pos| == SLOTS && |m.hist| == MAX_SNAKE_LENGTH && m.count <= MAX_SNAKE_LENGTH
  }

  /** One head of movement_system: record, move, wrap, then move the segments. */
  function MoveOne(m: Motion, h: nat, vel: seq<Velocity>, head: seq<SnakeHead>,
                   bodies: seq<nat>, body: seq<SnakeBody>): (r: Motion)
    requires MotionShape(m) && h < SLOTS && |vel| == SLOTS && |head| == SLOTS && |body| == SLOTS
    requires forall k :: 0 <= k < |bodies| ==> bodies[k] < SLOTS
    ensures MotionShape(r)
  {
    var rec := Recorded(m.hist, m.count, m.pos[h]);
    var moved := m.pos[h := Step(m.pos[h], vel[h])];
    Motion(FollowAll(moved, bodies, body, head[h].length, rec.0, rec.1), rec.0, rec.1)
  }

  /** movement_system over the heads in scan order. */
  function MoveAll(m: Motion, heads: seq<nat>, vel: seq<Velocity>, head: seq<SnakeHead>,
                   bodies: seq<nat>, body: seq<SnakeBody>): (r: Motion)
    requires MotionShape(m) && |vel| == SLOTS && |head| == SLOTS && |body| == SLOTS
    requires forall k :: 0 <= k < |heads| ==> heads[k] < SLOTS
    requires forall k :: 0 <= k < |bodies| ==> bodies[k] < SLOTS
    ensures MotionShape(r)
  {
    if heads == [] then m
    else
      var n := |heads| - 1;
      MoveOne(MoveAll(m, heads[..n], vel, head, bodies, body), heads[n], vel, head, bodies, body)
  }

  // ----------------------------------------------------------------------
  // collision_system
  // ----------------------------------------------------------------------

  /** The data collision_system reads and changes. */
  datatype Scene = Scene(table: seq<Entity>, capacity: nat, pos: seq<Position>, head: seq<SnakeHead>,
                         body: seq<SnakeBody>, rend: seq<Renderable>, running: bool, score: int)

  predicate SceneShape(s: Scene) {
    && |s.table| <= SLOTS
    && |s.pos| == SLOTS && |s.head| == SLOTS && |s.body| == SLOTS && |s.rend| == SLOTS
  }

  /** Some entity of `ids` stands at p. */
  predicate StandsOn(pos: seq<Position>, ids: seq<nat>, p: Position)
    requires forall k :: 0 <= k < |ids| ==> ids[k] < |pos|
  {
    exists k :: 0 <= k < |ids| && pos[ids[k]] == p
  }

  /** The food loop for head h and food f: on a hit the snake grows by a
      segment spawned at the head, and the food moves to `spot`. */
  function Eat(s: Scene, h: nat, f: nat, spot: Position): (r: Scene)
    requires SceneShape(s) && h < SLOTS && f < |s.table|
    requires s.pos[h] == s.pos[f] ==> |s.table| < SLOTS
    ensures SceneShape(r)
  {
    if s.pos[h] != s.pos[f] then s
    else
      var n := |s.table|;
      var length := s.head[h].length + 1;
      Scene(s.table + [Entity(SEGMENT_MASK, n)], ReservedCapacity(s.capacity, n + 1),
            s.pos[n := s.pos[h]][f := spot], s.head[h := SnakeHead(length)],
            s.body[n := SnakeBody(length - 1)], s.rend[n := Renderable('o')],
            s.running, s.score + 10)
  }

  /** A table only grows by entities appended at its end. */
  predicate Extends(t: seq<Entity>, u: seq<Entity>) {
    |t| <= |u| && u[..|t|] == t
  }

  /** A table grown only by segments appended at its end. */
  predicate GrownBySegments(t: seq<Entity>, u: seq<Entity>) {
    Extends(t, u) && forall i :: |t| <= i < |u| ==> u[i].mask == SEGMENT_MASK
  }

  /** The food loop of one head, over the foods in scan order. */
  function EatAll(s: Scene, h: nat, foods: seq<nat>, spot: Position): (r: Scene)
    requires SceneShape(s) && h < SLOTS
    requires forall k :: 0 <= k < |foods| ==> foods[k] < |s.table|
    requires |s.table| + |foods| <= SLOTS
    ensures SceneShape(r) && GrownBySegments(s.table, r.table) && |r.table| <= |s.table| + |foods|
  {
    if foods == [] then s
    else
      var n := |foods| - 1;
      var q := EatAll(s, h, foods[..n], spot);
      Eat(q, h, foods[n], spot)
  }

  /** The food loop visits the foods one by one. */
  lemma EatAllSnoc(s: Scene, h: nat, foods: seq<nat>, k: nat, spot: Position)
    requires SceneShape(s) && h < SLOTS
    requires forall k :: 0 <= k < |foods| ==> foods[k] < |s.table|
    requires |s.table| + |foods| <= SLOTS && k < |foods|
    ensures |EatAll(s, h, foods[..k], spot).table| <= |s.table| + k
    ensures EatAll(s, h, foods[..k + 1], spot) == Eat(EatAll(s, h, foods[..k], spot), h, foods[k], spot)
  {
    assert foods[..k + 1][..k] == foods[..k];
  }

  /** Segments spawned while eating carry neither the Food nor the SnakeHead
      bit, so the food and head queries see the same slots afterwards. */
  lemma {:induction false} GrowthKeepsQuery(t: seq<Entity>, u: seq<Entity>, mask: Mask)
    requires Extends(t, u)
    requires forall i :: |t| <= i < |u| ==> !HasComponents(u[i], mask)
    ensures Matching(u, mask) == Matching(t, mask)
    decreases |u|
  {
    if |u| > |t| {
      var n := |u| - 1;
      assert u[..n][..|t|] == t;
      GrowthKeepsQuery(t, u[..n], mask);
    } else {
      assert u == t;
    }
  }

  /** n copies of m added up: the slots n heads need when each eats m foods. */
  function Times(n: nat, m: nat): nat {
    if n == 0 then 0 else Times(n - 1, m) + m
  }

  /** Slots enough for each of n heads to eat every food of the table. */
  predicate RoomFor(table: seq<Entity>, n: nat) {
    |table| + Times(n, |Matching(table, FOOD_QUERY)|) <= SLOTS
  }

  /** collision_system over the heads in scan order: a head on a segment
      stops the game and the whole pass; otherwise the head eats. */
  function CollideAll(s: Scene, heads: seq<nat>, spot: Position): (r: Scene)
    requires SceneShape(s)
    requires forall k :: 0 <= k < |heads| ==> heads[k] < SLOTS
    requires RoomFor(s.table, |heads|)
    decreases |heads|
  {
    if heads == [] then s
    else
      var h := heads[0];
      var bodies := Matching(s.table, BODY_QUERY);
      var foods := Matching(s.table, FOOD_QUERY);
      if StandsOn(s.pos, bodies, s.pos[h]) then s.(running := false)
      else
        var q := EatAll(s, h, foods, spot);
        GrowthKeepsQuery(s.table, q.table, FOOD_QUERY);
        CollideAll(q, heads[1..], spot)
  }

  /** A head on a food grows its snake by one: the head's length goes up by
      one, the score by ten, one entity is appended that carries a position,
      a segment index and a symbol, standing where the head is, with the new
      length minus one as its index and 'o' as its symbol, and the food moves
      to `spot`. Nothing else changes, and a head elsewhere changes nothing. */
  lemma EatGrows(s: Scene, h: nat, f: nat, spot: Position)
    requires SceneShape(s) && h < SLOTS && f < |s.table|
    requires s.pos[h] == s.pos[f] ==> |s.table| < SLOTS
    ensures s.pos[h] != s.pos[f] ==> Eat(s, h, f, spot) == s
    ensures s.pos[h] == s.pos[f] ==>
      var r := Eat(s, h, f, spot);
      var n := |s.table|;
      && r.table == s.table + [Entity(SEGMENT_MASK, n)]
      && r.head[h].length == s.head[h].length + 1 && r.score == s.score + 10
      && r.pos[n] == s.pos[h] && r.body[n].segmentIndex + 1 == r.head[h].length
      && r.rend[n] == Renderable('o') && r.pos[f] == spot
      && (forall i :: 0 <= i < SLOTS && i != n && i != f ==> r.pos[i] == s.pos[i])
      && (forall i :: 0 <= i < SLOTS && i != h ==> r.head[i] == s.head[i])
      && (forall i :: 0 <= i < SLOTS && i != n ==> r.body[i] == s.body[i] && r.rend[i] == s.rend[i])
      && r.running == s.running
  {
  }

  /** The segment spawned by a meal is one more body the movement and
      collision systems visit, and one more entity render draws. */
  lemma EatAddsSegment(s: Scene, h: nat, f: nat, spot: Position)
    requires SceneShape(s) && h < SLOTS && f < |s.table|
    requires s.pos[h] == s.pos[f] && |s.table| < SLOTS
    ensures Matching(Eat(s, h, f, spot).table, BODY_QUERY) == Matching(s.table, BODY_QUERY) + [|s.table|]
    ensures Matching(Eat(s, h, f, spot).table, DRAW_QUERY) == Matching(s.table, DRAW_QUERY) + [|s.table|]
    ensures Matching(Eat(s, h, f, spot).table, FOOD_QUERY) == Matching(s.table, FOOD_QUERY)
  {
    var t := Eat(s, h, f, spot).table;
    assert t[..|s.table|] == s.table;
    assert FOOD !in SEGMENT_MASK;
  }

  /** Tables grown by segments, grown again by segments, were grown by segments. */
  lemma GrownTrans(t: seq<Entity>, u: seq<Entity>, v: seq<Entity>)
    requires GrownBySegments(t, u) && GrownBySegments(u, v)
    ensures GrownBySegments(t, v)
  {
    assert v[..|t|] == v[..|u|][..|t|];
    forall i | |t| <= i < |u|
      ensures v[i].mask == SEGMENT_MASK
    {
      assert v[i] == v[..|u|][i];
    }
  }

  /** A food pass never stops the game, and every segment it spawns was paid
      for with ten points. */
  lemma {:induction false} EatAllScores(s: Scene, h: nat, foods: seq<nat>, spot: Position)
    requires SceneShape(s) && h < SLOTS
    requires forall k :: 0 <= k < |foods| ==> foods[k] < |s.table|
    requires |s.table| + |foods| <= SLOTS
    ensures EatAll(s, h, foods, spot).running == s.running
    ensures EatAll(s, h, foods, spot).score == s.score + 10 * (|EatAll(s, h, foods, spot).table| - |s.table|)
  {
    if foods != [] {
      var n := |foods| - 1;
      EatAllScores(s, h, foods[..n], spot);
    }
  }

  /** Over a whole collision pass the table only grows, and only by segments. */
  lemma {:induction false} CollideAllGrows(s: Scene, heads: seq<nat>, spot: Position)
    requires SceneShape(s)
    requires forall k :: 0 <= k < |heads| ==> heads[k] < SLOTS
    requires RoomFor(s.table, |heads|)
    ensures GrownBySegments(s.table, CollideAll(s, heads, spot).table)
    decreases |heads|
  {
    if heads != [] {
      CollideStep(s, heads, spot);
      var foods := Matching(s.table, FOOD_QUERY);
      if !StandsOn(s.pos, Matching(s.table, BODY_QUERY), s.pos[heads[0]]) {
        var q := EatAll(s, heads[0], foods, spot);
        CollideAllGrows(q, heads[1..], spot);
        GrownTrans(s.table, q.table, CollideAll(q, heads[1..], spot).table);
      }
    }
  }

  /** Over a whole collision pass the score rises by ten for each entity
      spawned, and the game can stop but never restart. */
  lemma {:induction false} CollideAllScores(s: Scene, heads: seq<nat>, spot: Position)
    requires SceneShape(s)
    requires forall k :: 0 <= k < |heads| ==> heads[k] < SLOTS
    requires RoomFor(s.table, |heads|)
    ensures var r := CollideAll(s, heads, spot);
      && r.score == s.score + 10 * (|r.table| - |s.table|)
      && (r.running ==> s.running)
    decreases |heads|
  {
    if heads != [] {
      CollideStep(s, heads, spot);
      var foods := Matching(s.table, FOOD_QUERY);
      if !StandsOn(s.pos, Matching(s.table, BODY_QUERY), s.pos[heads[0]]) {
        EatAllScores(s, heads[0], foods, spot);
        CollideAllScores(EatAll(s, heads[0], foods, spot), heads[1..], spot);
      }
    }
  }

  /** Segments spawned during a pass carry no SnakeHead bit, so a pass
      leaves the head query as it found it: the heads the pass visits are
      the heads a live scan would visit. */
  lemma CollideAllKeepsHeads(s: Scene, heads: seq<nat>, spot: Position)
    requires SceneShape(s)
    requires forall k :: 0 <= k < |heads| ==> heads[k] < SLOTS
    requires RoomFor(s.table, |heads|)
    ensures Matching(CollideAll(s, heads, spot).table, HEAD_QUERY) == Matching(s.table, HEAD_QUERY)
  {
    CollideAllGrows(s, heads, spot);
    var r := CollideAll(s, heads, spot).table;
    assert SNAKE_HEAD !in SEGMENT_MASK;
    GrowthKeepsQuery(s.table, r, HEAD_QUERY);
  }

  /** Every food stands on the board. */
  predicate FoodOnBoard(s: Scene) {
    var foods := Matching(s.table, FOOD_QUERY);
    forall k :: 0 <= k < |foods| ==> foods[k] < |s.pos| && OnBoard(s.pos[foods[k]])
  }

  /** Food moved to a spot on the board stays on the board through a food pass. */
  lemma {:induction false} EatAllKeepsFoodOnBoard(s: Scene, h: nat, foods: seq<nat>, spot: Position)
    requires SceneShape(s) && h < SLOTS && OnBoard(spot) && FoodOnBoard(s)
    requires forall k :: 0 <= k < |foods| ==> foods[k] < |s.table|
    requires |s.table| + |foods| <= SLOTS
    ensures FoodOnBoard(EatAll(s, h, foods, spot))
  {
    if foods != [] {
      var n := |foods| - 1;
      var q := EatAll(s, h, foods[..n], spot);
      EatAllKeepsFoodOnBoard(s, h, foods[..n], spot);
      var f := foods[n];
      if q.pos[h] == q.pos[f] {
        EatAddsSegment(q, h, f, spot);
        var r := Eat(q, h, f, spot);
        var fs := Matching(q.table, FOOD_QUERY);
        forall k | 0 <= k < |fs|
          ensures OnBoard(r.pos[fs[k]])
        {
          assert fs[k] < |q.table|;
        }
      }
    }
  }

  /** Food moved to spots on the board stays on the board through a whole pass. */
  lemma {:induction false} CollideAllKeepsFoodOnBoard(s: Scene, heads: seq<nat>, spot: Position)
    requires SceneShape(s) && OnBoard(spot) && FoodOnBoard(s)
    requires forall k :: 0 <= k < |heads| ==> heads[k] < SLOTS
    requires RoomFor(s.table, |heads|)
    ensures FoodOnBoard(CollideAll(s, heads, spot))
    decreases |heads|
  {
    if heads != [] {
      CollideStep(s, heads, spot);
      var foods := Matching(s.table, FOOD_QUERY);
      if !StandsOn(s.pos, Matching(s.table, BODY_QUERY), s.pos[heads[0]]) {
        EatAllKeepsFoodOnBoard(s, heads[0], foods, spot);
        CollideAllKeepsFoodOnBoard(EatAll(s, heads[0], foods, spot), heads[1..], spot);
      }
    }
  }

  // ----------------------------------------------------------------------
  // The board-fill part of render_system
  // ----------------------------------------------------------------------

  function Blank(): (board: seq<seq<char>>)
    ensures |board| == BOARD_HEIGHT
    ensures forall y :: 0 <= y < BOARD_HEIGHT ==> |board[y]| == BOARD_WIDTH
  {
    seq(BOARD_HEIGHT, _ => seq(BOARD_WIDTH, _ => ' '))
  }

  predicate BoardShape(board: seq<seq<char>>) {
    |board| == BOARD_HEIGHT && forall y :: 0 <= y < BOARD_HEIGHT ==> |board[y]| == BOARD_WIDTH
  }

  /** The drawable entities written in scan order, skipping those off the board. */
  function Paint(pos: seq<Position>, rend: seq<Renderable>, ids: seq<nat>): (board: seq<seq<char>>)
    requires forall k :: 0 <= k < |ids| ==> ids[k] < |pos| && ids[k] < |rend|
    ensures BoardShape(board)
  {
    if ids == [] then Blank()
    else
      var n := |ids| - 1;
      var b := Paint(pos, rend, ids[..n]);
      var p := pos[ids[n]];
      if OnBoard(p) then b[p.y := b[p.y][p.x := rend[ids[n]].symbol]] else b
  }

  /** Writing one cell of a board leaves every other cell as it was. */
  lemma WriteCell(b: seq<seq<char>>, p: Position, c: char, x: int, y: int)
    requires BoardShape(b) && OnBoard(p) && OnBoard(Position(x, y))
    ensures b[p.y := b[p.y][p.x := c]][y][x] == if p == Position(x, y) then c else b[y][x]
  {
  }

  /** A cell no drawn entity stands on stays blank. */
  lemma {:induction false} PaintBlank(pos: seq<Position>, rend: seq<Renderable>, ids: seq<nat>, x: int, y: int)
    requires forall k :: 0 <= k < |ids| ==> ids[k] < |pos| && ids[k] < |rend|
    requires OnBoard(Position(x, y))
    requires forall k :: 0 <= k < |ids| ==> pos[ids[k]] != Position(x, y)
    ensures Paint(pos, rend, ids)[y][x] == ' '
  {
    if ids != [] {
      var n := |ids| - 1;
      PaintBlank(pos, rend, ids[..n], x, y);
      var p := pos[ids[n]];
      if OnBoard(p) {
        WriteCell(Paint(pos, rend, ids[..n]), p, rend[ids[n]].symbol, x, y);
      }
    }
  }

  /** A cell shows the symbol of the last drawn entity standing on it. */
  lemma {:induction false} PaintLast(pos: seq<Position>, rend: seq<Renderable>, ids: seq<nat>, k: nat, x: int, y: int)
    requires forall j :: 0 <= j < |ids| ==> ids[j] < |pos| && ids[j] < |rend|
    requires OnBoard(Position(x, y)) && k < |ids| && pos[ids[k]] == Position(x, y)
    requires forall l :: k < l < |ids| ==> pos[ids[l]] != Position(x, y)
    ensures Paint(pos, rend, ids)[y][x] == rend[ids[k]].symbol
  {
    var n := |ids| - 1;
    var p := pos[ids[n]];
    var b := Paint(pos, rend, ids[..n]);
    if k < n {
      PaintLast(pos, rend, ids[..n], k, x, y);
    }
    if OnBoard(p) {
      WriteCell(b, p, rend[ids[n]].symbol, x, y);
    }
  }

  // ----------------------------------------------------------------------
  // The game: registry, six component types, game_state and the
  // function-static history buffer of movement_system
  // ----------------------------------------------------------------------

  const HEAD_MASK: Mask := {POSITION, VELOCITY, SNAKE_HEAD, RENDERABLE}
  const FOOD_MASK: Mask := {POSITION, FOOD, RENDERABLE}

  /** game_state; the saved terminal settings are not part of this model. */
  class GameState {
    var running: bool
    var score: int

    /** The static zero initialisation. */
    constructor ()
      ensures !running && score == 0
    {
      running := false;
      score := 0;
    }
  }

  /** snake_positions and position_count, the statics of movement_system. */
  class PositionHistory {
    const positions: array<Position>
    var count: nat

    ghost predicate Valid()
      reads this
    {
      positions.Length == MAX_SNAKE_LENGTH && count <= MAX_SNAKE_LENGTH
    }

    /** The static zero initialisation. */
    constructor ()
      ensures Valid() && fresh(positions) && count == 0
      ensures forall i :: 0 <= i < MAX_SNAKE_LENGTH ==> positions[i] == Position(0, 0)
    {
      positions := new Position[MAX_SNAKE_LENGTH](_ => Position(0, 0));
      count := 0;
    }

    /** Records the head's position before a move: stored at position_count
        while there is room, otherwise the buffer shifts one place left in
        place and p goes into the last slot. */
    method Record(p: Position)
      requires Valid()
      modifies this`count, positions
      ensures Valid()
      ensures (positions[..], count) == Recorded(old(positions[..]), old(count), p)
    {
      if count < MAX_SNAKE_LENGTH {
        positions[count] := p;
        count := count + 1;
      } else {
        for i := 0 to MAX_SNAKE_LENGTH - 1
          invariant count == old(count)
          invariant forall j :: 0 <= j < i ==> positions[j] == old(positions[j + 1])
          invariant forall j :: i <= j < MAX_SNAKE_LENGTH ==> positions[j] == old(positions[j])
        {
          positions[i] := positions[i + 1];
        }
        positions[MAX_SNAKE_LENGTH - 1] := p;
        assert positions[..] == old(positions[..])[1..] + [p];
      }
    }
  }

  // ----------------------------------------------------------------------
  // The game's registry and stores
  // ----------------------------------------------------------------------

  /** A store whose type was registered with bit k. */
  ghost predicate RegisteredAs<T(0)>(s: ComponentStore<T>, k: nat)
    reads s
  {
    s.comp == {k} && s.slots.Length == SLOTS
  }

  /** The registry as the game uses it: nothing is ever despawned, so the
      free list stays empty, and every id fits the 100-slot arrays. */
  ghost predicate Growing(w: World)
    reads w.entities, w.deadEntities
  {
    w.Valid() && w.deadEntities.items == [] && |w.entities.items| <= SLOTS
  }

  /** The six component arrays and the six register_ calls of main, in order. */
  method RegisterAll(w: World)
    returns (ps: ComponentStore<Position>, vs: ComponentStore<Velocity>, hs: ComponentStore<SnakeHead>,
             bs: ComponentStore<SnakeBody>, fs: ComponentStore<Food>, rs: ComponentStore<Renderable>)
    requires w.iota == 0
    modifies w`iota
    ensures w.iota == 6
    ensures fresh(ps.slots) && fresh(vs.slots) && fresh(hs.slots) && fresh(bs.slots) && fresh(fs.slots) && fresh(rs.slots)
    ensures RegisteredAs(ps, POSITION) && RegisteredAs(vs, VELOCITY) && RegisteredAs(hs, SNAKE_HEAD)
    ensures RegisteredAs(bs, SNAKE_BODY) && RegisteredAs(fs, FOOD) && RegisteredAs(rs, RENDERABLE)
  {
    ps := new ComponentStore<Position>();
    ps.Register(w);
    vs := new ComponentStore<Velocity>();
    vs.Register(w);
    hs := new ComponentStore<SnakeHead>();
    hs.Register(w);
    bs := new ComponentStore<SnakeBody>();
    bs.Register(w);
    fs := new ComponentStore<Food>();
    fs.Register(w);
    rs := new ComponentStore<Renderable>();
    rs.Register(w);
  }

  // ----------------------------------------------------------------------
  // spawn_snake and spawn_food
  // ----------------------------------------------------------------------

  /** The add_ calls of a body segment, in the source's order. */
  method AddSegmentParts(w: World, ps: ComponentStore<Position>, bs: ComponentStore<SnakeBody>,
                         rs: ComponentStore<Renderable>, id: nat, p: Position, seg: nat)
    requires w.Valid() && id < |w.entities.items| && id < SLOTS
    requires RegisteredAs(ps, POSITION) && RegisteredAs(bs, SNAKE_BODY) && RegisteredAs(rs, RENDERABLE)
    modifies w.entities`items, ps.slots, bs.slots, rs.slots
    ensures w.Valid()
    ensures w.entities.items == old(w.entities.items)[id := Entity(old(w.entities.items[id].mask) + SEGMENT_MASK, id)]
    ensures ps.slots[..] == old(ps.slots[..])[id := p]
    ensures bs.slots[..] == old(bs.slots[..])[id := SnakeBody(seg)]
    ensures rs.slots[..] == old(rs.slots[..])[id := Renderable('o')]
  {
    var ok := ps.Add(w, id, p);
    ok := bs.Add(w, id, SnakeBody(seg));
    ok := rs.Add(w, id, Renderable('o'));
    assert old(w.entities.items[id].mask) + {POSITION} + {SNAKE_BODY} + {RENDERABLE} ==
      old(w.entities.items[id].mask) + SEGMENT_MASK;
  }

  /** spawn_entity followed by the add_ calls of a body segment. */
  method SpawnSegment(w: World, ps: ComponentStore<Position>, bs: ComponentStore<SnakeBody>,
                      rs: ComponentStore<Renderable>, p: Position, seg: nat) returns (id: nat)
    requires Growing(w) && |w.entities.items| < SLOTS
    requires RegisteredAs(ps, POSITION) && RegisteredAs(bs, SNAKE_BODY) && RegisteredAs(rs, RENDERABLE)
    modifies w.entities, w.deadEntities, ps.slots, bs.slots, rs.slots
    ensures Growing(w) && w.deadEntities.capacity == old(w.deadEntities.capacity)
    ensures id == old(|w.entities.items|) && w.entities.items == old(w.entities.items) + [Entity(SEGMENT_MASK, id)]
    ensures w.entities.capacity == ReservedCapacity(old(w.entities.capacity), id + 1)
    ensures ps.slots[..] == old(ps.slots[..])[id := p]
    ensures bs.slots[..] == old(bs.slots[..])[id := SnakeBody(seg)]
    ensures rs.slots[..] == old(rs.slots[..])[id := Renderable('o')]
  {
    id := w.Spawn();
    AddSegmentParts(w, ps, bs, rs, id, p, seg);
    assert {} + SEGMENT_MASK == SEGMENT_MASK;
  }

  /** The add_ calls of the head, in the source's order. */
  method AddHeadParts(w: World, ps: ComponentStore<Position>, vs: ComponentStore<Velocity>,
                      hs: ComponentStore<SnakeHead>, rs: ComponentStore<Renderable>, id: nat)
    requires w.Valid() && id < |w.entities.items| && id < SLOTS
    requires RegisteredAs(ps, POSITION) && RegisteredAs(vs, VELOCITY) && RegisteredAs(hs, SNAKE_HEAD)
    requires RegisteredAs(rs, RENDERABLE)
    modifies w.entities`items, ps.slots, vs.slots, hs.slots, rs.slots
    ensures w.Valid()
    ensures w.entities.items == old(w.entities.items)[id := Entity(old(w.entities.items[id].mask) + HEAD_MASK, id)]
    ensures ps.slots[..] == old(ps.slots[..])[id := Position(20, 5)]
    ensures vs.slots[..] == old(vs.slots[..])[id := Velocity(1, 0)]
    ensures hs.slots[..] == old(hs.slots[..])[id := SnakeHead(3)]
    ensures rs.slots[..] == old(rs.slots[..])[id := Renderable('@')]
  {
    var ok := ps.Add(w, id, Position(BOARD_WIDTH / 2, BOARD_HEIGHT / 2));
    ok := vs.Add(w, id, Velocity(1, 0));
    ok := hs.Add(w, id, SnakeHead(3));
    ok := rs.Add(w, id, Renderable('@'));
    assert old(w.entities.items[id].mask) + {POSITION} + {VELOCITY} + {SNAKE_HEAD} + {RENDERABLE} ==
      old(w.entities.items[id].mask) + HEAD_MASK;
  }

  /** The head part of spawn_snake. */
  method SpawnHead(w: World, ps: ComponentStore<Position>, vs: ComponentStore<Velocity>,
                   hs: ComponentStore<SnakeHead>, rs: ComponentStore<Renderable>) returns (id: nat)
    requires Growing(w) && |w.entities.items| < SLOTS
    requires RegisteredAs(ps, POSITION) && RegisteredAs(vs, VELOCITY) && RegisteredAs(hs, SNAKE_HEAD)
    requires RegisteredAs(rs, RENDERABLE)
    modifies w.entities, w.deadEntities, ps.slots, vs.slots, hs.slots, rs.slots
    ensures Growing(w) && w.deadEntities.capacity == old(w.deadEntities.capacity)
    ensures id == old(|w.entities.items|) && w.entities.items == old(w.entities.items) + [Entity(HEAD_MASK, id)]
    ensures w.entities.capacity == ReservedCapacity(old(w.entities.capacity), id + 1)
    ensures ps.slots[..] == old(ps.slots[..])[id := Position(20, 5)]
    ensures vs.slots[..] == old(vs.slots[..])[id := Velocity(1, 0)]
    ensures hs.slots[..] == old(hs.slots[..])[id := SnakeHead(3)]
    ensures rs.slots[..] == old(rs.slots[..])[id := Renderable('@')]
  {
    id := w.Spawn();
    AddHeadParts(w, ps, vs, hs, rs, id);
    assert {} + HEAD_MASK == HEAD_MASK;
  }

  /** The segment loop of spawn_snake: segments 0, 1, 2 on the three cells
      left of a head standing at (20, 5). */
  method SpawnBody(w: World, ps: ComponentStore<Position>, bs: ComponentStore<SnakeBody>,
                   rs: ComponentStore<Renderable>)
    requires Growing(w) && |w.entities.items| + 3 <= SLOTS
    requires RegisteredAs(ps, POSITION) && RegisteredAs(bs, SNAKE_BODY) && RegisteredAs(rs, RENDERABLE)
    modifies w.entities, w.deadEntities, ps.slots, bs.slots, rs.slots
    ensures Growing(w) && w.deadEntities.capacity == old(w.deadEntities.capacity)
    ensures w.entities.items == old(w.entities.items) + seq(3, (j: nat) => Entity(SEGMENT_MASK, old(|w.entities.items|) + j))
    ensures w.entities.capacity == ReservedCapacity(old(w.entities.capacity), old(|w.entities.items|) + 3)
    ensures forall q :: 0 <= q < SLOTS ==>
      ps.slots[q] == if old(|w.entities.items|) <= q < old(|w.entities.items|) + 3
                     then Position(19 - (q - old(|w.entities.items|)), 5) else old(ps.slots[q])
    ensures forall q :: 0 <= q < SLOTS ==>
      bs.slots[q] == if old(|w.entities.items|) <= q < old(|w.entities.items|) + 3
                     then SnakeBody(q - old(|w.entities.items|)) else old(bs.slots[q])
    ensures forall q :: 0 <= q < SLOTS ==>
      rs.slots[q] == if old(|w.entities.items|) <= q < old(|w.entities.items|) + 3
                     then Renderable('o') else old(rs.slots[q])
  {
    ghost var n := |w.entities.items|;
    for i := 0 to 3
      invariant Growing(w) && |w.entities.items| == n + i
      invariant w.deadEntities.capacity == old(w.deadEntities.capacity)
      invariant w.entities.items == old(w.entities.items) + seq(i, (j: nat) => Entity(SEGMENT_MASK, n + j))
      invariant w.entities.capacity == ReservedCapacity(old(w.entities.capacity), n + i)
      invariant forall q :: 0 <= q < SLOTS ==>
        ps.slots[q] == if n <= q < n + i then Position(19 - (q - n), 5) else old(ps.slots[q])
      invariant forall q :: 0 <= q < SLOTS ==>
        bs.slots[q] == if n <= q < n + i then SnakeBody(q - n) else old(bs.slots[q])
      invariant forall q :: 0 <= q < SLOTS ==>
        rs.slots[q] == if n <= q < n + i then Renderable('o') else old(rs.slots[q])
    {
      var id := SpawnSegment(w, ps, bs, rs, Position(BOARD_WIDTH / 2 - 1 - i, BOARD_HEIGHT / 2), i);
      ReservedInSteps(old(w.entities.capacity), n + i, n + i + 1);
      assert seq(i + 1, (j: nat) => Entity(SEGMENT_MASK, n + j)) ==
        seq(i, (j: nat) => Entity(SEGMENT_MASK, n + j)) + [Entity(SEGMENT_MASK, id)];
    }
  }

  /** spawn_snake: a head at the board's centre moving right, length 3,
      followed by segments 0, 1, 2 on the cells to its left. */
  method SpawnSnake(w: World, ps: ComponentStore<Position>, vs: ComponentStore<Velocity>,
                    hs: ComponentStore<SnakeHead>, bs: ComponentStore<SnakeBody>, rs: ComponentStore<Renderable>)
    requires Growing(w) && |w.entities.items| + 4 <= SLOTS
    requires RegisteredAs(ps, POSITION) && RegisteredAs(vs, VELOCITY) && RegisteredAs(hs, SNAKE_HEAD)
    requires RegisteredAs(bs, SNAKE_BODY) && RegisteredAs(rs, RENDERABLE)
    modifies w.entities, w.deadEntities, ps.slots, vs.slots, hs.slots, bs.slots, rs.slots
    ensures Growing(w) && w.deadEntities.capacity == old(w.deadEntities.capacity)
    ensures var n := old(|w.entities.items|);
      w.entities.items == old(w.entities.items) + [Entity(HEAD_MASK, n), Entity(SEGMENT_MASK, n + 1),
                                                   Entity(SEGMENT_MASK, n + 2), Entity(SEGMENT_MASK, n + 3)]
    ensures w.entities.capacity == ReservedCapacity(old(w.entities.capacity), old(|w.entities.items|) + 4)
    ensures forall q :: 0 <= q < SLOTS ==>
      ps.slots[q] == if old(|w.entities.items|) <= q <= old(|w.entities.items|) + 3
                     then Position(20 - (q - old(|w.entities.items|)), 5) else old(ps.slots[q])
    ensures forall q :: 0 <= q < SLOTS ==>
      bs.slots[q] == if old(|w.entities.items|) < q <= old(|w.entities.items|) + 3
                     then SnakeBody(q - old(|w.entities.items|) - 1) else old(bs.slots[q])
    ensures forall q :: 0 <= q < SLOTS ==>
      rs.slots[q] == if q == old(|w.entities.items|) then Renderable('@')
                     else if old(|w.entities.items|) < q <= old(|w.entities.items|) + 3 then Renderable('o')
                     else old(rs.slots[q])
    ensures vs.slots[..] == old(vs.slots[..])[old(|w.entities.items|) := Velocity(1, 0)]
    ensures hs.slots[..] == old(hs.slots[..])[old(|w.entities.items|) := SnakeHead(3)]
  {
    ghost var n := |w.entities.items|;
    var h := SpawnHead(w, ps, vs, hs, rs);
    SpawnBody(w, ps, bs, rs);
    ReservedInSteps(old(w.entities.capacity), n + 1, n + 4);
    assert seq(3, (j: nat) => Entity(SEGMENT_MASK, n + 1 + j)) ==
      [Entity(SEGMENT_MASK, n + 1), Entity(SEGMENT_MASK, n + 2), Entity(SEGMENT_MASK, n + 3)];
  }

  /** The add_ calls of the food, in the source's order. */
  method AddFoodParts(w: World, ps: ComponentStore<Position>, fs: ComponentStore<Food>,
                      rs: ComponentStore<Renderable>, id: nat, spot: Position)
    requires w.Valid() && id < |w.entities.items| && id < SLOTS
    requires RegisteredAs(ps, POSITION) && RegisteredAs(fs, FOOD) && RegisteredAs(rs, RENDERABLE)
    modifies w.entities`items, ps.slots, fs.slots, rs.slots
    ensures w.Valid()
    ensures w.entities.items == old(w.entities.items)[id := Entity(old(w.entities.items[id].mask) + FOOD_MASK, id)]
    ensures ps.slots[..] == old(ps.slots[..])[id := spot]
    ensures fs.slots[..] == old(fs.slots[..])[id := Food(1)]
    ensures rs.slots[..] == old(rs.slots[..])[id := Renderable('*')]
  {
    var ok := ps.Add(w, id, spot);
    ok := fs.Add(w, id, Food(1));
    ok := rs.Add(w, id, Renderable('*'));
    assert old(w.entities.items[id].mask) + {POSITION} + {FOOD} + {RENDERABLE} ==
      old(w.entities.items[id].mask) + FOOD_MASK;
  }

  /** spawn_food: food worth 1 drawn as '*', at `spot`, which stands for
      the two rand() draws and so lies on the board. */
  method SpawnFood(w: World, ps: ComponentStore<Position>, fs: ComponentStore<Food>,
                   rs: ComponentStore<Renderable>, spot: Position) returns (id: nat)
    requires Growing(w) && |w.entities.items| < SLOTS && OnBoard(spot)
    requires RegisteredAs(ps, POSITION) && RegisteredAs(fs, FOOD) && RegisteredAs(rs, RENDERABLE)
    modifies w.entities, w.deadEntities, ps.slots, fs.slots, rs.slots
    ensures Growing(w) && w.deadEntities.capacity == old(w.deadEntities.capacity)
    ensures id == old(|w.entities.items|) && w.entities.items == old(w.entities.items) + [Entity(FOOD_MASK, id)]
    ensures w.entities.capacity == ReservedCapacity(old(w.entities.capacity), id + 1)
    ensures ps.slots[..] == old(ps.slots[..])[id := spot]
    ensures fs.slots[..] == old(fs.slots[..])[id := Food(1)]
    ensures rs.slots[..] == old(rs.slots[..])[id := Renderable('*')]
  {
    id := w.Spawn();
    AddFoodParts(w, ps, fs, rs, id, spot);
    assert {} + FOOD_MASK == FOOD_MASK;
  }

  // ----------------------------------------------------------------------
  // The systems' loops, each over the arrays it touches
  // ----------------------------------------------------------------------

  /** input_system's loop: every steerable snake is steered by the key, and
      q or Q clears `running` once there is a snake to steer. */
  method SteerSnakes(vel: array<Velocity>, heads: seq<nat>, key: char, state: GameState)
    requires forall k :: 0 <= k < |heads| ==> heads[k] < vel.Length
    modifies vel, state`running
    ensures vel[..] == SteerAll(old(vel[..]), heads, key)
    ensures state.running == (old(state.running) && !(Quits(key) && heads != []))
  {
    for k := 0 to |heads|
      invariant vel[..] == SteerAll(old(vel[..]), heads[..k], key)
      invariant state.running == (old(state.running) && !(Quits(key) && k > 0))
    {
      var id := heads[k];
      vel[id] := Steer(vel[id], key);
      if Quits(key) {
        state.running := false;
      }
      assert heads[..k + 1][..k] == heads[..k];
    }
    assert heads[..|heads|] == heads;
  }

  /** The body loop of movement_system for a snake of this length. */
  method FollowBodies(w: World, pos: array<Position>, body: array<SnakeBody>, length: nat,
                      history: PositionHistory)
    requires |w.entities.items| <= SLOTS && pos.Length == SLOTS && body.Length == SLOTS
    requires history.Valid() && pos != history.positions
    modifies pos
    ensures pos[..] == FollowAll(old(pos[..]), Matching(w.entities.items, BODY_QUERY), body[..], length,
                                 history.positions[..], history.count)
  {
    var bodies := w.QueryByComponents(BODY_QUERY);
    for k := 0 to |bodies|
      invariant pos[..] == FollowAll(old(pos[..]), bodies[..k], body[..], length,
                                     history.positions[..], history.count)
    {
      var b := bodies[k];
      var seg := body[b].segmentIndex;
      if seg < length && seg < history.count - 1 {
        var idx := history.count - 2 - seg;
        if idx >= 0 {
          pos[b] := history.positions[idx];
        }
      }
      assert bodies[..k + 1][..k] == bodies[..k];
    }
    assert bodies[..|bodies|] == bodies;
  }

  /** One head of movement_system: record its position, move and wrap it,
      then let the segments follow. */
  method MoveHead(w: World, pos: array<Position>, vel: array<Velocity>, head: array<SnakeHead>,
                  body: array<SnakeBody>, history: PositionHistory, h: nat)
    requires |w.entities.items| <= SLOTS
    requires pos.Length == SLOTS && vel.Length == SLOTS && head.Length == SLOTS && body.Length == SLOTS
    requires history.Valid() && pos != history.positions && h < SLOTS
    modifies pos, history`count, history.positions
    ensures history.Valid()
    ensures Motion(pos[..], history.positions[..], history.count) ==
      MoveOne(Motion(old(pos[..]), old(history.positions[..]), old(history.count)), h,
              vel[..], head[..], Matching(w.entities.items, BODY_QUERY), body[..])
  {
    history.Record(pos[h]);
    var x := pos[h].x + vel[h].dx;
    var y := pos[h].y + vel[h].dy;
    if x < 0 { x := BOARD_WIDTH - 1; }
    if x >= BOARD_WIDTH { x := 0; }
    if y < 0 { y := BOARD_HEIGHT - 1; }
    if y >= BOARD_HEIGHT { y := 0; }
    pos[h] := Position(x, y);
    FollowBodies(w, pos, body, head[h].length, history);
  }

  /** The head loop of movement_system, over the heads in scan order. */
  method MoveHeads(w: World, pos: array<Position>, vel: array<Velocity>, head: array<SnakeHead>,
                   body: array<SnakeBody>, history: PositionHistory, heads: seq<nat>)
    requires |w.entities.items| <= SLOTS
    requires pos.Length == SLOTS && vel.Length == SLOTS && head.Length == SLOTS && body.Length == SLOTS
    requires history.Valid() && pos != history.positions
    requires forall k :: 0 <= k < |heads| ==> heads[k] < SLOTS
    modifies pos, history`count, history.positions
    ensures history.Valid()
    ensures Motion(pos[..], history.positions[..], history.count) ==
      MoveAll(Motion(old(pos[..]), old(history.positions[..]), old(history.count)), heads,
              vel[..], head[..], Matching(w.entities.items, BODY_QUERY), body[..])
  {
    for k := 0 to |heads|
      invariant history.Valid()
      invariant Motion(pos[..], history.positions[..], history.count) ==
        MoveAll(Motion(old(pos[..]), old(history.positions[..]), old(history.count)), heads[..k],
                vel[..], head[..], Matching(w.entities.items, BODY_QUERY), body[..])
    {
      MoveHead(w, pos, vel, head, body, history, heads[k]);
      assert heads[..k + 1][..k] == heads[..k];
    }
    assert heads[..|heads|] == heads;
  }

  /** The body loop of collision_system: whether head h stands on a segment. */
  method HeadOnBody(w: World, pos: array<Position>, h: nat) returns (hit: bool)
    requires |w.entities.items| <= SLOTS && pos.Length == SLOTS && h < SLOTS
    ensures hit == StandsOn(pos[..], Matching(w.entities.items, BODY_QUERY), pos[h])
  {
    var bodies := w.QueryByComponents(BODY_QUERY);
    for k := 0 to |bodies|
      invariant forall j :: 0 <= j < k ==> pos[bodies[j]] != pos[h]
    {
      if pos[bodies[k]] == pos[h] {
        assert pos[..][bodies[k]] == pos[h];
        return true;
      }
    }
    return false;
  }

  /** What collision_system reads and changes, as one value. */
  ghost function SceneOf(w: World, ps: ComponentStore<Position>, hs: ComponentStore<SnakeHead>,
                         bs: ComponentStore<SnakeBody>, rs: ComponentStore<Renderable>, state: GameState): Scene
    reads w.entities, ps.slots, hs.slots, bs.slots, rs.slots, state
  {
    Scene(w.entities.items, w.entities.capacity, ps.slots[..], hs.slots[..], bs.slots[..], rs.slots[..],
          state.running, state.score)
  }

  /** The stores collision_system works on, registered as main registers them. */
  ghost predicate CollisionStores(w: World, ps: ComponentStore<Position>, hs: ComponentStore<SnakeHead>,
                                  bs: ComponentStore<SnakeBody>, rs: ComponentStore<Renderable>)
    reads w.entities, w.deadEntities, ps, hs, bs, rs
  {
    && Growing(w) && RegisteredAs(ps, POSITION) && RegisteredAs(hs, SNAKE_HEAD)
    && RegisteredAs(bs, SNAKE_BODY) && RegisteredAs(rs, RENDERABLE)
  }

  /** One step of the food loop: head h on food f. */
  method EatOne(w: World, ps: ComponentStore<Position>, hs: ComponentStore<SnakeHead>,
                bs: ComponentStore<SnakeBody>, rs: ComponentStore<Renderable>, state: GameState,
                h: nat, f: nat, spot: Position)
    requires CollisionStores(w, ps, hs, bs, rs)
    requires h < SLOTS && f < |w.entities.items|
    requires ps.slots[h] == ps.slots[f] ==> |w.entities.items| < SLOTS
    modifies w.entities, w.deadEntities, ps.slots, hs.slots, bs.slots, rs.slots, state`score
    ensures CollisionStores(w, ps, hs, bs, rs) && w.deadEntities.capacity == old(w.deadEntities.capacity)
    ensures SceneOf(w, ps, hs, bs, rs, state) == Eat(old(SceneOf(w, ps, hs, bs, rs, state)), h, f, spot)
  {
    if ps.slots[h] == ps.slots[f] {
      hs.slots[h] := SnakeHead(hs.slots[h].length + 1);
      state.score := state.score + 10;
      var id := SpawnSegment(w, ps, bs, rs, ps.slots[h], hs.slots[h].length - 1);
      ps.slots[f] := spot;
    }
  }

  /** The food loop of collision_system for head h. */
  method EatFoods(w: World, ps: ComponentStore<Position>, hs: ComponentStore<SnakeHead>,
                  bs: ComponentStore<SnakeBody>, rs: ComponentStore<Renderable>, state: GameState,
                  h: nat, spot: Position)
    requires CollisionStores(w, ps, hs, bs, rs)
    requires h < SLOTS
    requires |w.entities.items| + |Matching(w.entities.items, FOOD_QUERY)| <= SLOTS
    modifies w.entities, w.deadEntities, ps.slots, hs.slots, bs.slots, rs.slots, state`score
    ensures CollisionStores(w, ps, hs, bs, rs) && w.deadEntities.capacity == old(w.deadEntities.capacity)
    ensures SceneOf(w, ps, hs, bs, rs, state) ==
      EatAll(old(SceneOf(w, ps, hs, bs, rs, state)), h, Matching(old(w.entities.items), FOOD_QUERY), spot)
  {
    var foods := w.QueryByComponents(FOOD_QUERY);
    for k := 0 to |foods|
      invariant CollisionStores(w, ps, hs, bs, rs) && w.deadEntities.capacity == old(w.deadEntities.capacity)
      invariant |w.entities.items| <= |old(w.entities.items)| + k
      invariant SceneOf(w, ps, hs, bs, rs, state) ==
        EatAll(old(SceneOf(w, ps, hs, bs, rs, state)), h, foods[..k], spot)
    {
      EatAllSnoc(old(SceneOf(w, ps, hs, bs, rs, state)), h, foods, k, spot);
      EatOne(w, ps, hs, bs, rs, state, h, foods[k], spot);
    }
    assert foods[..|foods|] == foods;
  }

  /** The first head of a collision pass that misses the body eats, and
      the pass goes on from there with room for the other heads' growth. */
  lemma CollideStep(s: Scene, heads: seq<nat>, spot: Position)
    requires SceneShape(s) && heads != []
    requires forall k :: 0 <= k < |heads| ==> heads[k] < SLOTS
    requires RoomFor(s.table, |heads|)
    ensures |s.table| + |Matching(s.table, FOOD_QUERY)| <= SLOTS
    ensures StandsOn(s.pos, Matching(s.table, BODY_QUERY), s.pos[heads[0]]) ==>
      CollideAll(s, heads, spot) == s.(running := false)
    ensures !StandsOn(s.pos, Matching(s.table, BODY_QUERY), s.pos[heads[0]]) ==>
      var q := EatAll(s, heads[0], Matching(s.table, FOOD_QUERY), spot);
      && RoomFor(q.table, |heads| - 1)
      && CollideAll(s, heads, spot) == CollideAll(q, heads[1..], spot)
  {
    var foods := Matching(s.table, FOOD_QUERY);
    if !StandsOn(s.pos, Matching(s.table, BODY_QUERY), s.pos[heads[0]]) {
      var q := EatAll(s, heads[0], foods, spot);
      assert FOOD !in SEGMENT_MASK;
      GrowthKeepsQuery(s.table, q.table, FOOD_QUERY);
    }
  }

  /** One head of collision_system, the first of `heads`: a head on a
      segment stops the game and the whole pass; otherwise the head eats and
      the pass goes on with the other heads. */
  method CollideOne(w: World, ps: ComponentStore<Position>, hs: ComponentStore<SnakeHead>,
                    bs: ComponentStore<SnakeBody>, rs: ComponentStore<Renderable>, state: GameState,
                    h: nat, ghost heads: seq<nat>, spot: Position) returns (hit: bool)
    requires CollisionStores(w, ps, hs, bs, rs)
    requires heads != [] && heads[0] == h
    requires forall k :: 0 <= k < |heads| ==> heads[k] < SLOTS
    requires RoomFor(w.entities.items, |heads|)
    modifies w.entities, w.deadEntities, ps.slots, hs.slots, bs.slots, rs.slots, state
    ensures CollisionStores(w, ps, hs, bs, rs) && w.deadEntities.capacity == old(w.deadEntities.capacity)
    ensures hit == StandsOn(old(ps.slots[..]), Matching(old(w.entities.items), BODY_QUERY), old(ps.slots[h]))
    ensures hit ==> SceneOf(w, ps, hs, bs, rs, state) == CollideAll(old(SceneOf(w, ps, hs, bs, rs, state)), heads, spot)
    ensures !hit ==>
      && RoomFor(w.entities.items, |heads| - 1)
      && CollideAll(SceneOf(w, ps, hs, bs, rs, state), heads[1..], spot) ==
         CollideAll(old(SceneOf(w, ps, hs, bs, rs, state)), heads, spot)
  {
    CollideStep(SceneOf(w, ps, hs, bs, rs, state), heads, spot);
    hit := HeadOnBody(w, ps.slots, h);
    if hit {
      state.running := false;
    } else {
      EatFoods(w, ps, hs, bs, rs, state, h, spot);
    }
  }

  /** collision_system's head loop, over the heads not yet visited: a head on a
      segment ends the whole pass, otherwise the pass goes on with the next head. */
  method CollideHeads(w: World, ps: ComponentStore<Position>, hs: ComponentStore<SnakeHead>,
                      bs: ComponentStore<SnakeBody>, rs: ComponentStore<Renderable>, state: GameState,
                      heads: seq<nat>, spot: Position)
    requires CollisionStores(w, ps, hs, bs, rs)
    requires forall k :: 0 <= k < |heads| ==> heads[k] < SLOTS
    requires RoomFor(w.entities.items, |heads|)
    modifies w.entities, w.deadEntities, ps.slots, hs.slots, bs.slots, rs.slots, state
    ensures Growing(w) && w.deadEntities.capacity == old(w.deadEntities.capacity)
    ensures SceneOf(w, ps, hs, bs, rs, state) == CollideAll(old(SceneOf(w, ps, hs, bs, rs, state)), heads, spot)
    decreases |heads|
  {
    if heads != [] {
      var hit := CollideOne(w, ps, hs, bs, rs, state, heads[0], heads, spot);
      if !hit {
        CollideHeads(w, ps, hs, bs, rs, state, heads[1..], spot);
      }
    }
  }

  /** The board-fill part of render_system. */
  method Draw(pos: array<Position>, rend: array<Renderable>, ids: seq<nat>) returns (board: array2<char>)
    requires forall k :: 0 <= k < |ids| ==> ids[k] < pos.Length && ids[k] < rend.Length
    ensures fresh(board) && board.Length0 == BOARD_HEIGHT && board.Length1 == BOARD_WIDTH
    ensures forall y, x :: 0 <= y < BOARD_HEIGHT && 0 <= x < BOARD_WIDTH ==>
      board[y, x] == Paint(pos[..], rend[..], ids)[y][x]
  {
    board := new char[BOARD_HEIGHT, BOARD_WIDTH]((_, _) => ' ');
    for k := 0 to |ids|
      invariant forall y, x :: 0 <= y < BOARD_HEIGHT && 0 <= x < BOARD_WIDTH ==>
        board[y, x] == Paint(pos[..], rend[..], ids[..k])[y][x]
    {
      var p := pos[ids[k]];
      ghost var b := Paint(pos[..], rend[..], ids[..k]);
      if 0 <= p.x < BOARD_WIDTH && 0 <= p.y < BOARD_HEIGHT {
        board[p.y, p.x] := rend[ids[k]].symbol;
        forall y, x | 0 <= y < BOARD_HEIGHT && 0 <= x < BOARD_WIDTH
          ensures board[y, x] == b[p.y := b[p.y][p.x := rend[ids[k]].symbol]][y][x]
        {
          WriteCell(b, p, rend[ids[k]].symbol, x, y);
        }
      }
      assert ids[..k + 1][..k] == ids[..k];
    }
    assert ids[..|ids|] == ids;
  }

  /** The table main builds: the head, its three segments and the food. */
  const START_TABLE: seq<Entity> := [Entity(HEAD_MASK, 0), Entity(SEGMENT_MASK, 1), Entity(SEGMENT_MASK, 2),
                                     Entity(SEGMENT_MASK, 3), Entity(FOOD_MASK, 4)]

  /** The ids a query finds in the starting table, one slot at a time. */
  lemma StartMatching(q: Mask)
    ensures Matching(START_TABLE, q)
         == (if HasComponents(Entity(HEAD_MASK, 0), q) then [0] else [])
          + (if HasComponents(Entity(SEGMENT_MASK, 1), q) then [1, 2, 3] else [])
          + (if HasComponents(Entity(FOOD_MASK, 4), q) then [4] else [])
  {
    var t := START_TABLE;
    var seg := HasComponents(Entity(SEGMENT_MASK, 1), q);
    var m0 := if HasComponents(Entity(HEAD_MASK, 0), q) then [0] else [];
    assert t[..4] == [Entity(HEAD_MASK, 0), Entity(SEGMENT_MASK, 1), Entity(SEGMENT_MASK, 2), Entity(SEGMENT_MASK, 3)];
    assert t[..4][..3] == [Entity(HEAD_MASK, 0), Entity(SEGMENT_MASK, 1), Entity(SEGMENT_MASK, 2)];
    assert t[..4][..3][..2] == [Entity(HEAD_MASK, 0), Entity(SEGMENT_MASK, 1)];
    assert t[..4][..3][..2][..1] == [Entity(HEAD_MASK, 0)];
    assert [Entity(HEAD_MASK, 0)][..0] == [];
    assert Matching(t[..4][..3][..2][..1], q) == m0;
    assert Matching(t[..4][..3][..2], q) == m0 + (if seg then [1] else []);
    assert Matching(t[..4][..3], q) == m0 + (if seg then [1, 2] else []);
    assert Matching(t[..4], q) == m0 + (if seg then [1, 2, 3] else []);
  }

  /** In the starting table the systems find one snake head, its three
      segments, one food, and all five entities to draw. */
  lemma StartQueries()
    ensures Matching(START_TABLE, HEAD_QUERY) == [0] && Matching(START_TABLE, MOVE_QUERY) == [0]
    ensures Matching(START_TABLE, STEER_QUERY) == [0]
    ensures Matching(START_TABLE, BODY_QUERY) == [1, 2, 3] && Matching(START_TABLE, FOOD_QUERY) == [4]
    ensures Matching(START_TABLE, DRAW_QUERY) == [0, 1, 2, 3, 4]
  {
    StartMatching(HEAD_QUERY); StartMatching(MOVE_QUERY); StartMatching(STEER_QUERY);
    StartMatching(BODY_QUERY); StartMatching(FOOD_QUERY); StartMatching(DRAW_QUERY);
    assert SNAKE_HEAD !in SEGMENT_MASK && SNAKE_HEAD !in FOOD_MASK;
    assert SNAKE_BODY !in HEAD_MASK && SNAKE_BODY !in FOOD_MASK;
    assert FOOD !in HEAD_MASK && FOOD !in SEGMENT_MASK;
  }

  /** The starting table leaves room for its one head to eat its one food. */
  lemma StartRoom()
    ensures RoomFor(START_TABLE, |Matching(START_TABLE, HEAD_QUERY)|)
  {
    StartQueries();
    assert Times(1, 1) == 1;
  }

  /** main after the registrations: running is set, then spawn_snake and
      spawn_food run on the empty registry. */
  method StartGame(w: World, ps: ComponentStore<Position>, vs: ComponentStore<Velocity>,
                   hs: ComponentStore<SnakeHead>, bs: ComponentStore<SnakeBody>, fs: ComponentStore<Food>,
                   rs: ComponentStore<Renderable>, state: GameState, spot: Position)
    requires Growing(w) && w.entities.items == [] && w.entities.capacity == 0 && OnBoard(spot)
    requires RegisteredAs(ps, POSITION) && RegisteredAs(vs, VELOCITY) && RegisteredAs(hs, SNAKE_HEAD)
    requires RegisteredAs(bs, SNAKE_BODY) && RegisteredAs(fs, FOOD) && RegisteredAs(rs, RENDERABLE)
    modifies w.entities, w.deadEntities, ps.slots, vs.slots, hs.slots, bs.slots, fs.slots, rs.slots, state`running
    ensures Growing(w) && state.running && state.score == old(state.score)
    ensures w.entities.items == START_TABLE
    ensures w.entities.capacity == INIT_CAP && w.deadEntities.capacity == old(w.deadEntities.capacity)
    ensures ps.slots[..5] == [Position(20, 5), Position(19, 5), Position(18, 5), Position(17, 5), spot]
    ensures vs.slots[0] == Velocity(1, 0) && hs.slots[0] == SnakeHead(3)
    ensures bs.slots[1..4] == [SnakeBody(0), SnakeBody(1), SnakeBody(2)] && fs.slots[4] == Food(1)
    ensures rs.slots[..5] == [Renderable('@'), Renderable('o'), Renderable('o'), Renderable('o'), Renderable('*')]
    ensures ps.slots[5..] == old(ps.slots[5..]) && rs.slots[5..] == old(rs.slots[5..])
    ensures vs.slots[1..] == old(vs.slots[1..]) && hs.slots[1..] == old(hs.slots[1..])
    ensures bs.slots[0] == old(bs.slots[0]) && bs.slots[4..] == old(bs.slots[4..])
    ensures fs.slots[..4] == old(fs.slots[..4]) && fs.slots[5..] == old(fs.slots[5..])
  {
    state.running := true;
    SpawnSnake(w, ps, vs, hs, bs, rs);
    ReservedInSteps(0, 4, 5);
    var id := SpawnFood(w, ps, fs, rs, spot);
  }

  // ----------------------------------------------------------------------
  // The game: the registry, the six component types, game_state and the
  // history buffer of movement_system
  // ----------------------------------------------------------------------

  class Game {
    const world: World
    const position: ComponentStore<Position>
    const velocity: ComponentStore<Velocity>
    const snakeHead: ComponentStore<SnakeHead>
    const snakeBody: ComponentStore<SnakeBody>
    const food: ComponentStore<Food>
    const renderable: ComponentStore<Renderable>
    const state: GameState
    const history: PositionHistory

    /** Nothing is despawned, the six types hold the bits main gives them,
        and the history buffer is its own array. */
    ghost predicate Valid()
      reads world.entities, world.deadEntities, position, velocity, snakeHead, snakeBody, food, renderable
    {
      && Growing(world)
      && RegisteredAs(position, POSITION) && RegisteredAs(velocity, VELOCITY)
      && RegisteredAs(snakeHead, SNAKE_HEAD) && RegisteredAs(snakeBody, SNAKE_BODY)
      && RegisteredAs(food, FOOD) && RegisteredAs(renderable, RENDERABLE)
      && history.positions != position.slots
    }

    ghost function Table(): seq<Entity>
      reads world.entities
    {
      world.entities.items
    }

    ghost function MotionNow(): Motion
      reads position.slots, history, history.positions
    {
      Motion(position.slots[..], history.positions[..], history.count)
    }

    ghost function SceneNow(): Scene
      reads world.entities, position.slots, snakeHead.slots, snakeBody.slots, renderable.slots, state
    {
      SceneOf(world, position, snakeHead, snakeBody, renderable, state)
    }

    /** main's zero-initialised statics followed by its six registrations. */
    constructor ()
      ensures Valid() && Table() == [] && world.entities.capacity == 0
      ensures history.Valid() && history.count == 0
      ensures !state.running && state.score == 0
      ensures fresh(world) && fresh(world.entities) && fresh(world.deadEntities)
      ensures fresh(position.slots) && fresh(velocity.slots) && fresh(snakeHead.slots)
      ensures fresh(snakeBody.slots) && fresh(food.slots) && fresh(renderable.slots)
      ensures fresh(state) && fresh(history) && fresh(history.positions)
    {
      var w := new World();
      var p, v, sh, sb, f, r := RegisterAll(w);
      world, position, velocity, snakeHead, snakeBody, food, renderable := w, p, v, sh, sb, f, r;
      state := new GameState();
      history := new PositionHistory();
    }

    /** main before its loop, after the registrations: running is set, then
        spawn_snake and spawn_food run, with `spot` for the two rand() draws. */
    method Start(spot: Position)
      requires Valid() && Table() == [] && world.entities.capacity == 0 && OnBoard(spot)
      modifies world.entities, world.deadEntities, position.slots, velocity.slots, snakeHead.slots,
               snakeBody.slots, food.slots, renderable.slots, state`running
      ensures Valid() && state.running && state.score == old(state.score)
      ensures Table() == START_TABLE && FoodOnBoard(SceneNow())
      ensures world.entities.capacity == INIT_CAP && world.deadEntities.capacity == old(world.deadEntities.capacity)
      ensures position.slots[..5] == [Position(20, 5), Position(19, 5), Position(18, 5), Position(17, 5), spot]
      ensures velocity.slots[0] == Velocity(1, 0) && snakeHead.slots[0] == SnakeHead(3)
      ensures snakeBody.slots[1..4] == [SnakeBody(0), SnakeBody(1), SnakeBody(2)] && food.slots[4] == Food(1)
      ensures renderable.slots[..5] == [Renderable('@'), Renderable('o'), Renderable('o'), Renderable('o'),
                                        Renderable('*')]
      ensures position.slots[5..] == old(position.slots[5..]) && renderable.slots[5..] == old(renderable.slots[5..])
      ensures velocity.slots[1..] == old(velocity.slots[1..]) && snakeHead.slots[1..] == old(snakeHead.slots[1..])
      ensures snakeBody.slots[0] == old(snakeBody.slots[0]) && snakeBody.slots[4..] == old(snakeBody.slots[4..])
      ensures food.slots[..4] == old(food.slots[..4]) && food.slots[5..] == old(food.slots[5..])
    {
      StartGame(world, position, velocity, snakeHead, snakeBody, food, renderable, state, spot);
      StartQueries();
      assert position.slots[..5][4] == spot;
    }

    /** input_system; `key` is the key read when one was pressed. */
    method Input(key: Option<char>)
      requires Valid()
      modifies velocity.slots, state`running
      ensures Valid() && Table() == old(Table())
      ensures key.None? ==> velocity.slots[..] == old(velocity.slots[..]) && state.running == old(state.running)
      ensures key.Some? ==>
        && velocity.slots[..] == SteerAll(old(velocity.slots[..]), Matching(Table(), STEER_QUERY), key.value)
        && state.running == (old(state.running) && !(Quits(key.value) && Matching(Table(), STEER_QUERY) != []))
    {
      if key.Some? {
        var heads := world.QueryByComponents(STEER_QUERY);
        SteerSnakes(velocity.slots, heads, key.value, state);
      }
    }

    /** movement_system. */
    method Movement()
      requires Valid() && history.Valid()
      modifies position.slots, history`count, history.positions
      ensures Valid() && Table() == old(Table()) && history.Valid()
      ensures MotionNow() == MoveAll(old(MotionNow()), Matching(Table(), MOVE_QUERY), velocity.slots[..],
                                     snakeHead.slots[..], Matching(Table(), BODY_QUERY), snakeBody.slots[..])
    {
      var heads := world.QueryByComponents(MOVE_QUERY);
      MoveHeads(world, position.slots, velocity.slots, snakeHead.slots, snakeBody.slots, history, heads);
    }

    /** collision_system; `spot` stands for the rand() draws that place the
        food again after each meal of this pass. */
    method Collision(spot: Position)
      requires Valid() && OnBoard(spot)
      requires RoomFor(Table(), |Matching(Table(), HEAD_QUERY)|)
      modifies world.entities, world.deadEntities, position.slots, snakeHead.slots, snakeBody.slots,
               renderable.slots, state
      ensures Valid() && world.deadEntities.capacity == old(world.deadEntities.capacity)
      ensures SceneNow() == CollideAll(old(SceneNow()), Matching(old(Table()), HEAD_QUERY), spot)
    {
      var heads := world.QueryByComponents(HEAD_QUERY);
      CollideHeads(world, position, snakeHead, snakeBody, renderable, state, heads, spot);
    }

    /** The board render_system prints. */
    method Render() returns (board: array2<char>)
      requires Valid()
      ensures fresh(board) && board.Length0 == BOARD_HEIGHT && board.Length1 == BOARD_WIDTH
      ensures forall y, x :: 0 <= y < BOARD_HEIGHT && 0 <= x < BOARD_WIDTH ==>
        board[y, x] == Paint(position.slots[..], renderable.slots[..], Matching(Table(), DRAW_QUERY))[y][x]
    {
      var ids := world.QueryByComponents(DRAW_QUERY);
      board := Draw(position.slots, renderable.slots, ids);
    }
  }

  /** What a collision pass does to the table, the score and running. */
  lemma CollideAllEffect(s: Scene, heads: seq<nat>, spot: Position)
    requires SceneShape(s)
    requires forall k :: 0 <= k < |heads| ==> heads[k] < SLOTS
    requires RoomFor(s.table, |heads|)
    ensures var r := CollideAll(s, heads, spot);
      && GrownBySegments(s.table, r.table)
      && r.score == s.score + 10 * (|r.table| - |s.table|)
      && (r.running ==> s.running)
  {
    CollideAllGrows(s, heads, spot);
    CollideAllScores(s, heads, spot);
  }

  /** The three systems of main's loop body that change the game:
      input_system, movement_system and collision_system, in that order;
      `spot` stands for the rand() draws of the collision pass. */
  method Update(g: Game, key: Option<char>, spot: Position)
    requires g.Valid() && g.history.Valid() && OnBoard(spot)
    requires RoomFor(g.Table(), |Matching(g.Table(), HEAD_QUERY)|)
    modifies g.world.entities, g.world.deadEntities, g.position.slots, g.velocity.slots, g.snakeHead.slots,
             g.snakeBody.slots, g.renderable.slots, g.state, g.history, g.history.positions
    ensures g.Valid() && g.history.Valid()
    ensures g.world.deadEntities.capacity == old(g.world.deadEntities.capacity)
    ensures GrownBySegments(old(g.Table()), g.Table())
    ensures g.state.running ==> old(g.state.running)
    ensures g.state.score == old(g.state.score) + 10 * (|g.Table()| - |old(g.Table())|)
  {
    g.Input(key);
    g.Movement();
    ghost var s := g.SceneNow();
    ghost var heads := Matching(g.Table(), HEAD_QUERY);
    g.Collision(spot);
    CollideAllEffect(s, heads, spot);
  }

  /** One pass of main's loop body: the three updating systems, then
      render_system. */
  method Tick(g: Game, key: Option<char>, spot: Position) returns (board: array2<char>)
    requires g.Valid() && g.history.Valid() && OnBoard(spot)
    requires RoomFor(g.Table(), |Matching(g.Table(), HEAD_QUERY)|)
    modifies g.world.entities, g.world.deadEntities, g.position.slots, g.velocity.slots, g.snakeHead.slots,
             g.snakeBody.slots, g.renderable.slots, g.state, g.history, g.history.positions
    ensures g.Valid() && g.history.Valid()
    ensures g.world.deadEntities.capacity == old(g.world.deadEntities.capacity)
    ensures GrownBySegments(old(g.Table()), g.Table())
    ensures g.state.running ==> old(g.state.running)
    ensures g.state.score == old(g.state.score) + 10 * (|g.Table()| - |old(g.Table())|)
    ensures board.Length0 == BOARD_HEIGHT && board.Length1 == BOARD_WIDTH
    ensures forall y, x :: 0 <= y < BOARD_HEIGHT && 0 <= x < BOARD_WIDTH ==>
      board[y, x] == Paint(g.position.slots[..], g.renderable.slots[..], Matching(g.Table(), DRAW_QUERY))[y][x]
  {
    Update(g, key, spot);
    board := g.Render();
  }

  /** main with one pass of its loop: the registrations, the start, one
      tick with `key` and the rand() spots, then ecs_deinit. */
  method FirstTick(key: Option<char>, spot: Position, spot2: Position) returns (g: Game, board: array2<char>)
    requires OnBoard(spot) && OnBoard(spot2)
    ensures board.Length0 == BOARD_HEIGHT && board.Length1 == BOARD_WIDTH
    ensures g.world.entities.items == [] && g.world.deadEntities.items == []
    ensures g.world.entities.capacity == 0 && g.world.deadEntities.capacity == 0
  {
    g := new Game();
    g.Start(spot);
    StartRoom();
    board := Tick(g, key, spot2);
    g.world.Deinit();
  }
}
