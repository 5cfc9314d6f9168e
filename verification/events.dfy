/**
 The per-connection handlers: a connection creates a player, `move` and
 `shoot` act on the sender's player if it still exists, and `disconnect`
 deletes it. Each handler runs to completion, so each is one step from a
 world to a world.
 */
module Events {
  import opened GameState
  import Names

  /** The player a new connection gets, drawing the name first, then x,
      then y. */
  function NewPlayer(id: Id, nameDraw: Unit, xDraw: Unit, yDraw: Unit): (p: Player)
    ensures p.id == id && p.angle == 0.0
    ensures p.health == FULL_HEALTH && p.kills == 0
    ensures SPAWN_X0 <= p.x < SPAWN_X0 + SPAWN_W && SPAWN_Y0 <= p.y < SPAWN_Y0 + SPAWN_H
    ensures p.name == Names.GenerateName(nameDraw)
  {
    Player(id, Names.GenerateName(nameDraw), SpawnX(xDraw), SpawnY(yDraw), 0.0, FULL_HEALTH, 0)
  }

  /** `connection`: stores a fresh player under the socket id. */
  function Connect(w: World, id: Id, nameDraw: Unit, xDraw: Unit, yDraw: Unit): (r: World)
    ensures r.bullets == w.bullets
    ensures r.players.Keys == w.players.Keys + {id}
    ensures forall other | other in w.players && other != id :: r.players[other] == w.players[other]
    ensures r.players[id].id == id && r.players[id].angle == 0.0
    ensures r.players[id].health == FULL_HEALTH && r.players[id].kills == 0
    ensures SPAWN_X0 <= r.players[id].x < SPAWN_X0 + SPAWN_W
    ensures SPAWN_Y0 <= r.players[id].y < SPAWN_Y0 + SPAWN_H
    ensures r.players[id].name == Names.GenerateName(nameDraw)
    ensures Valid(w) ==> Valid(r)
  {
    World(w.players[id := NewPlayer(id, nameDraw, xDraw, yDraw)], w.bullets)
  }

  /** `disconnect`: deletes the entry, whether or not it exists. */
  function Disconnect(w: World, id: Id): (r: World)
    ensures r.bullets == w.bullets
    ensures r.players.Keys == w.players.Keys - {id}
    ensures forall other | other in r.players :: r.players[other] == w.players[other]
    ensures id !in w.players ==> r == w
    ensures Valid(w) ==> Valid(r)
  {
    World(w.players - {id}, w.bullets)
  }

  /** A second disconnect of the same id changes nothing. */
  lemma DisconnectIdempotent(w: World, id: Id)
    ensures Disconnect(Disconnect(w, id), id) == Disconnect(w, id)
  {
  }

  /** Disconnecting a connection that was fresh restores the world it
      joined. */
  lemma DisconnectUndoesConnect(w: World, id: Id, nameDraw: Unit, xDraw: Unit, yDraw: Unit)
    requires id !in w.players
    ensures Disconnect(Connect(w, id, nameDraw, xDraw, yDraw), id) == w
  {
  }

  /** The net offset along one axis: MOVE_STEP for the key that increases
      the coordinate, minus MOVE_STEP for the key that decreases it. Other
      keys of the set play no part. */
  function AxisOffset(keys: set<string>, decrease: string, increase: string): (d: real)
    ensures decrease in keys && increase !in keys ==> d == -MOVE_STEP
    ensures increase in keys && decrease !in keys ==> d == MOVE_STEP
    ensures (decrease in keys <==> increase in keys) ==> d == 0.0
  {
    (if decrease in keys then -MOVE_STEP else 0.0) + (if increase in keys then MOVE_STEP else 0.0)
  }

  /** `move`: stores the angle, steps once per held key ("w" up, "s" down,
      "a" left, "d" right) and clamps the result to the arena. */
  function Move(w: World, id: Id, keys: set<string>, angle: real): (r: World)
    ensures id !in w.players ==> r == w
    ensures r.bullets == w.bullets
    ensures r.players.Keys == w.players.Keys
    ensures forall other | other in w.players && other != id :: r.players[other] == w.players[other]
    ensures id in w.players ==>
      var p, q := w.players[id], r.players[id];
      && q.angle == angle
      && q.id == p.id && q.name == p.name && q.health == p.health && q.kills == p.kills
      && InArena(q.x, q.y)
    // Each axis is clamped on its own, so a player can slide along a wall.
    ensures id in w.players ==>
      var p, q, dx := w.players[id], r.players[id], AxisOffset(keys, "a", "d");
      && (MIN_POS <= p.x + dx <= MAX_X ==> q.x == p.x + dx)
      && (p.x + dx > MAX_X ==> q.x == MAX_X)
      && (p.x + dx < MIN_POS ==> q.x == MIN_POS)
    ensures id in w.players ==>
      var p, q, dy := w.players[id], r.players[id], AxisOffset(keys, "w", "s");
      && (MIN_POS <= p.y + dy <= MAX_Y ==> q.y == p.y + dy)
      && (p.y + dy > MAX_Y ==> q.y == MAX_Y)
      && (p.y + dy < MIN_POS ==> q.y == MIN_POS)
    ensures Valid(w) ==> Valid(r)
  {
    if id !in w.players then w
    else
      var p := w.players[id];
      var x := Clamp(p.x + AxisOffset(keys, "a", "d"), MIN_POS, MAX_X);
      var y := Clamp(p.y + AxisOffset(keys, "w", "s"), MIN_POS, MAX_Y);
      World(w.players[id := p.(angle := angle, x := x, y := y)], w.bullets)
  }

  /** From inside the arena a move never carries a player more than one
      step along either axis. */
  lemma MoveStepBounded(w: World, id: Id, keys: set<string>, angle: real)
    requires id in w.players && InArena(w.players[id].x, w.players[id].y)
    ensures var p, q := w.players[id], Move(w, id, keys, angle).players[id];
      && -MOVE_STEP <= q.x - p.x <= MOVE_STEP
      && -MOVE_STEP <= q.y - p.y <= MOVE_STEP
  {
  }

  /** A player against the right wall holding "d" and "s" slides down the
      wall: x stays at the edge while y takes its full step. */
  lemma SlideAlongWall(w: World, id: Id, angle: real)
    requires id in w.players && w.players[id].x == MAX_X && w.players[id].y == 600.0
    ensures Move(w, id, {"d", "s"}, angle).players[id].x == MAX_X
    ensures Move(w, id, {"d", "s"}, angle).players[id].y == 603.0
  {
    var keys: set<string> := {"d", "s"};
    assert "a" !in keys && "d" in keys;
    assert "w" !in keys && "s" in keys;
  }

  /** `shoot`: appends a bullet that starts where the shooter stands and
      flies along the shooter's current angle. */
  function Shoot(w: World, id: Id): (r: World)
    ensures id !in w.players ==> r == w
    ensures r.players == w.players
    ensures id in w.players ==>
      && |r.bullets| == |w.bullets| + 1
      && r.bullets[..|w.bullets|] == w.bullets
      && r.bullets[|w.bullets|].owner == id
      && r.bullets[|w.bullets|].x == w.players[id].x
      && r.bullets[|w.bullets|].y == w.players[id].y
      && r.bullets[|w.bullets|].angle == w.players[id].angle
    ensures Valid(w) && id in w.players ==> !OffCanvas(r.bullets[|w.bullets|])
    ensures Valid(w) ==> Valid(r)
  {
    if id !in w.players then w
    else
      var p := w.players[id];
      World(w.players, w.bullets + [Bullet(p.x, p.y, p.angle, id)])
  }
}
