/**
 The shared world of the stickman arena server: the arena's constants and
 geometry, the two entities (players and bullets) and the world that holds
 them. Every handler of the server is a pure transition on a `World` value.
 */
module GameState {

  /** Width and height of the canvas; bullets beyond them are pruned. */
  const WIDTH: real := 1600.0
  const HEIGHT: real := 1200.0

  /** Players are kept inside [MIN_POS, MAX_X] x [MIN_POS, MAX_Y]. */
  const MIN_POS: real := 10.0
  const MAX_X: real := 1590.0
  const MAX_Y: real := 1190.0

  /** Distance moved per held key and per move message. */
  const MOVE_STEP: real := 3.0

  /** Distance a bullet travels along its angle per tick. */
  const BULLET_SPEED: real := 5.0

  /** A bullet hits a player strictly closer than this. */
  const HIT_RADIUS: real := 15.0

  const DAMAGE: int := 25
  const FULL_HEALTH: int := 100

  /** Spawn points are drawn from [100, 900) x [100, 600). */
  const SPAWN_X0: real := 100.0
  const SPAWN_W: real := 800.0
  const SPAWN_Y0: real := 100.0
  const SPAWN_H: real := 500.0

  /** A value `Math.random()` can return. */
  type Unit = r: real | 0.0 <= r < 1.0

  /** The socket id of a connection; it is also the key of the player map. */
  type Id = string

  datatype Option<T> = None | Some(value: T)

  datatype Result<T, E> = Success(value: T) | Failure(error: E)

  datatype Player = Player(id: Id, name: string, x: real, y: real, angle: real, health: int, kills: int)

  datatype Bullet = Bullet(x: real, y: real, angle: real, owner: Id)

  datatype World = World(players: map<Id, Player>, bullets: seq<Bullet>)

  /** Math.max(lo, Math.min(hi, v)). */
  function Clamp(v: real, lo: real, hi: real): (r: real)
    requires lo <= hi
    ensures lo <= r <= hi
    ensures lo <= v <= hi ==> r == v
    ensures v < lo ==> r == lo
    ensures hi < v ==> r == hi
  {
    var m := if hi < v then hi else v;
    if m < lo then lo else m
  }

  predicate InArena(x: real, y: real) {
    MIN_POS <= x <= MAX_X && MIN_POS <= y <= MAX_Y
  }

  predicate OffCanvas(b: Bullet) {
    b.x < 0.0 || b.x > WIDTH || b.y < 0.0 || b.y > HEIGHT
  }

  /** The squared form of `Math.sqrt(dx * dx + dy * dy) < 15`. */
  predicate WithinHitRadius(p: Player, b: Bullet) {
    var dx := p.x - b.x;
    var dy := p.y - b.y;
    dx * dx + dy * dy < HIT_RADIUS * HIT_RADIUS
  }

  /** Comparing the squared distance with 225 decides the same as comparing
      the (non-negative) root with 15. */
  lemma SqrtComparison(d2: real, s: real)
    requires 0.0 <= s && s * s == d2
    ensures s < HIT_RADIUS <==> d2 < HIT_RADIUS * HIT_RADIUS
  {
    if s < HIT_RADIUS {
      assert s * s <= s * HIT_RADIUS < HIT_RADIUS * HIT_RADIUS;
    } else {
      assert s * s >= s * HIT_RADIUS >= HIT_RADIUS * HIT_RADIUS;
    }
  }

  /** The hit test on the squared distance agrees with the test on the
      Euclidean distance `s` between player and bullet. */
  lemma HitTest(p: Player, b: Bullet, s: real)
    requires 0.0 <= s && s * s == (p.x - b.x) * (p.x - b.x) + (p.y - b.y) * (p.y - b.y)
    ensures WithinHitRadius(p, b) <==> s < HIT_RADIUS
  {
    SqrtComparison((p.x - b.x) * (p.x - b.x) + (p.y - b.y) * (p.y - b.y), s);
  }

  /** A bullet at a point of the arena is on the canvas: every bullet
      starts on the canvas, since it is fired from a player's position. */
  lemma ArenaOnCanvas(b: Bullet)
    requires InArena(b.x, b.y)
    ensures !OffCanvas(b)
  {
  }

  function SpawnX(u: Unit): (x: real)
    ensures SPAWN_X0 <= x < SPAWN_X0 + SPAWN_W
  {
    u * SPAWN_W + SPAWN_X0
  }

  function SpawnY(v: Unit): (y: real)
    ensures SPAWN_Y0 <= y < SPAWN_Y0 + SPAWN_H
  {
    v * SPAWN_H + SPAWN_Y0
  }

  /** Every spawn point lies inside the movement bounds. */
  lemma SpawnInArena(u: Unit, v: Unit)
    ensures InArena(SpawnX(u), SpawnY(v))
  {
  }

  /** The healths a player can have: they start at 100 and only ever lose
      25 at a time, resetting to 100 at or below zero. */
  predicate ReachableHealth(h: int) {
    h == 25 || h == 50 || h == 75 || h == 100
  }

  /** What holds of every player map the server can reach: each player is
      keyed by its own id, stands inside the arena, has a reachable health
      and a non-negative kill count. */
  ghost predicate ValidPlayers(players: map<Id, Player>) {
    forall id | id in players ::
      && players[id].id == id
      && InArena(players[id].x, players[id].y)
      && ReachableHealth(players[id].health)
      && players[id].kills >= 0
  }

  ghost predicate Valid(w: World) {
    ValidPlayers(w.players)
  }

  /** The empty world the server starts with. */
  lemma InitialWorldValid()
    ensures Valid(World(map[], []))
  {
  }
}
