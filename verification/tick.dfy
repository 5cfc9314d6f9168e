/**
 The 30 Hz tick. Bullets are visited from the last index down to the first;
 each is advanced, tested against the players in scan order (skipping its
 owner), may damage the first player in range, and is then pruned if it has
 left the canvas. Removal is done by splicing the array in place.

 `server.js` splices a bullet that both hits and leaves the canvas twice at
 the same index; `Pruning.AsWritten` keeps that behaviour and
 `Pruning.RemoveOnce` removes such a bullet only once.
 */
module Tick {
  import opened GameState

  /** The values Math.cos and Math.sin return for an angle. */
  datatype Dir = Dir(cos: real, sin: real)

  /** The two Math.random() values a respawn consumes: x first, then y. */
  datatype Draw = Draw(u: Unit, v: Unit)

  /** What one tick takes from outside the world: the trigonometry, the
      order in which `for (const id in players)` visits the players, and
      for each bullet index the random draws a respawn caused by that
      bullet consumes (a bullet causes at most one respawn). */
  datatype Env = Env(trig: real -> Dir, order: seq<Id>, draws: seq<Draw>)

  datatype TickError = OwnerGone(owner: Id)

  datatype Pruning = AsWritten | RemoveOnce

  /** The effect of one bullet on the players: the players afterwards, the
      advanced bullet, the player it hit if any, and whether that hit was a
      kill. */
  datatype Resolution = Resolution(players: map<Id, Player>, bullet: Bullet, victim: Option<Id>, killed: bool)

  /** The scan order lists every player exactly once and nothing else. */
  predicate ScanOrder(order: seq<Id>, players: map<Id, Player>) {
    && (forall i | 0 <= i < |order| :: order[i] in players)
    && (forall id | id in players :: id in order)
    && (forall i, j | 0 <= i < j < |order| :: order[i] != order[j])
  }

  /** The scan order depends only on which players there are. */
  lemma ScanOrderSameKeys(order: seq<Id>, before: map<Id, Player>, after: map<Id, Player>)
    requires ScanOrder(order, before) && after.Keys == before.Keys
    ensures ScanOrder(order, after)
  {
    assert forall id :: id in after <==> id in before;
  }

  /** Bullet `b` hits player `id`: not its owner, and within the radius. */
  predicate Hits(players: map<Id, Player>, b: Bullet, id: Id)
    requires id in players
  {
    id != b.owner && WithinHitRadius(players[id], b)
  }

  /** One tick of flight: BULLET_SPEED along the bullet's angle. */
  function Advance(b: Bullet, trig: real -> Dir): (r: Bullet)
    ensures r.angle == b.angle && r.owner == b.owner
  {
    b.(x := b.x + trig(b.angle).cos * BULLET_SPEED, y := b.y + trig(b.angle).sin * BULLET_SPEED)
  }

  /** With a genuine cosine and sine, a bullet moves exactly BULLET_SPEED
      per tick. */
  lemma AdvanceDistance(b: Bullet, trig: real -> Dir)
    requires trig(b.angle).cos * trig(b.angle).cos + trig(b.angle).sin * trig(b.angle).sin == 1.0
    ensures var r := Advance(b, trig);
      (r.x - b.x) * (r.x - b.x) + (r.y - b.y) * (r.y - b.y) == BULLET_SPEED * BULLET_SPEED
  {
  }

  /** The index of the first player from position `k` of the scan order
      that `b` hits, if any. */
  function ScanFrom(order: seq<Id>, players: map<Id, Player>, b: Bullet, k: nat): (r: Option<nat>)
    requires k <= |order|
    requires forall i | 0 <= i < |order| :: order[i] in players
    ensures r.Some? ==> k <= r.value < |order| && Hits(players, b, order[r.value])
    ensures r.Some? ==> forall i | k <= i < r.value :: !Hits(players, b, order[i])
    ensures r.None? ==> forall i | k <= i < |order| :: !Hits(players, b, order[i])
    decreases |order| - k
  {
    if k == |order| then None
    else if Hits(players, b, order[k]) then Some(k)
    else ScanFrom(order, players, b, k + 1)
  }

  /** JavaScript's `splice(i, 1)`: removes the element at `i`, or nothing
      when `i` is past the end. */
  function Splice<T>(s: seq<T>, i: nat): (r: seq<T>)
    ensures i < |s| ==> |r| == |s| - 1
    ensures i < |s| ==> forall j | 0 <= j < |r| :: r[j] == (if j < i then s[j] else s[j + 1])
    ensures |s| <= i ==> r == s
  {
    if i < |s| then s[..i] + s[i + 1..] else s
  }

  /** Advances bullet `b`, finds the first player it hits and applies 25
      damage; a player at or below zero health credits the bullet's owner
      with a kill, gets full health back and respawns at `draw`. Crediting
      an owner that has left fails, as `players[b.owner].kills` does. */
  function Resolve(env: Env, players: map<Id, Player>, b: Bullet, draw: Draw): (r: Result<Resolution, TickError>)
    requires ScanOrder(env.order, players)
    ensures b.owner in players ==> r.Success?
    ensures r.Failure? ==> r.error == OwnerGone(b.owner) && b.owner !in players
    // Only crediting a kill can fail: a miss, or a hit that does not kill,
    // succeeds whether or not the owner is still there.
    ensures r.Failure? <==>
      && b.owner !in players
      && var s := ScanFrom(env.order, players, Advance(b, env.trig), 0);
         s.Some? && players[env.order[s.value]].health - DAMAGE <= 0
    ensures r.Success? ==> var res := r.value;
      && res.bullet == Advance(b, env.trig)
      && res.players.Keys == players.Keys
      && (res.victim.None? <==> forall id | id in players :: !Hits(players, res.bullet, id))
      && (res.killed ==> res.victim.Some?)
      && (forall id | id in players && res.victim != Some(id) && id != b.owner :: res.players[id] == players[id])
      && (b.owner in players ==>
            res.players[b.owner] == players[b.owner].(kills := players[b.owner].kills + if res.killed then 1 else 0))
      && (b.owner !in players ==> !res.killed)
    ensures r.Success? && r.value.victim.Some? ==> var res, v := r.value, r.value.victim.value;
      && v in players
      && Hits(players, res.bullet, v)
      && (exists k | 0 <= k < |env.order| :: env.order[k] == v && forall i | 0 <= i < k :: !Hits(players, res.bullet, env.order[i]))
      && (res.killed <==> players[v].health - DAMAGE <= 0)
      && (!res.killed ==> res.players[v] == players[v].(health := players[v].health - DAMAGE))
      && (res.killed ==> res.players[v] == players[v].(health := FULL_HEALTH, x := SpawnX(draw.u), y := SpawnY(draw.v)))
  {
    var nb := Advance(b, env.trig);
    match ScanFrom(env.order, players, nb, 0)
    case None => Success(Resolution(players, nb, None, false))
    case Some(k) =>
      match Damage(players, env.order[k], nb.owner, draw)
      case Failure(e) => Failure(e)
      case Success(hit) => Success(Resolution(hit.0, nb, Some(env.order[k]), hit.1))
  }

  /** A hit on `v` by a bullet of `owner` takes 25 health. At or below zero
      the owner is credited a kill (which fails if the owner is gone) and `v`
      gets full health back at the drawn spawn point. Yields the players and
      whether the hit was a kill. */
  function Damage(players: map<Id, Player>, v: Id, owner: Id, draw: Draw): (r: Result<(map<Id, Player>, bool), TickError>)
    requires v in players && v != owner
    ensures owner in players ==> r.Success?
    ensures r.Failure? ==> r.error == OwnerGone(owner) && owner !in players
    ensures r.Failure? <==> owner !in players && players[v].health - DAMAGE <= 0
    ensures r.Success? ==> var after, killed := r.value.0, r.value.1;
      && after.Keys == players.Keys
      && (killed <==> players[v].health - DAMAGE <= 0)
      && (!killed ==> after[v] == players[v].(health := players[v].health - DAMAGE))
      && (killed ==> after[v] == players[v].(health := FULL_HEALTH, x := SpawnX(draw.u), y := SpawnY(draw.v)))
      && (forall id | id in players && id != v && id != owner :: after[id] == players[id])
      && (owner in players ==> after[owner] == players[owner].(kills := players[owner].kills + if killed then 1 else 0))
  {
    var p := players[v];
    var health := p.health - DAMAGE;
    if health > 0 then
      Success((players[v := p.(health := health)], false))
    else if owner !in players then
      Failure(OwnerGone(owner))
    else
      var o := players[owner];
      var credited := players[owner := o.(kills := o.kills + 1)];
      Success((credited[v := p.(health := FULL_HEALTH, x := SpawnX(draw.u), y := SpawnY(draw.v))], true))
  }

  /** The same players before and after, each keeping id, name and angle,
      none losing kills, none leaving the arena and none leaving the
      reachable healths. */
  predicate Evolves(before: map<Id, Player>, after: map<Id, Player>) {
    && after.Keys == before.Keys
    && forall id | id in before ::
      && after[id].id == before[id].id
      && after[id].name == before[id].name
      && after[id].angle == before[id].angle
      && after[id].kills >= before[id].kills
      && (InArena(before[id].x, before[id].y) ==> InArena(after[id].x, after[id].y))
      && (ReachableHealth(before[id].health) ==> ReachableHealth(after[id].health))
  }

  lemma EvolvesTransitive(a: map<Id, Player>, b: map<Id, Player>, c: map<Id, Player>)
    requires Evolves(a, b) && Evolves(b, c)
    ensures Evolves(a, c)
  {
  }

  /** Resolving a bullet only rearranges healths, kills and positions, and
      keeps every reachable player map reachable. */
  lemma ResolveEvolves(env: Env, players: map<Id, Player>, b: Bullet, draw: Draw)
    requires ScanOrder(env.order, players)
    requires Resolve(env, players, b, draw).Success?
    ensures Evolves(players, Resolve(env, players, b, draw).value.players)
    ensures ValidPlayers(players) ==> ValidPlayers(Resolve(env, players, b, draw).value.players)
  {
    var nb := Advance(b, env.trig);
    match ScanFrom(env.order, players, nb, 0)
    case None =>
    case Some(k) => DamageEvolves(players, env.order[k], nb.owner, draw);
  }

  /** A hit keeps the players evolving within the invariant. */
  lemma DamageEvolves(players: map<Id, Player>, v: Id, owner: Id, draw: Draw)
    requires v in players && v != owner
    requires Damage(players, v, owner, draw).Success?
    ensures Evolves(players, Damage(players, v, owner, draw).value.0)
  {
    SpawnInArena(draw.u, draw.v);
  }

  /** The bullets after bullet `i` was resolved: the advanced bullet
      replaces the old one, a hit splices index `i`, and leaving the canvas
      splices index `i` again (as written) or only if it was not already
      removed. */
  function Prune(mode: Pruning, bullets: seq<Bullet>, i: nat, res: Resolution): (r: seq<Bullet>)
    requires i < |bullets|
    ensures i <= |r| <= |bullets|
    ensures r[..i] == bullets[..i]
    ensures (forall j | i < j < |bullets| :: !OffCanvas(bullets[j])) ==>
      forall j | i <= j < |r| :: !OffCanvas(r[j])
  {
    var advanced := bullets[i := res.bullet];
    var afterHit := if res.victim.Some? then Splice(advanced, i) else advanced;
    if OffCanvas(res.bullet) && (mode == AsWritten || res.victim.None?) then Splice(afterHit, i) else afterHit
  }

  /** One iteration of the loop body, at index `i`. */
  function Step(mode: Pruning, env: Env, w: World, i: nat): (r: Result<World, TickError>)
    requires i < |w.bullets| && i < |env.draws|
    requires ScanOrder(env.order, w.players)
    ensures r.Success? ==> i <= |r.value.bullets| <= |w.bullets| && r.value.bullets[..i] == w.bullets[..i]
    ensures r.Success? ==> Evolves(w.players, r.value.players)
    ensures r.Success? && (forall j | i < j < |w.bullets| :: !OffCanvas(w.bullets[j])) ==>
      forall j | i <= j < |r.value.bullets| :: !OffCanvas(r.value.bullets[j])
    ensures r.Success? && Valid(w) ==> Valid(r.value)
    ensures w.bullets[i].owner in w.players ==> r.Success?
    ensures r.Failure? ==> r.error == OwnerGone(w.bullets[i].owner) && w.bullets[i].owner !in w.players
    // Only crediting a kill can fail, as in `Resolve`.
    ensures r.Failure? <==>
      && w.bullets[i].owner !in w.players
      && var s := ScanFrom(env.order, w.players, Advance(w.bullets[i], env.trig), 0);
         s.Some? && w.players[env.order[s.value]].health - DAMAGE <= 0
  {
    match Resolve(env, w.players, w.bullets[i], env.draws[i])
    case Failure(e) => Failure(e)
    case Success(res) =>
      ResolveEvolves(env, w.players, w.bullets[i], env.draws[i]);
      Success(World(res.players, Prune(mode, w.bullets, i, res)))
  }

  /** The loop from index `k - 1` down to 0. */
  function TickFrom(mode: Pruning, env: Env, w: World, k: nat): (r: Result<World, TickError>)
    requires k <= |w.bullets| && k <= |env.draws|
    requires ScanOrder(env.order, w.players)
    ensures r.Success? ==> Evolves(w.players, r.value.players)
    ensures r.Success? ==> |r.value.bullets| <= |w.bullets|
    ensures r.Success? && Valid(w) ==> Valid(r.value)
    ensures r.Success? && (forall j | k <= j < |w.bullets| :: !OffCanvas(w.bullets[j])) ==>
      forall j | 0 <= j < |r.value.bullets| :: !OffCanvas(r.value.bullets[j])
    ensures (forall j | 0 <= j < k :: w.bullets[j].owner in w.players) ==> r.Success?
    ensures r.Failure? ==> r.error.owner !in w.players && exists j | 0 <= j < k :: w.bullets[j].owner == r.error.owner
    decreases k
  {
    if k == 0 then Success(w)
    else
      match Step(mode, env, w, k - 1)
      case Failure(e) => Failure(e)
      case Success(w') =>
        assert forall j | 0 <= j < k - 1 :: w'.bullets[j] == w.bullets[j] by {
          assert w'.bullets[..k - 1] == w.bullets[..k - 1];
          forall j | 0 <= j < k - 1 ensures w'.bullets[j] == w.bullets[j] {
            assert w'.bullets[..k - 1][j] == w.bullets[..k - 1][j];
          }
        }
        var r := TickFrom(mode, env, w', k - 1);
        if r.Success? then EvolvesTransitive(w.players, w'.players, r.value.players); r else r
  }

  /** One whole tick: every bullet, from the last to the first. */
  function Tick(mode: Pruning, w: World, env: Env): (r: Result<World, TickError>)
    requires |env.draws| == |w.bullets|
    requires ScanOrder(env.order, w.players)
    ensures r.Success? ==> Evolves(w.players, r.value.players)
    ensures r.Success? ==> |r.value.bullets| <= |w.bullets|
    ensures r.Success? && Valid(w) ==> Valid(r.value)
    ensures r.Success? ==> forall j | 0 <= j < |r.value.bullets| :: !OffCanvas(r.value.bullets[j])
    ensures (forall j | 0 <= j < |w.bullets| :: w.bullets[j].owner in w.players) ==> r.Success?
    ensures r.Failure? ==> r.error.owner !in w.players && exists j | 0 <= j < |w.bullets| :: w.bullets[j].owner == r.error.owner
  {
    TickFrom(mode, env, w, |w.bullets|)
  }

  /** Healths stay in {25, 50, 75, 100} across a tick: a hit takes 25 off,
      and a health at or below zero is reset to 100. */
  lemma TickKeepsHealthReachable(mode: Pruning, w: World, env: Env)
    requires |env.draws| == |w.bullets|
    requires ScanOrder(env.order, w.players)
    requires forall id | id in w.players :: ReachableHealth(w.players[id].health)
    ensures Tick(mode, w, env).Success? ==>
      forall id | id in Tick(mode, w, env).value.players :: ReachableHealth(Tick(mode, w, env).value.players[id].health)
  {
  }

  /** The tick exactly as `server.js` writes it. */
  function TickAsWritten(w: World, env: Env): (r: Result<World, TickError>)
    requires |env.draws| == |w.bullets|
    requires ScanOrder(env.order, w.players)
    ensures r.Success? ==> |r.value.bullets| <= |w.bullets|
  {
    Tick(AsWritten, w, env)
  }

  /** The tick with a hit bullet removed only once. */
  function TickCorrected(w: World, env: Env): (r: Result<World, TickError>)
    requires |env.draws| == |w.bullets|
    requires ScanOrder(env.order, w.players)
    ensures r.Success? ==> |r.value.bullets| <= |w.bullets|
  {
    Tick(RemoveOnce, w, env)
  }
}
