# Stickman arena server: world-state model

A Dafny model of the authoritative game loop of a small multiplayer shooter
server (`server.js`). The server keeps one shared world: a map from socket id
to player and an array of bullets. Socket handlers (connect, `move`, `shoot`,
disconnect) and the 30 Hz tick each run to completion, so every event is one
pure step from a `World` value to a `World` value:

- `Events.Connect` stores a fresh player: name `"Player" + floor(random * 10000)`,
  spawn point in [100, 900) x [100, 600), angle 0, health 100, kills 0.
- `Events.Move` stores the angle verbatim, steps 3 units per held key (`w`, `s`,
  `a`, `d`) and clamps the position to [10, 1590] x [10, 1190].
- `Events.Shoot` appends a bullet at the shooter's position and angle.
- `Events.Disconnect` deletes the player.
- `Tick.Tick` visits the bullets from the last index to the first. Each bullet
  advances 5 units along its angle. It then damages the first non-owner player
  (in scan order) strictly within 15 units by 25. A player at or below zero
  health credits the owner with a kill, is reset to 100 and respawns. Last,
  the bullet is spliced out if it hit someone. (server.js:88 makes this splice
  before the kill credit; the model applies both splices after the bullet is
  resolved, which differs only in the partial state left by a throw, see
  "## Left out".) Then `splice(i, 1)` runs if the
  advanced bullet is off the 1600 x 1200 canvas. A bullet that hit nobody is
  spliced at most once; a bullet that hit someone and is off the canvas is
  spliced twice (see below).

Things outside the world are parameters:

- `Math.random()` values are `Unit` arguments (reals in [0, 1)).
- `Math.cos`/`Math.sin` form a `trig: real -> Dir` argument.
- The order `for (const id in players)` visits keys is an explicit
  `order: seq<Id>`. `Tick.ScanOrder` requires it to list every key exactly once.
- The test `Math.sqrt(dx*dx + dy*dy) < 15` is stated as
  `dx*dx + dy*dy < 225`. `GameState.SqrtComparison` shows the two agree.

Numbers are Dafny `real`s, exact, with no IEEE rounding.

Two behaviours of the code are modelled as written:

- **Departed owner.** `players[b.owner].kills += 1` (server.js:90) throws when
  the shooter has disconnected. Nothing in the server catches the exception,
  so it escapes the interval callback. `Tick.Resolve` returns
  `Failure(OwnerGone(owner))` in that case, and the whole tick fails with it.
  Skipping the kill credit would be the defensive reading, but the code does
  not do that, so no skip is modelled.
- **Double splice.** A bullet that both hits (server.js:88) and is off the
  canvas (server.js:101-103) is spliced twice at the same index. The second
  splice removes the already processed bullet that moved into slot `i`, or
  nothing if `i` was the last index of the array. `Tick.Pruning`
  selects between the splices as written (`AsWritten`) and a single removal
  (`RemoveOnce`). `Reference.Filter` is an independent filter-style definition
  of the tick. `Reference.CorrectedTickIsFilter` proves the single-removal tick
  equals it on every input. `Reference.AsWrittenTickMatchesFilter` proves the
  as-written tick equals it whenever no bullet both hits and leaves the canvas.
  It also proves the as-written tick always agrees with the filter on the
  players and on failure. See "## Findings".

Modules: `GameState` (constants, entities, world, invariant), `Names`,
`Events`, `Tick`, `Reference`, `Findings`, one file each.

## Model

| member | source | states |
|---|---|---|
| GameState.Clamp | server.js:52-53 | `Math.max(lo, Math.min(hi, v))` lies in [lo, hi]. It is `v` when `v` is inside, `lo` below and `hi` above. |
| GameState.SqrtComparison | server.js:84-86 | For a non-negative root `s` of `d2`, `s < 15` holds exactly when `d2 < 225`. This justifies the squared-distance hit test. |
| GameState.OffCanvas | server.js:101 | A bullet is off the canvas when x < 0, x > 1600, y < 0 or y > 1200. |
| GameState.WithinHitRadius | server.js:84-86 | A bullet is within hit radius of a player when their squared distance is below 225. |
| GameState.HitTest | server.js:84-86 | For the Euclidean distance `s` between player and bullet, the squared test holds exactly when `s < 15`. |
| GameState.ArenaOnCanvas | server.js:101 | A bullet at any point of the arena is on the canvas. It is the fact behind the `Events.Shoot` clause that a newly fired bullet starts on the canvas. |
| GameState.SpawnX | server.js:30 | `random * 800 + 100` lies in [100, 900) for every random value in [0, 1). |
| GameState.SpawnY | server.js:31 | `random * 500 + 100` lies in [100, 600) for every random value in [0, 1). |
| GameState.SpawnInArena | server.js:92-93 | Every spawn or respawn point lies inside the movement bounds [10, 1590] x [10, 1190]. |
| GameState.InitialWorldValid | server.js:18-19 | The empty start world satisfies the world invariant `Valid`. |
| Names.Decimal | server.js:22 | The string form of a non-negative integer is non-empty and all digits. It has no leading zero, and it is one character exactly for values below 10. |
| Names.ParseDecimalOfDecimal | server.js:22 | Reading the decimal text of `n` back gives `n`. |
| Names.DecimalInjective | server.js:22 | Different numbers have different decimal texts. |
| Names.DecimalLength | server.js:22 | A number below 10000 has at most four digits. |
| Names.NameNumber | server.js:22 | `Math.floor(random * 10000)` lies in [0, 10000). |
| Names.GenerateName | server.js:21-23 | A name is `"Player"` followed by one to four digits with no leading zero. Those digits read back as the drawn number. |
| Names.SameNameIffSameNumber | server.js:21-23 | Two draws give the same name if and only if they draw the same number. |
| Events.NewPlayer | server.js:27-35 | A new player has its key as id, angle 0, health 100 and kills 0. Its spawn is in [100, 900) x [100, 600) and its name is the generated one. |
| Events.Connect | server.js:25-35 | Connect adds exactly the new key and leaves every other player and all bullets alone. The new entry has the initial fields and spawn bounds. The world invariant is preserved. |
| Events.Disconnect | server.js:67-70 | Disconnect removes exactly the key. It leaves the other players and the bullets unchanged, and is a no-op for an absent id. The invariant is preserved. |
| Events.DisconnectIdempotent | server.js:69 | A second disconnect of the same id changes nothing. |
| Events.DisconnectUndoesConnect | server.js:27-69 | Connecting a fresh id and then disconnecting it restores the original world. |
| Events.AxisOffset | server.js:45-49 | One held key of an axis moves 3 units in its direction. Both keys, or neither, give no motion on that axis. |
| Events.Move | server.js:39-54 | An absent id leaves the world unchanged. Otherwise the angle is stored verbatim and the mover ends inside [10, 1590] x [10, 1190]. Name, health and kills are kept. Each axis is clamped on its own: an in-bounds coordinate is reached exactly, one past an edge stops at that edge, so a player can slide along a wall. Other players and bullets are unchanged. |
| Events.MoveStepBounded | server.js:45-53 | From inside the arena a move shifts each axis by at most 3. |
| Events.SlideAlongWall | server.js:45-53 | A player at the right wall (1590, 600) holding `d` and `s` ends at (1590, 603): x stays at the edge and y takes its step. |
| Events.Shoot | server.js:56-65 | An absent id leaves the world unchanged. Otherwise exactly one bullet is appended, carrying the shooter's x, y, angle and id. Earlier bullets and all players are unchanged. In a valid world the new bullet starts on the canvas. |
| Tick.ScanOrder | server.js:81 | The order `for (const id in players)` visits keys lists every player exactly once and nothing else. |
| Tick.Hits | server.js:82-86 | A bullet hits player `id` when `id` is not its owner and it is within hit radius. |
| Tick.Advance | server.js:77-78 | Advancing a bullet keeps its angle and owner. |
| Tick.AdvanceDistance | server.js:77-78 | When cos² + sin² = 1, a bullet moves exactly 5 units per tick. |
| Tick.ScanFrom | server.js:81-86 | The scan returns the first index whose player the bullet hits: not the owner, and within radius. No earlier index is hit. None is returned exactly when no listed player is hit. |
| Tick.Splice | server.js:88 | `splice(i, 1)` shifts every element after `i` down by one. An index past the end removes nothing. |
| Tick.Resolve | server.js:76-98 | The owner is never the victim, and at most one player is damaged: the first hit in scan order, within radius. With more than 25 health it loses 25. At 25 or less it is reset to 100 at the drawn spawn, and the owner gains exactly one kill. All other players are unchanged. The step fails if and only if the first player hit is killed and the owner is gone. A miss, or a hit that does not kill, succeeds even when the owner has left. |
| Tick.Damage | server.js:87-94 | A hit takes 25 from the victim. At or below zero it is a kill: the victim gets 100 health at the drawn spawn and the owner exactly one more kill. Every other player is unchanged. The hit fails if and only if it kills and the owner is gone. |
| Tick.DamageEvolves | server.js:87-94 | A hit keeps ids, names and angles, never lowers kills, and keeps positions in the arena and healths in {25, 50, 75, 100}. |
| Tick.ResolveEvolves | server.js:87-93 | One bullet keeps every player's id, name and angle, and never lowers kills. No player leaves the arena or the healths {25, 50, 75, 100}. |
| Tick.Prune | server.js:88-103 | Pruning at index `i` never touches indices below `i` and never grows the array. Every bullet from `i` on is on the canvas when the later ones were. |
| Tick.Step | server.js:76-103 | One loop iteration keeps the unvisited prefix and player set, and never adds bullets. It fails if and only if the bullet's owner is absent and the first player it hits is killed. A miss, or a hit that does not kill, succeeds with the owner gone. |
| Tick.TickFrom | server.js:75-104 | Over the remaining indices: same players, kills never decrease, bullet count never grows. Survivors are on the canvas, and the invariant is preserved. The loop succeeds when every owner is present, and an error names an absent owner of some bullet. |
| Tick.Tick | server.js:73-104 | A whole tick, in either pruning mode, keeps the same players, never lowers kills and never adds bullets. It keeps every player in the arena with reachable health, and leaves no bullet off the canvas. It fails only for a bullet whose owner has left. |
| Tick.TickKeepsHealthReachable | server.js:87-93 | If every health is in {25, 50, 75, 100} before a tick, every health is after it. |
| Tick.TickAsWritten | server.js:73-104 | The tick with the source's double splice never adds bullets. |
| Tick.TickCorrected | server.js:73-104 | The tick with a single removal never adds bullets. |
| Reference.Filter | server.js:75-104 | The filter keeps at most one bullet per visited index, and every kept bullet is on the canvas. |
| Reference.ReferenceTick | server.js:73-104 | The reference tick leaves only on-canvas bullets. |
| Reference.PruneShape | server.js:88-103 | On `prefix + [b] + processed`, pruning at `|prefix|` keeps the prefix. The advanced bullet is kept only if it neither hit nor left. The as-written double splice removes one processed bullet more. |
| Reference.TickFromMatchesFilter | server.js:75-104 | The splicing loop and the filter fail together with the same error and yield the same players. Without a double splice the loop leaves exactly the filter's kept bullets. |
| Reference.CorrectedTickIsFilter | server.js:73-104 | The single-removal tick equals the filter definition on every input. |
| Reference.AsWrittenTickMatchesFilter | server.js:88-103 | The as-written tick fails when the filter does and yields the same players. If no bullet both hits and leaves the canvas, it equals the filter. |
| Findings.AsWrittenDropsBystander | server.js:88-103 | On a concrete world, the as-written tick removes a bullet that neither hit anyone nor left the canvas. |
| Findings.CorrectedKeepsBystander | server.js:88-103 | On the same world, the single-removal tick keeps that bullet and damages the same player. |
| Findings.SettingClashes | server.js:88-103 | On that world, some bullet both hits and leaves the canvas. |

## Left out

- HTTP server, Express static files and port selection (server.js:2-16, 109-112): I/O plumbing.
- The socket.io transport, the `init` emit and the `state` broadcast (server.js:37, 106): network I/O. What is broadcast is the world value a tick returns.
- `setInterval` scheduling and the 30 Hz period (server.js:73, 107): the model is one tick step. Handlers and ticks run to completion, so they are sequential steps with no locking.
- `Math.random`, `Math.cos`, `Math.sin`, `Math.sqrt`: replaced by parameters and the squared-distance test. Floating-point rounding is not modelled: numbers are exact reals.
- The random draws for respawns are indexed by the bullet that causes the respawn, not taken from one stream. A bullet causes at most one respawn, so any stream of draws can be written this way.
- `console.log` (server.js:26, 68): diagnostics.
- The move payload is taken as well formed. `keys` is the set of key names whose value is truthy, and `angle` is a number. A missing or non-object payload makes the handler throw; that is not modelled.
- Tick.Resolve: on a departed owner the model keeps no world. The source has already lowered the victim's health and spliced the bullet when it throws, and that partial state is not modelled.
- Tick.TickAsWritten: the contract states only the bound on bullets. The rest is stated on Tick.Tick, which both modes share, and in the Reference lemmas.
- Tick.TickCorrected: the contract states only the bound on bullets, for the same reason.

## Findings

| source | as written | input that shows it | evidently intended | confidence | as-written member | corrected member |
|---|---|---|---|---|---|---|
| server.js:88-103 | A bullet that hits and is also off the canvas is spliced twice at index `i`. The second splice removes the already processed bullet that moved into slot `i`, or nothing if there is none. | Player "a" at (1590, 600). Bullets owned by "b": [(1596, 600), angle 0] and [(800, 100), angle 0]. With cos 0 = 1, bullet 0 reaches x = 1601: 11 from "a", a hit, and off the canvas. Bullet 1 at (805, 100) is kept and then spliced away. | A hit bullet is removed once. Every bullet that neither hits nor leaves the canvas survives. | high; not executed | Findings.AsWrittenDropsBystander | Reference.CorrectedTickIsFilter |
