/**
 An independent description of what a tick does to the bullets, written as a
 filter instead of in-place splicing: the players evolve bullet by bullet
 from the last index to the first exactly as in the tick, and the bullets
 that remain are the advanced bullets that neither hit anyone nor left the
 canvas, in their original order.
 */
module Reference {
  import opened GameState
  import opened Tick

  /** The outcome of filtering: the players afterwards, the kept bullets,
      and whether some bullet both hit and left the canvas. */
  datatype Run = Run(players: map<Id, Player>, kept: seq<Bullet>, clash: bool)

  /** The advanced bullet neither hit anyone nor left the canvas. */
  predicate Survives(res: Resolution) {
    res.victim.None? && !OffCanvas(res.bullet)
  }

  /** The advanced bullet hit someone and is off the canvas as well: the
      case `server.js` splices twice. */
  predicate Clash(res: Resolution) {
    res.victim.Some? && OffCanvas(res.bullet)
  }

  /** Filters the bullets at indices below `k`, resolving index `k - 1`
      first. */
  function Filter(env: Env, players: map<Id, Player>, bullets: seq<Bullet>, k: nat): (r: Result<Run, TickError>)
    requires k <= |bullets| && k <= |env.draws|
    requires ScanOrder(env.order, players)
    ensures r.Success? ==> |r.value.kept| <= k
    ensures r.Success? ==> forall j | 0 <= j < |r.value.kept| :: !OffCanvas(r.value.kept[j])
    decreases k
  {
    if k == 0 then Success(Run(players, [], false))
    else
      match Resolve(env, players, bullets[k - 1], env.draws[k - 1])
      case Failure(e) => Failure(e)
      case Success(res) =>
        match Filter(env, res.players, bullets, k - 1)
        case Failure(e) => Failure(e)
        case Success(run) =>
          Success(Run(run.players, run.kept + (if Survives(res) then [res.bullet] else []), run.clash || Clash(res)))
  }

  /** The world the filter describes for a whole tick. */
  function ReferenceTick(w: World, env: Env): (r: Result<World, TickError>)
    requires |env.draws| == |w.bullets|
    requires ScanOrder(env.order, w.players)
    ensures r.Success? ==> forall j | 0 <= j < |r.value.bullets| :: !OffCanvas(r.value.bullets[j])
  {
    match Filter(env, w.players, w.bullets, |w.bullets|)
    case Failure(e) => Failure(e)
    case Success(run) => Success(World(run.players, run.kept))
  }

  /** Whether some bullet of the tick both hits and leaves the canvas. */
  predicate ClashingTick(w: World, env: Env)
    requires |env.draws| == |w.bullets|
    requires ScanOrder(env.order, w.players)
  {
    var f := Filter(env, w.players, w.bullets, |w.bullets|);
    f.Success? && f.value.clash
  }

  /** What the processed part of the array holds after index `i` was
      pruned, given it held `suffix` before. */
  function NextSuffix(mode: Pruning, res: Resolution, suffix: seq<Bullet>): seq<Bullet> {
    if Survives(res) then [res.bullet] + suffix
    else if Clash(res) && mode == AsWritten && |suffix| > 0 then suffix[1..]
    else suffix
  }

  /** Pruning index `|prefix|` leaves the prefix alone and turns the
      processed suffix into `NextSuffix`. */
  lemma PruneShape(mode: Pruning, prefix: seq<Bullet>, b: Bullet, suffix: seq<Bullet>, res: Resolution)
    ensures Prune(mode, prefix + [b] + suffix, |prefix|, res) == prefix + NextSuffix(mode, res, suffix)
  {
  }

  /** A successful turn of the loop continues from the world the step
      yields. */
  lemma TickFromContinues(mode: Pruning, env: Env, w: World, k: nat, next: World)
    requires 0 < k <= |w.bullets| && k <= |env.draws|
    requires ScanOrder(env.order, w.players)
    requires Step(mode, env, w, k - 1) == Success(next)
    ensures k - 1 <= |next.bullets| && ScanOrder(env.order, next.players)
    ensures TickFrom(mode, env, w, k) == TickFrom(mode, env, next, k - 1)
  {
    ScanOrderSameKeys(env.order, w.players, next.players);
  }

  /** One turn of the loop: the loop from `k` continues from the world the
      step at `k - 1` yields, or stops with its error. */
  lemma TickFromUnfold(mode: Pruning, env: Env, w: World, k: nat)
    requires 0 < k <= |w.bullets| && k <= |env.draws|
    requires ScanOrder(env.order, w.players)
    ensures Step(mode, env, w, k - 1).Failure? ==> TickFrom(mode, env, w, k) == Step(mode, env, w, k - 1)
    ensures Step(mode, env, w, k - 1).Success? ==>
      TickFrom(mode, env, w, k) == TickFrom(mode, env, Step(mode, env, w, k - 1).value, k - 1)
  {
  }

  lemma AppendAssociative<T>(a: seq<T>, b: seq<T>, c: seq<T>)
    ensures a + (b + c) == (a + b) + c
  {
  }

  /** One turn of the filter, resolving index `k - 1`. */
  lemma FilterUnfold(env: Env, players: map<Id, Player>, bullets: seq<Bullet>, k: nat)
    requires 0 < k <= |bullets| && k <= |env.draws|
    requires ScanOrder(env.order, players)
    ensures var r := Resolve(env, players, bullets[k - 1], env.draws[k - 1]);
      && (r.Failure? ==> Filter(env, players, bullets, k) == Failure(r.error))
      && (r.Success? && Filter(env, r.value.players, bullets, k - 1).Failure? ==>
            Filter(env, players, bullets, k) == Filter(env, r.value.players, bullets, k - 1))
      && (r.Success? && Filter(env, r.value.players, bullets, k - 1).Success? ==>
            var run := Filter(env, r.value.players, bullets, k - 1).value;
            Filter(env, players, bullets, k) ==
              Success(Run(run.players, run.kept + (if Survives(r.value) then [r.value.bullet] else []), run.clash || Clash(r.value))))
  {
  }

  /** The loop over indices `k - 1` down to 0, started on the unprocessed
      bullets followed by an already processed `suffix`, fails exactly when
      the filter fails, with the same error, and yields the same players;
      without a double splice it leaves the kept bullets followed by
      `suffix`. */
  lemma {:induction false} TickFromMatchesFilter(mode: Pruning, env: Env, players: map<Id, Player>, bullets: seq<Bullet>, suffix: seq<Bullet>, k: nat)
    requires k <= |bullets| && k <= |env.draws|
    requires ScanOrder(env.order, players)
    ensures var t, f := TickFrom(mode, env, World(players, bullets[..k] + suffix), k), Filter(env, players, bullets, k);
      && (t.Failure? <==> f.Failure?)
      && (t.Failure? ==> t.error == f.error)
      && (t.Success? ==> t.value.players == f.value.players)
      && (t.Success? && (mode == RemoveOnce || !f.value.clash) ==> t.value.bullets == f.value.kept + suffix)
    decreases k
  {
    var w := World(players, bullets[..k] + suffix);
    if k == 0 {
      assert w.bullets == suffix;
    } else {
      var i := k - 1;
      assert bullets[..k] == bullets[..i] + [bullets[i]];
      assert w.bullets == bullets[..i] + [bullets[i]] + suffix;
      assert w.bullets[i] == bullets[i];
      FilterUnfold(env, players, bullets, k);
      var r := Resolve(env, players, bullets[i], env.draws[i]);
      if r.Failure? {
        assert Step(mode, env, w, i) == Failure(r.error);
        TickFromUnfold(mode, env, w, k);
      } else {
        var res := r.value;
        ScanOrderSameKeys(env.order, players, res.players);
        var next := NextSuffix(mode, res, suffix);
        PruneShape(mode, bullets[..i], bullets[i], suffix, res);
        assert |bullets[..i]| == i;
        var w' := World(res.players, bullets[..i] + next);
        assert Step(mode, env, w, i) == Success(w');
        TickFromContinues(mode, env, w, k, w');
        TickFromMatchesFilter(mode, env, res.players, bullets, next, i);
        var f := Filter(env, res.players, bullets, i);
        var extra := if Survives(res) then [res.bullet] else [];
        if mode == RemoveOnce || !Clash(res) {
          assert next == extra + suffix;
        }
        if f.Success? {
          AppendAssociative(f.value.kept, extra, suffix);
        }
      }
    }
  }

  /** With a hit bullet removed only once, the tick is the filter. */
  lemma CorrectedTickIsFilter(w: World, env: Env)
    requires |env.draws| == |w.bullets|
    requires ScanOrder(env.order, w.players)
    ensures TickCorrected(w, env) == ReferenceTick(w, env)
  {
    assert World(w.players, w.bullets[..|w.bullets|] + []) == w;
    TickFromMatchesFilter(RemoveOnce, env, w.players, w.bullets, [], |w.bullets|);
    var t := TickFrom(RemoveOnce, env, w, |w.bullets|);
    var f := Filter(env, w.players, w.bullets, |w.bullets|);
    assert TickCorrected(w, env) == t;
    if f.Failure? {
      assert t == Failure(f.error);
    } else {
      assert f.value.kept + [] == f.value.kept;
      assert t == Success(World(f.value.players, f.value.kept));
    }
  }

  /** The double splice changes only the bullets: the tick as written fails
      exactly when the filter fails and yields the same players; and when no
      bullet both hits and leaves the canvas it is the filter. */
  lemma AsWrittenTickMatchesFilter(w: World, env: Env)
    requires |env.draws| == |w.bullets|
    requires ScanOrder(env.order, w.players)
    ensures TickAsWritten(w, env).Failure? <==> ReferenceTick(w, env).Failure?
    ensures TickAsWritten(w, env).Success? ==> TickAsWritten(w, env).value.players == ReferenceTick(w, env).value.players
    ensures !ClashingTick(w, env) ==> TickAsWritten(w, env) == ReferenceTick(w, env)
  {
    assert World(w.players, w.bullets[..|w.bullets|] + []) == w;
    TickFromMatchesFilter(AsWritten, env, w.players, w.bullets, [], |w.bullets|);
    var t := TickFrom(AsWritten, env, w, |w.bullets|);
    var f := Filter(env, w.players, w.bullets, |w.bullets|);
    assert TickAsWritten(w, env) == t;
    if f.Failure? {
      assert t == Failure(f.error);
    } else if !f.value.clash {
      assert f.value.kept + [] == f.value.kept;
      assert t == Success(World(f.value.players, f.value.kept));
    }
  }
}
