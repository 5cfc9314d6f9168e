/**
 A concrete tick on which the double splice in `server.js` removes a bullet
 that neither hit anyone nor left the canvas.

 Player "a" stands at the right edge (x = 1590, where moves clamp it).
 Bullet 0, fired by "b", is at x = 1596 flying along angle 0, so this tick
 takes it to x = 1601: 11 units from "a", a hit, and off the canvas. Bullet
 1, also from "b", flies harmlessly in the middle of the arena. Bullet 1 is
 visited first and kept; then bullet 0 hits, is spliced at index 0, and the
 off-canvas test splices index 0 again, removing bullet 1.
 */
module Findings {
  import opened GameState
  import opened Tick
  import opened Reference

  const Edge: Player := Player("a", "Player1", 1590.0, 600.0, 0.0, 100, 0)
  const Shooter: Player := Player("b", "Player2", 100.0, 1000.0, 0.0, 100, 0)

  const Players: map<Id, Player> := map["a" := Edge, "b" := Shooter]

  const Before: World := World(Players, [Bullet(1596.0, 600.0, 0.0, "b"), Bullet(800.0, 100.0, 0.0, "b")])

  /** Only angle 0 is ever looked up here, where cos is 1 and sin is 0. */
  const Setting: Env := Env((a: real) => Dir(1.0, 0.0), ["a", "b"], [Draw(0.0, 0.0), Draw(0.0, 0.0)])

  /** The bystander after its move this tick. */
  const Bystander: Bullet := Bullet(805.0, 100.0, 0.0, "b")

  /** The bullet as it stands after this tick's move, which hits "a". */
  const Hitter: Bullet := Bullet(1601.0, 600.0, 0.0, "b")

  const Damaged: map<Id, Player> := Players["a" := Edge.(health := 75)]

  /** The array after index 1 was visited, in either mode. */
  const Midway: seq<Bullet> := [Before.bullets[0], Bystander]

  lemma SettingScansEveryone()
    ensures ScanOrder(Setting.order, Players)
  {
    assert "a" != "b";
  }

  /** Bullet 1 moves to the bystander position, inside the canvas, and
      hits no one. */
  lemma BystanderMisses()
    ensures !OffCanvas(Bystander) && !WithinHitRadius(Edge, Bystander)
    ensures ScanOrder(Setting.order, Players)
    ensures Resolve(Setting, Players, Before.bullets[1], Setting.draws[1]) == Success(Resolution(Players, Bystander, None, false))
  {
    SettingScansEveryone();
    assert Advance(Before.bullets[1], Setting.trig) == Bystander;
    assert !Hits(Players, Bystander, "a");
    assert ScanFrom(Setting.order, Players, Bystander, 0) == None;
  }

  /** Bullet 0 moves off the canvas and hits "a", who drops to 75. */
  lemma HitterHits()
    ensures ScanOrder(Setting.order, Players)
    ensures Resolve(Setting, Players, Before.bullets[0], Setting.draws[0]) == Success(Resolution(Damaged, Hitter, Some("a"), false))
  {
    SettingScansEveryone();
    assert Advance(Before.bullets[0], Setting.trig) == Hitter;
    assert Hits(Players, Hitter, "a");
    assert ScanFrom(Setting.order, Players, Hitter, 0) == Some(0);
  }

  /** Visiting index 1 keeps the bystander in both modes. */
  lemma FirstVisit(mode: Pruning)
    ensures ScanOrder(Setting.order, Players)
    ensures Step(mode, Setting, Before, 1) == Success(World(Players, Midway))
  {
    BystanderMisses();
    var r1 := Resolve(Setting, Players, Before.bullets[1], Setting.draws[1]);
    assert Prune(mode, Before.bullets, 1, r1.value) == Midway;
  }

  /** Visiting index 0 splices twice as written, once when corrected. */
  lemma SecondVisit()
    ensures ScanOrder(Setting.order, Players)
    ensures Step(AsWritten, Setting, World(Players, Midway), 0) == Success(World(Damaged, []))
    ensures Step(RemoveOnce, Setting, World(Players, Midway), 0) == Success(World(Damaged, [Bystander]))
  {
    HitterHits();
    var r0 := Resolve(Setting, Players, Before.bullets[0], Setting.draws[0]);
    assert Midway[0] == Before.bullets[0];
    assert Prune(AsWritten, Midway, 0, r0.value) == [];
    assert Prune(RemoveOnce, Midway, 0, r0.value) == [Bystander];
  }

  /** The rest of the loop, from index 0, as written. */
  lemma LastVisitAsWritten()
    ensures ScanOrder(Setting.order, Players)
    ensures TickFrom(AsWritten, Setting, World(Players, Midway), 1) == Success(World(Damaged, []))
  {
    SecondVisit();
    TickFromContinues(AsWritten, Setting, World(Players, Midway), 1, World(Damaged, []));
  }

  /** The rest of the loop, from index 0, corrected. */
  lemma LastVisitCorrected()
    ensures ScanOrder(Setting.order, Players)
    ensures TickFrom(RemoveOnce, Setting, World(Players, Midway), 1) == Success(World(Damaged, [Bystander]))
  {
    SecondVisit();
    TickFromContinues(RemoveOnce, Setting, World(Players, Midway), 1, World(Damaged, [Bystander]));
  }

  /** As written, the tick damages "a" and leaves no bullet at all, though
      the bystander neither hit anyone nor left the canvas. */
  lemma AsWrittenDropsBystander()
    ensures ScanOrder(Setting.order, Before.players)
    ensures TickAsWritten(Before, Setting) == Success(World(Damaged, []))
  {
    FirstVisit(AsWritten);
    LastVisitAsWritten();
    TickFromContinues(AsWritten, Setting, Before, 2, World(Players, Midway));
    assert TickAsWritten(Before, Setting) == TickFrom(AsWritten, Setting, Before, 2);
  }

  /** The corrected tick damages "a" the same way and keeps the bystander. */
  lemma CorrectedKeepsBystander()
    ensures ScanOrder(Setting.order, Before.players)
    ensures TickCorrected(Before, Setting) == Success(World(Damaged, [Bystander]))
  {
    FirstVisit(RemoveOnce);
    LastVisitCorrected();
    TickFromContinues(RemoveOnce, Setting, Before, 2, World(Players, Midway));
    assert TickCorrected(Before, Setting) == TickFrom(RemoveOnce, Setting, Before, 2);
  }

  /** The filter reports this tick as one where a bullet both hits and
      leaves the canvas. */
  lemma SettingClashes()
    ensures ScanOrder(Setting.order, Before.players)
    ensures ClashingTick(Before, Setting)
  {
    BystanderMisses();
    HitterHits();
    FilterUnfold(Setting, Players, Before.bullets, 2);
    FilterUnfold(Setting, Players, Before.bullets, 1);
  }
}
