/** A run in which a reset, and no collector, makes the cache answer that a position is free. */
module AppExamples {
  import opened Common
  import opened TransitionVersions
  import opened Releases
  import opened Observations
  import opened AppMemory
  import opened AppHistory
  import opened AppProjection
  import opened AppSteps

  const C := "c"
  const POS := Position("a", "w")
  const CONFIG := Config(C, ["a"], [])

  function Sync(): string {
    seq(36, i => if i in {8, 13, 18, 23} then '-' else '1')
  }

  const OBJECT := Observation(POS, "u", "1", "", "", "", "x", "", 1, 1, 1, 1, 1, 1, 1, false, false, false, false,
                              NotChecked, None)

  lemma ConfigIsValid()
    ensures ValidConfigs([CONFIG])
  {
    assert IsLabel("a") && IsLabel("c");
    assert ValidConfig(CONFIG);
  }

  lemma SyncIsValid()
    ensures IsId(Sync())
  {
    assert Sync()[0] == '1';
  }

  lemma ObjectIsValid()
    ensures ValidResource(OBJECT, CONFIG)
  {
    SplitWhole("w", '.');
    assert IsLabel("a") && "a" in CONFIG.namespaces by { assert CONFIG.namespaces[0] == "a"; }
    assert IsSubdomain("w");
  }

  /** With nothing tracked a projection has nothing to do. */
  lemma NothingTracked(m: Mem, now: Time, length: nat)
    requires m.bindings == map[]
    ensures ProjectAll(m, now) == m && MatchesOf(m, length) == {}
  {
    hide Projected, Advanced;
    assert Moved(m, now) == {};
    NothingAdvanced(m.scopes, m.bindings);
  }

  lemma {:induction false} OneMoreStep(w: World, steps: seq<Step>, s: Step)
    requires IsRun(w, steps) && Enabled(After(w, steps), s)
    ensures IsRun(w, steps + [s]) && After(w, steps + [s]) == Next(After(w, steps), s)
    decreases |steps|
  {
    hide Next, Enabled;
    if steps == [] {
      assert [s][1..] == [];
      assert steps + [s] == [s];
    } else {
      OneMoreStep(Next(w, steps[0]), steps[1..], s);
      assert (steps + [s])[1..] == steps[1..] + [s];
    }
  }

  lemma ReachableStep(w: World, s: Step)
    requires Reachable(w) && Enabled(w, s)
    ensures Reachable(Next(w, s))
  {
    hide Next, Enabled, Start, ValidConfigs;
    var station, configs, clock, steps :|
      ValidConfigs(configs) && 0 <= clock && IsRun(Start(station, configs, clock), steps)
      && After(Start(station, configs, clock), steps) == w;
    OneMoreStep(Start(station, configs, clock), steps, s);
  }

  lemma StartIsReachable(station: string, configs: seq<Config>, clock: Time)
    requires ValidConfigs(configs) && 0 <= clock
    ensures Reachable(Start(station, configs, clock))
  {
    hide Start, ValidConfigs;
    assert IsRun(Start(station, configs, clock), []) && After(Start(station, configs, clock), []) == Start(station, configs, clock);
  }

  lemma HeardHere(m: Mem, sid: SessionId, now: Time)
    ensures Heard(m, sid, now).bindings == m.bindings
  {
  }

  /** One accepted frame while nothing is tracked. */
  lemma FrameStep(w: World, sid: SessionId, f: Frame)
    requires Reachable(w) && w.mem.bindings == map[] && w.matches == {} && Live(w.mem, sid, w.clock) && Handle(w.mem, sid, f, w.clock).Ok?
    requires Handle(w.mem, sid, f, w.clock).value.bindings == map[]
    ensures var m := Heard(Handle(w.mem, sid, f, w.clock).value, sid, w.clock);
      Reachable(World(m, w.log + [Accepted(w.clock, w.mem.sessions[sid].collector, sid, f)], {}, w.clock))
  {
    hide Reachable, Handle, ProjectAll, MatchesOf;
    var s := Step(w.clock, FrameAct(sid, f));
    var m := Heard(Handle(w.mem, sid, f, w.clock).value, sid, w.clock);
    NothingTracked(m, w.clock, |w.log| + 1);
    HeardHere(Handle(w.mem, sid, f, w.clock).value, sid, w.clock);
    ReachableStep(w, s);
    assert Apply(w.mem, sid, f, w.clock) == (m, None);
    assert Next(w, s) == World(m, w.log + [Accepted(w.clock, w.mem.sessions[sid].collector, sid, f)], {}, w.clock);
  }

  function Showing(objects: map<Position, Resource>, synced: bool, staging: Option<map<Position, Resource>>, listed: Option<Evidence>)
    : Mem
  {
    Mem("station", map[C := Inventory(CONFIG, Some(0), objects, 0, listed)],
        map[0 := Session(C, 0, synced, false, if staging.Some? then Sync() else "", 0, staging)], map[], map[])
  }

  const SAMPLE := Resource(OBJECT, 0, TTL, TTL)
  const BEGIN := Accepted(0, C, 0, Begin(Sync()))
  const OBJECTS := Accepted(0, C, 0, Objects(Sync(), [OBJECT]))
  const END := Accepted(0, C, 0, End(Sync(), 1))
  const RESET := Cleared(0, "x", "")

  lemma Opened()
    ensures Reachable(World(Showing(map[], false, None, None), [], {}, 0))
  {
    hide Reachable, ValidConfigs;
    ConfigIsValid();
    StartIsReachable("station", [CONFIG], 0);
    var w := Start("station", [CONFIG], 0);
    StartWorld();
    var s, m := Step(0, OpenAct(C, 0)), Showing(map[], false, None, None);
    ReachableStep(w, s);
    NothingTracked(m, 0, 0);
    hide MatchesOf, Start;
    assert Open(w.mem, C, 0, 0).value.collectors == m.collectors;
    assert Open(w.mem, C, 0, 0).value.sessions == m.sessions;
    assert Next(w, s) == World(m, [], {}, 0);
  }

  lemma StartWorld()
    requires ValidConfigs([CONFIG])
    ensures Start("station", [CONFIG], 0) == World(Mem("station", map[C := NewInventory(CONFIG)], map[], map[], map[]), [], {}, 0)
  {
    hide ValidConfigs;
    assert [CONFIG][0] == CONFIG;
    assert (map c | c in [CONFIG] :: c.id := NewInventory(c)) == map[C := NewInventory(CONFIG)];
  }

  lemma Listed()
    ensures Reachable(World(Showing(map[POS := SAMPLE], true, None, Some(Since(0))), [BEGIN, OBJECTS, END], {}, 0))
  {
    hide Reachable, ValidResource, IsId;
    SyncIsValid();
    ObjectIsValid();
    Opened();
    var m0, m1 := Showing(map[], false, None, None), Showing(map[], false, Some(map[]), None);
    var m2, m3 := Showing(map[], false, Some(map[POS := SAMPLE]), None), Showing(map[POS := SAMPLE], true, None, Some(Since(0)));
    assert Heard(Handle(m0, 0, Begin(Sync()), 0).value, 0, 0) == m1;
    FrameStep(World(m0, [], {}, 0), 0, Begin(Sync()));
    assert [] + [BEGIN] == [BEGIN];
    assert [OBJECT][..0] == [];
    assert PutAll(m1.collectors[C], false, map[], [OBJECT], 0) == map[POS := SAMPLE];
    assert Heard(Handle(m1, 0, Objects(Sync(), [OBJECT]), 0).value, 0, 0) == m2;
    FrameStep(World(m1, [BEGIN], {}, 0), 0, Objects(Sync(), [OBJECT]));
    assert [BEGIN] + [OBJECTS] == [BEGIN, OBJECTS];
    assert |map[POS := SAMPLE]| == 1;
    assert Missing(map[], Unlisted(map[], C, map[POS := SAMPLE]), 0) == map[];
    assert Heard(Handle(m2, 0, End(Sync(), 1), 0).value, 0, 0) == m3;
    FrameStep(World(m2, [BEGIN, OBJECTS], {}, 0), 0, End(Sync(), 1));
    assert [BEGIN, OBJECTS] + [END] == [BEGIN, OBJECTS, END];
  }

  /**
   * The collector's last list holds the object and no frame has removed it; a
   * reset of its App has, and the catalog calls the position not installed.
   */
  lemma ResetAnswersNotInstalled() returns (w: World)
    ensures Reachable(w) && C in w.mem.collectors && SeesFree(w.mem.collectors[C], POS, w.clock)
    ensures Completed(w.log, C, w.mem.collectors[C].lastFull, 2) && POS in Sent(w.log[..2], w.log[2].session)
    ensures forall k :: 0 <= k < |w.log| && w.log[k].Accepted? ==> !w.log[k].frame.Delete?
    ensures |w.log| == 4 && Frees(w.log, 3, C, POS)
  {
    hide Reachable;
    Listed();
    var m, m' := Showing(map[POS := SAMPLE], true, None, Some(Since(0))), Showing(map[], true, None, Some(Since(0)));
    var before := World(m, [BEGIN, OBJECTS, END], {}, 0);
    var s := Step(0, ResetAct("x", ""));
    w := World(m', [BEGIN, OBJECTS, END, RESET], {}, 0);
    ReachableStep(before, s);
    ResetStep(before, s, w);
    SentBeforeTheEnd();
    assert w.log[..2] == [BEGIN, OBJECTS] && w.log[..3] == [BEGIN, OBJECTS, END];
    hide Sent, Replayed, OpenList;
    assert CONFIG.namespaces[0] == "a";
  }

  lemma ResetStep(before: World, s: Step, w: World)
    requires before == World(Showing(map[POS := SAMPLE], true, None, Some(Since(0))), [BEGIN, OBJECTS, END], {}, 0)
    requires s == Step(0, ResetAct("x", ""))
    requires w == World(Showing(map[], true, None, Some(Since(0))), [BEGIN, OBJECTS, END, RESET], {}, 0)
    ensures Next(before, s) == w
  {
    assert KeptObjects(map[POS := SAMPLE], "x", "") == map[];
    assert Forget(before.mem, "x", "") == w.mem;
    NothingTracked(w.mem, 0, 4);
    assert [BEGIN, OBJECTS, END] + [RESET] == w.log;
    hide MatchesOf;
  }

  lemma SentBeforeTheEnd()
    ensures Sent([BEGIN, OBJECTS], 0) == map[POS := OBJECT]
    ensures Replayed([BEGIN, OBJECTS, END], C) == map[POS := OBJECT]
    ensures OpenList([BEGIN, OBJECTS], 0) == Some(Listing(Sync(), 0))
  {
    assert [BEGIN, OBJECTS][..1] == [BEGIN] && [BEGIN][..0] == [];
    assert [OBJECT][..0] == [];
    assert Sent([BEGIN], 0) == map[] && OpenList([BEGIN], 0) == Some(Listing(Sync(), 0));
    assert PutFacts(map[], [OBJECT]) == map[POS := OBJECT];
    assert [BEGIN, OBJECTS, END][..2] == [BEGIN, OBJECTS];
  }
}
