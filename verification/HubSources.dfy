/** At most one source drives the machine (clients/js/localhub.js): when that holds, and when it does not. */
module HubSources {
  import opened Bytes
  import opened Packed
  import opened HubCatalog
  import opened Hub
  import opened HubPlaces
  import opened HubTrials
  import opened HubSteps
  import opened HubSafety
  import PackedWrite

  ghost predicate AtMostOne(cat: Catalog, vals: map<Loc, Val>) {
    forall l, m :: Running(cat, vals, l) && Running(cat, vals, m) ==> l == m
  }

  /** The write sets an idle source going: it is stored, and stored as something other than zero. */
  predicate Ignites(cat: Catalog, s: State, ch: nat, kv: map<nat, IVal>, l: Loc) {
    && l in s.vals && cat.IsSource(l) && Known(cat.At(l).f.kind) && !Truthy(s.vals[l])
    && StoreAt(cat, ch, kv, l).Some? && Truthy(StoredAt(cat, l, StoreAt(cat, ch, kv, l).value))
  }

  /** After accepted writes a source runs if it was set going, or ran and was not written to zero. */
  lemma RunsAfter(cat: Catalog, s: State, x: Effect, l: Loc)
    requires Sound(cat, s) && cat.Apart() && x.Does? && x.plan.Writes?
    ensures Running(cat, Machine(cat, s, x).vals, l) && !Running(cat, s.vals, l) <==> Ignites(cat, s, x.e.id, x.kv, l)
  {
    hide Machine;
    cat.Placed(l);
    if cat.IsSource(l) {
      MachinePlace(cat, s, x, l);
    }
  }

  lemma IgnitesStarts(cat: Catalog, s: State, ch: nat, kv: map<nat, IVal>, l: Loc)
    requires cat.WellFormed() && cat.Apart() && Ignites(cat, s, ch, kv, l)
    ensures Starts(cat, s, ch, kv, l)
  {
    var v := StoreAt(cat, ch, kv, l).value;
    if !Truthy(v) {
      FalsyStored(cat, l, v);
    }
  }

  /** No two idle sources are set going by one intent. */
  ghost predicate OneIgnites(cat: Catalog, s: State, ch: nat, kv: map<nat, IVal>) {
    forall l, m :: Ignites(cat, s, ch, kv, l) && Ignites(cat, s, ch, kv, m) ==> l == m
  }

  /** A source is set going only while none runs. */
  lemma NoneRuns(cat: Catalog, s: State, x: Effect, l: Loc, m: Loc)
    requires Sound(cat, s) && cat.Apart() && Decided(cat, s, x) && x.Does? && x.plan.Writes?
    requires Ignites(cat, s, x.e.id, x.kv, l)
    ensures !Running(cat, s.vals, m)
  {
    hide PlanOf, Ignites, Starts, WriteRefusal;
    IgnitesStarts(cat, s, x.e.id, x.kv, l);
    PlanWrites(cat, s, x.sid, x.e, x.kv, x.trial);
    WriteStarts(cat, s, x.e, x.kv, l);
    NotYetRunning(cat, s, x.e.id, x.kv, l);
  }

  lemma NotYetRunning(cat: Catalog, s: State, ch: nat, kv: map<nat, IVal>, l: Loc)
    requires Ignites(cat, s, ch, kv, l)
    ensures !Running(cat, s.vals, l)
  {
  }

  /** Accepted writes keep at most one source running if and only if they set at most one going. */
  lemma WritesKeepOne(cat: Catalog, s: State, x: Effect)
    requires Sound(cat, s) && cat.Apart() && Decided(cat, s, x) && x.Does? && x.plan.Writes?
    requires AtMostOne(cat, s.vals)
    ensures AtMostOne(cat, Machine(cat, s, x).vals) <==> OneIgnites(cat, s, x.e.id, x.kv)
  {
    hide Machine, Ignites, Running, Decided;
    var after := Machine(cat, s, x).vals;
    forall l, m | Running(cat, after, l) && Running(cat, after, m) && OneIgnites(cat, s, x.e.id, x.kv)
      ensures l == m
    {
      RunsAfter(cat, s, x, l);
      RunsAfter(cat, s, x, m);
      if Ignites(cat, s, x.e.id, x.kv, l) {
        NoneRuns(cat, s, x, l, m);
      }
      if Ignites(cat, s, x.e.id, x.kv, m) {
        NoneRuns(cat, s, x, m, l);
      }
    }
    forall l, m | Ignites(cat, s, x.e.id, x.kv, l) && Ignites(cat, s, x.e.id, x.kv, m) && AtMostOne(cat, after)
      ensures l == m
    {
      RunsAfter(cat, s, x, l);
      RunsAfter(cat, s, x, m);
    }
  }

  // ---- whole runs ---------------------------------------------------------------------------------

  /** No INTENT channel writes two sources. */
  ghost predicate OneSourcePerChannel(cat: Catalog) {
    forall l, m :: (cat.IsSource(l) && cat.IsSource(m) && Mirrors(cat, l) && Mirrors(cat, m)
                    && cat.SettingOf(l).value.ch == cat.SettingOf(m).value.ch) ==> l == m
  }

  /** An intent's write reaches the place. */
  predicate Mirrors(cat: Catalog, l: Loc) {
    cat.SettingOf(l).Some? && cat.IsTarget(l, cat.SettingOf(l).value)
  }

  lemma NextOne(cat: Catalog, s: State, ev: Event)
    requires Sound(cat, s) && cat.Apart() && OneSourcePerChannel(cat) && AtMostOne(cat, s.vals)
    ensures AtMostOne(cat, Next(cat, s, ev).vals)
  {
    hide Next, EffectOf, Machine, Running, PlanOf;
    var x := EffectOf(cat, s, ev);
    NextMachine(cat, s, ev);
    EffectDecided(cat, s, ev);
    if x.Does? && x.plan.Writes? {
      WritesKeepOne(cat, s, x);
    } else {
      forall l | Running(cat, Next(cat, s, ev).vals, l)
        ensures Running(cat, s.vals, l)
      {
        if !Running(cat, s.vals, l) {
          NextStarts(cat, s, ev, l);
        }
      }
    }
  }

  /** In every state of a run at most one source is nonzero. */
  lemma {:induction false} OneSource(cat: Catalog, states: seq<State>, evs: seq<Event>, k: nat)
    requires Trace(cat, states, evs) && Sound(cat, states[0]) && cat.Apart() && k < |states|
    requires OneSourcePerChannel(cat) && AtMostOne(cat, states[0].vals)
    ensures AtMostOne(cat, states[k].vals)
  {
    hide Next, Sound, AtMostOne, OneSourcePerChannel;
    if k > 0 {
      OneSource(cat, states, evs, k - 1);
      TraceSound(cat, states, evs, k - 1);
      NextOne(cat, states[k - 1], evs[k - 1]);
    }
  }

  // ---- one channel, two sources ---------------------------------------------------------------------

  function Switch(name: string, key: nat): LayoutField {
    LayoutField(Field(name, U8, 1.0, None), Source, Some(key), false, None, None, None)
  }

  function OnOff(key: nat): SchemaField {
    SchemaField(key, BoolT, Plain, None, None, None, false, None, None)
  }

  /** Channel 200 starts both sources of channel 100. */
  function Twin(single: PackedWrite.ToSingle): Catalog {
    Catalog([StateEntry(100, WATCH, [Switch("pattern", 1), Switch("advgen", 2)], Some(200), None),
             IntentEntry(200, CONTROL, [OnOff(1), OnOff(2)], None)], false, single)
  }

  function Idle(single: PackedWrite.ToSingle): State {
    State(map[Loc(100, 0) := Num(0.0), Loc(100, 1) := Num(0.0)],
          Latch(false, false, 0, 0, 0, 0, false, false, 0), map[], map[], map[], 1,
          map[7 := Conn(true, CONTROL, {}, [], map[], None)])
  }

  function Both(): map<nat, IVal> {
    map[1 := IBool(true), 2 := IBool(true)]
  }

  function BothIntent(id: Option<nat>): Intent {
    Intent(200, id, Some([KV(1, IBool(true)), KV(2, IBool(true))]), false)
  }

  lemma TwinFits(single: PackedWrite.ToSingle)
    requires single(0.0) == NullSingle()
    ensures var cat, s := Twin(single), Idle(single);
            Sound(cat, s) && cat.Apart() && Safe(cat, s) && AtMostOne(cat, s.vals)
  {
    var cat, s := Twin(single), Idle(single);
    var e := cat.entries[0];
    forall l
      ensures l in cat.Locs() <==> l in s.vals
    {
      if l in s.vals {
        assert e in cat.entries && 0 <= l.i < |e.layout| && Loc(e.id, l.i) == l;
      }
    }
    assert FindIn(cat.entries, 100) == Some(e);
  }

  lemma TwinPlan(single: PackedWrite.ToSingle, id: Option<nat>)
    ensures var cat, s := Twin(single), Idle(single);
            var e := cat.entries[1];
            && GateOf(cat, s.conns[7], BothIntent(id)) == Pass(e, Both())
            && PlanOf(cat, s, 7, e, Both(), false) == Writes(false)
  {
    var cat, s := Twin(single), Idle(single);
    var e := cat.entries[1];
    assert FindIn(cat.entries[1..], 200) == Some(e);
    assert FindIn(cat.entries[1..], CH_SETTINGS_TRIAL) == FindIn(cat.entries[2..], CH_SETTINGS_TRIAL);
    var value := BothIntent(id).value.value;
    assert FieldByKey(e.schema[1..], 2) == Some(OnOff(2));
    assert FieldByKey(e.schema[1..], 1) == FieldByKey(e.schema[2..], 1);
    assert Validated(e, CONTROL, value[1..], map[1 := IBool(true)]) == Good(Both()) by {
      assert value[1..] == [KV(2, IBool(true))];
      assert Validated(e, CONTROL, value[1..][1..], Both()) == Good(Both());
    }
    forall l | l in s.vals
      ensures !Truthy(s.vals[l])
    {
    }
  }

  lemma TwinIgnites(single: PackedWrite.ToSingle, i: nat)
    requires i < 2
    ensures Ignites(Twin(single), Idle(single), 200, Both(), Loc(100, i))
  {
    var cat := Twin(single);
    assert FindIn(cat.entries, 100) == Some(cat.entries[0]);
    var f := cat.At(Loc(100, i)).f;
    RoundInt(1);
    assert Scaled(f, 1.0) == 1.0 && Physical(f, 1) == 1.0;
  }

  /** The check reads the state before any write, so one intent that starts two sources passes it. */
  lemma TwoStart(single: PackedWrite.ToSingle)
    requires single(0.0) == NullSingle()
    ensures var cat, s := Twin(single), Idle(single);
            && Sound(cat, s) && cat.Apart() && Safe(cat, s) && AtMostOne(cat, s.vals)
            && !AtMostOne(cat, Next(cat, s, IntentFrame(7, BothIntent(Some(1)))).vals)
  {
    hide Next, Machine, GateOf, PlanOf, Ignites, Running;
    var cat, s := Twin(single), Idle(single);
    var e := cat.entries[1];
    TwinFits(single);
    TwinPlan(single, Some(1));
    var x := EffectOf(cat, s, IntentFrame(7, BothIntent(Some(1))));
    assert x == Does(7, e, Both(), false, Writes(false));
    NextMachine(cat, s, IntentFrame(7, BothIntent(Some(1))));
    WritesKeepOne(cat, s, x);
    TwinIgnites(single, 0);
    TwinIgnites(single, 1);
  }
}
