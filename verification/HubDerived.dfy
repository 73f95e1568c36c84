/**
 * The fields the hub derives (clients/js/localhub.js): each store's roster counts its items, and
 * the trial marks show which settings are on trial.
 */
module HubDerived {
  import opened Bytes
  import opened Packed
  import opened HubCatalog
  import opened Hub
  import opened HubPlaces
  import opened HubTrials
  import opened HubSteps
  import opened HubSafety
  import PackedWrite

  // ---- places nothing but their own rule writes --------------------------------------------------

  predicate IsMark(cat: Catalog, l: Loc) {
    cat.HasLoc(l) && cat.At(l).role == TrialMark && cat.StateAt(l).setting.Some?
  }

  predicate IsRosterField(cat: Catalog, l: Loc) {
    cat.HasLoc(l) && cat.StateAt(l).storeId.Some? && RosterName(cat.At(l).f.name)
  }

  /** A derived place is written by the roster sync and the mark update alone. */
  lemma DerivedKept(cat: Catalog, s: State, sid: nat, ch: nat, kv: map<nat, IVal>, plan: Plan, l: Loc)
    requires Fits(cat, s.vals) && cat.Apart() && l in s.vals && (IsMark(cat, l) || IsRosterField(cat, l))
    requires !plan.Refuse? && !plan.Leaves? && !plan.EndAll?
    ensures Enact(cat, s, sid, ch, kv, plan).s.vals[l] == s.vals[l]
  {
    hide Applied, WriteChannels, RunningChannels, Show, Truthy, StoredAt;
    ApartAt(cat, l);
    match plan
    case EstopNow => EstopKeepsOthers(cat, s, l);
    case _ =>
  }

  lemma EstopKeepsOthers(cat: Catalog, s: State, l: Loc)
    requires Fits(cat, s.vals) && l in s.vals && !cat.IsSource(l)
    ensures LatchEstop(cat, s).vals[l] == s.vals[l]
  {
  }

  lemma UnmaskedKept(cat: Catalog, s: State, sid: nat, commit: bool, l: Loc)
    requires Fits(cat, s.vals) && cat.Apart() && l in s.vals && (IsMark(cat, l) || IsRosterField(cat, l))
    ensures Unmasked(cat, s, sid, commit).vals[l] == s.vals[l]
  {
    ApartAt(cat, l);
  }

  lemma RosterNotMark(cat: Catalog, l: Loc)
    requires cat.WellFormed() && cat.Apart() && IsRosterField(cat, l)
    ensures !IsMark(cat, l)
  {
    ApartAt(cat, l);
  }

  // ---- trial marks ------------------------------------------------------------------------------------

  /** A mark is one plain byte. */
  predicate MarksPlain(cat: Catalog) {
    forall e, k :: e in cat.entries && e.StateEntry? && 0 <= k < |e.layout| && e.layout[k].role == TrialMark ==>
      PlainByte(e.layout[k].f)
  }

  predicate PlainByte(f: Field) {
    f.kind == U8 && Scale(f) == 1.0
  }

  function MarkOf(cat: Catalog, trials: map<Setting, Trial>, l: Loc): nat
    requires IsMark(cat, l)
  {
    MaskByte(cat.StateAt(l), trials, 8 * MarksBefore(cat.StateAt(l).layout, l.i) % 32, 8)
  }

  lemma {:induction false} MaskBound(e: Entry, trials: map<Setting, Trial>, shift: nat, n: nat)
    requires e.StateEntry? && e.setting.Some?
    ensures MaskByte(e, trials, shift, n) < Pow2(n)
    decreases n
  {
    if n > 0 {
      MaskBound(e, trials, shift + 1, n - 1);
    }
  }

  function Pow2(n: nat): nat {
    if n == 0 then 1 else 2 * Pow2(n - 1)
  }

  lemma ByteStored(cat: Catalog, l: Loc, b: nat)
    requires cat.WellFormed() && cat.HasLoc(l) && PlainByte(cat.At(l).f) && b < 0x100
    ensures StoredAt(cat, l, Num(b as real)) == Num(b as real)
  {
    RoundInt(b);
  }

  /** After the mark update every mark shows its byte. */
  lemma MaskedShows(cat: Catalog, s: State, l: Loc)
    requires Fits(cat, s.vals) && MarksPlain(cat) && l in s.vals && IsMark(cat, l)
    ensures Masked(cat, s).vals[l] == Num(MarkOf(cat, s.trials, l) as real)
  {
    cat.Placed(l);
    assert cat.At(l) == cat.StateAt(l).layout[l.i];
    MaskBound(cat.StateAt(l), s.trials, 8 * MarksBefore(cat.StateAt(l).layout, l.i) % 32, 8);
    ByteStored(cat, l, MarkOf(cat, s.trials, l));
  }

  /** Every mark agrees with the trials. */
  ghost predicate MarksAgree(cat: Catalog, s: State) {
    forall l :: l in s.vals && IsMark(cat, l) ==> s.vals[l] == Num(MarkOf(cat, s.trials, l) as real)
  }

  lemma MaskedAgree(cat: Catalog, s: State)
    requires Fits(cat, s.vals) && MarksPlain(cat)
    ensures MarksAgree(cat, Masked(cat, s))
  {
    hide IsMark, MarkOf;
    forall l | l in s.vals && IsMark(cat, l)
      ensures Masked(cat, s).vals[l] == Num(MarkOf(cat, s.trials, l) as real)
    {
      MaskedShows(cat, s, l);
    }
  }

  lemma EnactMarks(cat: Catalog, s: State, sid: nat, ch: nat, kv: map<nat, IVal>, plan: Plan)
    requires Fits(cat, s.vals) && cat.Apart() && MarksPlain(cat) && MarksAgree(cat, s) && !plan.Refuse?
    ensures MarksAgree(cat, Enact(cat, s, sid, ch, kv, plan).s)
  {
    hide Enact, IsMark, MarkOf;
    if plan.EndAll? {
      EndMarks(cat, s, sid, ch, kv, plan);
    } else {
      EnactTrials(cat, s, sid, ch, kv, plan);
      var t := Enact(cat, s, sid, ch, kv, plan).s;
      forall l | l in t.vals && IsMark(cat, l)
        ensures t.vals[l] == Num(MarkOf(cat, t.trials, l) as real)
      {
        if plan.Leaves? {
          LeavesMark(cat, s, sid, ch, kv, plan, l);
        } else {
          DerivedKept(cat, s, sid, ch, kv, plan, l);
        }
      }
    }
  }

  lemma EndMarks(cat: Catalog, s: State, sid: nat, ch: nat, kv: map<nat, IVal>, plan: Plan)
    requires Fits(cat, s.vals) && MarksPlain(cat) && plan.EndAll?
    ensures MarksAgree(cat, Enact(cat, s, sid, ch, kv, plan).s)
  {
    hide Masked, MarksAgree, Fits, MaskChannels, RevertChannels;
    MaskedAgree(cat, Unmasked(cat, s, sid, plan.commit));
  }

  lemma LeavesMark(cat: Catalog, s: State, sid: nat, ch: nat, kv: map<nat, IVal>, plan: Plan, l: Loc)
    requires Fits(cat, s.vals) && cat.Apart() && l in s.vals && IsMark(cat, l) && plan.Leaves?
    ensures Enact(cat, s, sid, ch, kv, plan).s.vals[l] == s.vals[l]
  {
    var d := plan.d;
    if RosterIn(cat.entries, d.storeId).Some? {
      var r := RosterIn(cat.entries, d.storeId).value;
      RosterIsState(cat.entries, d.storeId);
      FindsIt(cat.entries, r);
      ApartAt(cat, l);
    }
  }

  lemma PerformMarks(cat: Catalog, s: State, sid: nat, ch: nat, kv: map<nat, IVal>, trial: bool, plan: Plan)
    requires Fits(cat, s.vals) && cat.Apart() && MarksPlain(cat) && MarksAgree(cat, s) && !plan.Refuse?
    ensures MarksAgree(cat, Perform(cat, s, sid, ch, kv, trial, plan).s)
  {
    hide Enact, MarksAgree, Masked, Settled;
    EnactMarks(cat, s, sid, ch, kv, plan);
    var o := Enact(cat, s, sid, ch, kv, plan);
    MaskedAgree(cat, o.s.(trials := Settled(cat, s.vals, o.s.trials, sid, ch, kv, trial)));
  }

  lemma EstopMarks(cat: Catalog, s: State)
    requires Fits(cat, s.vals) && MarksAgree(cat, s)
    ensures MarksAgree(cat, LatchEstop(cat, s))
  {
    hide MarkOf, LatchEstop;
    EstopTrials(cat, s);
    EstopKeys(cat, s);
    var t := LatchEstop(cat, s);
    forall l | l in t.vals && IsMark(cat, l)
      ensures t.vals[l] == Num(MarkOf(cat, t.trials, l) as real)
    {
      EstopKeepsOthers(cat, s, l);
    }
  }

  lemma EstopKeys(cat: Catalog, s: State)
    requires Fits(cat, s.vals)
    ensures LatchEstop(cat, s).vals.Keys == s.vals.Keys
  {
    hide Fits;
  }

  /** Every event keeps the marks in step with the trials. */
  lemma NextMarks(cat: Catalog, s: State, ev: Event)
    requires Sound(cat, s) && cat.Apart() && MarksPlain(cat) && MarksAgree(cat, s)
    ensures MarksAgree(cat, Next(cat, s, ev))
  {
    hide Next, EffectOf, Perform, EndTrials, LatchEstop, MarksPlain, IsMark, MarkOf, Admitted;
    var x := EffectOf(cat, s, ev);
    NextMachine(cat, s, ev);
    match x
    case Does(sid, e, kv, trial, plan) => PerformMarks(cat, s, sid, e.id, kv, trial, plan);
    case Closes(sid) => CloseMarks(cat, Without(s, sid), sid);
    case Estops => EstopMarks(cat, s);
    case Quiet =>
  }

  lemma CloseMarks(cat: Catalog, s: State, sid: nat)
    requires Fits(cat, s.vals) && MarksPlain(cat)
    ensures MarksAgree(cat, EndTrials(cat, s, sid, false).s)
  {
    hide Masked, MarksAgree, Fits, MaskChannels, RevertChannels;
    MaskedAgree(cat, Unmasked(cat, s, sid, false));
  }

  lemma {:induction false} TraceMarks(cat: Catalog, states: seq<State>, evs: seq<Event>, k: nat)
    requires Trace(cat, states, evs) && Sound(cat, states[0]) && cat.Apart() && k < |states|
    requires MarksPlain(cat) && MarksAgree(cat, states[0])
    ensures MarksAgree(cat, states[k])
  {
    hide Next, Sound, MarksAgree, MarksPlain;
    if k > 0 {
      TraceMarks(cat, states, evs, k - 1);
      TraceSound(cat, states, evs, k - 1);
      NextMarks(cat, states[k - 1], evs[k - 1]);
    }
  }

  /** `(m >> b) & 1`. */
  predicate BitSet(m: nat, b: nat) {
    if b == 0 then m % 2 == 1 else BitSet(m / 2, b - 1)
  }

  lemma {:induction false} MaskBits(e: Entry, trials: map<Setting, Trial>, shift: nat, n: nat, b: nat)
    requires e.StateEntry? && e.setting.Some? && b < n
    ensures BitSet(MaskByte(e, trials, shift, n), b) <==> TrialBit(e, trials, shift + b)
    decreases n
  {
    hide TrialBit;
    var m := MaskByte(e, trials, shift + 1, n - 1);
    if b > 0 {
      assert MaskByte(e, trials, shift, n) / 2 == m;
      MaskBits(e, trials, shift + 1, n - 1, b - 1);
    }
  }

  lemma {:induction false} SettingsGrow(layout: seq<LayoutField>, a: nat, b: nat)
    requires a < b <= |layout| && layout[a].key.Some?
    ensures SettingsBefore(layout, a) < SettingsBefore(layout, b)
    decreases b
  {
    if b > a + 1 {
      SettingsGrow(layout, a, b - 1);
    }
  }

  /** With at most 32 settings each has a bit of its own. */
  lemma OwnBit(e: Entry, trials: map<Setting, Trial>, k: nat)
    requires e.StateEntry? && e.setting.Some? && SettingsBefore(e.layout, |e.layout|) <= 32
    requires k < |e.layout| && e.layout[k].key.Some?
    ensures TrialBit(e, trials, SettingsBefore(e.layout, k)) <==> Setting(e.setting.value, e.layout[k].key.value) in trials
  {
    hide SettingsBefore;
    forall j | 0 <= j < |e.layout| && e.layout[j].key.Some?
      ensures SettingsBefore(e.layout, j) < 32
      ensures SettingsBefore(e.layout, j) == SettingsBefore(e.layout, k) ==> j == k
    {
      SettingsGrow(e.layout, j, |e.layout|);
      if j < k {
        SettingsGrow(e.layout, j, k);
      } else if k < j {
        SettingsGrow(e.layout, k, j);
      }
    }
  }

  /**
   * In every state of a run, the bit of a setting is set in its mark if and only if the setting is
   * on trial, on a channel with at most 32 settings and 4 marks.
   */
  lemma MarksShowTrials(cat: Catalog, states: seq<State>, evs: seq<Event>, n: nat, l: Loc, k: nat)
    requires Trace(cat, states, evs) && Sound(cat, states[0]) && cat.Apart() && n < |states|
    requires MarksPlain(cat) && MarksAgree(cat, states[0])
    requires l in states[n].vals && IsMark(cat, l)
    requires var e := cat.StateAt(l);
             && SettingsBefore(e.layout, |e.layout|) <= 32 && MarksBefore(e.layout, l.i) < 4
             && k < |e.layout| && e.layout[k].key.Some?
             && SettingsBefore(e.layout, k) / 8 == MarksBefore(e.layout, l.i)
    ensures var e := cat.StateAt(l);
            exists m: nat :: states[n].vals[l] == Num(m as real) && m < 0x100
              && (BitSet(m, SettingsBefore(e.layout, k) % 8)
                  <==> Setting(e.setting.value, e.layout[k].key.value) in states[n].trials)
  {
    hide Trace, Sound, MarksPlain, BitSet, TrialBit;
    TraceMarks(cat, states, evs, n);
    var e, trials := cat.StateAt(l), states[n].trials;
    var i, j := SettingsBefore(e.layout, k), MarksBefore(e.layout, l.i);
    assert 8 * j % 32 == 8 * j && i == 8 * j + i % 8;
    MaskBound(e, trials, 8 * j, 8);
    MaskBits(e, trials, 8 * j, 8, i % 8);
    OwnBit(e, trials, k);
    assert states[n].vals[l] == Num(MarkOf(cat, trials, l) as real);
  }
}
