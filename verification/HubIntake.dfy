/** How the hub takes an intent apart, one key at a time (clients/js/localhub.js). */
module HubIntake {
  import opened Bytes
  import opened Packed
  import opened HubCatalog
  import opened Hub
  import opened HubPieces

  /** Keys in the order they came, none twice, and exactly those with a value. */
  ghost predicate Ordered(order: seq<nat>, kv: map<nat, IVal>) {
    && (forall k :: k in order <==> k in kv)
    && forall i, j :: 0 <= i < j < |order| ==> order[i] != order[j]
  }

  function Appended(order: seq<nat>, kv: map<nat, IVal>, k: nat): seq<nat> {
    if k in kv then order else order + [k]
  }

  lemma OrderedNext(order: seq<nat>, kv: map<nat, IVal>, k: nat, v: IVal)
    requires Ordered(order, kv)
    ensures Ordered(Appended(order, kv, k), kv[k := v])
  {
  }

  lemma NothingOrdered()
    ensures Ordered([], map[])
  {
  }

  /** One key of the value against the schema. */
  lemma ValidStep(e: Entry, roles: nat, value: seq<KV>, i: nat, kv: map<nat, IVal>)
    requires e.IntentEntry? && i < |value|
    ensures var f := FieldByKey(e.schema, value[i].key);
            Validated(e, roles, value[i..], kv)
            == if f.None? then Bad(InvalidValue)
               else if roles < NeedFor(e, f.value, value[i].v) then Bad(AccessDenied)
               else if Coerced(f.value, value[i].v).None? then Bad(InvalidValue)
               else Validated(e, roles, value[i + 1..], kv[value[i].key := Coerced(f.value, value[i].v).value])
  {
    hide FieldByKey, Coerced, NeedFor;
    assert value[i..][0] == value[i] && value[i..][1..] == value[i + 1..];
  }

  lemma ValidEnd(e: Entry, roles: nat, value: seq<KV>, kv: map<nat, IVal>)
    requires e.IntentEntry?
    ensures value[|value|..] == [] && Validated(e, roles, [], kv) == Good(kv)
  {
  }

  // ---- the trial rules ------------------------------------------------------------------------------

  /** Another session holds the key's trial. */
  predicate Conflicts(trials: map<Setting, Trial>, sid: nat, ch: nat, k: nat) {
    Setting(ch, k) in trials && trials[Setting(ch, k)].sid != sid
  }

  predicate Untrialable(e: Entry)
    requires e.IntentEntry?
  {
    OpKey(e).Some? || e.id == CH_SETTINGS_TRIAL || exists i :: 0 <= i < |e.schema| && IsVerb(e.schema[i].act)
  }

  /** A key whose trial would have to open but may not. */
  predicate Blocked(cat: Catalog, s: State, ch: nat, k: nat) {
    Setting(ch, k) !in s.trials && !Trialable(cat, s.vals, Setting(ch, k))
  }

  /** The trial rules in the order they are checked. */
  lemma TrialRules(cat: Catalog, s: State, sid: nat, e: Entry, order: seq<nat>, kv: map<nat, IVal>, trial: bool)
    requires e.IntentEntry? && Ordered(order, kv)
    ensures TrialRefusal(cat, s, sid, e, kv, trial)
         == if !cat.TrialsOn() then None
            else if exists i :: 0 <= i < |order| && Conflicts(s.trials, sid, e.id, order[i]) then Some(TrialConflict)
            else if !trial then None
            else if Untrialable(e) then Some(UnsupportedOp)
            else if exists i :: 0 <= i < |order| && Blocked(cat, s, e.id, order[i]) then Some(UnsupportedOp)
            else None
  {
    hide Trialable;
    forall k | k in kv
      ensures exists i :: 0 <= i < |order| && order[i] == k
    {
    }
    if exists k :: k in kv && Conflicts(s.trials, sid, e.id, k) {
      var k :| k in kv && Conflicts(s.trials, sid, e.id, k);
      var i :| 0 <= i < |order| && order[i] == k;
    }
    if exists k :: k in kv && Blocked(cat, s, e.id, k) {
      var k :| k in kv && Blocked(cat, s, e.id, k);
      var i :| 0 <= i < |order| && order[i] == k;
    }
    assert forall i :: 0 <= i < |order| ==> order[i] in kv;
  }

  /** The baselines of the keys among the first `n` whose trial opens. */
  function OpenedTo(cat: Catalog, s: State, ch: nat, order: seq<nat>, n: nat): map<nat, map<Loc, Val>>
    requires n <= |order|
  {
    map i | 0 <= i < n && Setting(ch, order[i]) !in s.trials :: order[i] := Base(cat, s.vals, Setting(ch, order[i]))
  }

  lemma OpenedNext(cat: Catalog, s: State, ch: nat, order: seq<nat>, n: nat)
    requires n < |order|
    ensures OpenedTo(cat, s, ch, order, n + 1)
         == if Setting(ch, order[n]) in s.trials then OpenedTo(cat, s, ch, order, n)
            else OpenedTo(cat, s, ch, order, n)[order[n] := Base(cat, s.vals, Setting(ch, order[n]))]
  {
    hide Base;
  }

  lemma OpenedNone(cat: Catalog, s: State, ch: nat, order: seq<nat>)
    ensures OpenedTo(cat, s, ch, order, 0) == map[]
  {
  }

  /** The settings of the first `n` keys. */
  ghost function TouchedTo(ch: nat, order: seq<nat>, n: nat): set<Setting>
    requires n <= |order|
  {
    set i | 0 <= i < n :: Setting(ch, order[i])
  }

  lemma TouchedAll(ch: nat, order: seq<nat>, kv: map<nat, IVal>)
    requires Ordered(order, kv)
    ensures TouchedTo(ch, order, |order|) == SettingsNamed(ch, kv) && TouchedTo(ch, order, 0) == {}
  {
    forall st
      ensures st in TouchedTo(ch, order, |order|) <==> st in SettingsNamed(ch, kv)
    {
      if st in SettingsNamed(ch, kv) {
        var i :| 0 <= i < |order| && order[i] == st.key;
      }
    }
  }

  /** One key settled: its trial opens, ends, or stays. */
  lemma SettleNext(cat: Catalog, before: map<Loc, Val>, trials: map<Setting, Trial>, sid: nat, ch: nat,
                   order: seq<nat>, n: nat, trial: bool)
    requires n < |order| && forall i, j :: 0 <= i < j < |order| ==> order[i] != order[j]
    ensures var st, was := Setting(ch, order[n]), SettledOver(cat, before, trials, sid, TouchedTo(ch, order, n), trial);
            && (st in was <==> st in trials) && (st in was ==> was[st] == trials[st])
            && SettledOver(cat, before, trials, sid, TouchedTo(ch, order, n + 1), trial)
               == if trial && st !in trials then was[st := Trial(sid, Base(cat, before, st))]
                  else if !trial && st in trials && trials[st].sid == sid then was - {st}
                  else was
  {
    hide Base;
    var st := Setting(ch, order[n]);
    assert TouchedTo(ch, order, n + 1) == TouchedTo(ch, order, n) + {st};
    assert st !in TouchedTo(ch, order, n);
    SettleOne(cat, before, trials, sid, TouchedTo(ch, order, n), st, trial);
  }

  lemma SettleOne(cat: Catalog, before: map<Loc, Val>, trials: map<Setting, Trial>, sid: nat,
                  touched: set<Setting>, st: Setting, trial: bool)
    requires st !in touched
    ensures var was := SettledOver(cat, before, trials, sid, touched, trial);
            && (st in was <==> st in trials) && (st in was ==> was[st] == trials[st])
            && SettledOver(cat, before, trials, sid, touched + {st}, trial)
               == if trial && st !in trials then was[st := Trial(sid, Base(cat, before, st))]
                  else if !trial && st in trials && trials[st].sid == sid then was - {st}
                  else was
  {
    hide Base;
  }

  lemma SettledNone(cat: Catalog, before: map<Loc, Val>, trials: map<Setting, Trial>, sid: nat, trial: bool)
    ensures SettledOver(cat, before, trials, sid, {}, trial) == trials
  {
  }

  lemma SettledPlaced(cat: Catalog, before: map<Loc, Val>, trials: map<Setting, Trial>, sid: nat,
                      touched: set<Setting>, trial: bool)
    requires BasesPlaced(cat, trials)
    ensures BasesPlaced(cat, SettledOver(cat, before, trials, sid, touched, trial))
  {
  }

  // ---- the places of a setting -----------------------------------------------------------------------

  /** The values of a setting at the places visited so far. */
  ghost function BaseIn(cat: Catalog, vals: map<Loc, Val>, st: Setting, seen: set<Loc>): map<Loc, Val> {
    map l | l in vals && l in seen && cat.SettingOf(l) == Some(st) :: vals[l]
  }

  lemma BaseNext(cat: Catalog, vals: map<Loc, Val>, st: Setting, seen: set<Loc>, l: Loc)
    requires l in vals
    ensures BaseIn(cat, vals, st, seen + {l})
         == if cat.SettingOf(l) == Some(st) then BaseIn(cat, vals, st, seen)[l := vals[l]] else BaseIn(cat, vals, st, seen)
  {
    hide cat.SettingOf;
  }

  lemma BaseSkips(cat: Catalog, vals: map<Loc, Val>, st: Setting, n: nat)
    requires Fits(cat, vals) && n < |cat.entries|
    requires !(cat.entries[n].StateEntry? && cat.entries[n].setting == Some(st.ch))
    ensures BaseIn(cat, vals, st, PlacesTo(cat.entries, n + 1)) == BaseIn(cat, vals, st, PlacesTo(cat.entries, n))
  {
    cat.Finds(n);
    forall l | l in vals && l in PlacesTo(cat.entries, n + 1) && l !in PlacesTo(cat.entries, n)
      ensures cat.SettingOf(l) != Some(st)
    {
    }
  }

  lemma BaseAll(cat: Catalog, vals: map<Loc, Val>, st: Setting)
    requires Fits(cat, vals)
    ensures BaseIn(cat, vals, st, PlacesTo(cat.entries, |cat.entries|)) == Base(cat, vals, st)
    ensures BaseIn(cat, vals, st, {}) == map[]
  {
    hide cat.SettingOf;
    forall l | l in vals
      ensures l in PlacesTo(cat.entries, |cat.entries|)
    {
      cat.Placed(l);
      AllPlaces(cat, l);
    }
  }

  /** Does a field of the setting channel's entry mirror the setting? */
  lemma Mirrored(cat: Catalog, l: Loc, st: Setting)
    requires cat.HasLoc(l) && cat.StateAt(l).setting == Some(st.ch)
    ensures cat.SettingOf(l) == Some(st) <==> cat.At(l).key == Some(st.key)
  {
  }

  /** A baseline with which a trial may open: not empty, no source and no secret. */
  predicate Opens(cat: Catalog, base: map<Loc, Val>) {
    base != map[] && forall l :: l in base ==> cat.HasLoc(l) && cat.At(l).role != Source && !cat.At(l).secret
  }

  /** A key of the first `n` has a baseline ready if and only if its trial opens. */
  lemma OpenedAt(cat: Catalog, s: State, ch: nat, order: seq<nat>, i: nat)
    requires i < |order|
    ensures var o := OpenedTo(cat, s, ch, order, |order|);
            && (order[i] in o <==> Setting(ch, order[i]) !in s.trials)
            && (order[i] in o ==> o[order[i]] == Base(cat, s.vals, Setting(ch, order[i])))
  {
  }

  lemma StopKeepsPause(cat: Catalog, s: State)
    requires Fits(cat, s.vals)
    ensures LatchEstop(cat, s).latch.paused == s.latch.paused && LatchEstop(cat, s).latch.estop
  {
    hide Fits;
  }

  /** Nothing but ending trials touches them. */
  lemma SameTrialsActed(cat: Catalog, s: State, sid: nat, ch: nat, kv: map<nat, IVal>, plan: Plan)
    requires Fits(cat, s.vals) && !plan.Refuse? && !plan.EndAll?
    ensures Enact(cat, s, sid, ch, kv, plan).s.trials == s.trials
  {
    hide Fits, Applied, WriteChannels, RosterChannels, StoreAt;
  }

  lemma EndPerforms(cat: Catalog, s: State, sid: nat, ch: nat, kv: map<nat, IVal>, trial: bool, commit: bool)
    requires Fits(cat, s.vals)
    ensures var r := EndTrials(cat, s, sid, commit);
            Perform(cat, s, sid, ch, kv, trial, EndAll(commit)) == Outcome(r.s, kv, r.changed, r.moved)
  {
    hide EndTrials, Fits;
  }

  // ---- pushing to one connection ---------------------------------------------------------------------

  lemma PushedNone(c: Conn, vals: map<Loc, Val>, latch: Latch)
    ensures Pushed1(c, vals, latch, {}) == c
  {
    if c.ready {
      assert c.view + Seen(c, vals, {}) == c.view;
    }
  }

  lemma PushedNext(c: Conn, vals: map<Loc, Val>, latch: Latch, chs: set<nat>, ch: nat)
    ensures Pushed1(Pushed1(c, vals, latch, chs), vals, latch, {ch}) == Pushed1(c, vals, latch, chs + {ch})
  {
    if c.ready {
      assert (c.view + Seen(c, vals, chs)) + Seen(c, vals, {ch}) == c.view + Seen(c, vals, chs + {ch});
    }
  }

  /** The wishes granted among the first `n`. */
  lemma GrantedNext(cat: Catalog, roles: nat, wishes: seq<nat>, n: nat)
    requires n < |wishes|
    ensures Granted(cat, roles, wishes[n..]) == (if Grantable(cat, roles, wishes[n]) then [wishes[n]] else []) + Granted(cat, roles, wishes[n + 1..])
  {
    assert wishes[n..][1..] == wishes[n + 1..];
  }

  lemma MembersNext(s: seq<nat>, x: nat)
    ensures Members(s + [x]) == Members(s) + {x}
  {
  }

  lemma PushedIdleUnless(c: Conn, vals: map<Loc, Val>, latch: Latch, chs: set<nat>)
    ensures !c.ready ==> Pushed1(c, vals, latch, chs) == c
  {
  }

  lemma HasId(e: Entry, id: Option<nat>, kv: map<nat, IVal>)
    requires e.IntentEntry? && !EchoThrows(e, id, kv)
    ensures id.Some?
  {
  }
}
