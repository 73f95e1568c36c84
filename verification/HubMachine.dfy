/**
 * The in-page hub itself (clients/js/localhub.js): its maps and counters, updated step by step.
 * Every method is proved to take the step that module Hub gives.
 */
module HubMachine {
  import opened Bytes
  import opened Packed
  import opened HubCatalog
  import opened Hub
  import opened HubPlaces
  import opened HubPieces
  import opened HubWrites
  import opened HubIntake
  import opened HubStart
  import HubAccess
  import PackedWrite

  class LocalHub {
    const cat: Catalog
    var vals: map<Loc, Val>
    var latch: Latch
    var items: map<nat, Item>
    var gens: map<nat, u16>
    var trials: map<Setting, Trial>
    var cfgGen: u16
    var conns: map<nat, Conn>

    function Abs(): State
      reads this
    {
      State(vals, latch, items, gens, trials, cfgGen, conns)
    }

    ghost predicate Valid()
      reads this
    {
      Fits(cat, vals) && BasesPlaced(cat, trials)
    }

    /** `createLocalHub`: the snapshots replayed or filled in field by field, the items, the rosters synced. */
    constructor (cat: Catalog, g: Given)
      requires cat.WellFormed()
      ensures Valid() && Abs() == Created(cat, g) && this.cat == cat
    {
      this.cat := cat;
      vals, latch, items, gens, trials, cfgGen, conns := map[], g.latch, map[], map[], map[], 1, map[];
      new;
      hide SyncedStore, FirstValue, PlacesOf, cat.WellFormed, BasesPlaced;
      NoTrials(cat);
      FillIn(g);
      var n := 0;
      while n < |g.items|
        invariant n <= |g.items| && this.cat == cat && vals == FirstValues(cat, g) && items == FirstItems(g.items, n)
        invariant latch == g.latch && gens == map[] && trials == map[] && cfgGen == 1 && conns == map[]
      {
        items := items[ItemKey(g.items[n].storeId, g.items[n].item.slot) := g.items[n].item];
        n := n + 1;
      }
      ghost var s := Abs();
      n := 0;
      while n < |cat.entries|
        invariant n <= |cat.entries| && this.cat == cat && Valid() && Fits(cat, s.vals) && Abs() == SyncedStores(cat, s, n)
      {
        if cat.entries[n].StoreEntry? {
          StoreThere(cat.entries, cat.entries[n]);
          var sid := cat.entries[n].store.storeId;
          SyncStore(sid, StoreIn(cat.entries, sid).value.store.capacity);
        }
        n := n + 1;
      }
    }

    /** Every snapshot replayed, or filled in from the catalog. */
    method FillIn(g: Given)
      requires cat.WellFormed() && vals == map[]
      modifies this`vals
      ensures vals == FirstValues(cat, g)
    {
      hide FirstValue, PlacesOf, PlacesTo, cat.WellFormed;
      StartPlaces(cat);
      var n := 0;
      while n < |cat.entries|
        invariant n <= |cat.entries| && vals.Keys == PlacesTo(cat.entries, n)
        invariant forall l :: l in vals ==> cat.HasLoc(l) && vals[l] == FirstValue(cat, g, l)
      {
        var e := cat.entries[n];
        if e.StateEntry? {
          FillEntry(n, g);
        } else {
          AddPlaces(cat, n);
        }
        n := n + 1;
      }
      FilledAll(cat, g, vals);
    }

    method FillEntry(n: nat, g: Given)
      requires cat.WellFormed() && n < |cat.entries| && cat.entries[n].StateEntry? && vals.Keys == PlacesTo(cat.entries, n)
      requires forall l :: l in vals ==> cat.HasLoc(l) && vals[l] == FirstValue(cat, g, l)
      modifies this`vals
      ensures vals.Keys == PlacesTo(cat.entries, n + 1)
      ensures forall l :: l in vals ==> cat.HasLoc(l) && vals[l] == FirstValue(cat, g, l)
    {
      hide FirstValue, FreshValue, PlacesOf, PlacesTo, cat.WellFormed;
      var e := cat.entries[n];
      cat.Finds(n);
      ghost var done := PlacesTo(cat.entries, n);
      NoPlaces(e.id, done);
      var i := 0;
      while i < |e.layout|
        invariant i <= |e.layout| && vals.Keys == done + PlacesOf(e.id, i)
        invariant forall l :: l in vals ==> cat.HasLoc(l) && vals[l] == FirstValue(cat, g, l)
      {
        var l := Loc(e.id, i);
        cat.Placed(l);
        NextPlace(e.id, i);
        Rebracketed(done, PlacesOf(e.id, i), l);
        FirstIs(cat, g, l);
        if e.id in g.snapshots && i < |g.snapshots[e.id]| {
          vals := vals[l := g.snapshots[e.id][i]];
        } else if e.layout[i].init.Some? {
          vals := vals[l := StoredAt(cat, l, e.layout[i].init.value)];
        } else {
          vals := vals[l := FieldValue(e.layout[i].f, PackedWrite.Zeros(TypeSize(e.layout[i].f.kind)))];
        }
        i := i + 1;
      }
      AddPlaces(cat, n);
    }

    /** The generation of a store from its roster, and its roster synced. */
    method SyncStore(sid: nat, capacity: nat)
      requires Valid()
      modifies this`vals, this`gens
      ensures Valid() && Abs() == SyncedStore(cat, old(Abs()), sid, capacity)
    {
      hide SyncRoster, ToGeneration, BasesPlaced, cat.WellFormed;
      var r, gen := RosterIn(cat.entries, sid), 0;
      if r.Some? {
        RosterIsState(cat.entries, sid);
        var i := FieldNamed(r.value.layout, "generation", 0);
        if i.Some? {
          RosterField(cat, sid, i.value);
          gen := ToGeneration(vals[Loc(r.value.id, i.value)]);
        }
      }
      gens := gens[sid := gen];
      var changed := SyncRosterOf(sid, capacity);
    }

    // ---- delivery ------------------------------------------------------------------------------

    method SetField(l: Loc, v: Val)
      requires Valid() && l in vals
      modifies this`vals
      ensures Valid() && vals == old(vals)[l := After(cat, old(vals), l, Some(v))]
    {
      cat.Placed(l);
      vals := vals[l := StoredAt(cat, l, v)];
    }

    /** STATE of one channel to every ready subscriber. */
    method Broadcast(ch: nat)
      modifies this`conns
      ensures conns == ShownAll(old(conns), vals, {ch})
    {
      var todo := conns.Keys;
      while todo != {}
        invariant conns.Keys == old(conns).Keys && todo <= conns.Keys
        invariant forall sid :: sid in conns ==>
          conns[sid] == if sid in todo then old(conns)[sid] else Shown(old(conns)[sid], vals, {ch})
        decreases |todo|
      {
        var sid :| sid in todo;
        var c := conns[sid];
        if c.ready && ch in c.subs {
          conns := conns[sid := Shown(c, vals, {ch})];
        } else {
          ShownIdle(c, vals, ch);
        }
        todo := todo - {sid};
      }
    }

    /** The new latch, broadcast at once. */
    method PutLatch(L: Latch)
      modifies this`latch, this`conns
      ensures Abs() == SetLatch(old(Abs()), L) && latch == L
    {
      latch := L;
      var todo := conns.Keys;
      while todo != {}
        invariant conns.Keys == old(conns).Keys && todo <= conns.Keys && latch == L
        invariant forall sid :: sid in conns ==>
          conns[sid] == if sid in todo then old(conns)[sid] else ShownLatch(old(conns)[sid], L)
        decreases |todo|
      {
        var sid :| sid in todo;
        var c := conns[sid];
        if c.ready && CH_SAFETY in c.subs {
          conns := conns[sid := c.(latchView := Some(L))];
        }
        todo := todo - {sid};
      }
      assert conns == LatchedAll(old(conns), L);
    }

    // ---- the stop ----------------------------------------------------------------------------------

    /** Stop the sources of one entry, broadcasting as each one stops. */
    method StopEntry(n: nat)
      requires Valid() && n < |cat.entries| && cat.entries[n].StateEntry?
      modifies this`vals, this`conns
      ensures Valid() && vals == StoppedIn(cat, old(vals), {cat.entries[n].id})
      ensures conns == ShownAll(old(conns), vals, if RunsOn(cat, old(vals), cat.entries[n].id) then {cat.entries[n].id} else {})
    {
      hide ShownAll, StoppedTo, StoppedIn, RunsTo, RunsOn, After;
      var e := cat.entries[n];
      FindsIt(cat.entries, e);
      StopFields(cat, vals, e);
      ShownNone(conns, vals);
      var j := 0;
      ghost var v0 := vals;
      while j < |e.layout|
        invariant j <= |e.layout| && Valid()
        invariant vals == StoppedTo(cat, v0, e.id, j)
        invariant conns == ShownAll(old(conns), vals, if RunsTo(cat, v0, e.id, j) then {e.id} else {})
      {
        var l := Loc(e.id, j);
        cat.Placed(l);
        StopField(cat, v0, e.id, j);
        if e.layout[j].role == Source && Truthy(vals[l]) {
          StopSource(l, RunsTo(cat, v0, e.id, j), old(conns));
        }
        j := j + 1;
      }
    }

    method StopSource(l: Loc, ghost told: bool, ghost first: map<nat, Conn>)
      requires Valid() && l in vals && conns == ShownAll(first, vals, if told then {l.ch} else {})
      modifies this`vals, this`conns
      ensures Valid() && vals == old(vals)[l := After(cat, old(vals), l, Some(Num(0.0)))]
      ensures conns == ShownAll(first, vals, {l.ch})
    {
      SetField(l, Num(0.0));
      Broadcast(l.ch);
      if told {
        ShownAgain(first, old(vals), vals, {l.ch});
      } else {
        ShownNone(first, old(vals));
      }
    }

    /** Stop every source, one entry after the other. */
    method StopAll()
      requires Valid()
      modifies this`vals, this`conns
      ensures Valid() && vals == Stopped(cat, old(vals))
      ensures conns == ShownAll(old(conns), vals, RunningChannels(cat, old(vals)))
    {
      hide ShownAll, StoppedIn, RunsOn, RunningChannels, Stopped;
      ghost var v0, R := vals, RunningChannels(cat, vals);
      StoppedNowhere(cat, v0);
      ShownNone(conns, vals);
      assert Ids(cat.entries, 0) == {} && R * {} == {};
      var n := 0;
      while n < |cat.entries|
        invariant n <= |cat.entries| && Valid()
        invariant vals == StoppedIn(cat, v0, Ids(cat.entries, n))
        invariant conns == ShownAll(old(conns), vals, R * Ids(cat.entries, n))
      {
        NextId(cat, n);
        if cat.entries[n].StateEntry? {
          ghost var id, before := cat.entries[n].id, vals;
          StopOne(cat, v0, Ids(cat.entries, n), id);
          StopEntry(n);
          StopShown(cat, before, vals, id);
          ShownBoth(old(conns), before, vals, R * Ids(cat.entries, n), if RunsOn(cat, before, id) then {id} else {});
          assert R * Ids(cat.entries, n + 1) == R * Ids(cat.entries, n) + (if RunsOn(cat, before, id) then {id} else {});
        }
        n := n + 1;
      }
      StoppedEverywhere(cat, v0);
    }

    /** `latchEstop`. */
    method LatchStop()
      requires Valid()
      modifies this`vals, this`conns, this`latch
      ensures Valid() && Abs() == LatchEstop(cat, old(Abs()))
    {
      if !latch.estop {
        StopAll();
        PutLatch(latch.(estop := true, cause := CAUSE_USER, estopSeq := (latch.estopSeq + 1) % 0x1_0000, override := false,
                        homeRequired := latch.homeRequired || cat.cutsPower));
      }
    }
  
    // ---- trial marks -----------------------------------------------------------------------------------

    /** Which settings of an entry are on trial. */
    method TrialWord(e: Entry) returns (word: Word)
      requires e.StateEntry? && e.setting.Some?
      ensures forall b :: 0 <= b < 32 ==> (word[b] <==> TrialBit(e, trials, b))
    {
      word := seq(32, _ => false);
      var i, k := 0, 0;
      while k < |e.layout|
        invariant k <= |e.layout| && i == SettingsBefore(e.layout, k)
        invariant forall b :: 0 <= b < 32 ==> (word[b] <==> TrialBitTo(e, trials, b, k))
      {
        forall b | 0 <= b < 32 {
          NextBit(e, trials, b, k);
        }
        if e.layout[k].key.Some? {
          if Setting(e.setting.value, e.layout[k].key.value) in trials {
            word := word[i % 32 := true];
          }
          i := i + 1;
        }
        k := k + 1;
      }
    }

    /** Write one mark where it differs. */
    method Mark(l: Loc, v: Val, ghost s: State, ghost done: set<Loc>) returns (moved: bool)
      requires Valid() && Fits(cat, s.vals) && l in s.vals && l !in done && vals == Partial(cat, s.vals, MarkWrites(cat, s), done)
      requires MaskValue(cat, s.vals, s.trials, l) == if s.vals[l] == v then None else Some(v)
      modifies this`vals
      ensures Valid() && vals == Partial(cat, s.vals, MarkWrites(cat, s), done + {l})
      ensures moved == (l in MarkWrites(cat, s))
    {
      hide Partial, After, MaskValue;
      Visit(cat, s.vals, MarkWrites(cat, s), done, l);
      moved := vals[l] != v;
      if moved {
        SetField(l, v);
      }
    }

    /** Write the marks of one entry where they differ; true when one did. */
    method MarkEntry(n: nat, ghost s: State) returns (moved: bool)
      requires Valid() && n < |cat.entries| && cat.entries[n].StateEntry? && cat.entries[n].setting.Some?
      requires Fits(cat, s.vals) && s.trials == trials
      requires vals == Partial(cat, s.vals, MarkWrites(cat, s), PlacesTo(cat.entries, n))
      modifies this`vals
      ensures Valid() && vals == Partial(cat, s.vals, MarkWrites(cat, s), PlacesTo(cat.entries, n + 1))
      ensures moved <==> exists l :: l in MarkWrites(cat, s) && l in PlacesOf(cat.entries[n].id, |cat.entries[n].layout|)
    {
      hide MaskValue, MaskByte, Partial, TrialBit, After, PlacesOf, MarkWrites, BitsAt, BasesPlaced, cat.WellFormed;
      var e := cat.entries[n];
      ghost var done := PlacesTo(cat.entries, n);
      cat.Finds(n);
      var word := TrialWord(e);
      var j, k := 0, 0;
      moved := false;
      NoPlaces(e.id, done);
      while k < |e.layout|
        invariant k <= |e.layout| && j == MarksBefore(e.layout, k) && Valid()
        invariant vals == Partial(cat, s.vals, MarkWrites(cat, s), done + PlacesOf(e.id, k))
        invariant moved <==> exists l :: l in MarkWrites(cat, s) && l in PlacesOf(e.id, k)
      {
        var l := Loc(e.id, k);
        cat.Placed(l);
        FreshPlaces(cat, n, k);
        NextPlace(e.id, k);
        Rebracketed(done, PlacesOf(e.id, k), l);
        if e.layout[k].role == TrialMark {
          var v := Num(BitsAt(word, 8 * j % 32, 8) as real);
          BitsAreMask(word, e, trials, 8 * j % 32, 8);
          MarkIs(cat, s, l, v);
          var m := Mark(l, v, s, done + PlacesOf(e.id, k));
          moved := moved || m;
          j := j + 1;
        } else {
          NotMark(cat, s, l);
          Visit(cat, s.vals, MarkWrites(cat, s), done + PlacesOf(e.id, k), l);
        }
        k := k + 1;
      }
    }

    /** `trialMasks`: every mark that differs is written; the channels written. */
    method TrialMasks() returns (changed: set<nat>)
      requires Valid()
      modifies this`vals
      ensures Valid() && Abs() == Masked(cat, old(Abs())) && changed == MaskChannels(cat, old(Abs()))
    {
      hide MaskValue, Partial, MarkWrites, MarkChannels, Masked, MaskChannels;
      ghost var s := Abs();
      VisitNone(cat, s.vals, MarkWrites(cat, s));
      changed := {};
      NoMarkChannel(cat, s);
      var n := 0;
      while n < |cat.entries|
        invariant n <= |cat.entries| && Valid()
        invariant vals == Partial(cat, s.vals, MarkWrites(cat, s), PlacesTo(cat.entries, n))
        invariant changed == MarkChannels(cat, s, n)
      {
        var e := cat.entries[n];
        if e.StateEntry? && e.setting.Some? {
          var moved := MarkEntry(n, s);
          NextMarkChannel(cat, s, n, moved);
          if moved {
            changed := changed + {e.id};
          }
        } else {
          Unmarked(cat, s, n);
        }
        n := n + 1;
      }
      MarkWritesAll(cat, s);
      AllMarkChannels(cat, s);
    }
  
    // ---- ending trials -----------------------------------------------------------------------------------

    /** Put the baseline of one place back where it differs; the channel moved. */
    method PutBack(l: Loc, v: Val, ghost s: State, ghost sid: nat, ghost st: Setting, ghost seen: set<Loc>) returns (changed: set<nat>)
      requires Valid() && Fits(cat, s.vals) && BasesPlaced(cat, s.trials)
      requires st in s.trials && s.trials[st].sid == sid && l in s.trials[st].base && s.trials[st].base[l] == v
      requires l in s.vals && l !in seen && vals == Partial(cat, s.vals, RevertWrites(cat, s, sid), seen)
      modifies this`vals
      ensures Valid() && vals == Partial(cat, s.vals, RevertWrites(cat, s, sid), seen + {l})
      ensures ChannelsIn(RevertWrites(cat, s, sid), seen + {l}) == changed + ChannelsIn(RevertWrites(cat, s, sid), seen)
    {
      hide Partial, After, RevertWrites, ChannelsIn, BasesPlaced;
      ghost var w := RevertWrites(cat, s, sid);
      Visit(cat, s.vals, w, seen, l);
      RevertIs(cat, s, sid, st, l);
      ChannelsNext(w, seen, l);
      changed := {};
      if vals[l] != v {
        SetField(l, v);
        changed := {l.ch};
      }
    }

    /** Put the baseline of one trial back, place by place; the channels moved. */
    method RevertTrial(base: map<Loc, Val>, ghost s: State, ghost sid: nat, ghost st: Setting, ghost before: set<Loc>)
      returns (changed: set<nat>)
      requires Valid() && Fits(cat, s.vals) && BasesPlaced(cat, s.trials)
      requires st in s.trials && s.trials[st].sid == sid && s.trials[st].base == base
      requires forall l :: l in before ==> cat.SettingOf(l) != Some(st)
      requires vals == Partial(cat, s.vals, RevertWrites(cat, s, sid), before)
      modifies this`vals
      ensures Valid() && vals == Partial(cat, s.vals, RevertWrites(cat, s, sid), before + base.Keys)
      ensures ChannelsIn(RevertWrites(cat, s, sid), before + base.Keys)
           == changed + ChannelsIn(RevertWrites(cat, s, sid), before)
    {
      hide Partial, RevertWrites, ChannelsIn, BasesPlaced, cat.WellFormed;
      ghost var w := RevertWrites(cat, s, sid);
      var todo := base.Keys;
      changed := {};
      assert before + (base.Keys - todo) == before;
      while todo != {}
        invariant todo <= base.Keys && Valid()
        invariant vals == Partial(cat, s.vals, w, before + (base.Keys - todo))
        invariant ChannelsIn(w, before + (base.Keys - todo)) == changed + ChannelsIn(w, before)
        decreases |todo|
      {
        var l :| l in todo;
        FreshBase(cat, s.trials, st, l, before);
        cat.Placed(l);
        var more := PutBack(l, base[l], s, sid, st, before + (base.Keys - todo));
        SetStep(before, base.Keys, todo, l);
        changed := changed + more;
        todo := todo - {l};
      }
      assert before + (base.Keys - todo) == before + base.Keys;
    }

    /** Drop the trials of `sid`, reverting each unless it is committed; the channels moved. */
    method DropTrials(sid: nat, commit: bool) returns (changed: set<nat>)
      requires Valid()
      modifies this`vals, this`trials
      ensures Valid() && Abs() == Unmasked(cat, old(Abs()), sid, commit)
      ensures changed == if commit then {} else RevertChannels(cat, old(Abs()), sid)
    {
      hide Partial, RevertWrites, ChannelsIn, Reverted, RevertChannels, BasesPlaced, Visited, Ending, cat.WellFormed;
      ghost var s := Abs();
      ghost var w, seen := RevertWrites(cat, s, sid), {};
      VisitNone(cat, s.vals, w);
      ChannelsNone(w);
      EndingEnds(s.trials, sid);
      CoversNone(cat, s.trials, sid);
      changed := {};
      var todo := trials.Keys;
      while todo != {}
        invariant todo <= s.trials.Keys && Fits(cat, vals) && BasesPlaced(cat, trials)
        invariant trials == Ending(s.trials, sid, todo)
        invariant vals == if commit then s.vals else Partial(cat, s.vals, w, seen)
        invariant changed == if commit then {} else ChannelsIn(w, seen)
        invariant !commit ==> Visited(cat, s.trials, sid, todo, seen)
        decreases |todo|
      {
        var st :| st in todo;
        EndingNext(s.trials, sid, todo, st);
        var t := trials[st];
        if !commit {
          CoversNext(cat, s.trials, sid, todo, seen, st);
        }
        if t.sid == sid {
          FewerPlaced(cat, trials, st);
          trials := trials - {st};
          if !commit {
            var more := RevertTrial(t.base, s, sid, st, seen);
            changed := changed + more;
            seen := seen + t.base.Keys;
          }
        }
        todo := todo - {st};
      }
      if !commit {
        CoversAll(cat, s, sid, seen);
      }
    }

    /** `endTrials`: commit or revert every trial `sid` holds; the channels changed, and whether a value moved. */
    method EndTrialsOf(sid: nat, commit: bool) returns (changed: set<nat>, moved: bool)
      requires Valid()
      modifies this`vals, this`trials
      ensures Valid() && Ended(Abs(), changed, moved) == EndTrials(cat, old(Abs()), sid, commit)
    {
      hide Masked, MaskChannels, Unmasked, RevertChannels, BasesPlaced;
      changed := DropTrials(sid, commit);
      moved := changed != {};
      var marks := TrialMasks();
      changed := changed + marks;
    }
  
    // ---- stores -------------------------------------------------------------------------------------------

    method CountItems(sid: nat) returns (n: nat)
      ensures n == |KeysOf(items, sid)|
    {
      n := 0;
      var todo := items.Keys;
      assert KeysAmong(sid, items.Keys - todo) == {};
      while todo != {}
        invariant todo <= items.Keys && n == |KeysAmong(sid, items.Keys - todo)|
        decreases |todo|
      {
        var k :| k in todo;
        CountStep(items, sid, todo, k);
        if k / 256 == sid {
          n := n + 1;
        }
        todo := todo - {k};
      }
      assert KeysAmong(sid, items.Keys - todo) == KeysOf(items, sid);
    }

    method SetNamed(r: Entry, name: string, v: Val)
      requires Valid() && r in cat.entries && r.StateEntry?
      modifies this`vals
      ensures Valid() && vals == NamedIn(cat, old(vals), r, name, v)
    {
      hide After, cat.WellFormed;
      var i := FieldNamed(r.layout, name, 0);
      if i.Some? {
        FieldPlace(cat, vals, r, i.value);
        SetField(Loc(r.id, i.value), v);
      }
    }

    /** `syncRoster`: generation, count and capacity into the store's roster; its channel. */
    method SyncRosterOf(sid: nat, capacity: nat) returns (changed: set<nat>)
      requires Valid()
      modifies this`vals
      ensures Valid() && Abs() == SyncRoster(cat, old(Abs()), sid, capacity) && changed == RosterChannels(cat, sid)
    {
      hide SyncRoster, NamedIn, KeysOf, BasesPlaced, cat.WellFormed;
      var r := RosterIn(cat.entries, sid);
      if r.None? {
        NoRoster(cat, Abs(), sid, capacity);
        return {};
      }
      ThreeNamed(cat, Abs(), sid, capacity);
      var n := CountItems(sid);
      SetNamed(r.value, "generation", Num(GenOf(gens, sid) as real));
      SetNamed(r.value, "count", Num(n as real));
      SetNamed(r.value, "capacity", Num(capacity as real));
      changed := {r.value.id};
    }

    /** The operation on one slot: why it is refused, if it is, and whether the slot was written. */
    method SlotWrite(e: Entry, kv: map<nat, IVal>, d: StoreDesc, n: nat) returns (no: Option<Nack>, wrote: bool)
      requires e.IntentEntry?
      modifies this`items
      ensures var plan := PlanSlot(old(items), d, n, e, kv);
              && (no == if plan.Refuse? then Some(plan.code) else None) && (wrote <==> plan.Leaves?)
              && items == if plan.Leaves? then plan.items else old(items)
    {
      hide Bound, FirstAct, Get, SavedPayload;
      wrote := false;
      var k := ItemKey(d.storeId, n);
      var have := if k in items then Some(items[k]) else None;
      var op, said := Get(kv, FirstAct(e.schema, StoreAct)), Get(kv, Bound(e.schema, StoreName, TStr));
      var name := if said.Some? && said.value.IText? then said.value.b else if have.Some? then have.value.name else [];
      if d.nameMax.Some? && d.nameMax.value > 0 && |name| > d.nameMax.value {
        return Some(InvalidValue), wrote;
      }
      if op == Some(INum(STORE_SAVE)) {
        var itemF := Bound(e.schema, StoreItem, BStr);
        var payload := SavedPayload(itemF, Get(kv, itemF));
        if payload.None? {
          return Some(Malformed), wrote;
        }
        if d.perItemMax.Some? && d.perItemMax.value > 0 && |payload.value| > d.perItemMax.value {
          return Some(InvalidValue), wrote;
        }
        items := items[k := Item(n, name, d.kind, payload.value)];
      } else if op == Some(INum(STORE_LOAD)) {
        return if have.Some? then None else Some(InvalidValue), wrote;
      } else if op == Some(INum(STORE_DELETE)) {
        items := items - {k};
      } else if op == Some(INum(STORE_RENAME)) {
        if have.None? {
          return Some(InvalidValue), wrote;
        }
        items := items[k := Item(n, name, d.kind, have.value.payload)];
      } else {
        return Some(UnsupportedOp), wrote;
      }
      no, wrote := None, true;
    }

    /** `storeOp`: why it is refused, if it is; else the items, the generation and the roster follow. */
    method StoreOp(e: Entry, kv: map<nat, IVal>) returns (no: Option<Nack>, ghost plan: Plan, changed: set<nat>)
      requires Valid() && e.IntentEntry?
      modifies this`vals, this`items, this`gens
      ensures Valid() && plan == PlanStore(cat, old(items), e, kv) && (plan.Refuse? || plan.Keep? || plan.Leaves?)
      ensures no == if plan.Refuse? then Some(plan.code) else None
      ensures Abs() == if plan.Leaves? then Mutated(cat, old(Abs()), plan.items, plan.d) else old(Abs())
      ensures changed == if plan.Leaves? then RosterChannels(cat, plan.d.storeId) else {}
    {
      hide SyncRoster, KeysOf, BasesPlaced, RosterChannels, cat.WellFormed, Bound, Get, StoreIn, PlanSlot;
      plan := PlanStore(cat, items, e, kv);
      changed := {};
      var st := if e.storeId.Some? then StoreIn(cat.entries, e.storeId.value) else None;
      if st.None? {
        return Some(UnsupportedOp), plan, changed;
      }
      StoreIsStore(cat.entries, e.storeId.value);
      var d, slot := st.value.store, Get(kv, Bound(e.schema, StoreSlot, UIntT));
      if slot.None? || !SlotFits(slot.value, d.capacity) {
        return Some(InvalidValue), plan, changed;
      }
      SlotPlans(items, d, slot.value.r.Floor, e, kv);
      var wrote;
      no, wrote := SlotWrite(e, kv, d, slot.value.r.Floor);
      if wrote {
        gens := gens[d.storeId := NextGen(gens, d.storeId)];
        changed := SyncRosterOf(d.storeId, d.capacity);
      }
    }
  
    // ---- settings writes ----------------------------------------------------------------------------------

    /** The writes of every key, entry by entry. */
    method CollectWrites(ch: nat, order: seq<nat>, kv: map<nat, IVal>) returns (ws: seq<Write>)
      requires forall k :: k in order ==> k in kv
      ensures ws == AllWrites(cat, ch, order, kv, |order|)
    {
      hide MirrorAt;
      ws := [];
      var i := 0;
      while i < |order|
        invariant i <= |order| && ws == AllWrites(cat, ch, order, kv, i)
      {
        var key, mine, n := order[i], [], 0;
        while n < |cat.entries|
          invariant n <= |cat.entries| && mine == KeyWrites(cat.entries, n, ch, key, kv[key])
        {
          var here := MirrorAt(cat.entries[n], ch, key);
          mine := mine + (if here.Some? then [WriteIn(cat.entries[n], here.value, key, kv[key])] else []);
          n := n + 1;
        }
        ws := ws + mine;
        i := i + 1;
      }
    }

    /** Does a write that starts a source meet a stop, a pause or another source? */
    method CheckWrites(ws: seq<Write>) returns (refusal: Option<Nack>)
      ensures refusal == CheckFrom(cat, Abs(), ws, 0)
    {
      hide SourceRunning;
      var n := 0;
      while n < |ws|
        invariant n <= |ws| && CheckFrom(cat, Abs(), ws, n) == CheckFrom(cat, Abs(), ws, 0)
      {
        if StartsAt(cat, vals, ws[n].l, ws[n].v) {
          if latch.estop {
            return Some(EstopActive);
          }
          if latch.paused {
            return Some(Interlock);
          }
          if SourceRunning(cat, vals, Some(ws[n].l)) {
            return Some(SourceConflict);
          }
        }
        n := n + 1;
      }
      refusal := None;
    }

    /** One write: a secret is reported but not stored. */
    method MakeWrite(ch: nat, kv: map<nat, IVal>, w: Write, ghost v0: map<Loc, Val>, ghost seen: set<Loc>)
      requires Valid() && Fits(cat, v0) && IsWrite(cat, ch, kv, w) && w.l !in seen
      requires vals == Partial(cat, v0, HubWrites.Stored(cat, v0, ch, kv), seen)
      modifies this`vals
      ensures Valid() && vals == Partial(cat, v0, HubWrites.Stored(cat, v0, ch, kv), seen + {w.l})
    {
      hide Partial, HubWrites.Stored, After, BasesPlaced, WrittenAt, cat.WellFormed;
      StoredIs(cat, v0, ch, kv, w);
      Visit(cat, v0, HubWrites.Stored(cat, v0, ch, kv), seen, w.l);
      if !cat.At(w.l).secret {
        SetField(w.l, AsVal(w.v));
      }
    }

    /** Make every write; the values to report and the channels changed. */
    method MakeWrites(ch: nat, kv: map<nat, IVal>, ws: seq<Write>) returns (applied: map<nat, IVal>, changed: set<nat>)
      requires Valid() && NoneTwice(ws) && forall w :: w in ws ==> IsWrite(cat, ch, kv, w)
      modifies this`vals
      ensures Valid() && vals == Partial(cat, old(vals), HubWrites.Stored(cat, old(vals), ch, kv), PlacesAt(ws, |ws|))
      ensures applied == Reported(kv, ws, |ws|) && changed == set i | 0 <= i < |ws| :: ws[i].l.ch
    {
      hide Partial, HubWrites.Stored, IsWrite, NoneTwice, PlacesAt, BasesPlaced, cat.WellFormed;
      ghost var v0 := vals;
      VisitNone(cat, v0, HubWrites.Stored(cat, v0, ch, kv));
      applied, changed := kv, {};
      var n := 0;
      NowhereYet(ws);
      while n < |ws|
        invariant n <= |ws| && Valid()
        invariant vals == Partial(cat, v0, HubWrites.Stored(cat, v0, ch, kv), PlacesAt(ws, n))
        invariant applied == Reported(kv, ws, n) && changed == set i | 0 <= i < n :: ws[i].l.ch
      {
        NextWrite(ws, n);
        MakeWrite(ch, kv, ws[n], v0, PlacesAt(ws, n));
        applied := applied[ws[n].key := ws[n].v];
        changed := changed + {ws[n].l.ch};
        n := n + 1;
      }
    }

    /** Why homing or a commanded move is refused. */
    method CheckMove(e: Entry, kv: map<nat, IVal>) returns (no: Option<Nack>)
      requires e.IntentEntry?
      ensures no == MoveRefusal(cat, Abs(), e, kv)
      ensures var moves, homes := Has(e, CommandPosition, kv), Has(e, HomeAct, kv);
              && (no == Some(EstopActive) <==> latch.estop && (homes || moves))
              && (no == Some(NotHomed) <==> moves && !latch.estop && latch.homeRequired)
              && (no == Some(Interlock) <==> moves && !latch.estop && !latch.homeRequired && !latch.override && latch.paused)
              && (no == Some(SourceConflict) <==> moves && !latch.estop && !latch.homeRequired && !latch.override && !latch.paused
                                                  && exists l :: Running(cat, vals, l))
              && (no.Some? ==> no.value == EstopActive || no.value == NotHomed || no.value == Interlock || no.value == SourceConflict)
    {
      AnyRunning(cat, vals);
      hide Has, SourceRunning;
      if Has(e, HomeAct, kv) && latch.estop {
        return Some(EstopActive);
      }
      if Has(e, CommandPosition, kv) {
        if latch.estop {
          return Some(EstopActive);
        }
        if latch.homeRequired {
          return Some(NotHomed);
        }
        if !latch.override && latch.paused {
          return Some(Interlock);
        }
        if !latch.override && SourceRunning(cat, vals, None) {
          return Some(SourceConflict);
        }
      }
      no := None;
    }

    /** `applyIntent`. */
    method ApplyIntent(ghost sid: nat, e: Entry, order: seq<nat>, kv: map<nat, IVal>)
      returns (no: Option<Nack>, ghost plan: Plan, applied: map<nat, IVal>, changed: set<nat>, config: bool)
      requires Valid() && e.IntentEntry? && (forall k :: k in order <==> k in kv)
      requires forall i, j :: 0 <= i < j < |order| ==> order[i] != order[j]
      modifies this`vals, this`items, this`gens, this`latch, this`conns
      ensures Valid() && plan == PlanWrite(cat, old(Abs()), e, kv) && !plan.EndAll?
      ensures no == if plan.Refuse? then Some(plan.code) else None
      ensures if plan.Refuse? then Abs() == old(Abs())
              else Outcome(Abs(), applied, changed, config) == Enact(cat, old(Abs()), sid, e.id, kv, plan)
    {
      hide PlanStore, MoveRefusal, WriteRefusal, Written, WriteChannels, Applied, Mutated, AllWrites, IsWrite,
           CheckFrom, BasesPlaced, RosterChannels, cat.WellFormed, Has;
      applied, changed, config := kv, {}, false;
      if Has(e, StoreAct, kv) {
        no, plan, changed := StoreOp(e, kv);
        return;
      }
      ghost var s := Abs();
      no := CheckMove(e, kv);
      if no.Some? {
        MoveIsRefusal(cat, s, e, kv);
        plan := Refuse(no.value);
        return;
      }
      var ws := CollectWrites(e.id, order, kv);
      WritesSound(cat, e.id, order, kv, |order|);
      CheckIsRefusal(cat, s, e, kv, order, ws);
      no := CheckWrites(ws);
      if no.Some? {
        plan := Refuse(no.value);
        return;
      }
      applied, changed := MakeWrites(e.id, kv, ws);
      StoredAll(cat, s, e.id, kv, order, ws);
      ReportedApplied(cat, e.id, order, kv);
      plan := Writes(Has(e, HomeAct, kv) && latch.homeRequired);
      config := |ws| > 0;
      SomeWritten(ws);
      if Has(e, HomeAct, kv) && latch.homeRequired {
        PutLatch(latch.(homeRequired := false));
      }
    }
  
    // ---- one intent ---------------------------------------------------------------------------------------

    /** The entries of the value against the schema, in order. */
    method Validate(e: Entry, roles: nat, value: seq<KV>) returns (c: Checked, order: seq<nat>)
      requires e.IntentEntry?
      ensures c == Validated(e, roles, value, map[]) && (c.Good? ==> Ordered(order, c.kv))
    {
      hide FieldByKey, Coerced, NeedFor, Ordered, Validated;
      var kv: map<nat, IVal> := map[];
      order := [];
      NothingOrdered();
      assert value[0..] == value;
      var i := 0;
      while i < |value|
        invariant i <= |value| && Ordered(order, kv)
        invariant Validated(e, roles, value[i..], kv) == Validated(e, roles, value, map[])
      {
        ValidStep(e, roles, value, i, kv);
        var k, v := value[i].key, value[i].v;
        var f := FieldByKey(e.schema, k);
        if f.None? {
          return Bad(InvalidValue), order;
        }
        if roles < NeedFor(e, f.value, v) {
          return Bad(AccessDenied), order;
        }
        var x := Coerced(f.value, v);
        if x.None? {
          return Bad(InvalidValue), order;
        }
        OrderedNext(order, kv, k, x.value);
        order, kv := Appended(order, kv, k), kv[k := x.value];
        i := i + 1;
      }
      ValidEnd(e, roles, value, kv);
      c := Good(kv);
    }

    /** Everything decided before the machine is looked at. */
    method Admit(c: Conn, m: Intent) returns (g: Gate, order: seq<nat>)
      requires Valid()
      ensures g == GateOf(cat, c, m) && (g.Pass? ==> Ordered(order, g.kv))
      ensures forall e :: e in cat.entries && HubAccess.Addressed(cat, m, e) ==>
                e.IntentEntry? && m.value.Some? && HubAccess.Gated(c, m, e, g)
    {
      hide Validated, Ordered, Exempt, EchoIn, HubAccess.Gated, HubAccess.Addressed, cat.WellFormed;
      HubAccess.GatedAll(cat, c, m);
      order := [];
      var found := cat.Find(m.ch);
      if found.None? {
        return Stop(UnknownChannel), order;
      }
      var e := found.value;
      if !e.IntentEntry? {
        return Stop(ClassMismatch), order;
      }
      if m.value.None? {
        return Stop(InvalidValue), order;
      }
      var exempt := Exempt(e, m.value.value);
      if !c.ready && !exempt {
        return Stop(NotReady), order;
      }
      if OpKey(e).Some? && !exempt && c.roles < CONTROL {
        return Stop(NotController), order;
      }
      if m.id.Some? && EchoIn(c.ring, m.id.value).Some? {
        return Replay(EchoIn(c.ring, m.id.value).value), order;
      }
      var v;
      v, order := Validate(e, c.roles, m.value.value);
      g := if v.Good? then Pass(e, v.kv) else Stop(v.code);
    }

    /** The values of a setting now, at every place that mirrors it. */
    method BaselineOf(st: Setting) returns (base: map<Loc, Val>)
      requires Valid()
      ensures base == Base(cat, vals, st)
    {
      hide Base, BaseIn, PlacesOf, BasesPlaced, cat.WellFormed, cat.SettingOf;
      BaseAll(cat, vals, st);
      base := map[];
      var n := 0;
      while n < |cat.entries|
        invariant n <= |cat.entries| && base == BaseIn(cat, vals, st, PlacesTo(cat.entries, n))
      {
        var e := cat.entries[n];
        if e.StateEntry? && e.setting == Some(st.ch) {
          cat.Finds(n);
          ghost var done := PlacesTo(cat.entries, n);
          NoPlaces(e.id, done);
          var i := 0;
          while i < |e.layout|
            invariant i <= |e.layout| && base == BaseIn(cat, vals, st, done + PlacesOf(e.id, i))
          {
            var l := Loc(e.id, i);
            cat.Placed(l);
            NextPlace(e.id, i);
            Rebracketed(done, PlacesOf(e.id, i), l);
            BaseNext(cat, vals, st, done + PlacesOf(e.id, i), l);
            Mirrored(cat, l, st);
            if e.layout[i].key == Some(st.key) {
              base := base[l := vals[l]];
            }
            i := i + 1;
          }
        } else {
          BaseSkips(cat, vals, st, n);
        }
        n := n + 1;
      }
    }

    /** The trial rules, and the baselines of the trials that open. */
    method CheckTrials(sid: nat, e: Entry, order: seq<nat>, ghost kv: map<nat, IVal>, trial: bool)
      returns (no: Option<Nack>, bases: map<nat, map<Loc, Val>>)
      requires Valid() && e.IntentEntry? && Ordered(order, kv) && (trial ==> cat.TrialsOn())
      ensures no == TrialRefusal(cat, Abs(), sid, e, kv, trial)
      ensures no.None? ==> bases == if trial then OpenedTo(cat, Abs(), e.id, order, |order|) else map[]
    {
      hide TrialRefusal, Ordered, BasesPlaced, cat.WellFormed, Base, OpenedTo;
      TrialRules(cat, Abs(), sid, e, order, kv, trial);
      bases := map[];
      if !cat.TrialsOn() {
        return None, bases;
      }
      var i := 0;
      while i < |order|
        invariant i <= |order| && forall j :: 0 <= j < i ==> !Conflicts(trials, sid, e.id, order[j])
      {
        if Conflicts(trials, sid, e.id, order[i]) {
          return Some(TrialConflict), bases;
        }
        i := i + 1;
      }
      if !trial {
        return None, bases;
      }
      if Untrialable(e) {
        return Some(UnsupportedOp), bases;
      }
      i := 0;
      OpenedNone(cat, Abs(), e.id, order);
      while i < |order|
        invariant i <= |order| && bases == OpenedTo(cat, Abs(), e.id, order, i)
        invariant forall j :: 0 <= j < i ==> !Blocked(cat, Abs(), e.id, order[j])
      {
        OpenedNext(cat, Abs(), e.id, order, i);
        var st := Setting(e.id, order[i]);
        if st !in trials {
          var base := BaselineOf(st);
          if !Opens(cat, base) {
            return Some(UnsupportedOp), bases;
          }
          bases := bases[order[i] := base];
        }
        i := i + 1;
      }
      no := None;
    }
  
    /** Open, end or keep the trial of every key. */
    method SettleTrials(sid: nat, ch: nat, order: seq<nat>, bases: map<nat, map<Loc, Val>>, trial: bool, ghost s: State, ghost kv: map<nat, IVal>)
      requires Valid() && Ordered(order, kv) && trials == s.trials
      requires bases == if trial then OpenedTo(cat, s, ch, order, |order|) else map[]
      modifies this`trials
      ensures Valid() && trials == Settled(cat, s.vals, s.trials, sid, ch, kv, trial)
    {
      hide Base, BasesPlaced, SettledOver, TouchedTo, OpenedTo;
      TouchedAll(ch, order, kv);
      SettledNone(cat, s.vals, s.trials, sid, trial);
      ghost var t0 := trials;
      var i := 0;
      while i < |order|
        invariant i <= |order| && Valid()
        invariant trials == SettledOver(cat, s.vals, t0, sid, TouchedTo(ch, order, i), trial)
      {
        var st := Setting(ch, order[i]);
        SettleNext(cat, s.vals, t0, sid, ch, order, i, trial);
        OpenedAt(cat, s, ch, order, i);
        SettledPlaced(cat, s.vals, t0, sid, TouchedTo(ch, order, i + 1), trial);
        if order[i] in bases {
          trials := trials[st := Trial(sid, bases[order[i]])];
        } else if !trial && st in trials && trials[st].sid == sid {
          trials := trials - {st};
        }
        i := i + 1;
      }
    }

    /** Settle the trials and redo their marks; the channels changed so far and by that. */
    method SettleMarked(sid: nat, ch: nat, order: seq<nat>, bases: map<nat, map<Loc, Val>>, trial: bool,
                        ghost s: State, ghost kv: map<nat, IVal>, o: Outcome) returns (changed: set<nat>)
      requires Valid() && Ordered(order, kv) && trials == s.trials && o.s == Abs()
      requires bases == if trial then OpenedTo(cat, s, ch, order, |order|) else map[]
      modifies this`trials, this`vals
      ensures Valid() && Outcome(Abs(), o.kv, changed, o.config) == Settle(cat, s.vals, o, sid, ch, kv, trial)
    {
      hide Masked, MaskChannels, Settled, OpenedTo, BasesPlaced, Ordered, Fits;
      SettleTrials(sid, ch, order, bases, trial, s, kv);
      var marks := TrialMasks();
      changed := o.changed + marks;
    }

    /** A safety operation, or any other intent that is not on `settings-trial`. */
    method Act(sid: nat, e: Entry, order: seq<nat>, kv: map<nat, IVal>)
      returns (no: Option<Nack>, ghost plan: Plan, applied: map<nat, IVal>, changed: set<nat>, config: bool)
      requires Valid() && e.IntentEntry? && Ordered(order, kv)
      modifies this`vals, this`items, this`gens, this`latch, this`conns
      ensures Valid() && !plan.EndAll? && no == if plan.Refuse? then Some(plan.code) else None
      ensures plan == if OpKey(e).Some? then PlanSafety(old(latch), OpOf(e, kv)) else PlanWrite(cat, old(Abs()), e, kv)
      ensures if plan.Refuse? then Abs() == old(Abs())
              else Outcome(Abs(), applied, changed, config) == Enact(cat, old(Abs()), sid, e.id, kv, plan)
    {
      if OpKey(e).Some? {
        no, plan := SafetyOp(sid, e.id, kv, OpOf(e, kv));
        applied, changed, config := kv, {}, false;
      } else {
        no, plan, applied, changed, config := ApplyIntent(sid, e, order, kv);
      }
    }

    /**
     * `safetyOp`: a resume needs the stop, the override and the homing demand gone, a release lands in
     * pause, an override pauses; nothing else ends a stop or a pause.
     */
    method SafetyOp(ghost sid: nat, ghost ch: nat, ghost kv: map<nat, IVal>, op: Option<IVal>) returns (no: Option<Nack>, ghost plan: Plan)
      requires Valid()
      modifies this`vals, this`latch, this`conns
      ensures Valid() && plan == PlanSafety(old(latch), op) && !plan.EndAll?
      ensures no == if plan.Refuse? then Some(plan.code) else None
      ensures if plan.Refuse? then Abs() == old(Abs())
              else Outcome(Abs(), kv, {}, false) == Enact(cat, old(Abs()), sid, ch, kv, plan)
      ensures old(latch).estop && !latch.estop ==> op == Some(INum(OP_RELEASE)) && latch.paused
      ensures old(latch).paused && !latch.paused ==>
                op == Some(INum(OP_RESUME)) && !latch.estop && !latch.override && !latch.homeRequired
    {
      hide LatchEstop, SetLatch, BasesPlaced, EndTrials, Mutated, Written, Applied, WriteChannels, RosterChannels;
      plan := PlanSafety(latch, op);
      ghost var s := Abs();
      no := None;
      if op == Some(INum(OP_ESTOP)) {
        LatchStop();
        StopKeepsPause(cat, s);
      } else if op == Some(INum(OP_PAUSE)) {
        if !latch.paused {
          PutLatch(latch.(paused := true, cause := CAUSE_USER));
        }
      } else if op == Some(INum(OP_RESUME)) {
        if latch.estop {
          return Some(EstopActive), plan;
        }
        if latch.override {
          return Some(Interlock), plan;
        }
        if latch.homeRequired {
          return Some(NotHomed), plan;
        }
        if latch.paused {
          PutLatch(latch.(paused := false));
        }
      } else if op == Some(INum(OP_RELEASE)) {
        if latch.estop {
          PutLatch(latch.(estop := false, paused := true));
        }
      } else if op == Some(INum(OP_OVERRIDE)) {
        if latch.estop {
          return Some(EstopActive), plan;
        }
        PutLatch(if latch.paused then latch.(override := true) else latch.(override := true, paused := true, cause := CAUSE_USER));
      } else if op == Some(INum(OP_RETURN)) {
        if latch.override {
          PutLatch(latch.(override := false));
        }
      } else {
        return Some(UnsupportedOp), plan;
      }
    }

    /** Commit or revert, as an intent on `settings-trial` asks. */
    method EndOp(sid: nat, ghost ch: nat, kv: map<nat, IVal>, ghost trial: bool)
      returns (no: Option<Nack>, ghost plan: Plan, changed: set<nat>, config: bool)
      requires Valid()
      modifies this`vals, this`trials
      ensures Valid() && plan == PlanTrials(kv) && no == if plan.Refuse? then Some(plan.code) else None
      ensures if plan.Refuse? then Abs() == old(Abs())
              else Outcome(Abs(), kv, changed, config) == Perform(cat, old(Abs()), sid, ch, kv, trial, plan)
    {
      hide EndTrials, BasesPlaced, Perform, Fits;
      no, plan, changed, config := None, PlanTrials(kv), {}, false;
      if 1 !in kv || (kv[1] != INum(TRIAL_COMMIT) && kv[1] != INum(TRIAL_REVERT)) {
        return Some(UnsupportedOp), plan, changed, config;
      }
      EndPerforms(cat, Abs(), sid, ch, kv, trial, kv[1] == INum(TRIAL_COMMIT));
      changed, config := EndTrialsOf(sid, kv[1] == INum(TRIAL_COMMIT));
    }

    /** Carry an admitted intent out, or refuse it. */
    method CarryOut(sid: nat, e: Entry, order: seq<nat>, kv: map<nat, IVal>, trial: bool)
      returns (no: Option<Nack>, ghost plan: Plan, applied: map<nat, IVal>, changed: set<nat>, config: bool)
      requires Valid() && e.IntentEntry? && Ordered(order, kv) && (trial ==> cat.TrialsOn())
      modifies this
      ensures Valid() && plan == PlanOf(cat, old(Abs()), sid, e, kv, trial)
      ensures no == if plan.Refuse? then Some(plan.code) else None
      ensures if plan.Refuse? then Abs() == old(Abs())
              else Outcome(Abs(), applied, changed, config) == Perform(cat, old(Abs()), sid, e.id, kv, trial, plan)
    {
      hide TrialRefusal, Ordered, BasesPlaced, cat.WellFormed, PlanWrite, PlanSafety, PlanTrials, Settle,
           OpenedTo, EndTrials, Enact, Fits;
      ghost var s := Abs();
      applied, changed, config := kv, {}, false;
      var bases;
      no, bases := CheckTrials(sid, e, order, kv, trial);
      if no.Some? {
        plan := Refuse(no.value);
        return;
      }
      if cat.TrialsOn() && e.id == CH_SETTINGS_TRIAL {
        no, plan, changed, config := EndOp(sid, e.id, kv, trial);
        return;
      }
      no, plan, applied, changed, config := Act(sid, e, order, kv);
      if no.Some? || !cat.TrialsOn() {
        return;
      }
      SameTrialsActed(cat, s, sid, e.id, kv, plan);
      changed := SettleMarked(sid, e.id, order, bases, trial, s, kv, Outcome(Abs(), applied, changed, config));
    }
  
    /** STATE of every changed channel. */
    method BroadcastAll(chs: set<nat>)
      modifies this`conns
      ensures conns == ShownAll(old(conns), vals, chs)
    {
      hide ShownAll;
      ShownNone(conns, vals);
      var todo := chs;
      assert chs - todo == {};
      while todo != {}
        invariant todo <= chs && conns == ShownAll(old(conns), vals, chs - todo)
        decreases |todo|
      {
        var ch :| ch in todo;
        Broadcast(ch);
        ShownBoth(old(conns), vals, vals, chs - todo, {ch});
        assert chs - (todo - {ch}) == (chs - todo) + {ch};
        todo := todo - {ch};
      }
      assert chs - todo == chs;
    }

    /** `onIntent`. */
    method ReceiveIntent(sid: nat, m: Intent) returns (reply: Reply)
      requires Valid() && sid in conns
      modifies this
      ensures Valid() && Step(Abs(), reply) == OnIntent(cat, old(Abs()), sid, m)
    {
      hide GateOf, PlanOf, Perform, Ordered, BasesPlaced, Fits, EchoThrows, EchoApplied, Pushed, ShownAll;
      var g, order := Admit(conns[sid], m);
      if g.Stop? {
        return NackReply(g.code);
      }
      if g.Replay? {
        return EchoReply(g.echo);
      }
      ghost var plan;
      var no, applied, changed, config;
      no, plan, applied, changed, config := CarryOut(sid, g.e, order, g.kv, OnTrial(cat, m));
      if no.Some? {
        return NackReply(no.value);
      }
      if config {
        cfgGen := (cfgGen + 1) % 0x1_0000;
      }
      if EchoThrows(g.e, m.id, applied) {
        return ThrownReply;
      }
      HasId(g.e, m.id, applied);
      var echo := Echo(cfgGen, m.id.value, EchoApplied(g.e, applied));
      if sid in conns {
        conns := conns[sid := conns[sid].(ring := Pushed(conns[sid].ring, echo))];
      }
      BroadcastAll(changed);
      reply := EchoReply(echo);
    }

    // ---- the session plane -----------------------------------------------------------------------------------

    method Grants(roles: nat, wishes: seq<nat>) returns (granted: set<nat>)
      ensures granted == Members(Granted(cat, roles, wishes))
    {
      hide Grantable;
      var out := [];
      granted := {};
      assert wishes[0..] == wishes;
      var n := 0;
      while n < |wishes|
        invariant n <= |wishes| && granted == Members(out)
        invariant out + Granted(cat, roles, wishes[n..]) == Granted(cat, roles, wishes)
      {
        GrantedNext(cat, roles, wishes, n);
        if Grantable(cat, roles, wishes[n]) {
          MembersNext(out, wishes[n]);
          Rebracket(out, [wishes[n]], Granted(cat, roles, wishes[n + 1..]));
          out, granted := out + [wishes[n]], granted + {wishes[n]};
        } else {
          assert [] + Granted(cat, roles, wishes[n + 1..]) == Granted(cat, roles, wishes[n + 1..]);
        }
        n := n + 1;
      }
      assert out + [] == out;
    }

    /** Push the retained STATE of some channels to one connection. */
    method PushAll(sid: nat, chs: set<nat>)
      requires sid in conns
      modifies this`conns
      ensures conns == old(conns)[sid := Pushed1(old(conns)[sid], vals, latch, chs)]
    {
      hide Pushed1;
      PushedNone(conns[sid], vals, latch);
      var todo := chs;
      assert chs - todo == {};
      while todo != {}
        invariant todo <= chs && sid in old(conns) && conns == old(conns)[sid := Pushed1(old(conns)[sid], vals, latch, chs - todo)]
        decreases |todo|
      {
        var ch :| ch in todo;
        PushedNext(old(conns)[sid], vals, latch, chs - todo, ch);
        conns := conns[sid := Pushed1(conns[sid], vals, latch, {ch})];
        assert chs - (todo - {ch}) == (chs - todo) + {ch};
        todo := todo - {ch};
      }
      assert chs - todo == chs;
    }

    /** `onHello`: readiness by the etag, a fresh ring, the granted channels and their retained STATE. */
    method ReceiveHello(sid: nat, etagMatches: bool, wishes: seq<nat>)
      requires sid in conns
      modifies this`conns
      ensures Abs() == OnHello(cat, old(Abs()), sid, etagMatches, wishes)
    {
      hide Pushed1, Granted;
      var granted := Grants(conns[sid].roles, wishes);
      conns := conns[sid := conns[sid].(ready := etagMatches, subs := granted, ring := [], view := map[], latchView := None)];
      PushedIdleUnless(conns[sid], vals, latch, granted);
      if etagMatches {
        PushAll(sid, granted);
      }
    }

    method ReceiveSubscribe(sid: nat, wishes: seq<nat>)
      requires sid in conns
      modifies this`conns
      ensures Abs() == OnSubscribe(cat, old(Abs()), sid, wishes)
    {
      hide Pushed1, Granted;
      if |wishes| <= MAX_SUBSCRIPTIONS_PER_FRAME {
        var granted := Grants(conns[sid].roles, wishes);
        conns := conns[sid := conns[sid].(subs := conns[sid].subs + granted)];
        PushedIdleUnless(conns[sid], vals, latch, granted);
        if conns[sid].ready {
          PushAll(sid, granted);
        }
      }
    }

    /** `onCatalogReady`: the readiness gate opens, and every subscribed channel is pushed. */
    method ReceiveCatalogReady(sid: nat)
      requires sid in conns
      modifies this`conns
      ensures Abs() == OnCatalogReady(old(Abs()), sid)
    {
      hide Pushed1;
      if !conns[sid].ready {
        conns := conns[sid := conns[sid].(ready := true)];
        PushAll(sid, conns[sid].subs);
      }
    }

    /** The close of a socket: its trials are reverted. */
    method CloseSocket(sid: nat)
      requires Valid() && sid in conns
      modifies this
      ensures Valid() && Abs() == OnClose(cat, old(Abs()), sid)
    {
      hide EndTrials, ShownAll, BasesPlaced, Fits;
      conns := conns - {sid};
      var changed, moved := EndTrialsOf(sid, false);
      if moved {
        cfgGen := (cfgGen + 1) % 0x1_0000;
      }
      BroadcastAll(changed);
    }

    /** One event of the run. */
    method Take(ev: Event)
      requires Valid()
      modifies this
      ensures Valid() && Abs() == Next(cat, old(Abs()), ev)
    {
      hide OnIntent, OnHello, OnSubscribe, OnCatalogReady, OnClose, LatchEstop, BasesPlaced, Fits;
      match ev {
        case Open(sid, roles) =>
          if sid !in conns {
            conns := conns[sid := Conn(false, roles, {}, [], map[], None)];
          }
        case Hello(sid, etagMatches, wishes) =>
          if sid in conns {
            ReceiveHello(sid, etagMatches, wishes);
          }
        case CatalogReady(sid) =>
          if sid in conns {
            ReceiveCatalogReady(sid);
          }
        case Subscribe(sid, wishes) =>
          if sid in conns {
            ReceiveSubscribe(sid, wishes);
          }
        case Unsubscribe(sid, chs) =>
          if sid in conns {
            conns := conns[sid := conns[sid].(subs := conns[sid].subs - Members(chs))];
          }
        case IntentFrame(sid, m) =>
          if sid in conns {
            var reply := ReceiveIntent(sid, m);
          }
        case EstopFrame =>
          LatchStop();
        case Close(sid) =>
          if sid in conns {
            CloseSocket(sid);
          }
      }
    }
  }
}
