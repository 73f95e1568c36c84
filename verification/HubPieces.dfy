/** How the hub's whole-state steps come about one field and one channel at a time. */
module HubPieces {
  import opened Bytes
  import opened Packed
  import opened HubCatalog
  import opened Hub
  import opened HubPlaces

  /** A second push of the same channels is all that is seen. */
  lemma ShownAgain(conns: map<nat, Conn>, v1: map<Loc, Val>, v2: map<Loc, Val>, chs: set<nat>)
    requires v1.Keys == v2.Keys
    ensures ShownAll(ShownAll(conns, v1, chs), v2, chs) == ShownAll(conns, v2, chs)
  {
    forall sid | sid in conns
      ensures Shown(Shown(conns[sid], v1, chs), v2, chs) == Shown(conns[sid], v2, chs)
    {
      var c := conns[sid];
      assert (c.view + Seen(c, v1, chs)) + Seen(c, v2, chs) == c.view + Seen(c, v2, chs);
    }
  }

  function Seen(c: Conn, vals: map<Loc, Val>, chs: set<nat>): map<Loc, Val> {
    map l | l in vals && l.ch in chs && l.ch in c.subs :: vals[l]
  }

  /** Pushing `chs` and then `more`, where only `more` changed between, is pushing both. */
  lemma ShownBoth(conns: map<nat, Conn>, v1: map<Loc, Val>, v2: map<Loc, Val>, chs: set<nat>, more: set<nat>)
    requires v1.Keys == v2.Keys && forall l :: l in v1 && l.ch !in more ==> v2[l] == v1[l]
    ensures ShownAll(ShownAll(conns, v1, chs), v2, more) == ShownAll(conns, v2, chs + more)
  {
    hide Shown;
    forall sid | sid in conns
      ensures Shown(Shown(conns[sid], v1, chs), v2, more) == Shown(conns[sid], v2, chs + more)
    {
      SeenBoth(conns[sid], v1, v2, chs, more);
    }
  }

  lemma SeenBoth(c: Conn, v1: map<Loc, Val>, v2: map<Loc, Val>, chs: set<nat>, more: set<nat>)
    requires v1.Keys == v2.Keys && forall l :: l in v1 && l.ch !in more ==> v2[l] == v1[l]
    ensures Shown(Shown(c, v1, chs), v2, more) == Shown(c, v2, chs + more)
  {
    assert (c.view + Seen(c, v1, chs)) + Seen(c, v2, more) == c.view + Seen(c, v2, chs + more);
  }

  /** A push of nothing is seen by nobody. */
  lemma ShownNone(conns: map<nat, Conn>, vals: map<Loc, Val>)
    ensures ShownAll(conns, vals, {}) == conns
  {
    forall sid | sid in conns
      ensures Shown(conns[sid], vals, {}) == conns[sid]
    {
      var c := conns[sid];
      assert c.view + Seen(c, vals, {}) == c.view;
    }
  }

  lemma ShownIdle(c: Conn, vals: map<Loc, Val>, ch: nat)
    requires !(c.ready && ch in c.subs)
    ensures Shown(c, vals, {ch}) == c
  {
    if c.ready {
      assert c.view + Seen(c, vals, {ch}) == c.view;
    }
  }

  /** The ids of the first `n` STATE entries. */
  ghost function Ids(entries: seq<Entry>, n: nat): set<nat>
    requires n <= |entries|
  {
    set k | 0 <= k < n && entries[k].StateEntry? :: entries[k].id
  }

  lemma AllIds(cat: Catalog, l: Loc)
    requires cat.WellFormed() && cat.HasLoc(l)
    ensures l.ch in Ids(cat.entries, |cat.entries|)
  {
    cat.Placed(l);
    var k :| 0 <= k < |cat.entries| && cat.entries[k] == cat.StateAt(l);
  }

  lemma NextId(cat: Catalog, n: nat)
    requires cat.WellFormed() && n < |cat.entries|
    ensures cat.entries[n].id !in Ids(cat.entries, n)
    ensures Ids(cat.entries, n + 1) == if cat.entries[n].StateEntry? then Ids(cat.entries, n) + {cat.entries[n].id} else Ids(cat.entries, n)
    ensures Ids(cat.entries, 0) == {}
  {
  }

  /** The sources of the channels `chs` stopped. */
  function StoppedIn(cat: Catalog, vals: map<Loc, Val>, chs: set<nat>): (r: map<Loc, Val>)
    requires Fits(cat, vals)
    ensures r.Keys == vals.Keys && Fits(cat, r)
  {
    map l | l in vals :: if l.ch in chs && Running(cat, vals, l) then After(cat, vals, l, Some(Num(0.0))) else vals[l]
  }

  lemma StoppedEverywhere(cat: Catalog, vals: map<Loc, Val>)
    requires Fits(cat, vals)
    ensures StoppedIn(cat, vals, Ids(cat.entries, |cat.entries|)) == Stopped(cat, vals)
    ensures RunningChannels(cat, vals) * Ids(cat.entries, |cat.entries|) == RunningChannels(cat, vals)
  {
    forall l | l in vals
      ensures l.ch in Ids(cat.entries, |cat.entries|)
    {
      cat.Placed(l);
      AllIds(cat, l);
    }
  }

  lemma StoppedNowhere(cat: Catalog, vals: map<Loc, Val>)
    requires Fits(cat, vals)
    ensures StoppedIn(cat, vals, {}) == vals
  {
  }

  /** Stopping one more channel. */
  lemma StopOne(cat: Catalog, vals: map<Loc, Val>, chs: set<nat>, ch: nat)
    requires Fits(cat, vals) && ch !in chs
    ensures StoppedIn(cat, StoppedIn(cat, vals, chs), {ch}) == StoppedIn(cat, vals, chs + {ch})
    ensures RunsOn(cat, StoppedIn(cat, vals, chs), ch) <==> ch in RunningChannels(cat, vals)
  {
    var v := StoppedIn(cat, vals, chs);
    forall l | l in vals && l.ch == ch
      ensures Running(cat, v, l) <==> Running(cat, vals, l)
    {
    }
  }

  /** A source of the channel is running. */
  predicate RunsOn(cat: Catalog, vals: map<Loc, Val>, ch: nat) {
    exists l :: l in vals && l.ch == ch && Running(cat, vals, l)
  }

  /** The sources among the first `j` fields of a channel stopped. */
  function StoppedTo(cat: Catalog, vals: map<Loc, Val>, ch: nat, j: nat): (r: map<Loc, Val>)
    requires Fits(cat, vals)
    ensures r.Keys == vals.Keys && Fits(cat, r)
  {
    map l | l in vals ::
      if l.ch == ch && l.i < j && Running(cat, vals, l) then After(cat, vals, l, Some(Num(0.0))) else vals[l]
  }

  predicate RunsTo(cat: Catalog, vals: map<Loc, Val>, ch: nat, j: nat) {
    exists l :: l in vals && l.ch == ch && l.i < j && Running(cat, vals, l)
  }

  lemma StopField(cat: Catalog, vals: map<Loc, Val>, ch: nat, j: nat)
    requires Fits(cat, vals) && Loc(ch, j) in vals
    ensures var l, was := Loc(ch, j), StoppedTo(cat, vals, ch, j);
            && was[l] == vals[l]
            && RunsTo(cat, vals, ch, j + 1) == (RunsTo(cat, vals, ch, j) || Running(cat, vals, l))
            && StoppedTo(cat, vals, ch, j + 1)
               == (if Running(cat, vals, l) then was[l := After(cat, was, l, Some(Num(0.0)))] else was)
  {
    hide Running, StoredAt;
    forall m | m in vals && m.ch == ch && m.i < j + 1 && m != Loc(ch, j)
      ensures m.i < j
    {
    }
  }

  lemma StopFields(cat: Catalog, vals: map<Loc, Val>, e: Entry)
    requires Fits(cat, vals) && e in cat.entries && e.StateEntry?
    ensures StoppedTo(cat, vals, e.id, |e.layout|) == StoppedIn(cat, vals, {e.id})
    ensures RunsTo(cat, vals, e.id, |e.layout|) == RunsOn(cat, vals, e.id)
    ensures StoppedTo(cat, vals, e.id, 0) == vals && !RunsTo(cat, vals, e.id, 0)
  {
    FindsIt(cat.entries, e);
    forall l | l in vals && l.ch == e.id
      ensures l.i < |e.layout|
    {
      cat.Placed(l);
    }
  }

  /** Stopping a channel changes that channel, and only if a source runs on it. */
  lemma StopShown(cat: Catalog, before: map<Loc, Val>, after: map<Loc, Val>, ch: nat)
    requires Fits(cat, before) && after == StoppedIn(cat, before, {ch})
    ensures forall l :: l in before && l.ch !in (if RunsOn(cat, before, ch) then {ch} else {}) ==> after[l] == before[l]
  {
  }

  // ---- writing place after place ---------------------------------------------------------------------

  /** `w` written at the places visited so far. */
  ghost function Partial(cat: Catalog, vals: map<Loc, Val>, w: map<Loc, Val>, seen: set<Loc>): (r: map<Loc, Val>)
    requires Fits(cat, vals)
    ensures r.Keys == vals.Keys && Fits(cat, r)
  {
    map l | l in vals :: if l in seen && l in w then After(cat, vals, l, Some(w[l])) else vals[l]
  }

  lemma Visit(cat: Catalog, vals: map<Loc, Val>, w: map<Loc, Val>, seen: set<Loc>, l: Loc)
    requires Fits(cat, vals) && l in vals && l !in seen
    ensures Partial(cat, vals, w, seen)[l] == vals[l]
    ensures Partial(cat, vals, w, seen + {l})
         == if l !in w then Partial(cat, vals, w, seen)
            else Partial(cat, vals, w, seen)[l := After(cat, Partial(cat, vals, w, seen), l, Some(w[l]))]
  {
    hide StoredAt, Fits;
  }

  lemma VisitNone(cat: Catalog, vals: map<Loc, Val>, w: map<Loc, Val>)
    requires Fits(cat, vals)
    ensures Partial(cat, vals, w, {}) == vals
  {
  }

  /** Every place to be written is visited. */
  lemma VisitAll(cat: Catalog, vals: map<Loc, Val>, w: map<Loc, Val>, seen: set<Loc>, f: Loc -> Option<Val>)
    requires Fits(cat, vals) && w.Keys <= seen
    requires forall l :: l in vals ==> (f(l).Some? <==> l in w) && (l in w ==> f(l) == Some(w[l]))
    ensures Partial(cat, vals, w, seen) == Rewritten(cat, vals, f)
  {
    hide Fits;
  }

  /** The first `j` places of a channel. */
  ghost function PlacesOf(ch: nat, j: nat): set<Loc> {
    set i | 0 <= i < j :: Loc(ch, i)
  }

  /** The places of the first `n` entries. */
  ghost function PlacesTo(entries: seq<Entry>, n: nat): set<Loc>
    requires n <= |entries|
  {
    if n == 0 then {}
    else PlacesTo(entries, n - 1) + (if entries[n - 1].StateEntry? then PlacesOf(entries[n - 1].id, |entries[n - 1].layout|) else {})
  }

  lemma NextPlace(ch: nat, j: nat)
    ensures PlacesOf(ch, j + 1) == PlacesOf(ch, j) + {Loc(ch, j)} && Loc(ch, j) !in PlacesOf(ch, j)
  {
    assert forall l :: l in PlacesOf(ch, j + 1) ==> l in PlacesOf(ch, j) || l == Loc(ch, j);
  }

  lemma {:induction false} PlacesHave(cat: Catalog, n: nat, l: Loc)
    requires cat.WellFormed() && n <= |cat.entries|
    ensures l in PlacesTo(cat.entries, n) ==> l.ch in Ids(cat.entries, n)
    ensures cat.HasLoc(l) && l.ch in Ids(cat.entries, n) ==> l in PlacesTo(cat.entries, n)
  {
    if n > 0 {
      PlacesHave(cat, n - 1, l);
      NextId(cat, n - 1);
      FindsIt(cat.entries, cat.entries[n - 1]);
    }
  }

  lemma AllPlaces(cat: Catalog, l: Loc)
    requires cat.WellFormed() && cat.HasLoc(l)
    ensures l in PlacesTo(cat.entries, |cat.entries|)
  {
    PlacesHave(cat, |cat.entries|, l);
    AllIds(cat, l);
  }

  lemma FreshPlaces(cat: Catalog, n: nat, j: nat)
    requires cat.WellFormed() && n < |cat.entries|
    ensures Loc(cat.entries[n].id, j) !in PlacesTo(cat.entries, n)
  {
    PlacesHave(cat, n, Loc(cat.entries[n].id, j));
    NextId(cat, n);
  }

  // ---- trial marks ---------------------------------------------------------------------------------------

  /** A 32-bit word as its bits, lowest first. */
  type Word = w: seq<bool> | |w| == 32 witness seq(32, i => false)

  /** `n` bits from `shift` up, as a number. */
  function BitsAt(word: Word, shift: nat, n: nat): nat
    requires shift + n <= 32
    decreases n
  {
    if n == 0 then 0 else (if word[shift] then 1 else 0) + 2 * BitsAt(word, shift + 1, n - 1)
  }

  lemma {:induction false} BitsAreMask(word: Word, e: Entry, trials: map<Setting, Trial>, shift: nat, n: nat)
    requires e.StateEntry? && e.setting.Some? && shift + n <= 32
    requires forall b :: 0 <= b < 32 ==> (word[b] <==> TrialBit(e, trials, b))
    ensures BitsAt(word, shift, n) == MaskByte(e, trials, shift, n)
    decreases n
  {
    if n > 0 {
      BitsAreMask(word, e, trials, shift + 1, n - 1);
    }
  }

  /** Bit `b` after the first `k` fields. */
  ghost predicate TrialBitTo(e: Entry, trials: map<Setting, Trial>, b: nat, k: nat)
    requires e.StateEntry? && e.setting.Some? && k <= |e.layout|
  {
    exists j :: 0 <= j < k && e.layout[j].key.Some? && SettingsBefore(e.layout, j) % 32 == b
             && Setting(e.setting.value, e.layout[j].key.value) in trials
  }

  lemma NextBit(e: Entry, trials: map<Setting, Trial>, b: nat, k: nat)
    requires e.StateEntry? && e.setting.Some? && k < |e.layout|
    ensures TrialBitTo(e, trials, b, k + 1) <==>
              TrialBitTo(e, trials, b, k)
              || (e.layout[k].key.Some? && SettingsBefore(e.layout, k) % 32 == b
                  && Setting(e.setting.value, e.layout[k].key.value) in trials)
  {
    hide SettingsBefore;
  }

  /** What the mark update does at a mark. */
  lemma MarkIs(cat: Catalog, s: State, l: Loc, v: Val)
    requires l in s.vals && cat.HasLoc(l) && cat.At(l).role == TrialMark && cat.StateAt(l).setting.Some?
    requires v == Num(MaskByte(cat.StateAt(l), s.trials, 8 * MarksBefore(cat.StateAt(l).layout, l.i) % 32, 8) as real)
    ensures MaskValue(cat, s.vals, s.trials, l) == if s.vals[l] == v then None else Some(v)
  {
  }

  lemma NotMark(cat: Catalog, s: State, l: Loc)
    requires l in s.vals && cat.HasLoc(l) && (cat.At(l).role != TrialMark || cat.StateAt(l).setting.None?)
    ensures MaskValue(cat, s.vals, s.trials, l).None? && l !in MarkWrites(cat, s)
  {
  }

  lemma NoPlaces(ch: nat, done: set<Loc>)
    ensures PlacesOf(ch, 0) == {} && done + PlacesOf(ch, 0) == done
  {
  }

  /** The marks that differ, with what they are to show. */
  ghost function MarkWrites(cat: Catalog, s: State): map<Loc, Val> {
    map l | l in s.vals && MaskValue(cat, s.vals, s.trials, l).Some? :: MaskValue(cat, s.vals, s.trials, l).value
  }

  lemma MarkWritesAll(cat: Catalog, s: State)
    requires Fits(cat, s.vals)
    ensures s.(vals := Partial(cat, s.vals, MarkWrites(cat, s), PlacesTo(cat.entries, |cat.entries|))) == Masked(cat, s)
    ensures MaskChannels(cat, s) == set l | l in MarkWrites(cat, s) :: l.ch
  {
    hide MaskValue, PlacesTo, Partial, Rewritten;
    forall l | l in s.vals
      ensures l in PlacesTo(cat.entries, |cat.entries|)
    {
      cat.Placed(l);
      AllPlaces(cat, l);
    }
    VisitAll(cat, s.vals, MarkWrites(cat, s), PlacesTo(cat.entries, |cat.entries|),
             l => if l in s.vals then MaskValue(cat, s.vals, s.trials, l) else None);
  }

  /** Entries without a setting channel are passed over. */
  lemma Unmarked(cat: Catalog, s: State, n: nat)
    requires Fits(cat, s.vals) && n < |cat.entries| && !(cat.entries[n].StateEntry? && cat.entries[n].setting.Some?)
    ensures Partial(cat, s.vals, MarkWrites(cat, s), PlacesTo(cat.entries, n + 1))
         == Partial(cat, s.vals, MarkWrites(cat, s), PlacesTo(cat.entries, n))
    ensures MarkChannels(cat, s, n + 1) == MarkChannels(cat, s, n)
  {
    hide MaskValue, StoredAt;
    FindsIt(cat.entries, cat.entries[n]);
    forall l | l in s.vals && l in PlacesTo(cat.entries, n + 1) && l !in PlacesTo(cat.entries, n)
      ensures l !in MarkWrites(cat, s)
    {
      cat.Placed(l);
      NotMark(cat, s, l);
    }
  }

  /** The channels among the first `n` entries on which a mark differs. */
  ghost function MarkChannels(cat: Catalog, s: State, n: nat): set<nat>
    requires n <= |cat.entries|
  {
    set l | l in MarkWrites(cat, s) && l in PlacesTo(cat.entries, n) :: l.ch
  }

  lemma NextMarkChannel(cat: Catalog, s: State, n: nat, moved: bool)
    requires cat.WellFormed() && n < |cat.entries| && cat.entries[n].StateEntry?
    requires moved <==> exists l :: l in MarkWrites(cat, s) && l in PlacesOf(cat.entries[n].id, |cat.entries[n].layout|)
    ensures MarkChannels(cat, s, n + 1) == if moved then MarkChannels(cat, s, n) + {cat.entries[n].id} else MarkChannels(cat, s, n)
  {
    hide MarkWrites;
    var e := cat.entries[n];
    forall ch
      ensures ch in MarkChannels(cat, s, n + 1) <==> ch in MarkChannels(cat, s, n) || (moved && ch == e.id)
    {
      if moved && ch == e.id {
        var l :| l in MarkWrites(cat, s) && l in PlacesOf(e.id, |e.layout|);
        assert l in PlacesTo(cat.entries, n + 1);
      }
      if ch in MarkChannels(cat, s, n) {
        var l :| l in MarkWrites(cat, s) && l in PlacesTo(cat.entries, n) && l.ch == ch;
        assert l in PlacesTo(cat.entries, n + 1);
      }
    }
  }

  lemma NoMarkChannel(cat: Catalog, s: State)
    ensures MarkChannels(cat, s, 0) == {}
  {
  }

  lemma AllMarkChannels(cat: Catalog, s: State)
    requires Fits(cat, s.vals)
    ensures MarkChannels(cat, s, |cat.entries|) == MaskChannels(cat, s)
  {
    hide MaskValue, PlacesTo;
    forall l | l in MarkWrites(cat, s)
      ensures l in PlacesTo(cat.entries, |cat.entries|)
    {
      cat.Placed(l);
      AllPlaces(cat, l);
    }
  }

  lemma Rebracketed(a: set<Loc>, b: set<Loc>, l: Loc)
    ensures a + (b + {l}) == a + b + {l}
  {
  }

  // ---- ending trials ------------------------------------------------------------------------------------

  /** Baselines hold places of their own setting alone. */
  ghost predicate BasesPlaced(cat: Catalog, trials: map<Setting, Trial>) {
    forall st, l :: st in trials && l in trials[st].base ==> cat.SettingOf(l) == Some(st)
  }

  /** The places a revert by `sid` moves, with their baselines. */
  ghost function RevertWrites(cat: Catalog, s: State, sid: nat): map<Loc, Val> {
    map l | l in s.vals && RevertValue(cat, s, sid, l).Some? :: RevertValue(cat, s, sid, l).value
  }

  ghost function ChannelsIn(w: map<Loc, Val>, seen: set<Loc>): set<nat> {
    set l | l in w && l in seen :: l.ch
  }

  lemma ChannelsNone(w: map<Loc, Val>)
    ensures ChannelsIn(w, {}) == {}
  {
  }

  lemma ChannelsNext(w: map<Loc, Val>, seen: set<Loc>, l: Loc)
    ensures ChannelsIn(w, seen + {l}) == if l in w then ChannelsIn(w, seen) + {l.ch} else ChannelsIn(w, seen)
  {
    forall ch
      ensures ch in ChannelsIn(w, seen + {l}) <==> ch in ChannelsIn(w, seen) || (l in w && l.ch == ch)
    {
      if ch in ChannelsIn(w, seen) {
        var m :| m in w && m in seen && m.ch == ch;
        assert m in seen + {l};
      }
      if l in w && l.ch == ch {
        assert l in seen + {l};
      }
    }
  }

  /** What a revert does at a place under a trial of `sid`. */
  lemma RevertIs(cat: Catalog, s: State, sid: nat, st: Setting, l: Loc)
    requires BasesPlaced(cat, s.trials) && st in s.trials && s.trials[st].sid == sid && l in s.trials[st].base && l in s.vals
    ensures l in RevertWrites(cat, s, sid) <==> s.vals[l] != s.trials[st].base[l]
    ensures l in RevertWrites(cat, s, sid) ==> RevertWrites(cat, s, sid)[l] == s.trials[st].base[l]
  {
  }

  /** Every place a revert moves lies under one of the session's baselines. */
  lemma RevertWritesAll(cat: Catalog, s: State, sid: nat, seen: set<Loc>)
    requires Fits(cat, s.vals) && BasesPlaced(cat, s.trials)
    requires forall st, l :: st in s.trials && s.trials[st].sid == sid && l in s.trials[st].base ==> l in seen
    ensures s.(vals := Partial(cat, s.vals, RevertWrites(cat, s, sid), seen)) == Reverted(cat, s, sid)
    ensures ChannelsIn(RevertWrites(cat, s, sid), seen) == RevertChannels(cat, s, sid)
  {
    hide Partial, Rewritten;
    forall l | l in RevertWrites(cat, s, sid)
      ensures l in seen
    {
    }
    VisitAll(cat, s.vals, RevertWrites(cat, s, sid), seen, l => RevertValue(cat, s, sid, l));
  }

  /** The trials left while those of `sid` outside `todo` are gone. */
  function Ending(trials: map<Setting, Trial>, sid: nat, todo: set<Setting>): map<Setting, Trial> {
    map st | st in trials && (st in todo || trials[st].sid != sid) :: trials[st]
  }

  lemma EndingNext(trials: map<Setting, Trial>, sid: nat, todo: set<Setting>, st: Setting)
    requires st in trials && st in todo
    ensures st in Ending(trials, sid, todo) && Ending(trials, sid, todo)[st] == trials[st]
    ensures Ending(trials, sid, todo - {st})
         == if trials[st].sid == sid then Ending(trials, sid, todo) - {st} else Ending(trials, sid, todo)
  {
  }

  lemma EndingEnds(trials: map<Setting, Trial>, sid: nat)
    ensures Ending(trials, sid, trials.Keys) == trials && Ending(trials, sid, {}) == Dropped(trials, sid)
  {
  }

  /** The places visited cover the baselines of the session's trials outside `todo`, and no others'. */
  ghost predicate Visited(cat: Catalog, trials: map<Setting, Trial>, sid: nat, todo: set<Setting>, seen: set<Loc>) {
    && (forall l :: l in seen ==> cat.SettingOf(l).Some? && cat.SettingOf(l).value !in todo)
    && (forall st, l :: st in trials && st !in todo && trials[st].sid == sid && l in trials[st].base ==> l in seen)
  }

  lemma CoversNext(cat: Catalog, trials: map<Setting, Trial>, sid: nat, todo: set<Setting>, seen: set<Loc>, st: Setting)
    requires BasesPlaced(cat, trials) && Visited(cat, trials, sid, todo, seen) && st in trials && st in todo
    ensures Visited(cat, trials, sid, todo - {st}, if trials[st].sid == sid then seen + trials[st].base.Keys else seen)
    ensures forall l :: l in seen ==> cat.SettingOf(l) != Some(st)
  {
  }

  lemma CoversNone(cat: Catalog, trials: map<Setting, Trial>, sid: nat)
    ensures Visited(cat, trials, sid, trials.Keys, {})
  {
  }

  lemma CoversAll(cat: Catalog, s: State, sid: nat, seen: set<Loc>)
    requires Fits(cat, s.vals) && BasesPlaced(cat, s.trials) && Visited(cat, s.trials, sid, {}, seen)
    ensures s.(vals := Partial(cat, s.vals, RevertWrites(cat, s, sid), seen)) == Reverted(cat, s, sid)
    ensures ChannelsIn(RevertWrites(cat, s, sid), seen) == RevertChannels(cat, s, sid)
  {
    RevertWritesAll(cat, s, sid, seen);
  }

  lemma FreshBase(cat: Catalog, trials: map<Setting, Trial>, st: Setting, l: Loc, before: set<Loc>)
    requires BasesPlaced(cat, trials) && st in trials && l in trials[st].base
    requires forall m :: m in before ==> cat.SettingOf(m) != Some(st)
    ensures l !in before && cat.HasLoc(l)
  {
    assert cat.SettingOf(l) == Some(st);
  }

  lemma SetStep<T>(before: set<T>, all: set<T>, todo: set<T>, x: T)
    requires x in todo && todo <= all
    ensures before + (all - (todo - {x})) == before + (all - todo) + {x}
  {
  }

  lemma FewerPlaced(cat: Catalog, trials: map<Setting, Trial>, st: Setting)
    requires BasesPlaced(cat, trials)
    ensures BasesPlaced(cat, trials - {st})
  {
  }

  // ---- rosters --------------------------------------------------------------------------------------------

  /** A value written to a field of an entry, if there is one. */
  function AtField(cat: Catalog, vals: map<Loc, Val>, r: Entry, i: Option<nat>, v: Val): (w: map<Loc, Val>)
    requires Fits(cat, vals) && r in cat.entries && r.StateEntry? && (i.Some? ==> i.value < |r.layout|)
    ensures w.Keys == vals.Keys && Fits(cat, w)
  {
    if i.None? then vals
    else
      FieldPlace(cat, vals, r, i.value);
      vals[Loc(r.id, i.value) := After(cat, vals, Loc(r.id, i.value), Some(v))]
  }

  /** A value written to the field with a name. */
  function NamedIn(cat: Catalog, vals: map<Loc, Val>, r: Entry, name: string, v: Val): (w: map<Loc, Val>)
    requires Fits(cat, vals) && r in cat.entries && r.StateEntry?
    ensures w.Keys == vals.Keys && Fits(cat, w)
  {
    AtField(cat, vals, r, FieldNamed(r.layout, name, 0), v)
  }

  lemma FieldPlace(cat: Catalog, vals: map<Loc, Val>, r: Entry, i: nat)
    requires Fits(cat, vals) && r in cat.entries && r.StateEntry? && i < |r.layout|
    ensures Loc(r.id, i) in vals
  {
    FindsIt(cat.entries, r);
    cat.Placed(Loc(r.id, i));
  }

  /** Three fields written one after the other; the last wins where they coincide. */
  lemma ThreeFields(cat: Catalog, vals: map<Loc, Val>, r: Entry, i: Option<nat>, j: Option<nat>, k: Option<nat>,
                    a: Val, b: Val, c: Val, f: Loc -> Option<Val>)
    requires Fits(cat, vals) && r in cat.entries && r.StateEntry?
    requires (i.Some? ==> i.value < |r.layout|) && (j.Some? ==> j.value < |r.layout|) && (k.Some? ==> k.value < |r.layout|)
    requires forall l :: f(l) == if l.ch != r.id then None else if k == Some(l.i) then Some(c)
                                 else if j == Some(l.i) then Some(b) else if i == Some(l.i) then Some(a) else None
    ensures AtField(cat, AtField(cat, AtField(cat, vals, r, i, a), r, j, b), r, k, c) == Rewritten(cat, vals, f)
  {
    hide StoredAt;
  }

  /** Generation, count and capacity, written one after the other, are the roster. */
  lemma ThreeNamed(cat: Catalog, s: State, sid: nat, capacity: nat)
    requires Fits(cat, s.vals) && RosterIn(cat.entries, sid).Some?
    ensures var r := RosterIn(cat.entries, sid).value;
            && r in cat.entries && r.StateEntry?
            && SyncRoster(cat, s, sid, capacity) == s.(vals :=
                 NamedIn(cat, NamedIn(cat, NamedIn(cat, s.vals, r, "generation", Num(GenOf(s.gens, sid) as real)),
                                      r, "count", Num(|KeysOf(s.items, sid)| as real)),
                         r, "capacity", Num(capacity as real)))
  {
    hide StoredAt, FieldNamed, AtField, Rewritten;
    RosterIsState(cat.entries, sid);
    var r, gen, n := RosterIn(cat.entries, sid).value, GenOf(s.gens, sid), |KeysOf(s.items, sid)|;
    ThreeFields(cat, s.vals, r, FieldNamed(r.layout, "generation", 0), FieldNamed(r.layout, "count", 0),
                FieldNamed(r.layout, "capacity", 0), Num(gen as real), Num(n as real), Num(capacity as real),
                l => RosterValue(r, l, gen, n, capacity));
    assert SyncRoster(cat, s, sid, capacity).vals == Rewritten(cat, s.vals, l => RosterValue(r, l, gen, n, capacity));
  }

  lemma CountStep(items: map<nat, Item>, sid: nat, todo: set<nat>, k: nat)
    requires todo <= items.Keys && k in todo
    ensures |KeysAmong(sid, items.Keys - (todo - {k}))| == |KeysAmong(sid, items.Keys - todo)| + (if k / 256 == sid then 1 else 0)
  {
    var before, after := KeysAmong(sid, items.Keys - todo), KeysAmong(sid, items.Keys - (todo - {k}));
    assert after == if k / 256 == sid then before + {k} else before;
  }

  function KeysAmong(sid: nat, keys: set<nat>): set<nat> {
    set k | k in keys && k / 256 == sid
  }

  lemma NoRoster(cat: Catalog, s: State, sid: nat, capacity: nat)
    requires Fits(cat, s.vals) && RosterIn(cat.entries, sid).None?
    ensures SyncRoster(cat, s, sid, capacity) == s
  {
  }

  lemma SlotPlans(items: map<nat, Item>, d: StoreDesc, slot: nat, e: Entry, kv: map<nat, IVal>)
    requires e.IntentEntry?
    ensures var plan := PlanSlot(items, d, slot, e, kv); plan.Refuse? || plan.Keep? || (plan.Leaves? && plan.d == d)
  {
    hide Bound, FirstAct, Get, SavedPayload;
  }
}
