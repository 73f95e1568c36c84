/** The writes an intent makes, in the order the hub makes them (clients/js/localhub.js). */
module HubWrites {
  import opened Bytes
  import opened Packed
  import opened HubCatalog
  import opened Hub
  import opened HubPlaces
  import opened HubPieces

  /** One write: a place, the key it stands for, and the value clamped by the place's bounds. */
  datatype Write = Write(l: Loc, key: nat, v: IVal)

  function WriteIn(e: Entry, i: nat, key: nat, v: IVal): Write
    requires e.StateEntry? && i < |e.layout|
  {
    Write(Loc(e.id, i), key, ClampVal(e.layout[i].min, e.layout[i].max, v))
  }

  /** The writes of one key to the first `n` entries. */
  function KeyWrites(entries: seq<Entry>, n: nat, ch: nat, key: nat, v: IVal): seq<Write>
    requires n <= |entries|
  {
    if n == 0 then []
    else
      var here := MirrorAt(entries[n - 1], ch, key);
      KeyWrites(entries, n - 1, ch, key, v) + (if here.Some? then [WriteIn(entries[n - 1], here.value, key, v)] else [])
  }

  /** The writes of the first `n` keys. */
  function AllWrites(cat: Catalog, ch: nat, order: seq<nat>, kv: map<nat, IVal>, n: nat): seq<Write>
    requires n <= |order| && forall k :: k in order ==> k in kv
  {
    if n == 0 then []
    else AllWrites(cat, ch, order, kv, n - 1) + KeyWrites(cat.entries, |cat.entries|, ch, order[n - 1], kv[order[n - 1]])
  }

  /** A write is what an intent on `ch` does at its place. */
  predicate IsWrite(cat: Catalog, ch: nat, kv: map<nat, IVal>, w: Write) {
    && w.l in cat.Locs() && w.key in kv
    && cat.SettingOf(w.l) == Some(Setting(ch, w.key)) && WrittenAt(cat, ch, kv, w.l) == Some(w.v)
  }

  lemma MirrorWrites(cat: Catalog, ch: nat, kv: map<nat, IVal>, n: nat, key: nat)
    requires cat.WellFormed() && n < |cat.entries| && key in kv && MirrorAt(cat.entries[n], ch, key).Some?
    ensures IsWrite(cat, ch, kv, WriteIn(cat.entries[n], MirrorAt(cat.entries[n], ch, key).value, key, kv[key]))
  {
    var e, i := cat.entries[n], MirrorAt(cat.entries[n], ch, key).value;
    cat.Finds(n);
    cat.Placed(Loc(e.id, i));
  }

  lemma {:induction false} KeyWritesSound(cat: Catalog, ch: nat, kv: map<nat, IVal>, n: nat, key: nat)
    requires cat.WellFormed() && n <= |cat.entries| && key in kv
    ensures forall w :: w in KeyWrites(cat.entries, n, ch, key, kv[key]) ==>
              IsWrite(cat, ch, kv, w) && w.key == key && w.l.ch in Ids(cat.entries, n)
    ensures NoneTwice(KeyWrites(cat.entries, n, ch, key, kv[key]))
  {
    hide IsWrite, MirrorAt, cat.WellFormed;
    if n > 0 {
      KeyWritesSound(cat, ch, kv, n - 1, key);
      NextId(cat, n - 1);
      if MirrorAt(cat.entries[n - 1], ch, key).Some? {
        MirrorWrites(cat, ch, kv, n - 1, key);
      }
    }
  }

  /** No place is written twice. */
  ghost predicate NoneTwice(ws: seq<Write>) {
    forall i, j :: 0 <= i < j < |ws| ==> ws[i].l != ws[j].l
  }

  lemma NoneTwiceJoin(a: seq<Write>, b: seq<Write>)
    requires NoneTwice(a) && NoneTwice(b) && forall x, y :: x in a && y in b ==> x.l != y.l
    ensures NoneTwice(a + b)
  {
    forall i, j | 0 <= i < j < |a + b|
      ensures (a + b)[i].l != (a + b)[j].l
    {
      if i < |a| <= j {
        assert a[i] in a && b[j - |a|] in b;
      }
    }
  }

  lemma {:induction false} WritesSound(cat: Catalog, ch: nat, order: seq<nat>, kv: map<nat, IVal>, n: nat)
    requires cat.WellFormed() && n <= |order| && (forall k :: k in order ==> k in kv)
    requires forall i, j :: 0 <= i < j < |order| ==> order[i] != order[j]
    ensures forall w :: w in AllWrites(cat, ch, order, kv, n) ==> IsWrite(cat, ch, kv, w) && w.key in order[..n]
    ensures NoneTwice(AllWrites(cat, ch, order, kv, n))
  {
    hide KeyWrites, NoneTwice, cat.WellFormed;
    if n == 0 {
      NothingTwice();
    } else {
      var key := order[n - 1];
      var a, b := AllWrites(cat, ch, order, kv, n - 1), KeyWrites(cat.entries, |cat.entries|, ch, key, kv[key]);
      WritesSound(cat, ch, order, kv, n - 1);
      KeyWritesSound(cat, ch, kv, |cat.entries|, key);
      forall x, y | x in a && y in b
        ensures x.l != y.l
      {
        var i :| 0 <= i < n - 1 && order[i] == x.key;
      }
      NoneTwiceJoin(a, b);
      assert order[..n] == order[..n - 1] + [key];
    }
  }

  lemma NothingTwice()
    ensures NoneTwice([])
  {
  }

  lemma {:induction false} KeyWritesReach(cat: Catalog, ch: nat, kv: map<nat, IVal>, n: nat, m: nat, key: nat)
    requires m < n <= |cat.entries| && key in kv && MirrorAt(cat.entries[m], ch, key).Some?
    ensures WriteIn(cat.entries[m], MirrorAt(cat.entries[m], ch, key).value, key, kv[key])
            in KeyWrites(cat.entries, n, ch, key, kv[key])
  {
    hide MirrorAt;
    if m < n - 1 {
      KeyWritesReach(cat, ch, kv, n - 1, m, key);
    }
  }

  lemma {:induction false} WritesReach(cat: Catalog, ch: nat, order: seq<nat>, kv: map<nat, IVal>, n: nat, i: nat, w: Write)
    requires i < n <= |order| && forall k :: k in order ==> k in kv
    requires w in KeyWrites(cat.entries, |cat.entries|, ch, order[i], kv[order[i]])
    ensures w in AllWrites(cat, ch, order, kv, n)
  {
    hide KeyWrites;
    if i < n - 1 {
      WritesReach(cat, ch, order, kv, n - 1, i, w);
    }
  }

  /** Every place the intent writes is among the writes. */
  lemma WritesComplete(cat: Catalog, ch: nat, order: seq<nat>, kv: map<nat, IVal>, l: Loc) returns (w: Write)
    requires cat.WellFormed() && l in cat.Locs() && WriteAt(cat, ch, kv, l).Some?
    requires (forall k :: k in order ==> k in kv) && forall k :: k in kv ==> k in order
    ensures w in AllWrites(cat, ch, order, kv, |order|) && w.l == l
  {
    hide KeyWrites, AllWrites;
    cat.Placed(l);
    var st := cat.SettingOf(l).value;
    var e := cat.StateAt(l);
    var m :| 0 <= m < |cat.entries| && cat.entries[m] == e;
    assert KeyedAt(e.layout, st.key, 0) == Some(l.i);
    KeyWritesReach(cat, ch, kv, |cat.entries|, m, st.key);
    w := WriteIn(e, l.i, st.key, kv[st.key]);
    var i :| 0 <= i < |order| && order[i] == st.key;
    WritesReach(cat, ch, order, kv, |order|, i, w);
  }

  // ---- the values reported ------------------------------------------------------------------------

  /** The values after the first `n` writes: each write reports its own. */
  function Reported(kv: map<nat, IVal>, ws: seq<Write>, n: nat): map<nat, IVal>
    requires n <= |ws|
  {
    if n == 0 then kv else Reported(kv, ws, n - 1)[ws[n - 1].key := ws[n - 1].v]
  }

  lemma {:induction false} ReportedJoin(kv: map<nat, IVal>, a: seq<Write>, b: seq<Write>, n: nat)
    requires n <= |b|
    ensures Reported(kv, a + b, |a| + n) == Reported(Reported(kv, a, |a|), b, n)
  {
    if n > 0 {
      ReportedJoin(kv, a, b, n - 1);
    } else {
      ReportedPrefix(kv, a, b, |a|);
    }
  }

  lemma {:induction false} ReportedPrefix(kv: map<nat, IVal>, a: seq<Write>, b: seq<Write>, n: nat)
    requires n <= |a|
    ensures Reported(kv, a + b, n) == Reported(kv, a, n)
  {
    if n > 0 {
      ReportedPrefix(kv, a, b, n - 1);
    }
  }

  /** The writes of one key report the clamp of the last entry that mirrors it. */
  lemma {:induction false} KeyReported(entries: seq<Entry>, n: nat, ch: nat, key: nat, v: IVal, kv: map<nat, IVal>)
    requires n <= |entries|
    ensures var ws, f := KeyWrites(entries, n, ch, key, v), LastMirror(entries, n, ch, key);
            Reported(kv, ws, |ws|) == if f.Some? then kv[key := ClampVal(f.value.min, f.value.max, v)] else kv
  {
    hide MirrorAt;
    if n > 0 {
      KeyReported(entries, n - 1, ch, key, v, kv);
      var before := KeyWrites(entries, n - 1, ch, key, v);
      var here := MirrorAt(entries[n - 1], ch, key);
      if here.Some? {
        var w := WriteIn(entries[n - 1], here.value, key, v);
        ReportedJoin(kv, before, [w], 1);
        assert Reported(Reported(kv, before, |before|), [w], 1) == Reported(kv, before, |before|)[key := w.v];
      } else {
        assert before + [] == before;
      }
    }
  }

  /** What is reported once the first `n` keys are written. */
  lemma {:induction false} ReportedKeys(cat: Catalog, ch: nat, order: seq<nat>, kv: map<nat, IVal>, n: nat)
    requires n <= |order| && (forall k :: k in order ==> k in kv)
    requires forall i, j :: 0 <= i < j < |order| ==> order[i] != order[j]
    ensures var ws := AllWrites(cat, ch, order, kv, n);
            Reported(kv, ws, |ws|) == map k | k in kv :: if k in order[..n] then AppliedValue(cat.entries, ch, k, kv[k]) else kv[k]
  {
    hide KeyWrites, LastMirror;
    if n > 0 {
      ReportedKeys(cat, ch, order, kv, n - 1);
      var key := order[n - 1];
      var a, b := AllWrites(cat, ch, order, kv, n - 1), KeyWrites(cat.entries, |cat.entries|, ch, key, kv[key]);
      ReportedJoin(kv, a, b, |b|);
      KeyReported(cat.entries, |cat.entries|, ch, key, kv[key], Reported(kv, a, |a|));
      assert order[..n] == order[..n - 1] + [key];
      assert key !in order[..n - 1];
    }
  }

  lemma ReportedApplied(cat: Catalog, ch: nat, order: seq<nat>, kv: map<nat, IVal>)
    requires (forall k :: k in order <==> k in kv)
    requires forall i, j :: 0 <= i < j < |order| ==> order[i] != order[j]
    ensures var ws := AllWrites(cat, ch, order, kv, |order|); Reported(kv, ws, |ws|) == Applied(cat, ch, kv)
  {
    hide AllWrites, Reported, AppliedValue;
    ReportedKeys(cat, ch, order, kv, |order|);
    assert order[..|order|] == order;
  }

  // ---- storing the writes ---------------------------------------------------------------------------

  /** What an intent stores, place by place. */
  ghost function Stored(cat: Catalog, vals: map<Loc, Val>, ch: nat, kv: map<nat, IVal>): map<Loc, Val> {
    map l | l in vals && StoreAt(cat, ch, kv, l).Some? :: StoreAt(cat, ch, kv, l).value
  }

  /** The places of the first `n` writes. */
  ghost function PlacesAt(ws: seq<Write>, n: nat): set<Loc>
    requires n <= |ws|
  {
    set i | 0 <= i < n :: ws[i].l
  }

  lemma NextWrite(ws: seq<Write>, n: nat)
    requires n < |ws| && NoneTwice(ws)
    ensures PlacesAt(ws, n + 1) == PlacesAt(ws, n) + {ws[n].l} && ws[n].l !in PlacesAt(ws, n)
    ensures PlacesAt(ws, 0) == {}
  {
    forall l
      ensures l in PlacesAt(ws, n + 1) <==> l in PlacesAt(ws, n) || l == ws[n].l
    {
      if l in PlacesAt(ws, n + 1) {
        var i :| 0 <= i < n + 1 && ws[i].l == l;
      }
    }
  }

  /** What is stored at the place of a write: a secret never is. */
  lemma StoredIs(cat: Catalog, vals: map<Loc, Val>, ch: nat, kv: map<nat, IVal>, w: Write)
    requires Fits(cat, vals) && IsWrite(cat, ch, kv, w)
    ensures cat.HasLoc(w.l) && w.l in vals
    ensures cat.At(w.l).secret ==> w.l !in Stored(cat, vals, ch, kv)
    ensures !cat.At(w.l).secret ==> w.l in Stored(cat, vals, ch, kv) && Stored(cat, vals, ch, kv)[w.l] == AsVal(w.v)
  {
    cat.Placed(w.l);
  }

  /** Once every write is made, the snapshots and the channels changed are as the plan says. */
  lemma StoredAll(cat: Catalog, s: State, ch: nat, kv: map<nat, IVal>, order: seq<nat>, ws: seq<Write>)
    requires Fits(cat, s.vals) && (forall k :: k in order <==> k in kv)
    requires ws == AllWrites(cat, ch, order, kv, |order|) && forall w :: w in ws ==> IsWrite(cat, ch, kv, w)
    ensures Partial(cat, s.vals, Stored(cat, s.vals, ch, kv), PlacesAt(ws, |ws|)) == Written(cat, s.vals, ch, kv)
    ensures WriteChannels(cat, s, ch, kv) == set i | 0 <= i < |ws| :: ws[i].l.ch
  {
    hide Partial, Rewritten, AllWrites, WrittenAt;
    forall l | l in s.vals && WriteAt(cat, ch, kv, l).Some?
      ensures l in PlacesAt(ws, |ws|)
    {
      var w := WritesComplete(cat, ch, order, kv, l);
    }
    VisitAll(cat, s.vals, Stored(cat, s.vals, ch, kv), PlacesAt(ws, |ws|), l => StoreAt(cat, ch, kv, l));
    forall n
      ensures n in WriteChannels(cat, s, ch, kv) <==> n in set i | 0 <= i < |ws| :: ws[i].l.ch
    {
      if n in WriteChannels(cat, s, ch, kv) {
        var l :| l in s.vals && WriteAt(cat, ch, kv, l).Some? && l.ch == n;
        var w := WritesComplete(cat, ch, order, kv, l);
        var i :| 0 <= i < |ws| && ws[i] == w;
      }
      if i :| 0 <= i < |ws| && ws[i].l.ch == n {
        assert ws[i] in ws && IsWrite(cat, ch, kv, ws[i]);
      }
    }
  }

  // ---- the check of the writes ------------------------------------------------------------------------

  /** The first of the writes from `n` on that starts a source, if it is refused. */
  function CheckFrom(cat: Catalog, s: State, ws: seq<Write>, n: nat): Option<Nack>
    requires n <= |ws|
    decreases |ws| - n
  {
    if n == |ws| then None
    else if StartsAt(cat, s.vals, ws[n].l, ws[n].v) && StartRefusal(cat, s, ws[n].l).Some? then StartRefusal(cat, s, ws[n].l)
    else CheckFrom(cat, s, ws, n + 1)
  }

  lemma {:induction false} CheckFinds(cat: Catalog, s: State, ws: seq<Write>, n: nat)
    requires n <= |ws|
    ensures CheckFrom(cat, s, ws, n).None? <==>
              forall i :: n <= i < |ws| && StartsAt(cat, s.vals, ws[i].l, ws[i].v) ==> StartRefusal(cat, s, ws[i].l).None?
    ensures CheckFrom(cat, s, ws, n).Some? ==>
              CheckFrom(cat, s, ws, n).value == if s.latch.estop then EstopActive else if s.latch.paused then Interlock else SourceConflict
    decreases |ws| - n
  {
    hide StartsAt, SourceRunning;
    if n < |ws| {
      CheckFinds(cat, s, ws, n + 1);
    }
  }

  /** The check over the writes in order refuses exactly when the plan does, with the same code. */
  lemma CheckIsRefusal(cat: Catalog, s: State, e: Entry, kv: map<nat, IVal>, order: seq<nat>, ws: seq<Write>)
    requires Fits(cat, s.vals) && e.IntentEntry? && (forall k :: k in order <==> k in kv)
    requires ws == AllWrites(cat, e.id, order, kv, |order|) && forall w :: w in ws ==> IsWrite(cat, e.id, kv, w)
    requires MoveRefusal(cat, s, e, kv).None?
    ensures CheckFrom(cat, s, ws, 0) == WriteRefusal(cat, s, e, kv)
  {
    hide AllWrites, WrittenAt, StartsAt, SourceRunning, MoveRefusal;
    CheckFinds(cat, s, ws, 0);
    forall l | l in s.vals && Starts(cat, s, e.id, kv, l)
      ensures exists i :: 0 <= i < |ws| && ws[i].l == l && StartsAt(cat, s.vals, ws[i].l, ws[i].v)
    {
      var w := WritesComplete(cat, e.id, order, kv, l);
      assert IsWrite(cat, e.id, kv, w);
    }
    forall i | 0 <= i < |ws| && StartsAt(cat, s.vals, ws[i].l, ws[i].v)
      ensures ws[i].l in s.vals && Starts(cat, s, e.id, kv, ws[i].l)
    {
      assert ws[i] in ws && IsWrite(cat, e.id, kv, ws[i]);
    }
  }

  lemma NowhereYet(ws: seq<Write>)
    ensures PlacesAt(ws, 0) == {}
  {
  }

  lemma SomeWritten(ws: seq<Write>)
    ensures |ws| > 0 <==> (set i | 0 <= i < |ws| :: ws[i].l.ch) != {}
  {
    var chs := set i | 0 <= i < |ws| :: ws[i].l.ch;
    if |ws| > 0 {
      var i := 0;
      assert 0 <= i < |ws| && ws[i].l.ch in chs;
    }
  }

  lemma MoveIsRefusal(cat: Catalog, s: State, e: Entry, kv: map<nat, IVal>)
    requires e.IntentEntry? && MoveRefusal(cat, s, e, kv).Some?
    ensures WriteRefusal(cat, s, e, kv) == MoveRefusal(cat, s, e, kv)
  {
  }
}
