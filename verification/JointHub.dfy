/**
 * The hub's side of Joint is the step machine of Hub (clients/js/localhub.js), seen from one
 * connection: readiness, subscriptions, what is pushed, and which intents earn a NOT_READY.
 */
module JointHub {
  import opened Bytes
  import opened Packed
  import opened HubCatalog
  import H = Hub
  import J = Joint

  /** The channels with a snapshot. */
  function Retained(cat: Catalog): set<nat> {
    (set e | e in cat.entries && e.StateEntry? :: e.id) + {CH_SAFETY}
  }

  /** A hub as one of its connections sees it. */
  function HubOf(cat: Catalog, roles: nat, bytes: seq<byte>, etag: J.Etag): J.Hub {
    J.Hub(bytes, etag, set e | e in cat.entries && H.Grantable(cat, roles, e.id) :: e.id, Retained(cat))
  }

  /** The connection and the world agree. */
  ghost predicate Seen(cat: Catalog, c: H.Conn, w: J.World) {
    w.hub == HubOf(cat, c.roles, w.hub.bytes, w.hub.etag) && c.ready == w.hubReady && c.subs == J.Elements(w.subs)
  }

  lemma GrantableIn(cat: Catalog, roles: nat, bytes: seq<byte>, etag: J.Etag, ch: nat)
    ensures ch in HubOf(cat, roles, bytes, etag).grantable <==> H.Grantable(cat, roles, ch)
  {
    FoundIn(cat.entries, ch);
  }

  /** Both grant the same wishes. */
  lemma {:induction false} SameGrants(cat: Catalog, roles: nat, bytes: seq<byte>, etag: J.Etag, wishes: seq<nat>)
    ensures J.Granted(HubOf(cat, roles, bytes, etag), wishes) == H.Granted(cat, roles, wishes)
  {
    hide H.Grantable, HubOf;
    if wishes != [] {
      GrantableIn(cat, roles, bytes, etag, wishes[0]);
      SameGrants(cat, roles, bytes, etag, wishes[1..]);
    }
  }

  /** Pushing channels pushes those with a snapshot. */
  lemma PushesRetained(cat: Catalog, c: H.Conn, vals: map<Loc, Val>, latch: H.Latch, hub: J.Hub, chs: seq<nat>)
    requires H.Fits(cat, vals) && hub.retained == Retained(cat)
    ensures H.Pushed1(c, vals, latch, H.Members(chs)) == H.Pushed1(c, vals, latch, J.Elements(J.WithSnapshot(hub, chs)))
  {
    forall ch
      ensures ch in J.WithSnapshot(hub, chs) <==> ch in chs && ch in hub.retained
    {
      J.SnapshotsRetained(hub, chs, ch);
    }
    forall l | l in vals
      ensures l.ch in Retained(cat)
    {
      cat.Placed(l);
    }
    assert (map l | l in vals && l.ch in H.Members(chs) && l.ch in c.subs :: vals[l])
        == (map l | l in vals && l.ch in J.Elements(J.WithSnapshot(hub, chs)) && l.ch in c.subs :: vals[l]);
  }

  /** What the hub sends beside the WELCOME or nothing: the STATE of these channels. */
  function Sent(hub: J.Hub, ready: bool, chs: seq<nat>): seq<J.Down> {
    if ready then J.Pushes(J.WithSnapshot(hub, chs)) else []
  }

  lemma Pushed1Idle(c: H.Conn, vals: map<Loc, Val>, latch: H.Latch, chs: set<nat>)
    ensures !c.ready ==> H.Pushed1(c, vals, latch, chs) == c
    ensures var d := H.Pushed1(c, vals, latch, chs); d.ready == c.ready && d.roles == c.roles && d.subs == c.subs && d.ring == c.ring
  {
  }

  /** A HELLO: the same readiness and subscriptions, and STATE of exactly the channels whose snapshot is shown. */
  lemma HelloSame(cat: Catalog, s: H.State, sid: nat, w: J.World, offered: Option<J.Etag>, wishes: seq<nat>)
    requires H.Fits(cat, s.vals) && sid in s.conns && Seen(cat, s.conns[sid], w)
    ensures var ready, u := offered == Some(w.hub.etag), J.HubTakes(w, J.Hello(offered, wishes));
            var t, grants := H.OnHello(cat, s, sid, ready, wishes), H.Granted(cat, s.conns[sid].roles, wishes);
            && Seen(cat, t.conns[sid], u)
            && u.down == w.down + [J.Welcome(w.hub.etag, grants, |J.WithSnapshot(w.hub, grants)|)] + Sent(w.hub, ready, grants)
            && t.conns[sid] == H.Pushed1(H.Conn(ready, s.conns[sid].roles, H.Members(grants), [], map[], None), s.vals, s.latch,
                                         J.Elements(J.WithSnapshot(w.hub, grants)))
  {
    hide J.Granted, H.Granted, J.WithSnapshot, J.Pushes, H.Fits;
    var c := s.conns[sid];
    var ready, grants := offered == Some(w.hub.etag), H.Granted(cat, c.roles, wishes);
    SameGrants(cat, c.roles, w.hub.bytes, w.hub.etag, wishes);
    var d := H.Conn(ready, c.roles, H.Members(grants), [], map[], None);
    PushesRetained(cat, d, s.vals, s.latch, w.hub, grants);
    Pushed1Idle(d, s.vals, s.latch, H.Members(grants));
    assert J.Elements(J.Added([], grants)) == H.Members(grants);
  }

  /** A CATALOG_READY opens both gates alike. */
  lemma ReadySame(cat: Catalog, s: H.State, sid: nat, w: J.World, etag: Option<J.Etag>)
    requires H.Fits(cat, s.vals) && sid in s.conns && Seen(cat, s.conns[sid], w)
    ensures var t, u := H.OnCatalogReady(s, sid), J.HubTakes(w, J.CatalogReady(etag));
            && Seen(cat, t.conns[sid], u)
            && u.down == w.down + Sent(w.hub, !w.hubReady, w.subs)
            && t.conns[sid] == (if w.hubReady then s.conns[sid]
                                else H.Pushed1(s.conns[sid].(ready := true), s.vals, s.latch, J.Elements(J.WithSnapshot(w.hub, w.subs))))
  {
    hide J.WithSnapshot, J.Pushes, H.Fits;
    var c := s.conns[sid];
    if c.ready {
      NothingAfter(w.down);
    } else {
      PushesRetained(cat, c.(ready := true), s.vals, s.latch, w.hub, w.subs);
      assert H.Members(w.subs) == c.subs;
      Pushed1Idle(c.(ready := true), s.vals, s.latch, c.subs);
    }
  }

  /** A SUBSCRIBE adds the same channels and pushes the same snapshots. */
  lemma SubscribeSame(cat: Catalog, s: H.State, sid: nat, w: J.World, wishes: seq<nat>)
    requires H.Fits(cat, s.vals) && sid in s.conns && Seen(cat, s.conns[sid], w)
    ensures var t, u := H.OnSubscribe(cat, s, sid, wishes), J.HubTakes(w, J.Subscribe(wishes));
            var grants := if |wishes| > J.MAX_WISHES then [] else H.Granted(cat, s.conns[sid].roles, wishes);
            && Seen(cat, t.conns[sid], u)
            && u.down == w.down + Sent(w.hub, w.hubReady, grants)
            && t.conns[sid] == H.Pushed1(s.conns[sid].(subs := s.conns[sid].subs + H.Members(grants)), s.vals, s.latch,
                                         J.Elements(J.WithSnapshot(w.hub, grants)))
  {
    hide J.Granted, H.Granted, J.WithSnapshot, J.Pushes, H.Fits;
    var c := s.conns[sid];
    if |wishes| > J.MAX_WISHES {
      NothingSubscribed(w, c, s.vals, s.latch);
    } else {
      var grants := H.Granted(cat, c.roles, wishes);
      SameGrants(cat, c.roles, w.hub.bytes, w.hub.etag, wishes);
      var d := c.(subs := c.subs + H.Members(grants));
      PushesRetained(cat, d, s.vals, s.latch, w.hub, grants);
      Pushed1Idle(d, s.vals, s.latch, H.Members(grants));
      assert J.Elements(J.Added(w.subs, grants)) == c.subs + H.Members(grants);
    }
  }

  lemma NothingSubscribed(w: J.World, c: H.Conn, vals: map<Loc, Val>, latch: H.Latch)
    ensures w.down + Sent(w.hub, w.hubReady, []) == w.down
    ensures H.Pushed1(c.(subs := c.subs + H.Members([])), vals, latch, J.Elements(J.WithSnapshot(w.hub, []))) == c
  {
    assert c.subs + H.Members([]) == c.subs && J.WithSnapshot(w.hub, []) == [];
    assert J.Pushes([]) == [] && w.down + [] == w.down;
    if c.ready {
      assert (map l | l in vals && l.ch in J.Elements([]) && l.ch in c.subs :: vals[l]) == map[];
    }
  }

  lemma UnsubscribeSame(cat: Catalog, s: H.State, sid: nat, w: J.World, chs: seq<nat>)
    requires H.Fits(cat, s.vals) && sid in s.conns && Seen(cat, s.conns[sid], w)
    ensures Seen(cat, H.Next(cat, s, H.Unsubscribe(sid, chs)).conns[sid], J.HubTakes(w, J.Unsubscribe(H.Members(chs))))
  {
    var c := s.conns[sid];
    assert J.Elements(J.Removed(w.subs, H.Members(chs))) == c.subs - H.Members(chs);
  }

  /** An intent that is well addressed and no pause or stop earns a NOT_READY exactly while the world's gate is shut. */
  lemma NotReadySame(cat: Catalog, c: H.Conn, w: J.World, m: H.Intent, e: Entry)
    requires Seen(cat, c, w) && cat.Find(m.ch) == Some(e) && e.IntentEntry? && m.value.Some? && !H.Exempt(e, m.value.value)
    ensures H.GateOf(cat, c, m) == H.Stop(H.NotReady) <==> !w.hubReady
  {
    hide H.Exempt, H.EchoIn;
    CodesOf(e, c.roles, m.value.value, map[]);
  }

  lemma {:induction false} CodesOf(e: Entry, roles: nat, value: seq<H.KV>, sofar: map<nat, IVal>)
    requires e.IntentEntry?
    ensures H.Validated(e, roles, value, sofar) != H.Bad(H.NotReady)
    decreases value
  {
    hide FieldByKey, Coerced, NeedFor;
    if value != [] {
      var f := FieldByKey(e.schema, value[0].key);
      if f.Some? && roles >= NeedFor(e, f.value, value[0].v) && Coerced(f.value, value[0].v).Some? {
        CodesOf(e, roles, value[1..], sofar[value[0].key := Coerced(f.value, value[0].v).value]);
      }
    }
  }
}
