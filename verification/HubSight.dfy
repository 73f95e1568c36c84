/** What sessions are shown (clients/js/localhub.js): STATE goes to ready subscribers alone, within their tier. */
module HubSight {
  import opened Bytes
  import opened Packed
  import opened HubCatalog
  import opened Hub
  import opened HubTrials
  import opened HubIntents
  import opened HubControl

  /** A place is shown anew, or with another value. */
  predicate NewAt(before: map<Loc, Val>, after: map<Loc, Val>, l: Loc) {
    l in after && !(l in before && before[l] == after[l])
  }

  /** From `c` to `d` a connection was told nothing but of channels it subscribes to, and only while ready. */
  ghost predicate Fed(c: Conn, d: Conn) {
    && d.ready == c.ready && d.roles == c.roles && d.subs == c.subs
    && (forall l :: NewAt(c.view, d.view, l) ==> c.ready && l.ch in c.subs)
    && (d.latchView != c.latchView ==> c.ready && 0x0003 in c.subs)
  }

  ghost predicate AllFed(a: map<nat, Conn>, b: map<nat, Conn>) {
    a.Keys == b.Keys && forall sid :: sid in a ==> Fed(a[sid], b[sid])
  }

  lemma FedOn(c: Conn, d: Conn, e: Conn)
    requires Fed(c, d) && Fed(d, e)
    ensures Fed(c, e)
  {
    forall l | NewAt(c.view, e.view, l)
      ensures c.ready && l.ch in c.subs
    {
      if !NewAt(d.view, e.view, l) {
        assert NewAt(c.view, d.view, l);
      }
    }
  }

  lemma AllFedOn(a: map<nat, Conn>, b: map<nat, Conn>, c: map<nat, Conn>)
    requires AllFed(a, b) && AllFed(b, c)
    ensures AllFed(a, c)
  {
    hide Fed;
    forall sid | sid in a
      ensures Fed(a[sid], c[sid])
    {
      FedOn(a[sid], b[sid], c[sid]);
    }
  }

  lemma ShowFeeds(s: State, chs: set<nat>)
    ensures AllFed(s.conns, Show(s, chs).conns)
  {
  }

  lemma LatchFeeds(s: State, latch: Latch)
    ensures AllFed(s.conns, SetLatch(s, latch).conns)
  {
  }

  lemma EstopFeeds(cat: Catalog, s: State)
    requires Fits(cat, s.vals)
    ensures AllFed(s.conns, LatchEstop(cat, s).conns)
  {
    hide Fits, Stopped, RunningChannels, Estopped, Show, SetLatch, AllFed;
    var t := s.(vals := Stopped(cat, s.vals));
    var u := Show(t, RunningChannels(cat, s.vals));
    ShowFeeds(t, RunningChannels(cat, s.vals));
    LatchFeeds(u, Estopped(cat, s.latch));
    AllFedOn(s.conns, u.conns, SetLatch(u, Estopped(cat, s.latch)).conns);
    Unfed(s.conns);
  }

  lemma Unfed(a: map<nat, Conn>)
    ensures AllFed(a, a)
  {
  }

  lemma EnactFeeds(cat: Catalog, s: State, sid: nat, ch: nat, kv: map<nat, IVal>, plan: Plan)
    requires Fits(cat, s.vals) && !plan.Refuse?
    ensures AllFed(s.conns, Enact(cat, s, sid, ch, kv, plan).s.conns)
  {
    hide Fits, EndTrials, LatchEstop, Mutated, Applied, WriteChannels, RosterChannels, Written, SetLatch, AllFed;
    Unfed(s.conns);
    match plan
    case EstopNow => EstopFeeds(cat, s);
    case To(latch) => LatchFeeds(s, latch);
    case Leaves(items, d) => MutatedConns(cat, s, items, d);
    case EndAll(commit) => EndConns(cat, s, sid, commit);
    case Writes(_) => LatchFeeds(s.(vals := Written(cat, s.vals, ch, kv)), s.latch.(homeRequired := false));
    case Keep =>
  }

  lemma PerformFeeds(cat: Catalog, s: State, sid: nat, ch: nat, kv: map<nat, IVal>, trial: bool, plan: Plan)
    requires Fits(cat, s.vals) && !plan.Refuse?
    ensures AllFed(s.conns, Perform(cat, s, sid, ch, kv, trial, plan).s.conns)
  {
    hide Enact, Settled, AllFed, Fits, MaskChannels;
    EnactFeeds(cat, s, sid, ch, kv, plan);
  }

  lemma AnswerFeeds(b: State, sid: nat, e: Entry, id: Option<nat>, o: Outcome)
    requires e.IntentEntry?
    ensures AllFed(b.conns, Answered(b, sid, e, id, o).s.conns)
  {
    hide EchoEncodable, EchoApplied, Show, AllFed;
    Unfed(b.conns);
    if !EchoThrows(e, id, o.kv) {
      var echo := Echo(b.cfgGen, id.value, EchoApplied(e, o.kv));
      EchoFeeds(b, sid, echo);
      ShowFeeds(WithEcho(b, sid, echo), o.changed);
      AllFedOn(b.conns, WithEcho(b, sid, echo).conns, Show(WithEcho(b, sid, echo), o.changed).conns);
    }
  }

  lemma EchoFeeds(b: State, sid: nat, echo: Echo)
    ensures AllFed(b.conns, WithEcho(b, sid, echo).conns)
  {
  }

  lemma IntentFeeds(cat: Catalog, s: State, sid: nat, m: Intent)
    requires Fits(cat, s.vals) && sid in s.conns
    ensures AllFed(s.conns, OnIntent(cat, s, sid, m).s.conns)
  {
    hide GateOf, PlanOf, Perform, Answered, AllFed, Fits;
    Unfed(s.conns);
    var g := GateOf(cat, s.conns[sid], m);
    if g.Pass? {
      var plan, trial := PlanOf(cat, s, sid, g.e, g.kv, OnTrial(cat, m)), OnTrial(cat, m);
      if !plan.Refuse? {
        var o := Perform(cat, s, sid, g.e.id, g.kv, trial, plan);
        PerformFeeds(cat, s, sid, g.e.id, g.kv, trial, plan);
        var b := Bumped(o.s, o.config);
        AnswerFeeds(b, sid, g.e, m.id, o);
        AllFedOn(s.conns, b.conns, Answered(b, sid, g.e, m.id, o).s.conns);
      }
    }
  }

  lemma CloseFeeds(cat: Catalog, s: State, sid: nat)
    requires Fits(cat, s.vals)
    ensures AllFed(s.conns - {sid}, OnClose(cat, s, sid).conns)
  {
    hide EndTrials, AllFed, Show, Fits;
    var t := EndTrials(cat, s.(conns := s.conns - {sid}), sid, false);
    EndConns(cat, s.(conns := s.conns - {sid}), sid, false);
    ShowFeeds(Bumped(t.s, t.moved), t.changed);
  }

  /** What a session has been shown before an event: nothing if it was not open. */
  function ViewOf(s: State, sid: nat): map<Loc, Val> {
    if sid in s.conns then s.conns[sid].view else map[]
  }

  function LatchOf(s: State, sid: nat): Option<Latch> {
    if sid in s.conns then s.conns[sid].latchView else None
  }

  /** From before an event to after it a session was shown only what it subscribes to, and only if it is ready. */
  ghost predicate ShownWell(s: State, t: State, sid: nat)
    requires sid in t.conns
  {
    var d := t.conns[sid];
    && (forall l :: NewAt(ViewOf(s, sid), d.view, l) ==> d.ready && l.ch in d.subs)
    && (d.latchView.Some? && d.latchView != LatchOf(s, sid) ==> d.ready && 0x0003 in d.subs)
    && (sid in s.conns ==> d.roles == s.conns[sid].roles)
  }

  lemma FedWell(s: State, t: State, sid: nat, a: map<nat, Conn>)
    requires AllFed(a, t.conns) && sid in t.conns && sid in a && sid in s.conns && a[sid] == s.conns[sid]
    ensures ShownWell(s, t, sid)
  {
    assert Fed(a[sid], t.conns[sid]);
  }

  lemma PushFeeds(c: Conn, vals: map<Loc, Val>, latch: Latch, chs: set<nat>)
    ensures Fed(c, Pushed1(c, vals, latch, chs))
  {
  }

  /** One connection is set to what it was, but for readiness, subscriptions and ring, or to a new one, and then fed. */
  lemma SetWell(s: State, who: nat, c: Conn, d: Conn, sid: nat)
    requires Fed(c, d) && sid in SetConn(s, who, d).conns
    requires who in s.conns ==> c.roles == s.conns[who].roles
    requires c.view == ViewOf(s, who) || c.view == map[]
    requires c.latchView == LatchOf(s, who) || c.latchView.None?
    ensures ShownWell(s, SetConn(s, who, d), sid)
  {
    if sid == who {
      forall l | NewAt(ViewOf(s, who), d.view, l)
        ensures d.ready && l.ch in d.subs
      {
        assert NewAt(c.view, d.view, l);
      }
    }
  }

  lemma UnfedConn(c: Conn)
    ensures Fed(c, c)
  {
  }

  lemma PlaneWell(cat: Catalog, s: State, ev: Event, sid: nat)
    requires Fits(cat, s.vals) && !ev.IntentFrame? && !ev.Close? && !ev.EstopFrame? && sid in Next(cat, s, ev).conns
    ensures ShownWell(s, Next(cat, s, ev), sid)
  {
    hide OnIntent, LatchEstop, OnClose, Granted, Fits, Pushed1, Fed, ShownWell;
    Unchanged(s, sid);
    if ev.Open? {
      var c := Conn(false, ev.roles, {}, [], map[], None);
      UnfedConn(c);
      if ev.sid !in s.conns {
        SetWell(s, ev.sid, c, c, sid);
      }
    } else if ev.sid in s.conns {
      var was := s.conns[ev.sid];
      match ev
      case Hello(who, etagMatches, wishes) =>
        var granted := Members(Granted(cat, was.roles, wishes));
        var c := was.(ready := etagMatches, subs := granted, ring := [], view := map[], latchView := None);
        PushFeeds(c, s.vals, s.latch, granted);
        SetWell(s, who, c, Pushed1(c, s.vals, s.latch, granted), sid);
      case CatalogReady(who) =>
        var c := was.(ready := true);
        PushFeeds(c, s.vals, s.latch, c.subs);
        SetWell(s, who, c, Pushed1(c, s.vals, s.latch, c.subs), sid);
      case Subscribe(who, wishes) =>
        var granted := Members(Granted(cat, was.roles, wishes));
        var c := was.(subs := was.subs + granted);
        PushFeeds(c, s.vals, s.latch, granted);
        SetWell(s, who, c, Pushed1(c, s.vals, s.latch, granted), sid);
      case Unsubscribe(who, chs) =>
        var c := was.(subs := was.subs - Members(chs));
        UnfedConn(c);
        SetWell(s, who, c, c, sid);
      case _ =>
    }
  }

  lemma Unchanged(s: State, sid: nat)
    ensures sid in s.conns ==> ShownWell(s, s, sid)
  {
  }

  /** STATE reaches a session on a channel only if it is ready and subscribes to it. */
  lemma NextShows(cat: Catalog, s: State, ev: Event, sid: nat)
    requires Fits(cat, s.vals) && sid in Next(cat, s, ev).conns
    ensures ShownWell(s, Next(cat, s, ev), sid)
  {
    hide OnIntent, LatchEstop, OnClose, AllFed, ShownWell, Fits;
    match ev
    case IntentFrame(who, m) =>
      if who in s.conns {
        IntentFeeds(cat, s, who, m);
        FedKeys(s.conns, OnIntent(cat, s, who, m).s.conns);
        FedWell(s, OnIntent(cat, s, who, m).s, sid, s.conns);
      } else {
        Unfed(s.conns);
        FedWell(s, s, sid, s.conns);
      }
    case EstopFrame =>
      EstopFeeds(cat, s);
      FedKeys(s.conns, LatchEstop(cat, s).conns);
      FedWell(s, LatchEstop(cat, s), sid, s.conns);
    case Close(who) =>
      if who in s.conns {
        CloseFeeds(cat, s, who);
        FedKeys(s.conns - {who}, OnClose(cat, s, who).conns);
        FedWell(s, OnClose(cat, s, who), sid, s.conns - {who});
      } else {
        Unfed(s.conns);
        FedWell(s, s, sid, s.conns);
      }
    case _ => PlaneWell(cat, s, ev, sid);
  }

  lemma FedKeys(a: map<nat, Conn>, b: map<nat, Conn>)
    requires AllFed(a, b)
    ensures a.Keys == b.Keys
  {
  }

  // ---- over a run ----------------------------------------------------------------------------------

  /** Nothing has been shown to a session above its tier. */
  ghost predicate WithinTier(cat: Catalog, s: State) {
    forall sid :: sid in s.conns ==>
      var c := s.conns[sid];
      (forall l :: l in c.view ==> Watchable(cat, c.roles, l.ch)) && (c.latchView.Some? ==> Watchable(cat, c.roles, 0x0003))
  }

  lemma NextWithin(cat: Catalog, s: State, ev: Event)
    requires Fits(cat, s.vals) && MaySee(cat, s) && WithinTier(cat, s)
    ensures MaySee(cat, Next(cat, s, ev)) && WithinTier(cat, Next(cat, s, ev))
  {
    hide Next, Watchable, Fits;
    NextMaySee(cat, s, ev);
    var t := Next(cat, s, ev);
    forall sid | sid in t.conns
      ensures forall l :: l in t.conns[sid].view ==> Watchable(cat, t.conns[sid].roles, l.ch)
      ensures t.conns[sid].latchView.Some? ==> Watchable(cat, t.conns[sid].roles, 0x0003)
    {
      NextShows(cat, s, ev, sid);
      forall l | l in t.conns[sid].view
        ensures Watchable(cat, t.conns[sid].roles, l.ch)
      {
        if !NewAt(ViewOf(s, sid), t.conns[sid].view, l) {
          assert sid in s.conns && l in s.conns[sid].view;
        }
      }
    }
  }

  /** In every state of a run no session has been shown anything of a channel above its tier, or that cannot be subscribed to. */
  lemma {:induction false} TraceWithin(cat: Catalog, states: seq<State>, evs: seq<Event>, k: nat)
    requires Trace(cat, states, evs) && MaySee(cat, states[0]) && WithinTier(cat, states[0]) && k < |states|
    ensures MaySee(cat, states[k]) && WithinTier(cat, states[k])
  {
    hide Next, MaySee, WithinTier;
    if k > 0 {
      TraceWithin(cat, states, evs, k - 1);
      NextWithin(cat, states[k - 1], evs[k - 1]);
    }
  }
}
