/**
 * The client's session (clients/js/session.js) and its hub connection (clients/js/localhub.js)
 * together: when the client goes LIVE, and what then holds on both sides.
 */
module Joint {
  import opened Bytes
  import opened Blob

  type Etag = seq<byte>

  /** What both sides take from elsewhere: the etag digest, the catalog decoder, the client's size cap. */
  datatype Env = Env(digest: seq<byte> -> Etag, decodes: seq<byte> -> bool, max: nat)

  /** A hub: its catalog bytes, their etag, the channels it grants, and those with a retained snapshot. */
  datatype Hub = Hub(bytes: seq<byte>, etag: Etag, grantable: set<nat>, retained: set<nat>)

  datatype Up =
    | Hello(offered: Option<Etag>, wishes: seq<nat>)
    | BlobReq(want: Option<seq<nat>>)
    | BlobDone(verified: bool)
    | CatalogReady(etag: Option<Etag>)
    | Intent
    | Subscribe(wishes: seq<nat>)
    | Unsubscribe(chs: set<nat>)

  datatype Down =
    | Welcome(etag: Etag, grants: seq<nat>, retainedPending: nat)
    | State(ch: nat)
    | BlobChunk(h: Chunk)
    | NotReady

  datatype Phase = Closed | HelloSent | Syncing | Live

  /**
   * The session. `etag` is what the WELCOME announced, `readyEtag` what the client last declared, and
   * `pending` says that the declaration is repeated until STATE comes; `delivered` records the channels
   * whose STATE came since the WELCOME.
   */
  datatype Client = Client(
    phase: Phase, catalog: Option<seq<byte>>, cached: Option<seq<byte>>, grants: set<nat>, adopted: set<nat>,
    required: nat, inFlight: bool, rx: Rx, resyncing: bool, etag: Option<Etag>, readyEtag: Option<Etag>,
    pending: bool, delivered: set<nat>)

  /** A session's step: its new state, what it sends, and whether it gives the socket up. */
  datatype Taken = Taken(c: Client, out: seq<Up>, quits: bool)

  // ---- the client -----------------------------------------------------------------------------

  function Elements(s: seq<nat>): set<nat> {
    set x | x in s
  }

  /** `checkLiveTransition`. */
  function Checked(c: Client): Client {
    if c.resyncing || c.phase != Syncing || c.catalog.None? || |c.adopted| < c.required then c
    else c.(phase := Live)
  }

  function Offered(env: Env, cached: Option<seq<byte>>): Option<Etag> {
    if cached.Some? then Some(env.digest(cached.value)) else None
  }

  /** The WELCOME confirms the cached catalog. */
  predicate Matched(env: Env, c: Client, etag: Etag) {
    c.cached.Some? && env.digest(c.cached.value) == etag
  }

  /** It does, and the catalog still decodes. */
  predicate FastPath(env: Env, c: Client, etag: Etag) {
    Matched(env, c, etag) && env.decodes(c.cached.value)
  }

  /** What a WELCOME resets. */
  function Noted(env: Env, c: Client, etag: Etag, grants: set<nat>, retainedPending: nat): Client {
    c.(phase := Syncing, grants := grants, adopted := {}, required := retainedPending,
       rx := Off, resyncing := false, etag := Some(etag), pending := false, delivered := {},
       readyEtag := if Matched(env, c, etag) then Some(etag) else c.readyEtag)
  }

  /** `handleWelcome`: the old decoder ring stays until another is adopted. */
  function Welcomed(env: Env, c: Client, etag: Etag, grants: seq<nat>, retainedPending: nat): Taken {
    var base := Noted(env, c, etag, Elements(grants), retainedPending);
    if FastPath(env, c, etag) then Taken(Checked(base.(catalog := c.cached)), [], false)
    else Taken(Checked(base.(cached := None, inFlight := true)), [BlobReq(None)], false)
  }

  /** `handleState`. */
  function Stated(c: Client, ch: nat): Client {
    var d := if c.resyncing && c.phase == Syncing then c.(resyncing := false, phase := Live) else c;
    var e := d.(delivered := d.delivered + {ch}, pending := false);
    if ch in e.grants && ch !in e.adopted then Checked(e.(adopted := e.adopted + {ch})) else e
  }

  /** A chunk with these numbers starts the catalog's reassembly over. */
  predicate CatalogRestarts(rx: Rx, h: Chunk) {
    rx.Off? || |rx.got| != h.count || rx.total != h.total
  }

  /** A complete catalog is checked against the announced etag, and if it decodes adopted and declared. */
  function Completed(env: Env, c: Client, bytes: seq<byte>): Taken {
    var d, digest := c.(rx := Off, inFlight := false), env.digest(bytes);
    var done := BlobDone(c.etag == Some(digest));
    if env.decodes(bytes) then
      Taken(Checked(d.(catalog := Some(bytes), readyEtag := Some(digest), pending := true)),
            [done, CatalogReady(Some(digest))], false)
    else Taken(d, [done], false)
  }

  /** `handleBlobChunk` for the catalog. */
  function Chunked(env: Env, c: Client, h: Chunk): Taken {
    if h.target.ns != 0 || h.count == 0 || h.index >= h.count || !c.inFlight then Taken(c, [], false)
    else if CatalogRestarts(c.rx, h) && h.total > env.max then Taken(c, [], true)
    else
      var rx := CatalogReceived(env.max, c.rx, h);
      if !(Belongs(if CatalogRestarts(c.rx, h) then Begun(env.max, h) else c.rx, h) && Complete(rx))
      then Taken(c.(rx := rx), [], false)
      else Completed(env, c, rx.buf)
  }

  /** A NACK NOT_READY takes a LIVE session back to SYNCING, and the held catalog is declared again. */
  function Demoted(c: Client): Taken {
    if c.phase == Live then Taken(c.(resyncing := true, phase := Syncing, pending := true), [CatalogReady(c.readyEtag)], false)
    else Taken(c, [], false)
  }

  function Take(env: Env, c: Client, m: Down): Taken {
    match m
    case Welcome(etag, grants, retainedPending) => Welcomed(env, c, etag, grants, retainedPending)
    case State(ch) => Taken(Stated(c, ch), [], false)
    case BlobChunk(h) => Chunked(env, c, h)
    case NotReady => Demoted(c)
  }

  // ---- the hub's side of the connection ----------------------------------------------------------

  /** `grantsFor`: the wishes that are granted, in order, repeats and all. */
  function Granted(hub: Hub, wishes: seq<nat>): seq<nat> {
    if wishes == [] then []
    else (if wishes[0] in hub.grantable then [wishes[0]] else []) + Granted(hub, wishes[1..])
  }

  function WithSnapshot(hub: Hub, chs: seq<nat>): seq<nat> {
    if chs == [] then []
    else (if chs[0] in hub.retained then [chs[0]] else []) + WithSnapshot(hub, chs[1..])
  }

  function Pushes(chs: seq<nat>): seq<Down> {
    seq(|chs|, i requires 0 <= i < |chs| => State(chs[i]))
  }

  function Chunks(hub: Hub, want: Option<seq<nat>>): seq<Down> {
    if !Sendable(hub.bytes) then []
    else
      var cs := Cuts(CATALOG, 0, hub.bytes, if want.Some? then want.value else Everything(CountOf(|hub.bytes|)));
      seq(|cs|, i requires 0 <= i < |cs| => BlobChunk(cs[i]))
  }

  /**
   * A client and the hub it is connected to, with the frames under way in each direction; `offered` is
   * the etag the client offered in its HELLO.
   */
  datatype World = World(
    hub: Hub, wishes: seq<nat>, offered: Option<Etag>, client: Client, connected: bool, up: seq<Up>, down: seq<Down>,
    hubReady: bool, subs: seq<nat>)

  const MAX_WISHES := 16

  /** The hub takes one frame. */
  function HubTakes(w: World, m: Up): World
  {
    match m
    case Hello(offered, wishes) =>
      var ready := offered == Some(w.hub.etag);
      var grants := Granted(w.hub, wishes);
      var kept := WithSnapshot(w.hub, grants);
      w.(hubReady := ready, subs := Added([], grants),
         down := w.down + [Welcome(w.hub.etag, grants, |kept|)] + (if ready then Pushes(kept) else []))
    case BlobReq(want) => w.(down := w.down + Chunks(w.hub, want))
    case BlobDone(_) => w
    case CatalogReady(_) =>
      if w.hubReady then w else w.(hubReady := true, down := w.down + Pushes(WithSnapshot(w.hub, w.subs)))
    case Intent => if w.hubReady then w else w.(down := w.down + [NotReady])
    case Subscribe(wishes) =>
      if |wishes| > MAX_WISHES then w // SUBSCRIBE_REJECTED
      else
        var grants := Granted(w.hub, wishes);
        w.(subs := Added(w.subs, grants),
           down := w.down + (if w.hubReady then Pushes(WithSnapshot(w.hub, grants)) else []))
    case Unsubscribe(chs) => w.(subs := Removed(w.subs, chs))
  }

  /** A `Set` in insertion order, with more members. */
  function Added(s: seq<nat>, xs: seq<nat>): (r: seq<nat>)
    ensures forall x :: x in r <==> x in s || x in xs
    decreases xs
  {
    if xs == [] then s else Added(if xs[0] in s then s else s + [xs[0]], xs[1..])
  }

  function Removed(s: seq<nat>, chs: set<nat>): (r: seq<nat>)
    ensures forall x :: x in r <==> x in s && x !in chs
  {
    if s == [] then [] else (if s[0] in chs then [] else [s[0]]) + Removed(s[1..], chs)
  }

  // ---- steps of the two together -------------------------------------------------------------------

  datatype Event =
    | Connect(hub: Hub, wishes: seq<nat>, cached: Option<seq<byte>>)
    | HubStep
    | ClientStep
    | SendIntent
    | Repair
    | RestartCatalog
    | Redeclare
    | GiveUp
    | SendSubscribe(wishes: seq<nat>)
    | SendUnsubscribe(chs: set<nat>)
    | Broadcast(ch: nat)
    | Drop

  function Disconnected(w: World): World {
    w.(connected := false, up := [], down := [], hubReady := false, subs := [],
       client := w.client.(phase := Closed, inFlight := false))
  }

  function Missing(rx: Rx): seq<nat> {
    if rx.On? then Head(MissingFrom(rx.got, 0)) else []
  }

  function Next(env: Env, w: World, ev: Event): World
  {
    match ev
    case Connect(hub, wishes, cached) =>
      if w.connected then w
      else
        World(hub, wishes, Offered(env, cached), w.client.(phase := HelloSent, cached := cached), true,
              [Hello(Offered(env, cached), wishes)], [], false, [])
    case HubStep => if w.up == [] then w else HubTakes(w.(up := w.up[1..]), w.up[0])
    case ClientStep =>
      if w.down == [] then w
      else
        var t := Take(env, w.client, w.down[0]);
        if t.quits then Disconnected(w) else w.(client := t.c, down := w.down[1..], up := w.up + t.out)
    case SendIntent => if w.client.phase == Live then w.(up := w.up + [Intent]) else w
    case Repair =>
      if w.connected && w.client.rx.On? && w.client.inFlight && Missing(w.client.rx) != []
      then w.(up := w.up + [BlobReq(Some(Missing(w.client.rx)))]) else w
    case RestartCatalog =>
      if w.connected && w.client.inFlight
      then w.(client := w.client.(rx := Off), up := w.up + [BlobReq(None)]) else w
    case Redeclare =>
      if w.connected && (w.client.phase == Syncing || w.client.phase == Live) && w.client.pending
      then w.(up := w.up + [CatalogReady(w.client.readyEtag)]) else w
    case GiveUp => w.(client := w.client.(pending := false))
    case SendSubscribe(wishes) =>
      if w.connected && (w.client.phase == Syncing || w.client.phase == Live) then w.(up := w.up + [Subscribe(wishes)]) else w
    case SendUnsubscribe(chs) =>
      if w.connected && (w.client.phase == Syncing || w.client.phase == Live) then w.(up := w.up + [Unsubscribe(chs)]) else w
    case Broadcast(ch) =>
      if w.connected && w.hubReady && ch in w.subs && ch in w.hub.retained then w.(down := w.down + [State(ch)]) else w
    case Drop => Disconnected(w)
  }

  /** A hub whose catalog the client can hold and decode, and whose etag names no other bytes. */
  ghost predicate Holdable(env: Env, hub: Hub) {
    && Sendable(hub.bytes) && 0 < |hub.bytes| <= env.max && env.decodes(hub.bytes) && hub.etag == env.digest(hub.bytes)
    && (forall b: seq<byte> :: env.digest(b) == env.digest(hub.bytes) ==> b == hub.bytes)
  }

  /** The WELCOME gives the client something to wait for, or the HELLO offered the catalog of the hub. */
  predicate Promised(hub: Hub, wishes: seq<nat>, offered: Option<Etag>) {
    RetainedGrants(hub, wishes) != [] || offered == Some(hub.etag)
  }

  ghost predicate Fair(env: Env, hub: Hub, wishes: seq<nat>, offered: Option<Etag>) {
    Holdable(env, hub) && Promised(hub, wishes, offered)
  }

  /** The retained channels granted in WELCOME, as its `retained_pending` counts them. */
  function RetainedGrants(hub: Hub, wishes: seq<nat>): seq<nat> {
    WithSnapshot(hub, Granted(hub, wishes))
  }

  // ---- what every reachable world keeps -----------------------------------------------------------

  ghost predicate IsChunk(hub: Hub, h: Chunk) {
    Sendable(hub.bytes) && h.index < CountOf(|hub.bytes|) && h == Cut(CATALOG, 0, hub.bytes, h.index)
  }

  ghost predicate UpOk(w: World, m: Up) {
    match m
    case Hello(_, _) => false
    case BlobDone(verified) => verified
    case CatalogReady(etag) => w.client.catalog == Some(w.hub.bytes) && etag == Some(w.hub.etag)
    case Intent => w.hubReady
    case _ => true
  }

  ghost predicate DownOk(hub: Hub, ready: bool, m: Down) {
    match m
    case Welcome(_, _, _) => false
    case State(ch) => ready && ch in hub.retained
    case BlobChunk(h) => IsChunk(hub, h)
    case NotReady => false
  }

  ghost predicate DownsOk(hub: Hub, ready: bool, ms: seq<Down>) {
    forall i :: 0 <= i < |ms| ==> DownOk(hub, ready, ms[i])
  }

  ghost predicate UpsOk(w: World, ms: seq<Up>) {
    forall i :: 0 <= i < |ms| ==> UpOk(w, ms[i])
  }

  ghost predicate AwaitsHub(env: Env, w: World) {
    && w.client.phase == HelloSent && !w.client.inFlight && w.down == [] && !w.hubReady
    && w.up == [Hello(w.offered, w.wishes)] && w.offered == Offered(env, w.client.cached)
  }

  ghost predicate AwaitsWelcome(env: Env, w: World) {
    && w.client.phase == HelloSent && !w.client.inFlight && w.up == [] && w.down != []
    && w.down[0] == Welcome(w.hub.etag, Granted(w.hub, w.wishes), |RetainedGrants(w.hub, w.wishes)|)
    && DownsOk(w.hub, w.hubReady, w.down[1..])
    && (w.hubReady ==> w.client.cached == Some(w.hub.bytes)) && (RetainedGrants(w.hub, w.wishes) == [] ==> w.hubReady)
  }

  ghost predicate InSession(w: World) {
    var c := w.client;
    && (c.phase == Syncing || c.phase == Live) && !c.resyncing
    && UpsOk(w, w.up) && DownsOk(w.hub, w.hubReady, w.down)
    && c.required == |RetainedGrants(w.hub, w.wishes)| && c.grants == Elements(Granted(w.hub, w.wishes))
    && c.adopted <= c.delivered * c.grants && c.delivered <= w.hub.retained
    && (c.delivered != {} || RetainedGrants(w.hub, w.wishes) == [] ==> w.hubReady)
    && (w.hubReady ==> c.catalog == Some(w.hub.bytes)) && c.etag == Some(w.hub.etag)
    && (c.pending ==> c.catalog == Some(w.hub.bytes) && c.readyEtag == Some(w.hub.etag))
    && (c.phase == Live ==> |c.adopted| >= c.required)
    && (c.rx.On? ==> Holds(c.rx, CATALOG, w.hub.bytes))
  }

  ghost predicate Inv(env: Env, w: World) {
    if w.connected then Fair(env, w.hub, w.wishes, w.offered) && (AwaitsHub(env, w) || AwaitsWelcome(env, w) || InSession(w))
    else w.client.phase == Closed && !w.client.inFlight && w.up == [] && w.down == []
  }

  // ---- the hub's answers ---------------------------------------------------------------------------

  lemma {:induction false} SnapshotsRetained(hub: Hub, chs: seq<nat>, x: nat)
    ensures x in WithSnapshot(hub, chs) <==> x in chs && x in hub.retained
  {
    if chs != [] {
      SnapshotsRetained(hub, chs[1..], x);
      InJoin(if chs[0] in hub.retained then [chs[0]] else [], WithSnapshot(hub, chs[1..]), x);
      InJoin([chs[0]], chs[1..], x);
      assert [chs[0]] + chs[1..] == chs;
    }
  }

  lemma PushesOk(hub: Hub, chs: seq<nat>)
    ensures DownsOk(hub, true, Pushes(WithSnapshot(hub, chs)))
  {
    var kept := WithSnapshot(hub, chs);
    forall i | 0 <= i < |kept|
      ensures DownOk(hub, true, Pushes(kept)[i])
    {
      SnapshotsRetained(hub, chs, kept[i]);
    }
  }

  lemma {:induction false} CutsAre(hub: Hub, want: seq<nat>)
    requires Sendable(hub.bytes)
    ensures forall i :: 0 <= i < |Cuts(CATALOG, 0, hub.bytes, want)| ==> IsChunk(hub, Cuts(CATALOG, 0, hub.bytes, want)[i])
  {
    hide Cut;
    if want != [] {
      CutsAre(hub, want[1..]);
      if want[0] < CountOf(|hub.bytes|) {
        CutIs(CATALOG, 0, hub.bytes, want[0]);
      }
    }
  }

  lemma ChunksOk(hub: Hub, ready: bool, want: Option<seq<nat>>)
    ensures DownsOk(hub, ready, Chunks(hub, want))
  {
    hide IsChunk;
    if Sendable(hub.bytes) {
      CutsAre(hub, if want.Some? then want.value else Everything(CountOf(|hub.bytes|)));
    }
  }

  lemma DownsJoin(hub: Hub, ready: bool, a: seq<Down>, b: seq<Down>)
    requires DownsOk(hub, ready, a) && DownsOk(hub, ready, b)
    ensures DownsOk(hub, ready, a + b)
  {
  }

  lemma DownsGrow(hub: Hub, ready: bool, a: seq<Down>)
    requires DownsOk(hub, ready, a)
    ensures DownsOk(hub, true, a)
  {
    hide IsChunk;
  }

  lemma HelloTaken(env: Env, w: World)
    requires Fair(env, w.hub, w.wishes, w.offered) && AwaitsHub(env, w) && w.connected
    ensures AwaitsWelcome(env, HubTakes(w.(up := []), w.up[0]))
  {
    hide Granted, WithSnapshot, Pushes, DownOk;
    var kept := RetainedGrants(w.hub, w.wishes);
    var u := HubTakes(w.(up := []), w.up[0]);
    PushesOk(w.hub, Granted(w.hub, w.wishes));
    assert u.down[1..] == if u.hubReady then Pushes(kept) else [];
  }

  lemma UpsTail(w: World, u: World)
    requires UpsOk(w, w.up) && w.up != [] && u.up == w.up[1..]
    requires u.hub == w.hub && u.client == w.client && (w.hubReady ==> u.hubReady)
    ensures UpsOk(u, u.up)
  {
    forall i | 0 <= i < |u.up|
      ensures UpOk(u, u.up[i])
    {
      assert UpOk(w, w.up[i + 1]);
    }
  }

  lemma HubKeeps(env: Env, w: World)
    requires InSession(w) && w.up != []
    ensures InSession(HubTakes(w.(up := w.up[1..]), w.up[0]))
  {
    hide Granted, WithSnapshot, Pushes, Chunks, DownOk, Holds;
    var m, v := w.up[0], w.(up := w.up[1..]);
    assert UpOk(w, m);
    var u := HubTakes(v, m);
    UpsTail(w, u);
    match m {
      case BlobReq(want) =>
        ChunksOk(w.hub, w.hubReady, want);
        DownsJoin(w.hub, w.hubReady, w.down, Chunks(w.hub, want));
      case CatalogReady(_) =>
        if !w.hubReady {
          PushesOk(w.hub, w.subs);
          DownsGrow(w.hub, w.hubReady, w.down);
          DownsJoin(w.hub, true, w.down, Pushes(WithSnapshot(w.hub, w.subs)));
        }
      case Subscribe(wishes) =>
        if w.hubReady && |wishes| <= MAX_WISHES {
          PushesOk(w.hub, Granted(w.hub, wishes));
          DownsJoin(w.hub, true, w.down, Pushes(WithSnapshot(w.hub, Granted(w.hub, wishes))));
        } else {
          NothingAfter(w.down);
        }
      case _ =>
    }
  }

  // ---- the client's steps --------------------------------------------------------------------------

  /** The client's part of a session world. */
  ghost predicate Tracks(w: World, c: Client) {
    && (c.phase == Syncing || c.phase == Live) && !c.resyncing
    && c.required == |RetainedGrants(w.hub, w.wishes)| && c.grants == Elements(Granted(w.hub, w.wishes))
    && c.adopted <= c.delivered * c.grants && c.delivered <= w.hub.retained
    && (c.delivered != {} || RetainedGrants(w.hub, w.wishes) == [] ==> w.hubReady)
    && (w.hubReady ==> c.catalog == Some(w.hub.bytes)) && c.etag == Some(w.hub.etag)
    && (c.pending ==> c.catalog == Some(w.hub.bytes) && c.readyEtag == Some(w.hub.etag))
    && (c.phase == Live ==> |c.adopted| >= c.required)
    && (c.rx.On? ==> Holds(c.rx, CATALOG, w.hub.bytes))
  }

  lemma WelcomeTaken(env: Env, w: World)
    requires Fair(env, w.hub, w.wishes, w.offered) && AwaitsWelcome(env, w)
    ensures var t := Take(env, w.client, w.down[0]);
            !t.quits && Tracks(w, t.c) && (t.out == [] || t.out == [BlobReq(None)])
  {
    hide Granted, WithSnapshot, Holds, DownsOk;
    var c := w.client;
    if w.hubReady {
      assert FastPath(env, c, env.digest(w.hub.bytes));
    }
  }

  lemma StateTaken(w: World, c: Client, ch: nat)
    requires Tracks(w, c) && w.hubReady && ch in w.hub.retained
    ensures Tracks(w, Stated(c, ch)) && Stated(c, ch).catalog == c.catalog
  {
    hide Granted, WithSnapshot, Holds, Elements;
  }

  /** What the client says when the catalog of the hub is in. */
  function Declared(hub: Hub): seq<Up> {
    [BlobDone(true), CatalogReady(Some(hub.etag))]
  }

  lemma ChunkTaken(env: Env, w: World, c: Client, h: Chunk)
    requires Fair(env, w.hub, w.wishes, w.offered) && Tracks(w, c) && IsChunk(w.hub, h)
    ensures var t := Chunked(env, c, h);
            && !t.quits && Tracks(w, t.c)
            && (t.out == [] || (t.out == Declared(w.hub) && t.c.catalog == Some(w.hub.bytes)))
            && (t.c.catalog == c.catalog || t.c.catalog == Some(w.hub.bytes))
  {
    hide Granted, WithSnapshot, Holds, Cut, Complete, Inserted, Elements, Belongs;
    var b := w.hub.bytes;
    CutIs(CATALOG, 0, b, h.index);
    if c.inFlight {
      var start := if CatalogRestarts(c.rx, h) then Begun(env.max, h) else c.rx;
      if CatalogRestarts(c.rx, h) {
        BegunHolds(env.max, CATALOG, 0, b, h.index);
      }
      InsertHolds(start, CATALOG, 0, b, h.index);
      var rx := CatalogReceived(env.max, c.rx, h);
      assert rx == Inserted(start, h);
      if Complete(rx) {
        CompleteIsBlob(rx, CATALOG, b);
      }
    }
  }

  /** A client that tracks its world, with frames in order, is in session. */
  lemma TracksSession(w: World, c: Client, down: seq<Down>, up: seq<Up>)
    requires Tracks(w, c) && DownsOk(w.hub, w.hubReady, down) && UpsOk(w.(client := c), up)
    ensures InSession(w.(client := c, down := down, up := up))
  {
    hide Granted, WithSnapshot, Holds, DownOk;
    var u := w.(client := c, down := down, up := up);
    forall i | 0 <= i < |up|
      ensures UpOk(u, up[i])
    {
      assert UpOk(w.(client := c), up[i]);
    }
  }

  lemma UpsAfter(w: World, c: Client, up: seq<Up>, out: seq<Up>)
    requires UpsOk(w, up) && (c.catalog == w.client.catalog || c.catalog == Some(w.hub.bytes))
    requires out == [] || out == [BlobReq(None)] || (out == Declared(w.hub) && c.catalog == Some(w.hub.bytes))
    ensures UpsOk(w.(client := c), up + out)
  {
    forall i | 0 <= i < |up + out|
      ensures UpOk(w.(client := c), (up + out)[i])
    {
      if i < |up| {
        assert UpOk(w, up[i]);
      }
    }
  }

  lemma DownsTail(hub: Hub, ready: bool, ms: seq<Down>)
    requires DownsOk(hub, ready, ms) && ms != []
    ensures DownsOk(hub, ready, ms[1..]) && DownOk(hub, ready, ms[0])
  {
    hide DownOk;
  }

  lemma SessionTracks(w: World)
    requires InSession(w)
    ensures Tracks(w, w.client) && UpsOk(w, w.up) && DownsOk(w.hub, w.hubReady, w.down)
  {
  }

  lemma ClientKeeps(env: Env, w: World)
    requires Fair(env, w.hub, w.wishes, w.offered) && w.down != [] && (InSession(w) || AwaitsWelcome(env, w))
    ensures var t := Take(env, w.client, w.down[0]);
            !t.quits && InSession(w.(client := t.c, down := w.down[1..], up := w.up + t.out))
  {
    hide Granted, WithSnapshot, Holds, UpsOk, DownsOk, Stated, Chunked, Welcomed, Tracks;
    var m, t := w.down[0], Take(env, w.client, w.down[0]);
    if AwaitsWelcome(env, w) {
      WelcomeTaken(env, w);
      assert UpsOk(w.(client := t.c), w.up + t.out) by { FreshUps(w.(client := t.c), t.out); }
    } else {
      SessionTracks(w);
      DownsTail(w.hub, w.hubReady, w.down);
      match m
      case State(ch) =>
        StateTaken(w, w.client, ch);
        UpsAfter(w, t.c, w.up, t.out);
      case BlobChunk(h) =>
        ChunkTaken(env, w, w.client, h);
        UpsAfter(w, t.c, w.up, t.out);
    }
    TracksSession(w, t.c, w.down[1..], w.up + t.out);
  }

  lemma FreshUps(w: World, out: seq<Up>)
    requires out == [] || out == [BlobReq(None)]
    ensures UpsOk(w, [] + out)
  {
  }

  /** Frames that claim nothing of the hub. */
  lemma PlainUp(w: World, c: Client, m: Up)
    requires InSession(w) && Tracks(w, c) && c.catalog == w.client.catalog
    requires m.BlobReq? || m.Subscribe? || m.Unsubscribe? || (m.Intent? && w.hubReady)
             || (m.CatalogReady? && c.catalog == Some(w.hub.bytes) && m.etag == Some(w.hub.etag))
    ensures InSession(w.(client := c, up := w.up + [m]))
  {
    hide Granted, WithSnapshot, Holds, DownOk;
    forall i | 0 <= i < |w.up + [m]|
      ensures UpOk(w.(client := c), (w.up + [m])[i])
    {
      if i < |w.up| {
        assert UpOk(w, w.up[i]);
      }
    }
    TracksSession(w, c, w.down, w.up + [m]);
  }

  /** A LIVE session has been told STATE, or its HELLO was enough: its hub is ready. */
  lemma LiveIsReady(env: Env, w: World)
    requires Fair(env, w.hub, w.wishes, w.offered) && InSession(w) && w.client.phase == Live
    ensures w.hubReady
  {
    hide Granted, WithSnapshot, Holds;
    if RetainedGrants(w.hub, w.wishes) != [] {
      assert w.client.adopted != {};
    }
  }

  lemma NextInv(env: Env, w: World, ev: Event)
    requires Inv(env, w) && (ev.Connect? ==> Fair(env, ev.hub, ev.wishes, Offered(env, ev.cached)))
    ensures Inv(env, Next(env, w, ev))
  {
    hide Fair, Granted, WithSnapshot, Holds, HubTakes, Take, UpsOk, DownsOk, InSession, AwaitsWelcome, AwaitsHub;
    if !w.connected {
      IdleInv(env, w, ev);
    } else if InSession(w) {
      SessionInv(env, w, ev);
    } else {
      OpeningInv(env, w, ev);
    }
  }

  lemma IdleInv(env: Env, w: World, ev: Event)
    requires Inv(env, w) && !w.connected && (ev.Connect? ==> Fair(env, ev.hub, ev.wishes, Offered(env, ev.cached)))
    ensures Inv(env, Next(env, w, ev))
  {
    hide Fair, Granted, WithSnapshot, Holds, HubTakes, Take, UpsOk, DownsOk;
  }

  lemma OpeningInv(env: Env, w: World, ev: Event)
    requires Inv(env, w) && w.connected && (AwaitsHub(env, w) || AwaitsWelcome(env, w))
    ensures Inv(env, Next(env, w, ev))
  {
    hide Fair, Granted, WithSnapshot, Holds, HubTakes, Take, UpsOk, DownsOk, InSession;
    match ev
    case HubStep =>
      if AwaitsHub(env, w) {
        assert w.up[1..] == [];
        HelloTaken(env, w);
        HubSame(w.(up := []), w.up[0]);
      }
    case ClientStep =>
      if AwaitsWelcome(env, w) {
        ClientKeeps(env, w);
      }
    case Broadcast(ch) =>
      if w.hubReady && ch in w.hub.retained {
        assert (w.down + [State(ch)])[1..] == w.down[1..] + [State(ch)];
        OneState(w.hub, ch);
        DownsJoin(w.hub, true, w.down[1..], [State(ch)]);
      }
    case _ =>
  }

  lemma OneState(hub: Hub, ch: nat)
    requires ch in hub.retained
    ensures DownsOk(hub, true, [State(ch)])
  {
  }

  lemma HubSame(w: World, m: Up)
    ensures var u := HubTakes(w, m); u.hub == w.hub && u.wishes == w.wishes && u.offered == w.offered && u.connected == w.connected && u.client == w.client
  {
  }

  lemma SessionInv(env: Env, w: World, ev: Event)
    requires Inv(env, w) && w.connected && InSession(w)
    ensures Inv(env, Next(env, w, ev))
  {
    hide Fair, Granted, WithSnapshot, Holds, HubTakes, Take, UpsOk, DownsOk, InSession, Tracks;
    SessionTracks(w);
    var c := w.client;
    match ev
    case HubStep =>
      if w.up != [] {
        HubKeeps(env, w);
        HubSame(w.(up := w.up[1..]), w.up[0]);
      }
    case ClientStep =>
      if w.down != [] {
        ClientKeeps(env, w);
      }
    case SendIntent =>
      if c.phase == Live {
        LiveIsReady(env, w);
        PlainUp(w, c, Intent);
      }
    case Repair =>
      if c.rx.On? && c.inFlight && Missing(c.rx) != [] {
        PlainUp(w, c, BlobReq(Some(Missing(c.rx))));
      }
    case RestartCatalog =>
      if c.inFlight {
        TracksOff(w, c);
        PlainUp(w, c.(rx := Off), BlobReq(None));
      }
    case Redeclare =>
      if c.pending {
        PendingIs(w, c);
        PlainUp(w, c, CatalogReady(c.readyEtag));
      }
    case GiveUp =>
      NoLonger(w, c);
      SameUps(w, w.(client := c.(pending := false)), c.(pending := false));
      TracksSession(w, c.(pending := false), w.down, w.up);
    case SendSubscribe(wishes) => PlainUp(w, c, Subscribe(wishes));
    case SendUnsubscribe(chs) => PlainUp(w, c, Unsubscribe(chs));
    case Broadcast(ch) =>
      if w.hubReady && ch in w.hub.retained {
        OneState(w.hub, ch);
        DownsJoin(w.hub, true, w.down, [State(ch)]);
        SameUps(w, w.(down := w.down + [State(ch)]), c);
        TracksSession(w, c, w.down + [State(ch)], w.up);
      }
    case Connect(_, _, _) =>
    case Drop =>
  }

  lemma SameUps(w: World, u: World, c: Client)
    requires UpsOk(w, w.up) && u.hub == w.hub && c.catalog == w.client.catalog && u.hubReady == w.hubReady
    ensures UpsOk(w.(client := c), w.up)
  {
    forall i | 0 <= i < |w.up|
      ensures UpOk(w.(client := c), w.up[i])
    {
      assert UpOk(w, w.up[i]);
    }
  }

  lemma PendingIs(w: World, c: Client)
    requires Tracks(w, c) && c.pending
    ensures c.catalog == Some(w.hub.bytes) && c.readyEtag == Some(w.hub.etag)
  {
  }

  lemma NoLonger(w: World, c: Client)
    requires Tracks(w, c)
    ensures Tracks(w, c.(pending := false))
  {
  }

  lemma TracksOff(w: World, c: Client)
    requires Tracks(w, c)
    ensures Tracks(w, c.(rx := Off))
  {
  }

  // ---- runs -------------------------------------------------------------------------------------------

  /** A run that begins disconnected, each of whose connections is fair. */
  ghost predicate Trace(env: Env, ws: seq<World>, evs: seq<Event>) {
    && |ws| == |evs| + 1
    && !ws[0].connected && ws[0].client.phase == Closed && !ws[0].client.inFlight && ws[0].up == [] && ws[0].down == []
    && (forall k :: 0 <= k < |evs| ==> ws[k + 1] == Next(env, ws[k], evs[k]))
    && (forall k :: 0 <= k < |evs| && evs[k].Connect? ==> Fair(env, evs[k].hub, evs[k].wishes, Offered(env, evs[k].cached)))
  }

  lemma {:induction false} TraceInv(env: Env, ws: seq<World>, evs: seq<Event>, k: nat)
    requires Trace(env, ws, evs) && k < |ws|
    ensures Inv(env, ws[k])
  {
    hide Next, Fair;
    if k > 0 {
      TraceInv(env, ws, evs, k - 1);
      NextInv(env, ws[k - 1], evs[k - 1]);
      assert ws[k] == Next(env, ws[k - 1], evs[k - 1]);
    }
  }

  lemma {:induction false} AtMostItsLength(s: seq<nat>)
    ensures |Elements(s)| <= |s|
  {
    if s == [] {
      assert Elements(s) == {};
    } else {
      AtMostItsLength(s[1..]);
      assert Elements(s) == {s[0]} + Elements(s[1..]);
    }
  }

  lemma NoRoom<T>(a: set<T>, b: set<T>)
    requires a <= b && |a| >= |b|
    ensures a == b
  {
    assert |b - a| == |b| - |a|;
    assert b - a == {};
    assert b == a + (b - a);
  }

  /** With as many channels adopted as were promised, all of them were. */
  lemma AllAdopted(w: World)
    requires InSession(w) && w.client.phase == Live
    ensures forall ch :: ch in RetainedGrants(w.hub, w.wishes) ==> ch in w.client.delivered
  {
    hide Holds, UpsOk, DownsOk, Granted, WithSnapshot;
    var kept := RetainedGrants(w.hub, w.wishes);
    AtMostItsLength(kept);
    forall ch
      ensures ch in w.client.adopted ==> ch in Elements(kept)
    {
      SnapshotsRetained(w.hub, Granted(w.hub, w.wishes), ch);
    }
    NoRoom(w.client.adopted, Elements(kept));
    forall ch | ch in kept
      ensures ch in w.client.delivered
    {
      assert ch in Elements(kept);
    }
  }

  /**
   * When the client is LIVE its hub connection is ready, no NOT_READY is under way and no intent
   * will earn one, the catalog it decodes with is the hub's, and every retained channel granted in
   * WELCOME has been delivered on this connection.
   */
  lemma LiveMeans(env: Env, ws: seq<World>, evs: seq<Event>, k: nat)
    requires Trace(env, ws, evs) && k < |ws| && ws[k].client.phase == Live
    ensures ws[k].connected && ws[k].hubReady
    ensures ws[k].client.catalog == Some(ws[k].hub.bytes)
    ensures forall ch :: ch in RetainedGrants(ws[k].hub, ws[k].wishes) ==> ch in ws[k].client.delivered
    ensures NotReady !in ws[k].down
  {
    hide Next, Fair, Holds, UpsOk, Granted, WithSnapshot;
    TraceInv(env, ws, evs, k);
    LiveIsReady(env, ws[k]);
    AllAdopted(ws[k]);
  }

  /** No intent of any run is ever answered NOT_READY. */
  lemma NeverNotReady(env: Env, ws: seq<World>, evs: seq<Event>, k: nat)
    requires Trace(env, ws, evs) && k < |ws|
    ensures NotReady !in ws[k].down
  {
    hide Next, Fair, Holds, UpsOk, Granted, WithSnapshot;
    TraceInv(env, ws, evs, k);
    if ws[k].connected && AwaitsWelcome(env, ws[k]) {
      forall i | 0 <= i < |ws[k].down|
        ensures ws[k].down[i] != NotReady
      {
        if i > 0 {
          assert DownOk(ws[k].hub, ws[k].hubReady, ws[k].down[1..][i - 1]);
        }
      }
    }
  }

  // ---- exactly when LIVE means it ------------------------------------------------------------------------

  /** The world after some events. */
  function After(env: Env, w: World, evs: seq<Event>): World
    decreases |evs|
  {
    if evs == [] then w else After(env, Next(env, w, evs[0]), evs[1..])
  }

  /** Events of one connection; it may drop, but no other follows it. */
  ghost predicate OneConnection(evs: seq<Event>) {
    forall k :: 0 <= k < |evs| ==> !evs[k].Connect?
  }

  /** Nothing is connected, and nothing under way. */
  ghost predicate Idle(w: World) {
    !w.connected && w.client.phase == Closed && !w.client.inFlight && w.up == [] && w.down == []
  }

  /** If the client is LIVE, its hub is ready and it decodes with the catalog of the hub. */
  ghost predicate LiveSound(w: World) {
    w.client.phase == Live ==> w.hubReady && w.client.catalog == Some(w.hub.bytes)
  }

  lemma {:induction false} AfterInv(env: Env, w: World, evs: seq<Event>)
    requires Inv(env, w) && OneConnection(evs)
    ensures Inv(env, After(env, w, evs))
    decreases |evs|
  {
    hide Inv, Next;
    if evs != [] {
      NextInv(env, w, evs[0]);
      AfterInv(env, Next(env, w, evs[0]), evs[1..]);
    }
  }

  lemma InvSound(env: Env, w: World)
    requires Inv(env, w)
    ensures LiveSound(w)
  {
    hide Fair, Granted, WithSnapshot, Holds, UpsOk, DownsOk;
    if w.connected && InSession(w) && w.client.phase == Live {
      LiveIsReady(env, w);
    }
  }

  /** The client is LIVE while its hub connection is not ready. */
  ghost predicate TooEarly(w: World) {
    w.client.phase == Live && !w.hubReady
  }

  /**
   * A reconnect keeps the old decoder ring, so with nothing to wait for the client goes LIVE at
   * WELCOME, on a hub that is not ready and with whatever catalog it had.
   */
  lemma StaleLive(env: Env, w: World, hub: Hub, wishes: seq<nat>, cached: Option<seq<byte>>)
    requires Idle(w) && w.client.catalog.Some? && !Promised(hub, wishes, Offered(env, cached))
    requires hub.etag == env.digest(hub.bytes)
    ensures var u := After(env, Next(env, w, Connect(hub, wishes, cached)), [HubStep, ClientStep]);
            TooEarly(u) && u.client.catalog == w.client.catalog
  {
    hide Granted, WithSnapshot, Pushes;
    var a := Next(env, w, Connect(hub, wishes, cached));
    var b := Next(env, a, HubStep);
    assert b.down == [Welcome(hub.etag, Granted(hub, wishes), 0)];
    AfterTwo(env, a, HubStep, ClientStep);
  }

  lemma AfterStep(env: Env, w: World, evs: seq<Event>)
    ensures After(env, w, evs) == if evs == [] then w else After(env, Next(env, w, evs[0]), evs[1..])
    ensures After(env, w, []) == w
  {
    hide Next;
  }

  lemma AfterTwo(env: Env, w: World, a: Event, b: Event)
    ensures After(env, w, [a, b]) == Next(env, Next(env, w, a), b)
  {
    hide Next;
    assert [a, b][1..] == [b] && [b][1..] == [];
    AfterStep(env, w, [a, b]);
    AfterStep(env, Next(env, w, a), [b]);
  }

  /**
   * A connection that waits for its catalog, of which the first `i` chunks are in, and goes LIVE not
   * before it is.
   */
  ghost predicate Feeding(env: Env, w: World, i: nat) {
    && Holdable(env, w.hub) && i < CountOf(|w.hub.bytes|) && w.connected && !w.hubReady && w.up == []
    && w.client.phase == Syncing && !w.client.resyncing && w.client.inFlight && w.client.etag == Some(w.hub.etag)
    && w.client.adopted == {} && (w.client.catalog.None? || w.client.required > 0)
    && |w.down| == CountOf(|w.hub.bytes|) - i
    && (forall k :: 0 <= k < |w.down| ==> w.down[k] == BlobChunk(Cut(CATALOG, 0, w.hub.bytes, i + k)))
    && (if i == 0 then w.client.rx == Off
        else Holds(w.client.rx, CATALOG, w.hub.bytes) && forall k :: 0 <= k < |w.client.rx.got| ==> (w.client.rx.got[k] <==> k < i))
  }

  /** The catalog is in and declared, and the hub has not heard. */
  ghost predicate Fed(w: World) {
    && w.connected && !w.hubReady && w.up == Declared(w.hub) && w.down == []
    && !w.client.resyncing && w.client.catalog == Some(w.hub.bytes) && w.client.adopted == {}
    && w.client.phase == (if w.client.required == 0 then Live else Syncing)
  }

  /** The same connection, with the same grants. */
  predicate SameGrants(w: World, u: World) {
    u.hub == w.hub && u.subs == w.subs && u.client.grants == w.client.grants && u.client.required == w.client.required
  }

  /** One chunk more. */
  lemma FeedOne(env: Env, w: World, i: nat)
    requires Feeding(env, w, i)
    ensures var u := Next(env, w, ClientStep);
            SameGrants(w, u) && if i + 1 == CountOf(|w.hub.bytes|) then Fed(u) else Feeding(env, u, i + 1)
  {
    hide Cut, Complete, Inserted, Belongs;
    var b, h := w.hub.bytes, Cut(CATALOG, 0, w.hub.bytes, i);
    assert w.down[0] == BlobChunk(h);
    CutIs(CATALOG, 0, b, i);
    var start := if i == 0 then Begun(env.max, h) else w.client.rx;
    if i == 0 {
      BegunHolds(env.max, CATALOG, 0, b, i);
      FreshGot(env.max, h);
    }
    InsertHolds(start, CATALOG, 0, b, i);
    var rx := Inserted(start, h);
    assert CatalogReceived(env.max, w.client.rx, h) == rx;
    CompleteWhen(rx, i);
    if Complete(rx) {
      CompleteIsBlob(rx, CATALOG, b);
    }
  }

  lemma FreshGot(max: nat, h: Chunk)
    requires h.count > 0 && 0 < h.total <= max
    ensures Begun(max, h).On? && forall k :: 0 <= k < |Begun(max, h).got| ==> !Begun(max, h).got[k]
  {
  }

  lemma CompleteWhen(rx: Rx, i: nat)
    requires rx.On? && i < |rx.got| && forall k :: 0 <= k < |rx.got| ==> (rx.got[k] <==> k < i + 1)
    ensures Complete(rx) <==> i + 1 == |rx.got|
  {
    AllTrue(rx.got);
    if i + 1 < |rx.got| {
      assert !rx.got[i + 1];
    }
  }

  lemma {:induction false} FeedAll(env: Env, w: World, i: nat) returns (evs: seq<Event>)
    requires Feeding(env, w, i)
    ensures OneConnection(evs) && Fed(After(env, w, evs)) && SameGrants(w, After(env, w, evs))
    decreases CountOf(|w.hub.bytes|) - i
  {
    hide Next, Holdable, Holds, Cut, Fed;
    FeedOne(env, w, i);
    var u := Next(env, w, ClientStep);
    var more := [];
    if i + 1 < CountOf(|w.hub.bytes|) {
      more := FeedAll(env, u, i + 1);
    }
    evs := [ClientStep] + more;
    assert evs[1..] == more;
  }

  lemma {:induction false} CutsAll(bytes: seq<byte>, want: seq<nat>)
    requires Sendable(bytes) && forall k :: 0 <= k < |want| ==> want[k] < CountOf(|bytes|)
    ensures var cs := Cuts(CATALOG, 0, bytes, want);
            |cs| == |want| && forall k :: 0 <= k < |want| ==> cs[k] == Cut(CATALOG, 0, bytes, want[k])
  {
    hide Cut;
    if want != [] {
      CutsAll(bytes, want[1..]);
    }
  }

  lemma {:induction false} AfterConcat(env: Env, w: World, a: seq<Event>, b: seq<Event>)
    ensures After(env, w, a + b) == After(env, After(env, w, a), b)
    decreases |a|
  {
    hide Next;
    if a == [] {
      assert a + b == b;
    } else {
      assert (a + b)[1..] == a[1..] + b;
      AfterStep(env, w, a + b);
      AfterStep(env, w, a);
      AfterConcat(env, Next(env, w, a[0]), a[1..], b);
    }
  }

  lemma AfterThree(env: Env, w: World, a: Event, b: Event, c: Event)
    ensures After(env, w, [a, b, c]) == Next(env, Next(env, Next(env, w, a), b), c)
  {
    hide Next;
    assert [a, b, c][1..] == [b, c];
    AfterStep(env, w, [a, b, c]);
    AfterTwo(env, Next(env, w, a), b, c);
  }

  /** HELLO, WELCOME and the request for the catalog. */
  const OPENING := [HubStep, ClientStep, HubStep]

  /** A connection that did not offer the etag of the hub comes to wait for its catalog. */
  lemma Opened(env: Env, w: World, hub: Hub, wishes: seq<nat>, cached: Option<seq<byte>>) returns (u: World)
    requires Idle(w) && Holdable(env, hub) && Offered(env, cached) != Some(hub.etag)
    requires w.client.catalog.None? || RetainedGrants(hub, wishes) != []
    ensures u == After(env, Next(env, w, Connect(hub, wishes, cached)), OPENING)
    ensures Feeding(env, u, 0) && u.hub == hub && u.client.required == |RetainedGrants(hub, wishes)|
    ensures u.client.grants == Elements(Granted(hub, wishes)) && Elements(u.subs) == Elements(Granted(hub, wishes))
  {
    hide Granted, WithSnapshot, Cut, Cuts, After;
    var a := Next(env, w, Connect(hub, wishes, cached));
    var b := Next(env, a, HubStep);
    assert b.down == [Welcome(hub.etag, Granted(hub, wishes), |RetainedGrants(hub, wishes)|)];
    var c := Next(env, b, ClientStep);
    assert c.up == [BlobReq(None)] && c.down == [];
    u := Next(env, c, HubStep);
    AfterThree(env, a, HubStep, ClientStep, HubStep);
    CutsAll(hub.bytes, Everything(CountOf(|hub.bytes|)));
    NothingAfter(Chunks(hub, None));
  }

  /** It comes to have its catalog in and declared. */
  lemma Fetched(env: Env, w: World, hub: Hub, wishes: seq<nat>, cached: Option<seq<byte>>) returns (evs: seq<Event>)
    requires Idle(w) && Holdable(env, hub) && Offered(env, cached) != Some(hub.etag)
    requires w.client.catalog.None? || RetainedGrants(hub, wishes) != []
    ensures OneConnection(evs)
    ensures var u := After(env, Next(env, w, Connect(hub, wishes, cached)), evs);
            && Fed(u) && u.hub == hub && u.client.required == |RetainedGrants(hub, wishes)|
            && u.client.grants == Elements(Granted(hub, wishes)) && Elements(u.subs) == Elements(Granted(hub, wishes))
  {
    hide Fed, Feeding, After, Next, Granted, WithSnapshot, Idle, Holdable;
    var u := Opened(env, w, hub, wishes, cached);
    var more := FeedAll(env, u, 0);
    AfterConcat(env, Next(env, w, Connect(hub, wishes, cached)), OPENING, more);
    evs := OPENING + more;
  }

  /** A first connection with nothing to wait for goes LIVE when its catalog is in, before the hub knows. */
  lemma FirstLive(env: Env, w: World, hub: Hub, wishes: seq<nat>, cached: Option<seq<byte>>) returns (evs: seq<Event>)
    requires Idle(w) && Holdable(env, hub) && w.client.catalog.None? && !Promised(hub, wishes, Offered(env, cached))
    ensures OneConnection(evs) && TooEarly(After(env, Next(env, w, Connect(hub, wishes, cached)), evs))
  {
    hide After, Next, Granted, WithSnapshot, Idle, Holdable;
    evs := Fetched(env, w, hub, wishes, cached);
  }

  /**
   * On a connection to such a hub, LIVE means that the hub is ready and that the client has the hub's
   * catalog, in every reachable world, if and only if the WELCOME promises something retained or the
   * HELLO offered the hub's own etag.
   */
  lemma LiveIff(env: Env, w: World, hub: Hub, wishes: seq<nat>, cached: Option<seq<byte>>)
    requires Idle(w) && Holdable(env, hub)
    ensures Promised(hub, wishes, Offered(env, cached))
       <==> forall evs :: OneConnection(evs) ==> LiveSound(After(env, Next(env, w, Connect(hub, wishes, cached)), evs))
  {
    hide Holdable, Promised, Next, After, OneConnection;
    var u := Next(env, w, Connect(hub, wishes, cached));
    if Promised(hub, wishes, Offered(env, cached)) {
      Connected(env, w, hub, wishes, cached);
      forall evs | OneConnection(evs)
        ensures LiveSound(After(env, u, evs))
      {
        AfterInv(env, u, evs);
        InvSound(env, After(env, u, evs));
      }
    } else if w.client.catalog.Some? {
      EtagIs(env, hub);
      StaleLive(env, w, hub, wishes, cached);
      TwoSteps();
      assert !LiveSound(After(env, u, [HubStep, ClientStep]));
    } else {
      var evs := FirstLive(env, w, hub, wishes, cached);
      assert !LiveSound(After(env, u, evs));
    }
  }

  lemma TwoSteps()
    ensures OneConnection([HubStep, ClientStep])
  {
  }

  lemma Connected(env: Env, w: World, hub: Hub, wishes: seq<nat>, cached: Option<seq<byte>>)
    requires Idle(w) && Holdable(env, hub) && Promised(hub, wishes, Offered(env, cached))
    ensures Inv(env, Next(env, w, Connect(hub, wishes, cached)))
  {
    hide Holdable, Promised, Granted, WithSnapshot;
  }

  // ---- exactly when LIVE is reached -----------------------------------------------------------------------

  /** STATE of these channels, all granted, is on its way, and with them the client has adopted enough. */
  ghost predicate Adopting(w: World, chs: seq<nat>) {
    && w.down == Pushes(chs) && w.client.phase == Syncing && !w.client.resyncing && w.client.catalog.Some?
    && Elements(chs) <= w.client.grants
    && |w.client.adopted| < w.client.required <= |w.client.adopted + Elements(chs)|
  }

  lemma NothingMore(a: set<nat>)
    ensures a + Elements([]) == a && NoRepeats([])
  {
    assert Elements([]) == {};
  }

  lemma AdoptOne(env: Env, w: World, chs: seq<nat>)
    requires Adopting(w, chs)
    ensures chs != []
    ensures var u := Next(env, w, ClientStep); u.client.phase == Live || Adopting(u, chs[1..])
  {
    NothingMore(w.client.adopted);
    if chs != [] {
      assert w.down[0] == State(chs[0]) && w.down[1..] == Pushes(chs[1..]);
      assert Elements(chs) == {chs[0]} + Elements(chs[1..]);
      assert w.client.adopted + Elements(chs) == (w.client.adopted + {chs[0]}) + Elements(chs[1..]);
      if chs[0] in w.client.adopted {
        assert w.client.adopted + {chs[0]} == w.client.adopted;
      }
    }
  }

  lemma {:induction false} AdoptAll(env: Env, w: World, chs: seq<nat>) returns (evs: seq<Event>)
    requires Adopting(w, chs)
    ensures OneConnection(evs) && After(env, w, evs).client.phase == Live
    decreases |chs|
  {
    hide Next, Adopting;
    AdoptOne(env, w, chs);
    var u, more := Next(env, w, ClientStep), [];
    if u.client.phase != Live {
      more := AdoptAll(env, u, chs[1..]);
    }
    evs := [ClientStep] + more;
    assert evs[1..] == more;
  }

  /** A client that offered the hub's own etag: WELCOME, then the retained STATE. */
  lemma OfferedLive(env: Env, w: World, hub: Hub, wishes: seq<nat>, cached: Option<seq<byte>>) returns (evs: seq<Event>)
    requires Idle(w) && Holdable(env, hub) && Offered(env, cached) == Some(hub.etag) && NoRepeats(RetainedGrants(hub, wishes))
    ensures OneConnection(evs) && After(env, Next(env, w, Connect(hub, wishes, cached)), evs).client.phase == Live
  {
    hide Granted, WithSnapshot, After, Adopting;
    var kept := RetainedGrants(hub, wishes);
    var a := Next(env, w, Connect(hub, wishes, cached));
    var b := Next(env, a, HubStep);
    assert b.down == [Welcome(hub.etag, Granted(hub, wishes), |kept|)] + Pushes(kept);
    var c := Next(env, b, ClientStep);
    AfterTwo(env, a, HubStep, ClientStep);
    assert b.down[1..] == Pushes(kept);
    if kept == [] {
      evs := [HubStep, ClientStep];
    } else {
      GrantedKept(hub, wishes, kept);
      AdoptsKept(c, kept);
      var more := AdoptAll(env, c, kept);
      AfterConcat(env, a, [HubStep, ClientStep], more);
      evs := [HubStep, ClientStep] + more;
    }
  }

  lemma AdoptsKept(c: World, kept: seq<nat>)
    requires c.down == Pushes(kept) && c.client.phase == Syncing && !c.client.resyncing && c.client.catalog.Some?
    requires Elements(kept) <= c.client.grants && c.client.adopted == {} && kept != []
    requires c.client.required == |Elements(kept)|
    ensures Adopting(c, kept)
  {
    assert c.client.adopted + Elements(kept) == Elements(kept);
    assert kept[0] in Elements(kept);
  }

  predicate NoRepeats(chs: seq<nat>) {
    |Elements(chs)| == |chs|
  }

  /** The retained channels of any list of the grants are those granted in WELCOME. */
  lemma GrantedKept(hub: Hub, wishes: seq<nat>, chs: seq<nat>)
    requires Elements(chs) == Elements(Granted(hub, wishes)) || chs == RetainedGrants(hub, wishes)
    ensures Elements(WithSnapshot(hub, chs)) == Elements(RetainedGrants(hub, wishes)) <= Elements(Granted(hub, wishes))
  {
    hide Granted, WithSnapshot;
    forall x
      ensures x in RetainedGrants(hub, wishes) <==> x in Granted(hub, wishes) && x in hub.retained
      ensures x in WithSnapshot(hub, chs) <==> x in chs && x in hub.retained
    {
      SnapshotsRetained(hub, Granted(hub, wishes), x);
      SnapshotsRetained(hub, chs, x);
    }
    forall x
      ensures x in WithSnapshot(hub, chs) <==> x in RetainedGrants(hub, wishes)
    {
      assert x in chs <==> x in Elements(chs);
      assert x in Granted(hub, wishes) <==> x in Elements(Granted(hub, wishes));
    }
  }

  /** A client whose catalog is in and declared: the hub opens its gate and pushes the retained STATE. */
  lemma DeclaredLive(env: Env, u: World, hub: Hub, wishes: seq<nat>) returns (evs: seq<Event>)
    requires Fed(u) && u.hub == hub && u.client.required == |RetainedGrants(hub, wishes)| && NoRepeats(RetainedGrants(hub, wishes))
    requires u.client.grants == Elements(Granted(hub, wishes)) && Elements(u.subs) == Elements(Granted(hub, wishes))
    ensures OneConnection(evs) && After(env, u, evs).client.phase == Live
  {
    hide Granted, WithSnapshot, After, Adopting;
    if u.client.required == 0 {
      evs := [];
      AfterStep(env, u, []);
    } else {
      var a := Next(env, u, HubStep);
      assert a.up == [CatalogReady(Some(hub.etag))];
      var b := Next(env, a, HubStep);
      var kept := WithSnapshot(hub, u.subs);
      NothingAfter(Pushes(kept));
      assert b.down == Pushes(kept);
      GrantedKept(hub, wishes, u.subs);
      SomeKept(RetainedGrants(hub, wishes), kept);
      AdoptsKept(b, kept);
      var more := AdoptAll(env, b, kept);
      AfterTwo(env, u, HubStep, HubStep);
      AfterConcat(env, u, [HubStep, HubStep], more);
      evs := [HubStep, HubStep] + more;
    }
  }

  lemma SomeKept(a: seq<nat>, b: seq<nat>)
    requires a != [] && Elements(a) == Elements(b)
    ensures b != []
  {
    assert a[0] in Elements(b);
  }

  /** The client goes LIVE after some events of the connection. */
  ghost predicate GoesLive(env: Env, u: World, evs: seq<Event>) {
    OneConnection(evs) && After(env, u, evs).client.phase == Live
  }

  /** In a session on a hub, LIVE needs as many channels as were promised, so none promised twice. */
  lemma LiveNoRepeats(env: Env, w: World)
    requires Inv(env, w) && w.client.phase == Live
    ensures NoRepeats(RetainedGrants(w.hub, w.wishes))
  {
    hide Fair, Holds, UpsOk, DownsOk, Granted, WithSnapshot;
    var kept := RetainedGrants(w.hub, w.wishes);
    forall ch
      ensures ch in w.client.adopted ==> ch in Elements(kept)
    {
      SnapshotsRetained(w.hub, Granted(w.hub, w.wishes), ch);
    }
    SubsetSize(w.client.adopted, Elements(kept));
    AtMostItsLength(kept);
  }

  lemma {:induction false} AfterSame(env: Env, w: World, evs: seq<Event>)
    requires OneConnection(evs)
    ensures After(env, w, evs).hub == w.hub && After(env, w, evs).wishes == w.wishes
    decreases |evs|
  {
    hide Take, HubTakes;
    if evs != [] {
      if w.up != [] {
        HubSame(w.(up := w.up[1..]), w.up[0]);
      }
      AfterSame(env, Next(env, w, evs[0]), evs[1..]);
    }
  }

  /**
   * Liveness: on a connection to such a hub the client can go LIVE if and only if no retained channel
   * is granted twice; a repeated wish is promised twice and adopted once, and keeps it SYNCING.
   */
  lemma LiveReached(env: Env, w: World, hub: Hub, wishes: seq<nat>, cached: Option<seq<byte>>)
    requires Idle(w) && Holdable(env, hub)
    ensures (exists evs :: GoesLive(env, Next(env, w, Connect(hub, wishes, cached)), evs)) <==> NoRepeats(RetainedGrants(hub, wishes))
  {
    hide Next, After, Granted, WithSnapshot, TooEarly, Holdable, Idle;
    var u, kept := Next(env, w, Connect(hub, wishes, cached)), RetainedGrants(hub, wishes);
    if NoRepeats(kept) {
      var evs := SomeRun(env, w, hub, wishes, cached);
      assert GoesLive(env, u, evs);
    } else if exists evs :: GoesLive(env, u, evs) {
      var evs :| GoesLive(env, u, evs);
      NothingMore({});
      Connected(env, w, hub, wishes, cached);
      AfterInv(env, u, evs);
      AfterSame(env, u, evs);
      ConnectIs(env, w, hub, wishes, cached);
      LiveNoRepeats(env, After(env, u, evs));
    }
  }

  lemma ConnectIs(env: Env, w: World, hub: Hub, wishes: seq<nat>, cached: Option<seq<byte>>)
    requires Idle(w)
    ensures var u := Next(env, w, Connect(hub, wishes, cached)); u.hub == hub && u.wishes == wishes
  {
  }

  lemma SomeRun(env: Env, w: World, hub: Hub, wishes: seq<nat>, cached: Option<seq<byte>>) returns (evs: seq<Event>)
    requires Idle(w) && Holdable(env, hub) && NoRepeats(RetainedGrants(hub, wishes))
    ensures GoesLive(env, Next(env, w, Connect(hub, wishes, cached)), evs)
  {
    hide Next, After, Granted, WithSnapshot, Fed, NoRepeats, Holdable;
    var u := Next(env, w, Connect(hub, wishes, cached));
    if Offered(env, cached) == Some(hub.etag) {
      evs := OfferedLive(env, w, hub, wishes, cached);
    } else if w.client.catalog.Some? && RetainedGrants(hub, wishes) == [] {
      EtagIs(env, hub);
      StaleLive(env, w, hub, wishes, cached);
      TwoSteps();
      evs := [HubStep, ClientStep];
    } else {
      var fetch := Fetched(env, w, hub, wishes, cached);
      var more := DeclaredLive(env, After(env, u, fetch), hub, wishes);
      AfterConcat(env, u, fetch, more);
      evs := fetch + more;
    }
  }

  lemma EtagIs(env: Env, hub: Hub)
    requires Holdable(env, hub)
    ensures hub.etag == env.digest(hub.bytes)
  {
  }

  /** In any run, a retained channel wished for twice is promised twice and adopted once: the client is never LIVE. */
  lemma RepeatedWish(env: Env, ws: seq<World>, evs: seq<Event>, k: nat)
    requires Trace(env, ws, evs) && k < |ws| && ws[k].connected && !NoRepeats(RetainedGrants(ws[k].hub, ws[k].wishes))
    ensures ws[k].client.phase != Live
  {
    hide Next, Inv, NoRepeats;
    TraceInv(env, ws, evs, k);
    if ws[k].client.phase == Live {
      LiveNoRepeats(env, ws[k]);
    }
  }

  // ---- what the client declares ----------------------------------------------------------------------------

  /** Whatever catalog the client declares, first or again, is the hub's, and every transfer it reports verified. */
  lemma DeclaresTruly(env: Env, ws: seq<World>, evs: seq<Event>, k: nat, i: nat)
    requires Trace(env, ws, evs) && k < |ws| && i < |ws[k].up|
    ensures ws[k].up[i].BlobDone? ==> ws[k].up[i].verified
    ensures ws[k].up[i].CatalogReady? ==> ws[k].up[i].etag == Some(ws[k].hub.etag) && ws[k].client.catalog == Some(ws[k].hub.bytes)
  {
    hide Next, Fair, Holds, DownsOk, Granted, WithSnapshot;
    TraceInv(env, ws, evs, k);
  }

  /**
   * Whatever catalogs the chunks were cut from, a complete transfer is reported verified against the
   * announced etag of a catalog if and only if of every index the last chunk to come carried its bytes.
   */
  lemma VerifiedWhen(env: Env, c: Client, hs: seq<Chunk>, src: seq<seq<byte>>, b: seq<byte>)
    requires FromCatalogs(env.max, hs, src) && Complete(CatalogReceivedAll(env.max, hs)) && c.etag == Some(env.digest(b))
    requires forall x: seq<byte> :: env.digest(x) == env.digest(b) ==> x == b
    ensures var rx := CatalogReceivedAll(env.max, hs);
            BlobDone(true) in Completed(env, c, rx.buf).out <==> rx.total == |b| && LastAreOf(hs, b)
  {
    hide LastAreOf, CatalogReceivedAll;
    EtagTells(env.digest, env.max, hs, src, b);
  }

  lemma SubsetSize<T>(a: set<T>, b: set<T>)
    requires a <= b
    ensures |a| <= |b|
  {
    assert |b - a| == |b| - |a|;
  }

  // ---- too big a catalog -------------------------------------------------------------------------------

  /** The session gives its socket up on a chunk that would begin too big a catalog, and on nothing else. */
  lemma QuitsWhen(env: Env, c: Client, m: Down)
    ensures var t := Take(env, c, m);
            && (t.quits <==>
                 && m.BlobChunk? && m.h.target.ns == 0 && m.h.index < m.h.count && c.inFlight && m.h.total > env.max
                 && !(c.rx.On? && |c.rx.got| == m.h.count && c.rx.total == m.h.total))
            && (t.quits ==> t.c == c && t.out == [])
  {
    hide CatalogReceived, Belongs, Begun, Completed, Checked;
    if m.BlobChunk? {
      var rx := CatalogReceived(env.max, c.rx, m.h);
      if rx.On? {
        CompletedStays(env, c, rx.buf);
      }
    }
  }

  lemma CompletedStays(env: Env, c: Client, bytes: seq<byte>)
    ensures !Completed(env, c, bytes).quits
  {
  }

  // ---- the declaration ------------------------------------------------------------------------------

  /** The declaration is repeated from when it is sent until STATE, or another WELCOME, comes. */
  lemma NextPending(env: Env, c: Client, m: Down)
    ensures var t := Take(env, c, m);
            t.c.pending <==> (exists e :: CatalogReady(e) in t.out) || (c.pending && !m.State? && !m.Welcome?)
  {
    hide CatalogReceived, Belongs, Begun, Checked, Completed;
    PhaseAlone(c);
    var t := Take(env, c, m);
    match m
    case Welcome(etag, grants, n) =>
      var base := Noted(env, c, etag, Elements(grants), n);
      PhaseAlone(base.(catalog := c.cached));
      PhaseAlone(base.(cached := None, inFlight := true));
    case State(ch) =>
      var d := if c.resyncing && c.phase == Syncing then c.(resyncing := false, phase := Live) else c;
      PhaseAlone(d.(delivered := d.delivered + {ch}, pending := false, adopted := d.adopted + {ch}));
    case NotReady =>
      assert c.phase == Live ==> t.out[0] == CatalogReady(c.readyEtag);
    case BlobChunk(h) =>
      var rx := CatalogReceived(env.max, c.rx, h);
      if rx.On? {
        CompletedPending(env, c, rx.buf);
      }
  }

  lemma CompletedPending(env: Env, c: Client, bytes: seq<byte>)
    ensures var t := Completed(env, c, bytes);
            t.c.pending <==> (exists e :: CatalogReady(e) in t.out) || c.pending
  {
    var digest := env.digest(bytes);
    PhaseAlone(c.(rx := Off, inFlight := false, catalog := Some(bytes), readyEtag := Some(digest), pending := true));
    if env.decodes(bytes) {
      assert Completed(env, c, bytes).out[1] == CatalogReady(Some(digest));
    }
  }

  /** The LIVE check touches the phase alone. */
  lemma PhaseAlone(c: Client)
    ensures Checked(c).pending == c.pending && Checked(c).catalog == c.catalog && Checked(c).readyEtag == c.readyEtag
  {
  }

  /**
   * A NOT_READY sends a LIVE session back to SYNCING and has it declare again the catalog it holds; the next
   * STATE makes it LIVE again. In any other phase it does nothing.
   */
  lemma DemotionHeals(env: Env, c: Client, ch: nat)
    ensures var t := Take(env, c, NotReady);
            if c.phase == Live then
              && t.out == [CatalogReady(c.readyEtag)] && t.c.phase == Syncing && t.c.catalog == c.catalog && !t.quits
              && var u := Take(env, t.c, State(ch)); u.c.phase == Live && u.c.catalog == c.catalog && u.out == [] && !u.quits
            else t == Taken(c, [], false)
  {
  }

}
