/** The client's session variables and the handlers that move them (clients/js/session.js). */
module ClientSession {
  import opened Bytes
  import opened Blob
  import opened Joint

  /** What a complete catalog leaves does not depend on the reassembly it came from. */
  lemma CompletedAnyway(env: Env, c: Client, rx: Rx, bytes: seq<byte>)
    ensures Completed(env, c.(rx := rx), bytes) == Completed(env, c, bytes)
  {
  }

  class Session {
    const env: Env
    var phase: Phase
    var catalog: Option<seq<byte>>
    var cached: Option<seq<byte>>
    var grants: set<nat>
    var adopted: set<nat>
    var required: nat
    var catalogInFlight: bool
    var rx: Rx
    var resyncing: bool
    var etag: Option<Etag>
    var readyEtag: Option<Etag>
    var readyPending: bool
    var delivered: set<nat>
    var sent: seq<Up>

    function Abs(): Client
      reads this
    {
      Client(phase, catalog, cached, grants, adopted, required, catalogInFlight, rx, resyncing, etag, readyEtag, readyPending, delivered)
    }

    constructor (env: Env)
      ensures Abs() == Client(Closed, None, None, {}, {}, 0, false, Off, false, None, None, false, {}) && sent == [] && this.env == env
    {
      this.env := env;
      phase, catalog, cached, grants, adopted, required := Closed, None, None, {}, {}, 0;
      catalogInFlight, rx, resyncing, etag, readyEtag, readyPending := false, Off, false, None, None, false;
      delivered, sent := {}, [];
    }

    /** `openSocket` and the HELLO on its open. */
    method Open(cache: Option<seq<byte>>, wishes: seq<nat>)
      modifies this
      ensures Abs() == old(Abs()).(phase := HelloSent, cached := cache)
      ensures sent == old(sent) + [Hello(Offered(env, cache), wishes)]
    {
      cached, phase := cache, HelloSent;
      sent := sent + [Hello(if cached.Some? then Some(env.digest(cached.value)) else None, wishes)];
    }

    /** `checkLiveTransition`. */
    method CheckLive()
      modifies this`phase
      ensures Abs() == Checked(old(Abs()))
    {
      if resyncing || phase != Syncing || catalog.None? || |adopted| < required {
        return;
      }
      phase := Live;
    }

    /** `requestCatalog`. */
    method RequestCatalog()
      modifies this`rx, this`catalogInFlight, this`sent
      ensures rx == Off && catalogInFlight && sent == old(sent) + [BlobReq(None)]
    {
      rx, catalogInFlight := Off, true;
      sent := sent + [BlobReq(None)];
    }

    method GrantSet(granted: seq<nat>) returns (chs: set<nat>)
      ensures chs == Elements(granted)
    {
      chs := {};
      var n := 0;
      while n < |granted|
        invariant n <= |granted| && chs == Elements(granted[..n])
      {
        assert granted[..n + 1] == granted[..n] + [granted[n]];
        chs := chs + {granted[n]};
        n := n + 1;
      }
      assert granted[..n] == granted;
    }

    /** The grants of a WELCOME; nothing of them has been adopted. */
    method NoteGrants(granted: seq<nat>, retainedPending: nat)
      modifies this`grants, this`adopted, this`required, this`delivered
      ensures grants == Elements(granted) && adopted == {} && required == retainedPending && delivered == {}
    {
      hide Elements;
      var chs := GrantSet(granted);
      grants, adopted, required, delivered := chs, {}, retainedPending, {};
    }

    /** Everything a WELCOME discards or sets. */
    method NoteWelcome(announced: Etag, granted: seq<nat>, retainedPending: nat)
      modifies this
      ensures Abs() == Noted(env, old(Abs()), announced, Elements(granted), retainedPending) && sent == old(sent)
    {
      hide Elements;
      if cached.Some? && env.digest(cached.value) == announced {
        readyEtag := Some(announced);
      }
      NoteGrants(granted, retainedPending);
      phase, resyncing, rx, etag, readyPending := Syncing, false, Off, Some(announced), false;
    }

    /** `handleWelcome`. */
    method HandleWelcome(announced: Etag, granted: seq<nat>, retainedPending: nat) returns (out: seq<Up>)
      modifies this
      ensures Taken(Abs(), out, false) == Welcomed(env, old(Abs()), announced, granted, retainedPending)
      ensures sent == old(sent) + out
    {
      hide Checked, Elements;
      NoteWelcome(announced, granted, retainedPending);
      out := [];
      if cached.Some? && env.digest(cached.value) == announced && env.decodes(cached.value) {
        catalog := cached;
      } else {
        cached := None;
        RequestCatalog();
        out := [BlobReq(None)];
      }
      CheckLive();
    }

    /** `handleState`. */
    method HandleState(ch: nat)
      modifies this
      ensures Abs() == Stated(old(Abs()), ch) && sent == old(sent)
    {
      hide Checked;
      readyPending := false;
      if resyncing && phase == Syncing {
        resyncing, phase := false, Live;
      }
      delivered := delivered + {ch};
      if ch in grants && ch !in adopted {
        adopted := adopted + {ch};
        CheckLive();
      }
    }

    /** `handleBlobChunk` for the catalog's chunks; true when the session refuses the blob and closes. */
    method HandleBlobChunk(h: Chunk) returns (out: seq<Up>, quits: bool)
      modifies this
      ensures Taken(Abs(), out, quits) == Chunked(env, old(Abs()), h)
      ensures sent == old(sent) + out
    {
      hide Inserted, Begun, CountTrue, Belongs, Completed;
      out, quits := [], false;
      if h.target.ns != 0 || h.count == 0 || h.index >= h.count || !catalogInFlight {
        return;
      }
      var start := rx;
      if rx.Off? || |rx.got| != h.count || rx.total != h.total {
        if h.total > env.max {
          return [], true;
        }
        start := Begun(env.max, h);
      }
      rx := Inserted(start, h);
      if !(Belongs(start, h) && Complete(rx)) {
        return;
      }
      CompletedAnyway(env, old(Abs()), rx, rx.buf);
      out := Conclude(rx.buf);
    }

    /** A complete catalog: its transfer is reported, and if it decodes it is adopted and declared. */
    method Conclude(bytes: seq<byte>) returns (out: seq<Up>)
      modifies this
      ensures Taken(Abs(), out, false) == Completed(env, old(Abs()), bytes)
      ensures sent == old(sent) + out
    {
      hide Checked;
      rx, catalogInFlight := Off, false;
      var digest := env.digest(bytes);
      out := [BlobDone(etag == Some(digest))];
      sent := sent + [BlobDone(etag == Some(digest))];
      if env.decodes(bytes) {
        catalog := Some(bytes);
        SendCatalogReady(Some(digest));
        out := out + [CatalogReady(Some(digest))];
        CheckLive();
      }
    }

    /** `sendCatalogReady`: the declaration, to be repeated until STATE comes. */
    method SendCatalogReady(declared: Option<Etag>)
      modifies this`readyEtag, this`readyPending, this`sent
      ensures readyEtag == declared && readyPending && sent == old(sent) + [CatalogReady(declared)]
    {
      readyEtag, readyPending := declared, true;
      sent := sent + [CatalogReady(declared)];
    }

    /** `pumpCatalogReady`, after `attempts` declarations. */
    method PumpCatalogReady(attempts: nat, most: nat, due: bool)
      modifies this`readyPending, this`sent
      ensures if !old(readyPending) then readyPending == old(readyPending) && sent == old(sent)
              else if attempts >= most then !readyPending && sent == old(sent)
              else readyPending && sent == old(sent) + (if due then [CatalogReady(readyEtag)] else [])
    {
      if !readyPending {
        return;
      }
      if attempts >= most {
        readyPending := false;
        return;
      }
      if due {
        sent := sent + [CatalogReady(readyEtag)];
      }
    }

    /** A NACK NOT_READY. */
    method HandleNotReady() returns (out: seq<Up>)
      modifies this
      ensures Taken(Abs(), out, false) == Demoted(old(Abs()))
      ensures sent == old(sent) + out
    {
      out := [];
      if phase == Live {
        resyncing, phase := true, Syncing;
        SendCatalogReady(readyEtag);
        out := [CatalogReady(readyEtag)];
      }
    }
  }
}
