/**
 * The items a hub serves (clients/js/localhub.js): while a generation lasts its items do not change,
 * so a fetch that completes has an item the hub held under that generation.
 */
module HubBlobs {
  import opened Bytes
  import opened HubCatalog
  import opened Hub
  import opened HubSteps
  import opened HubSafety
  import opened HubRosters
  import B = Blob

  /** Both hold the same items of a store. */
  ghost predicate SameStore(a: map<nat, Item>, b: map<nat, Item>, sid: nat) {
    forall k :: k / 256 == sid ==> (k in a <==> k in b) && (k in a ==> b[k] == a[k])
  }

  lemma OtherSlot(cat: Catalog, before: map<nat, Item>, after: map<nat, Item>, d: StoreDesc, sid: nat)
    requires SlotsFit(cat) && OneSlot(cat, before, after, d) && sid != d.storeId
    ensures SameStore(before, after, sid)
  {
    var slot :| 0 <= slot < d.capacity && SameBut(before, after, ItemKey(d.storeId, slot));
    KeyParts(d.storeId, slot);
  }

  /** A step that carries out no operation on a store leaves its items. */
  lemma StepSame(cat: Catalog, s: State, ev: Event, sid: nat)
    requires Fits(cat, s.vals) && SlotsFit(cat)
    requires var x := EffectOf(cat, s, ev); !(x.Does? && x.plan.Leaves? && x.plan.d.storeId == sid)
    ensures SameStore(s.items, Next(cat, s, ev).items, sid)
  {
    hide Next, EffectOf, SlotsFit, OneSlot;
    NextItems(cat, s, ev);
    var x := EffectOf(cat, s, ev);
    if x.Does? && x.plan.Leaves? {
      OtherSlot(cat, s.items, Next(cat, s, ev).items, x.plan.d, sid);
    }
  }

  lemma {:induction false} MutationsGrow(cat: Catalog, states: seq<State>, evs: seq<Event>, sid: nat, i: nat, j: nat)
    requires i <= j <= |evs| && |states| == |evs| + 1
    ensures Mutations(cat, states, evs, sid, i) <= Mutations(cat, states, evs, sid, j)
  {
    hide EffectOf;
    if i < j {
      MutationsGrow(cat, states, evs, sid, i, j - 1);
    }
  }

  lemma {:induction false} UnmutatedSame(cat: Catalog, states: seq<State>, evs: seq<Event>, sid: nat, i: nat, j: nat)
    requires Trace(cat, states, evs) && SlotsFit(cat) && i <= j <= |evs| && |states| == |evs| + 1
    requires Mutations(cat, states, evs, sid, i) == Mutations(cat, states, evs, sid, j)
    ensures SameStore(states[i].items, states[j].items, sid)
  {
    hide Next, EffectOf, SlotsFit;
    if i < j {
      MutationsGrow(cat, states, evs, sid, i, j - 1);
      UnmutatedSame(cat, states, evs, sid, i, j - 1);
      StepSame(cat, states[j - 1], evs[j - 1], sid);
      assert states[j] == Next(cat, states[j - 1], evs[j - 1]);
    }
  }

  /** Fewer than 65536 operations on the store from state `i` to state `j`. */
  ghost predicate ShortOf(cat: Catalog, states: seq<State>, evs: seq<Event>, sid: nat, i: nat, j: nat)
    requires i <= j <= |evs| && |states| == |evs| + 1
  {
    Mutations(cat, states, evs, sid, j) - Mutations(cat, states, evs, sid, i) < 0x1_0000
  }

  lemma SameResidue(g: nat, a: nat, b: nat)
    requires a <= b && b - a < 0x1_0000 && (g + a) % 0x1_0000 == (g + b) % 0x1_0000
    ensures a == b
  {
  }

  /** One generation, one set of items, while fewer than 65536 operations pass. */
  lemma GenerationMeansItems(cat: Catalog, states: seq<State>, evs: seq<Event>, sid: nat, i: nat, j: nat)
    requires Trace(cat, states, evs) && SlotsFit(cat) && i <= j <= |evs| && |states| == |evs| + 1
    requires ShortOf(cat, states, evs, sid, i, j) && GenOf(states[i].gens, sid) == GenOf(states[j].gens, sid)
    ensures SameStore(states[i].items, states[j].items, sid)
  {
    hide Next, SlotsFit, Mutations;
    GenerationCounts(cat, states, evs, sid, i);
    GenerationCounts(cat, states, evs, sid, j);
    MutationsGrow(cat, states, evs, sid, i, j);
    SameResidue(GenOf(states[0].gens, sid), Mutations(cat, states, evs, sid, i), Mutations(cat, states, evs, sid, j));
    UnmutatedSame(cat, states, evs, sid, i, j);
  }

  // ---- a fetch across a run ------------------------------------------------------------------------

  /** The slot of a store a fetch is for, and how its item is encoded as a document. */
  datatype Wanted = Wanted(target: B.Target, doc: Item -> seq<byte>) {
    function StoreId(): nat {
      target.storeId
    }

    function Key(): nat {
      ItemKey(target.storeId, target.slot)
    }
  }

  /** The hub in this state would cut the chunk from the item under the key, with the store's generation. */
  ghost predicate Serves(s: State, w: Wanted, h: B.Chunk) {
    && w.Key() in s.items && B.Sendable(w.doc(s.items[w.Key()])) && h.index < B.CountOf(|w.doc(s.items[w.Key()])|)
    && h == B.Cut(w.target, GenOf(s.gens, w.StoreId()), w.doc(s.items[w.Key()]), h.index)
  }

  /** Every chunk for the target was served in some state from `i` to `j`; the others are arbitrary. */
  ghost predicate Served(states: seq<State>, i: nat, j: nat, w: Wanted, hs: seq<B.Chunk>, at: seq<nat>)
    requires i <= j < |states|
  {
    && |at| == |hs|
    && forall k :: 0 <= k < |hs| && hs[k].target == w.target ==> i <= at[k] <= j && Serves(states[at[k]], w, hs[k])
  }

  /** State `n` from `i` to `j` holds the item under the generation. */
  ghost predicate HeldAt(states: seq<State>, i: nat, j: nat, w: Wanted, generation: u16, n: nat)
    requires i <= j < |states|
  {
    i <= n <= j && GenOf(states[n].gens, w.StoreId()) == generation && w.Key() in states[n].items
  }

  /** The document under a generation, as some state from `i` to `j` held it. */
  ghost function DocUnder(states: seq<State>, i: nat, j: nat, w: Wanted, generation: u16): seq<byte>
    requires i <= j < |states|
  {
    if exists n: nat :: HeldAt(states, i, j, w, generation, n) then
      var n: nat :| HeldAt(states, i, j, w, generation, n);
      w.doc(states[n].items[w.Key()])
    else []
  }

  lemma KeyOfStore(w: Wanted)
    ensures w.Key() / 256 == w.StoreId()
  {
    KeyParts(w.target.storeId, w.target.slot);
  }

  lemma {:induction false} ShortWithin(cat: Catalog, states: seq<State>, evs: seq<Event>, sid: nat, i: nat, j: nat, a: nat, b: nat)
    requires i <= a <= b <= j <= |evs| && |states| == |evs| + 1 && ShortOf(cat, states, evs, sid, i, j)
    ensures ShortOf(cat, states, evs, sid, a, b)
  {
    hide Mutations;
    MutationsGrow(cat, states, evs, sid, i, a);
    MutationsGrow(cat, states, evs, sid, b, j);
  }

  /** Two states from `i` to `j` with one generation hold the same item. */
  lemma SameHeld(cat: Catalog, states: seq<State>, evs: seq<Event>, i: nat, j: nat, w: Wanted, a: nat, b: nat)
    requires Trace(cat, states, evs) && SlotsFit(cat) && i <= j <= |evs| && |states| == |evs| + 1
    requires ShortOf(cat, states, evs, w.StoreId(), i, j) && i <= a <= j && i <= b <= j
    requires GenOf(states[a].gens, w.StoreId()) == GenOf(states[b].gens, w.StoreId())
    ensures w.Key() in states[a].items <==> w.Key() in states[b].items
    ensures w.Key() in states[a].items ==> states[a].items[w.Key()] == states[b].items[w.Key()]
  {
    hide Next, SlotsFit, ShortOf, Trace;
    KeyOfStore(w);
    var lo, hi := if a <= b then a else b, if a <= b then b else a;
    ShortWithin(cat, states, evs, w.StoreId(), i, j, lo, hi);
    GenerationMeansItems(cat, states, evs, w.StoreId(), lo, hi);
  }

  /**
   * A store fetch whose chunks the hub served during a stretch of a run with fewer than 65536 operations
   * on the store: whatever the order, duplicates and losses, and however the item changed meanwhile, a
   * fetch that completes has the whole document of the item, as the hub held it in every state of that
   * stretch with the generation of the fetch.
   */
  lemma FetchIsItem(cat: Catalog, states: seq<State>, evs: seq<Event>, i: nat, j: nat, w: Wanted, max: nat,
                    hs: seq<B.Chunk>, at: seq<nat>)
    requires Trace(cat, states, evs) && SlotsFit(cat) && i <= j <= |evs| && |states| == |evs| + 1
    requires ShortOf(cat, states, evs, w.StoreId(), i, j) && Served(states, i, j, w, hs, at)
    ensures var r := B.ReceivedAll(max, w.target, B.Receiver(B.Off, None), hs);
            B.Complete(r.rx) ==>
              && r.generation.Some?
              && (exists n: nat :: HeldAt(states, i, j, w, r.generation.value, n))
              && forall n: nat :: HeldAt(states, i, j, w, r.generation.value, n) ==> r.rx.buf == w.doc(states[n].items[w.Key()])
  {
    hide Next, SlotsFit, ShortOf, Trace, B.Cut, B.CountTrue, B.Holds;
    var blobs := (g: u16) => DocUnder(states, i, j, w, g);
    forall k | 0 <= k < |hs| && hs[k].target == w.target
      ensures B.IsCut(w.target, blobs, hs[k]) && HeldAt(states, i, j, w, hs[k].generation, at[k])
    {
      ServedCut(cat, states, evs, i, j, w, hs[k], at[k], blobs);
    }
    B.FetchIsBlob(max, w.target, blobs, hs);
    var r := B.ReceivedAll(max, w.target, B.Receiver(B.Off, None), hs);
    if B.Complete(r.rx) {
      GenerationCame(max, w.target, hs);
      var k :| 0 <= k < |hs| && hs[k].target == w.target && r.generation == Some(hs[k].generation);
      forall n: nat | HeldAt(states, i, j, w, r.generation.value, n)
        ensures r.rx.buf == w.doc(states[n].items[w.Key()])
      {
        DocIs(cat, states, evs, i, j, w, n);
      }
      assert HeldAt(states, i, j, w, r.generation.value, at[k]);
    }
  }

  /** The document under a state's generation is that state's. */
  lemma DocIs(cat: Catalog, states: seq<State>, evs: seq<Event>, i: nat, j: nat, w: Wanted, n: nat)
    requires Trace(cat, states, evs) && SlotsFit(cat) && i <= j <= |evs| && |states| == |evs| + 1
    requires ShortOf(cat, states, evs, w.StoreId(), i, j) && i <= n <= j && w.Key() in states[n].items
    ensures DocUnder(states, i, j, w, GenOf(states[n].gens, w.StoreId())) == w.doc(states[n].items[w.Key()])
  {
    hide Next, SlotsFit, ShortOf, Trace;
    var g := GenOf(states[n].gens, w.StoreId());
    assert HeldAt(states, i, j, w, g, n);
    var m := Holder(states, i, j, w, g);
    SameHeld(cat, states, evs, i, j, w, m, n);
  }

  /** The state whose item the document is. */
  lemma Holder(states: seq<State>, i: nat, j: nat, w: Wanted, generation: u16) returns (m: nat)
    requires i <= j < |states| && exists n: nat :: HeldAt(states, i, j, w, generation, n)
    ensures i <= m <= j && GenOf(states[m].gens, w.StoreId()) == generation && w.Key() in states[m].items
    ensures DocUnder(states, i, j, w, generation) == w.doc(states[m].items[w.Key()])
  {
    m :| HeldAt(states, i, j, w, generation, m) && DocUnder(states, i, j, w, generation) == w.doc(states[m].items[w.Key()]);
  }

  lemma ServedCut(cat: Catalog, states: seq<State>, evs: seq<Event>, i: nat, j: nat, w: Wanted, h: B.Chunk, n: nat,
                  blobs: u16 -> seq<byte>)
    requires Trace(cat, states, evs) && SlotsFit(cat) && i <= j <= |evs| && |states| == |evs| + 1
    requires ShortOf(cat, states, evs, w.StoreId(), i, j) && i <= n <= j && Serves(states[n], w, h)
    requires forall g: u16 :: blobs(g) == DocUnder(states, i, j, w, g)
    ensures B.IsCut(w.target, blobs, h) && HeldAt(states, i, j, w, h.generation, n)
  {
    hide Next, SlotsFit, ShortOf, Trace, DocUnder;
    B.CutIs(w.target, GenOf(states[n].gens, w.StoreId()), w.doc(states[n].items[w.Key()]), h.index);
    DocIs(cat, states, evs, i, j, w, n);
  }

  /** A receiver's generation is that of a chunk that came. */
  lemma {:induction false} GenerationCame(max: nat, target: B.Target, hs: seq<B.Chunk>)
    ensures var r := B.ReceivedAll(max, target, B.Receiver(B.Off, None), hs);
            r.generation.Some? ==> exists k :: 0 <= k < |hs| && hs[k].target == target && r.generation == Some(hs[k].generation)
    decreases |hs|
  {
    hide B.Inserted, B.Begun;
    if hs != [] {
      var n := |hs| - 1;
      GenerationCame(max, target, hs[..n]);
      var r := B.ReceivedAll(max, target, B.Receiver(B.Off, None), hs[..n]);
      if r.generation.Some? {
        var k :| 0 <= k < |hs[..n]| && hs[..n][k].target == target && r.generation == Some(hs[..n][k].generation);
        assert hs[k] == hs[..n][k];
      }
    }
  }
}
