/** Raw messages at the hub, and whole runs of it (clients/js/localhub.js, clients/js/frames.js). */
module HubWire {
  import opened Bytes
  import opened HubCatalog
  import opened Hub
  import opened HubMachine
  import opened HubStart
  import Crc32

  /**
   * A raw message of the ESTOP form: it latches a stop if and only if its CRC holds, whatever the
   * sender's role or readiness.
   */
  method ReceiveRaw(hub: LocalHub, table: array<bv32>, message: seq<bv8>) returns (handled: bool)
    requires hub.Valid() && Crc32.IsTable(table, Crc32.Byte)
    modifies hub
    ensures hub.Valid()
    ensures handled <==> |message| == Crc32.ESTOP_FRAME_BYTES && message[..4] == Crc32.MAGIC
    ensures hub.Abs() == if Crc32.AcceptsEstop(message) then LatchEstop(hub.cat, old(hub.Abs())) else old(hub.Abs())
  {
    hide LatchEstop, Crc32.CrcBy, Crc32.Byte, Crc32.Word;
    handled := |message| == Crc32.ESTOP_FRAME_BYTES && message[..4] == Crc32.MAGIC;
    if handled {
      var crc := Crc32.ComputeCrc32(table, message[..8]);
      if crc == Crc32.Word(message[8..]) {
        hub.LatchStop();
      }
    }
  }

  /** Every run of the hub is a trace of its step function. */
  method TakeAll(hub: LocalHub, evs: seq<Event>) returns (ghost states: seq<State>)
    requires hub.Valid()
    modifies hub
    ensures hub.Valid() && Trace(hub.cat, states, evs)
    ensures states[0] == old(hub.Abs()) && states[|evs|] == hub.Abs()
  {
    hide Next, Fits;
    states := [hub.Abs()];
    var k := 0;
    while k < |evs|
      invariant k <= |evs| && hub.Valid() && |states| == k + 1
      invariant states[0] == old(hub.Abs()) && states[k] == hub.Abs()
      invariant forall i :: 0 <= i <= k ==> Fits(hub.cat, states[i].vals)
      invariant forall i :: 0 <= i < k ==> states[i + 1] == Next(hub.cat, states[i], evs[i])
    {
      hub.Take(evs[k]);
      states := states + [hub.Abs()];
      k := k + 1;
    }
  }

  /** Every run of a hub from its creation. */
  method RunHub(cat: Catalog, g: Given, evs: seq<Event>) returns (hub: LocalHub, ghost states: seq<State>)
    requires cat.WellFormed()
    ensures fresh(hub) && hub.cat == cat && Trace(cat, states, evs)
    ensures states[0] == Created(cat, g) && states[|evs|] == hub.Abs()
  {
    hide Created;
    hub := new LocalHub(cat, g);
    states := TakeAll(hub, evs);
  }
}
