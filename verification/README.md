# The Valence wire protocol: a verified model of the JavaScript reference client

Valence is a wire protocol between a hub, which owns a machine, and its clients. This project
models three connected cores of its JavaScript reference code and proves what they promise over
every input and every run:

- **The in-page hub** (`clients/js/localhub.js`) as a step machine over intents, raw ESTOP
  frames, the session plane and socket closes, taken by any number of connections. `Hub.dfy`
  gives the step function: every intent is first decided on the state before any write, and the
  decision is then carried out. `HubMachine.dfy` holds the hub as it stands, a class whose maps
  are updated field by field and loop by loop, and proves that it takes exactly those steps.
- **The client session** (`clients/js/session.js`): the SYNCING to LIVE gate against the
  readiness gate of the hub, blob reassembly with repair and restart, the queue of store fetches,
  the publish token bucket and the CLOCK offset.
- **The codecs under both**: COBS and the deframer (`clients/provision/link.js`), deterministic
  CBOR (`clients/js/cbor.js`), packed layouts and blob chunks (`clients/js/catalog.js`), framing
  and CRC-32 (`clients/js/frames.js`).

The files, bottom up:

| files | what they hold |
|---|---|
| `Bytes`, `Cobs`, `Frames`, `Link`, `Crc32`, `Cbor` | bytes and codecs, loops over buffers proved against short recursive definitions |
| `Packed`, `PackedWrite`, `PackedNumbers` | packed snapshots: decoder, sample encoder, one-field writer, in exact arithmetic, and what their bytes stand for |
| `HubCatalog`, `Hub`, `HubStart`, `HubSnapshots` | what the hub reads from its catalog, its step function, its creation, and the bytes its values stand for |
| `HubPlaces`, `HubSteps` | what a step writes, place by place, and what an event comes to |
| `HubTrials`, `HubLayers`, `HubSafety`, `HubControl`, `HubSources`, `HubIntents`, `HubDerived`, `HubRosters`, `HubStores`, `HubViews` | properties of whole runs |
| `HubAccess`, `HubReadings`, `HubMoves`, `HubLatch`, `HubOps`, `HubStoreOps`, `HubSight` | what every intent is answered and who is shown what, written out in the numbers of the catalog and the registry |
| `HubRuns` | what creation establishes, and so what every run keeps |
| `HubPieces`, `HubWrites`, `HubIntake`, `HubMachine`, `HubWire` | the imperative hub and its refinement of the step function |
| `Blob`, `Reassembler`, `HubBlobs` | blob transfer from the hub's chunks to the client's reassembler, and across a run of the hub |
| `Joint`, `JointHub`, `ClientSession` | client and hub together, over in-order channels |
| `FetchQueue`, `FetchEnds`, `StoreQueue` | the queue of store fetches, as a state machine, how each fetch ends, and as the session keeps it |
| `Bucket`, `Clock` | publishing rate and time |

Hypotheses the code relies on but does not check are named where they are used. For the hub they
are gathered in `HubRuns.GoodStart`: `Catalog.Apart` (the fields it derives are neither settings
nor sources, a source is a number), `SlotsFit` (stores of at most 256 slots), `MarksPlain` (a trial
mark is one unscaled byte), `OneSourcePerChannel`, and of what is replayed at creation that it is
safe, runs at most one source, shows no trial mark, and fills no string of a setting to its width.
For client and hub together they are `Joint.Holdable` (a catalog the client can hold and decode,
an etag that names no other bytes) and `Joint.Promised` (a retained channel among the grants, or
the etag of the hub offered in HELLO).

Where a property needs a hypothesis, a lemma says exactly when it holds (`PackedWrite.RestoreExact`,
`HubLayers.RevertRestores`, `HubSources.WritesKeepOne`, `HubControl.FloorIff`, `HubIntents.Atomic`,
`HubViews.NextCoherent`, `HubRuns.CreatedMarks`, `Joint.LiveIff`, `Joint.LiveReached`,
`Blob.WholeWhen`, `Bucket.WindowWhile`, `Clock.RttIsDelays`, `Clock.HubTime`), and an input
shows it failing (`HubRuns.FullWidthLost`, `HubSources.TwoStart`, `HubControl.PauseResumes`,
`HubIntents.ThrownActs`, `HubIntents.TooWideActs`, `HubViews.StaleSubscriber`,
`HubRuns.MarkReplayed`, `Joint.StaleLive`, `Joint.FirstLive`, `Blob.CatalogsMix`,
`Bucket.ClockBackOverspends`).

Findings where the code is looser than its own header says:

- one intent that starts two sources of one channel passes the check for source conflicts;
- an intent without `intent_id`, or with an applied number no ECHO can carry, acts before it is
  refused as malformed, and what it changed is not broadcast;
- the control floor on the operations that bring a machine back is judged on the operation as
  sent, while the operation carried out is the one clamped by the catalog's bounds;
- a hub created from snapshots taken during a trial shows marks no trial stands for;
- a client with nothing retained to wait for goes LIVE before the hub is ready, on a first
  connection as soon as its catalog is in, on a later one with the catalog of the one before,
  unless its HELLO offered the etag of the hub.

## Model

| member | source | states |
|---|---|---|
| Cobs.CobsEncode | clients/provision/link.js:34-58 | the encoder over its preallocated array, every write in bounds, yields the block form of the input, without the code byte still owed when a full run of 254 closes the input |
| Cobs.CobsDecode | clients/provision/link.js:61-76 | the decoder over its preallocated array yields the decoding, or nothing for a zero or overrunning code |
| Cobs.RoundTrip | clients/provision/link.js:34-76 | decoding an encoding gives back every byte string |
| Cobs.ClassicDecodes | clients/provision/link.js:34-76 | the classic form, with the trailing code after a full run, decodes to the same bytes |
| Cobs.NoZero | clients/provision/link.js:34-58 | an encoding holds no zero byte |
| Cobs.LengthBound | clients/provision/link.js:34-58 | an encoding is longer than its input by at least one and at most n/254 + 1 bytes, which is the size of the buffer the encoder takes |
| Cobs.Injective | clients/provision/link.js:34-58 | two byte strings with one encoding are one |
| Cobs.EncodedIs | clients/provision/link.js:34-58 | the format: a run of fewer than 254 bytes without a zero is sent behind its length and one and stands for the zero that ends it, a run of 254 behind 255 and stands for itself |
| Frames.ParseFrames | clients/js/frames.js:328-341 | the walk over a buffer returns the frames at its front up to the first that does not fit |
| Frames.HeaderRoundTrip | clients/js/frames.js:203-213 | a header decodes to the fields it was encoded from, whatever follows it |
| Frames.ParsedAll | clients/js/frames.js:328-341 | a buffer of whole frames parses back to exactly them, and what follows is parsed on its own |
| Frames.Truncated | clients/js/frames.js:328-341 | a frame cut short anywhere yields nothing |
| Frames.ParsedIsPrefix | clients/js/frames.js:328-341 | what the walk returns is, byte for byte, what the buffer begins with |
| Frames.HeaderLayout | clients/js/frames.js:203-213 | the header byte by byte: kind, flags, channel, sequence number and length, low byte first |
| Frames.FrameLayout | clients/js/frames.js:328-341 | the first frame of a buffer is read from these bytes, if and only if its header and the payload it tells fit |
| Link.Deframer.Push | clients/provision/link.js:93-127 | a push delivers the frames of the chunks it closes, keeps the open chunk, and counts the chunks it discards |
| Link.PushAll | clients/provision/link.js:209-222 | over any sequence of reads, the pump delivers what splitting the whole stream at zeros and decoding delivers: the cuts do not matter |
| Link.SplitConcat | clients/provision/link.js:93-127 | splitting a stream in two parts, the second from the chunk left open, is splitting it whole |
| Link.CarriesFrame | clients/provision/link.js:87-127 | a chunk carries a frame if and only if it is at most 515 bytes and decodes to 12 bytes that begin with four e5, or to a header whose length covers the rest |
| Link.StreamDelivers | clients/provision/link.js:79-127 | frames sent by serialFrame with arbitrary noise between them are all delivered, in order, with only what the noise itself forms in between |
| Link.SilentStream | clients/provision/link.js:79-127 | with no frame-shaped noise exactly the sent frames are delivered |
| Link.EndToEnd | clients/provision/link.js:79-127 | what is given to encodeFrame and sent by serialFrame amid silent noise comes out of the deframer, over reads cut anywhere, and of parseFrames as the same headers and payloads, in order and nothing else |
| Crc32.BuildTable | clients/js/frames.js:224-232 | entry n of the table is eight bit-serial steps of n |
| Crc32.ComputeCrc32 | clients/js/frames.js:235-239 | the table-driven loop computes the bit-serial reflected division by 0xEDB88320 (IEEE 802.3 section 3.2.9) for every input |
| Crc32.CheckValue | clients/js/frames.js:224-239 | the check value of this CRC: the nine ASCII digits from 1 on give 0xCBF43926 |
| Crc32.BurstDetected | clients/js/frames.js:224-239 | messages of any length that differ within four consecutive bytes have different CRCs |
| Crc32.EncodedEstopAccepted | clients/js/frames.js:248-257 | an encoded ESTOP frame passes the test of the hub |
| Crc32.EstopLayout | clients/js/localhub.js:581-586 | the hub latches a stop on exactly the raw messages of 12 bytes that begin with four e5 and end in the CRC of their first eight, low byte first |
| Crc32.EncodedLayout | clients/js/frames.js:248-257 | an ESTOP frame holds cause, origin and sequence number behind the four e5 |
| Crc32.AlteredEstopRejected | clients/js/localhub.js:581-586 | a frame the hub latches on, altered within four consecutive bytes, is not latched on |
| Cbor.HeadRoundTrip | clients/js/cbor.js:29-50 | a head reads back, anywhere in a buffer, as its major type and argument, and ends where it ends |
| Cbor.HeadShortest | clients/js/cbor.js:29-50 | of all heads the decoder maps to an argument, head writes the one shortest (RFC 8949 section 4.2.1), across the 32-bit and 2^53 boundaries |
| Cbor.HeadLayout | clients/js/cbor.js:29-50 | a head byte by byte: which arguments it takes, in how many bytes, what its first byte says, and the argument high byte first (RFC 8949 section 3) |
| Cbor.ValueLayout | clients/js/cbor.js:65-119 | every value begins with the byte of its major type (RFC 8949 section 3.1), strings end in their bytes, and simple values and floats are their bytes |
| Cbor.ConcatBytes | clients/js/cbor.js:53-59 | the loop joins its parts in order |
| Cbor.CbMap | clients/js/cbor.js:109-119 | a map is refused unless its keys are strictly ascending, and otherwise is its head and its pairs |
| Cbor.RawMapIsMap | clients/js/cbor.js:109-119 | what cbMap writes from encoded values is the encoding of the map of those values |
| Cbor.CbDecode | clients/js/cbor.js:131-186 | the recursive decoder with its loops reads the item at a position, or nothing where the input ends early |
| Cbor.RoundTrip | clients/js/cbor.js:29-186 | decoding an encoding followed by any bytes returns the value and stops exactly at its end |
| Cbor.PrefixFree | clients/js/cbor.js:29-186 | no encoding is a proper prefix of another, and equal encodings decode to one value |
| Cbor.Injective | clients/js/cbor.js:29-186 | two values have one encoding if and only if the decoder cannot tell them apart |
| Packed.DecodePacked | clients/js/catalog.js:619-678 | the loop over the offset decodes the fields that fit, skipping an unknown type of declared size and stopping at one without; what a field then shows is PackedNumbers.DecodedShows |
| Packed.ShorterLayout | clients/js/catalog.js:619-678 | decoding with a shorter layout is the full decode restricted to its fields |
| Packed.OlderSnapshot | clients/js/catalog.js:619-678 | decoding a shorter payload is the full decode restricted to the fields that fit |
| Packed.LongerPayload | clients/js/catalog.js:619-678 | bytes past the end of the layout change nothing |
| Packed.UnknownWithSize | clients/js/catalog.js:619-678 | a field of an unknown type with the size of the field it replaces hides that field and changes no other |
| Packed.UnknownWithoutSize | clients/js/catalog.js:619-678 | an unknown type without a size ends the decode there: no later offset shifts |
| PackedNumbers.DecodedShows | clients/js/catalog.js:619-678 | every field of a payload lies where the octets of the fields before it end, and shows: an integer, little-endian and below zero by the top bit of an i8, i16 or i32, over the scale of the field (1 if that is 0); the four bytes of a float; the byte of a bit field; text without its trailing zeros |
| PackedWrite.EncodePacked | clients/js/catalog.js:749-788 | the encoder writes every field in turn, or refuses the sample |
| PackedWrite.EncodedWhen | clients/js/catalog.js:749-788 | a sample is refused if and only if some field is missing, of an unencodable type, or out of range; nothing wraps |
| PackedWrite.DecodeOfEncode | clients/js/catalog.js:727-788 | decoding an encoded sample gives each integer field to within half a step of its scale |
| PackedWrite.EncodeOfDecode | clients/js/catalog.js:619-788 | encoding what was decoded from a payload of integer fields gives the payload back |
| PackedNumbers.RefusesWhen | clients/js/catalog.js:749-788 | a sample is refused if and only if some field is missing, not numeric, or such that no number of its range is the nearest to the value in steps of its scale |
| PackedNumbers.EncodedShows | clients/js/catalog.js:749-788 | an encoded sample has each field where the one before ends: an integer as the whole number of steps of its scale nearest to the value, halves away from zero, a float as the value in steps |
| PackedWrite.WriteSnapshot | clients/js/localhub.js:87-115 | the one-field writer copies the snapshot into a buffer that may have grown and overwrites the field alone |
| PackedWrite.WriteFieldStores | clients/js/localhub.js:87-115 | after a write the field decodes to the rounded, saturated value and every other field to what it was |
| PackedNumbers.WriteKeeps | clients/js/localhub.js:87-115 | after one field is written it decodes to the nearest whole number of steps of its scale, halves up, cut to the range of its type, or to the low byte, or to the text cut to leave room for one zero; every other field decodes to what it did |
| PackedWrite.ReadRestorable | clients/js/localhub.js:87-97 | a value read from a snapshot can be written back exactly unless it is a string that fills its width |
| PackedWrite.RestoreExact | clients/js/localhub.js:87-115 | writing a value back stores exactly that value if and only if the writer can store it: a string must leave room for one zero |
| HubSnapshots.SetFieldBytes | clients/js/localhub.js:203-204 | writing one field into the bytes of a channel sets that place of the values and no other, so the value maps of the hub model stand for its snapshots |
| HubMachine.LocalHub.Broadcast | clients/js/localhub.js:229-233 | STATE of a channel reaches exactly the ready subscribers |
| HubMachine.LocalHub.PutLatch | clients/js/localhub.js:264-280 | the new latch is stored and pushed to every ready subscriber |
| HubMachine.LocalHub.LatchStop | clients/js/localhub.js:281-293 | the stop zeroes and broadcasts every running source entry by entry, and sets the latch once |
| HubMachine.LocalHub.SafetyOp | clients/js/localhub.js:294-319 | the switch over the safety operations, written on the latch: a refused operation changes nothing, a stop ends by release alone and lands in pause, a pause ends by resume alone, with no stop, override or homing demand left; every other field of the new latch is that of the step function |
| HubMachine.LocalHub.SyncRosterOf | clients/js/localhub.js:205-215 | generation, counted items and capacity are written into the first roster of the store |
| HubMachine.LocalHub.StoreOp | clients/js/localhub.js:326-365 | the switch over the store operations, written on the items: it is refused with nothing changed, or leaves the items of the step function, the next generation and a synchronised roster |
| HubMachine.LocalHub.CheckMove | clients/js/localhub.js:409-417 | homing and a commanded move are refused on the state before any write, in the order of the checks: ESTOP_ACTIVE exactly under a stop, NOT_HOMED exactly for a move under a homing demand alone, then INTERLOCK under a pause and SOURCE_CONFLICT beside a source without an override |
| HubMachine.LocalHub.EndOp | clients/js/localhub.js:492-495 | an intent on settings-trial commits or reverts the trials of its session, or is refused |
| HubMachine.LocalHub.constructor | clients/js/localhub.js:167-221 | creation fills every snapshot in, replayed or field by field, sets the items in order and syncs the roster of every store; there is no trial and no connection |
| HubMachine.LocalHub.TrialMasks | clients/js/localhub.js:371-387 | every mark that differs from the trials is rewritten, and the channels written are reported |
| HubMachine.LocalHub.EndTrialsOf | clients/js/localhub.js:389-404 | every trial of the session is committed or reverted, other sessions keep theirs, and whether a value moved is reported |
| HubMachine.LocalHub.CheckWrites | clients/js/localhub.js:425-430 | the check loop refuses the first write that starts a source under a stop, a pause or another source, reading the state before any write |
| HubMachine.LocalHub.ApplyIntent | clients/js/localhub.js:406-438 | the writes are collected, checked and made in order; the outcome is that of the plan |
| HubMachine.LocalHub.Admit | clients/js/localhub.js:441-465 | the gate stops, replays or passes the intent, checking every entry of its value in order; a well addressed intent gets NOT_READY, NOT_CONTROLLER, ACCESS_DENIED, a replay or a pass exactly when HubAccess.IntentAllowed says |
| HubMachine.LocalHub.CheckTrials | clients/js/localhub.js:470-490 | the trial rules refuse in their order, and the baselines of the trials that open are taken before anything is written |
| HubMachine.LocalHub.CarryOut | clients/js/localhub.js:466-506 | an admitted intent is refused with nothing changed, or carried out with its trials settled and their marks redone |
| HubMachine.LocalHub.ReceiveIntent | clients/js/localhub.js:440-514 | one INTENT frame takes the hub to the state and answer of the step function |
| HubMachine.LocalHub.ReceiveHello | clients/js/localhub.js:533-558 | HELLO sets readiness by the etag, clears the ring, replaces the subscriptions by the grants and pushes retained STATE if ready |
| HubMachine.LocalHub.ReceiveCatalogReady | clients/js/localhub.js:575-579 | CATALOG_READY opens the gate once and pushes every subscribed channel |
| HubMachine.LocalHub.CloseSocket | clients/js/localhub.js:645-654 | a close drops the connection and reverts its trials, broadcasting what moved |
| HubMachine.LocalHub.Take | clients/js/localhub.js:581-654 | every event takes the hub from its state to the one the step function gives |
| HubWire.TakeAll | clients/js/localhub.js:581-654 | every run of the hub is a trace of the step function the lemmas speak of |
| HubWire.RunHub | clients/js/localhub.js:167-221 | every run from creation is a trace that begins in the created state |
| HubWire.ReceiveRaw | clients/js/localhub.js:581-586 | a raw message latches a stop if and only if it has the ESTOP form and its CRC holds |
| HubAccess.IntentAllowed | clients/js/localhub.js:449-465 | a well addressed intent is answered NOT_READY, NOT_CONTROLLER or ACCESS_DENIED if and only if: the session is not ready, or below the control role on a safety operation, and it is no pause or stop; the first key not fine is one whose access (of the entry, of the field, of the option the number picks or else of all) the roles do not reach. Whatever else happens to an intent that is no repeat, every key was within reach and taken by its field; what is refused changes nothing |
| HubAccess.Unaddressed | clients/js/localhub.js:441-448 | an intent for no channel, for one of another class, or without a map is refused with the code of that and changes nothing |
| HubAccess.ChangedBy | clients/js/catalog.js:548-567 | an intent that changes anything was sent by a session let in, whose roles reach the access of the entry, of every field and of every option it names |
| HubReadings.PassReads | clients/js/localhub.js:128-149 | what passes the gate is, key by key, what was sent: of the kind of the field, whole for an integer, one of its options if it lists any, bound by its min and max with the max outranking, and not below zero for an unsigned one |
| HubReadings.WriteReads | clients/js/localhub.js:418-435 | a settings write that is carried out puts into the first place of each layout that mirrors a key what was read, within the bounds of the place, and leaves secrets and all other settings and sources alone |
| HubReadings.EchoShows | clients/js/localhub.js:151-161 | the ECHO of an intent that is carried out names exactly the keys it was sent; of a secret field it says only that it was set, of any other what was read |
| HubReadings.EchoIsStored | clients/js/localhub.js:507-513 | what the ECHO of a settings write says of a key is what was stored in the last place to mirror it |
| HubReadings.EncodableIs | clients/js/localhub.js:507-510 | the hub takes a whole number for one the ECHO can carry if and only if the CBOR encoder of the type of its field takes it |
| HubMoves.MoveDecided | clients/js/localhub.js:409-430 | an intent that passes the gate and the trial rules and commands a move, on no store or hub operation, is refused with ESTOP_ACTIVE, NOT_HOMED, INTERLOCK or SOURCE_CONFLICT, in this order and with nothing changed, while there is a stop, a homing demand, or a pause or a running source without an override; otherwise it is carried out unless it would also start a source against a pause or another source |
| HubMoves.MoveAfterStop | clients/js/localhub.js:281-319 | between a latch edge and the next commanded move carried out there are an accepted release and, if the stop cuts power, an accepted homing after it |
| HubLatch.LatchLaw | clients/js/localhub.js:264-319 | after every event each part of the latch is what the operations carried out made of it: stop, pause, override, homing demand, counter and cause are characterised, and all else is carried along |
| HubLatch.SafetyAnswered | clients/js/localhub.js:294-319 | an admitted safety operation is refused exactly so: a resume under a stop, an override or a homing demand, in this order, an override under a stop, and any unknown operation, each with its code and nothing changed |
| HubOps.TrialDecided | clients/js/localhub.js:470-490 | of an intent that passes the gate the trial rules refuse exactly what names a setting another session has on trial, and what is sent for a trial with a verb, on the safety or the trial channel, or with a setting no place shows or whose places hold a source or a secret |
| HubOps.TrialCarried | clients/js/localhub.js:470-502 | a trial write that arrives and commands no move is carried out, and every setting it names is then on trial by its session, with what its places showed |
| HubOps.EndAnswered | clients/js/localhub.js:492-495 | on settings-trial 1 commits, 2 reverts, and anything else is refused |
| HubOps.ConfigCounts | clients/js/localhub.js:389-404 | cfg_gen moves by one, modulo 2^16, with each settings write that some place mirrors and each revert or close that moves a value back, and with nothing else; an ECHO tells the one it moved to |
| HubStoreOps.StoreAnswered | clients/js/localhub.js:326-365 | an admitted store operation (1 saves, 2 loads, 3 deletes, 4 renames) is judged by slot, name, payload and what the store holds: refused with its code and nothing changed, or carried out with exactly the items judged and the generation moved by one unless it is a load |
| HubStoreOps.StoreUnknown | clients/js/localhub.js:326-328 | an operation whose channel names no store of the catalog is refused |
| HubStoreOps.StoreSays | clients/js/localhub.js:329-347 | operation, slot, name and payload are said in the first field with that role, or without one in the only plain field of the kind; a payload field with a role carries a document, whose payload is the byte string under key 7 |
| HubTrials.NextSound | clients/js/localhub.js:368-404 | every event keeps baselines to exactly the places of their setting, none a source or a secret, and every trial with an open session |
| HubTrials.TraceSound | clients/js/localhub.js:368-404 | in every state of a run no trial outlives its session |
| HubLayers.NextRefines | clients/js/localhub.js:368-404 | the live values and baselines move as a persisted store with one overlay per session (trial writes touch the overlay alone, plain writes and commits go down into the store, reverts and closes take the overlay off) if and only if every baseline an event puts back shows already or leaves room for a zero where it is a string |
| HubLayers.NextWritable | clients/js/localhub.js:87-115 | what the hub itself has written can always be put back: every event keeps settings and baselines restorable |
| HubLayers.TraceRefines | clients/js/localhub.js:368-404 | so in a run from restorable settings the layers move as they should throughout |
| HubLayers.NextFate | clients/js/localhub.js:466-506 | what one event can do to a setting on trial: stay, be reverted (to its baseline, if and only if that can be put back), be committed as shown, or be overwritten by its holder; an event not of the holder leaves value and trial alone |
| HubLayers.BaselineKept | clients/js/localhub.js:479-502 | throughout a trial its baseline is what the setting showed when the trial opened, and its holder is the session that opened it |
| HubLayers.RevertRestores | clients/js/localhub.js:389-404 | a revert, or the close of the session, restores exactly what the setting showed when the trial opened, if and only if every place shows that already or can be put back to it |
| HubLayers.OnlyHolderWrites | clients/js/localhub.js:470-475 | while a setting is on trial nobody but the holder changes it or ends the trial |
| HubSafety.NextLatch | clients/js/localhub.js:281-319 | the stop is cleared only by an accepted release, which lands in pause; the homing demand only by an accepted homing without a stop; the pause only by an accepted resume without stop, override or homing demand |
| HubSafety.NextStarts | clients/js/localhub.js:406-430 | a source starts only by an accepted write, with no stop, no pause and no other source running |
| HubSafety.NextSafe | clients/js/localhub.js:281-319 | every event keeps: an override is paused, a stop excludes the override, and no source runs under a stop |
| HubSafety.TraceSafe | clients/js/localhub.js:281-319 | in every state of a run the latch is coherent and nothing runs under a stop |
| HubSafety.RestartOrder | clients/js/localhub.js:281-319 | between a latch edge and the next source start there are, in this order, an accepted release, an accepted homing if the stop cuts power, and an accepted resume |
| HubSafety.CountsEdges | clients/js/localhub.js:281-293 | estop_seq counts latch edges modulo 2^16, however often a stop is repeated |
| HubControl.PausedBecause | clients/js/localhub.js:294-319 | after every event the machine is paused if and only if the event was an accepted pause, override or release of a stop, or it was paused and the event no accepted resume |
| HubControl.UnpausedIff | clients/js/localhub.js:294-319 | in a run the machine is free of pause if and only if it was resumed, or began so, and nothing has paused it since |
| HubControl.WayBack | clients/js/localhub.js:294-319 | from every latch, whatever it is, a release, a return, a homing and a resume, each asked for by a session that may and with any events between that leave the latch alone, are all carried out and leave no stop, pause, override or homing demand |
| HubControl.CanRestart | clients/js/localhub.js:440-514 | in every state a ready session in control, whom the safety channel and a homing field accept, has four intents that pass every gate and leave the machine free |
| HubControl.ResumeFrees | clients/js/localhub.js:301-306 | a resume that is admitted is carried out, and leaves the machine free, if and only if there is no stop, override or homing demand |
| HubControl.ReArmingNeedsControl | clients/js/localhub.js:449-453 | unless the operation field reads a pause or a stop as such an operation, an operation other than pause and stop is carried out only for a ready session with the control role |
| HubControl.FloorIff | clients/js/localhub.js:449-453 | that control floor holds for every state and event if and only if the operation field does not turn a pause or a stop into a release, resume, override or return: the gate judges the operation as sent, the hub carries it out as clamped |
| HubControl.PauseResumes | clients/js/localhub.js:449-453 | with a lower bound of 5 on the operation field, a watcher who is not ready resumes a paused machine by sending a pause |
| HubControl.StopOutranks | clients/js/localhub.js:449-453 | pause and stop are never refused for readiness or role |
| HubControl.TraceMaySee | clients/js/localhub.js:517-530 | in every state of a run no session subscribes to a channel that is not subscribable or above its tier |
| HubControl.SubscribedIff | clients/js/localhub.js:517-530 | a HELLO subscribes to exactly the wishes that name a STATE or EVENT channel within the tier of the session, and a SUBSCRIBE of at most 16 wishes to those besides |
| HubSight.NextShows | clients/js/localhub.js:228-233 | an event shows a session something new of a channel, the safety latch included, only if it is ready and subscribes to the channel |
| HubSight.TraceWithin | clients/js/localhub.js:517-530 | in every state of a run nothing has been shown to a session of a channel above its tier, or of one that cannot be subscribed to |
| HubSources.WritesKeepOne | clients/js/localhub.js:418-435 | accepted writes keep at most one source running if and only if they set at most one idle source going |
| HubSources.OneSource | clients/js/localhub.js:322-324 | in every state of a run at most one source is nonzero, provided no INTENT channel writes two |
| HubSources.TwoStart | clients/js/localhub.js:425-430 | one intent that starts two sources of one channel passes the check and both run |
| HubIntents.AnsweredWhen | clients/js/localhub.js:440-514 | an intent is answered with an ECHO if and only if it is a replay, or passes gate and plan and its ECHO can be encoded; it is refused after it acted if and only if it passes both and the ECHO cannot |
| HubIntents.Atomic | clients/js/localhub.js:440-514 | an intent not answered with an ECHO leaves the hub as it was, if and only if it was not carried out, its ECHO could be encoded, or carrying it out had nothing to change |
| HubIntents.IdAndBoundsSuffice | clients/js/localhub.js:507-514 | an intent with an id, on a channel whose integer fields are bounded, is answered with an ECHO or changes nothing |
| HubIntents.ThrownActs | clients/js/localhub.js:507-514 | an intent without an id is carried out, and only then fails to be answered |
| HubIntents.TooWideActs | clients/js/localhub.js:507-514 | a value of 2^53 for an unbounded field is stored saturated, and only then fails to be answered |
| HubIntents.RingIsHistory | clients/js/localhub.js:508-512 | the ring holds exactly the newest 32 answers of the session, in order, since the HELLO that emptied it |
| HubIntents.TraceRingsOk | clients/js/localhub.js:508-512 | in every state of a run every ring has at most 32 answers and no id twice |
| HubIntents.ExactlyOnce | clients/js/localhub.js:451-454 | re-sending a carried-out intent before 32 later ones is answered with the identical ECHO and changes nothing |
| HubDerived.NextMarks | clients/js/localhub.js:371-387 | every event keeps the trial marks in step with the trials |
| HubDerived.MarksShowTrials | clients/js/localhub.js:371-387 | in every state of a run the bit of a setting is set in its mark if and only if the setting is on trial, with at most 32 settings and 4 marks |
| HubRosters.NextRosters | clients/js/localhub.js:205-215 | every event keeps every roster in step with its store, while stores have at most 256 slots |
| HubRosters.RosterCounts | clients/js/localhub.js:205-215 | in every state of a run the count field shows the number of occupied slots, which is at most the capacity, as its field stores it: the number itself if and only if the field can hold it, as an unscaled integer field up to the capacity always can |
| HubRosters.RosterShows | clients/js/localhub.js:205-215 | in every state of a run the first roster of a store shows, as its fields store them, the generation of the store, the number of its item keys and its capacity |
| HubRosters.CountIsOccupied | clients/js/localhub.js:196-209 | the number of item keys of a store is the number of its occupied slots, at most its capacity, while stores have at most 256 slots and items lie within them |
| HubRosters.GenerationCounts | clients/js/localhub.js:361-363 | a generation moves by one for each carried-out operation on its store, modulo 2^16, and never otherwise |
| HubBlobs.GenerationMeansItems | clients/js/localhub.js:361-363 | two states of a run with one generation of a store, fewer than 65536 operations on it apart, hold the same items of it |
| HubBlobs.FetchIsItem | clients/js/localhub.js:560-573 | a store fetch that completes has the whole document of the item the hub held under the generation of the fetch, whatever the order, duplicates, losses and changes of the item while its chunks were served |
| HubStores.LoadAfterSave | clients/js/localhub.js:344-360 | a load after a save of the same slot, with nothing rewriting it between, finds the payload that was saved, and is accepted if and only if the name it says is not too long |
| HubStores.StoreEffect | clients/js/localhub.js:326-360 | an accepted save leaves the payload and name it was sent, in an item the store may hold, a delete an empty slot, a rename the payload there was, a load everything as it was; no other slot is touched |
| HubStores.TraceItemsOk | clients/js/localhub.js:337-360 | in every state of a run every item is of the kind of its store and within its name, payload and slot limits |
| HubViews.NextCoherent | clients/js/localhub.js:229-233 | an event keeps what every ready subscriber was last told equal to what the hub holds, if and only if it is not an intent whose ECHO cannot be encoded and by which, computed place by place from the state before, somewhere a ready session subscribes to is to read other than was announced; trials, their marks, store rosters and stops included |
| HubViews.TraceCoherent | clients/js/localhub.js:229-233 | the first steps of a run keep every subscriber up to date if and only if none of them is such an intent |
| HubViews.PerformReads | clients/js/localhub.js:326-404 | carrying an intent out leaves every place reading what its writes, store operation, revert, stop and redone marks make of it, as computed from the state before |
| HubViews.PerformBehind | clients/js/localhub.js:507-513 | an intent carried out and not broadcast leaves a subscriber behind if and only if a place it watches is to read other than was announced |
| HubViews.CarefulCoherent | clients/js/localhub.js:507-513 | in every run whose intents carry an id, on channels of bounded integers, no subscriber is ever left behind |
| HubViews.StaleSubscriber | clients/js/localhub.js:507-513 | a level set without an intent id leaves its subscriber with the old level |
| HubRuns.CreatedRosters | clients/js/localhub.js:205-221 | creation leaves every roster in step with its store, whatever it is created from |
| HubRuns.CreatedShows | clients/js/localhub.js:118-196 | the created hub shows at every place that is no roster field what was replayed, else the initial value as stored, else nothing; it holds of the items given the last for each slot, with configuration generation 1 and no trial or connection |
| HubRuns.GenerationReplayed | clients/js/localhub.js:216-221 | a store begins with the generation its replayed roster shows, modulo 2^16 |
| HubRuns.CreatedSafe | clients/js/localhub.js:178-183 | the created hub is safe if and only if the replayed latch is coherent and, under a stop, no source runs in what was replayed |
| HubRuns.CreatedOne | clients/js/localhub.js:178-183 | at most one source runs in the created hub if and only if at most one runs in what was replayed |
| HubRuns.CreatedMarks | clients/js/localhub.js:178-183 | the marks of the created hub agree with its trials, of which it has none, if and only if every mark was replayed or begins as zero |
| HubRuns.FreshMarks | clients/js/localhub.js:118-125 | marks that are neither replayed nor given a default agree |
| HubRuns.MarkReplayed | clients/js/localhub.js:178-183 | a snapshot replayed with a mark set shows a trial that nobody holds |
| HubRuns.CreatedWritable | clients/js/localhub.js:178-183 | every setting of the created hub can be put back if and only if the replayed ones can |
| HubRuns.FullWidthLost | clients/js/localhub.js:96-97 | in a run from creation, a replayed string that fills its width loses its last byte when a trial of it ends with its session |
| HubRuns.EveryRun | clients/js/localhub.js:167-654 | in every state of every run from creation: no trial outlives its session and each can be reverted, the latch is coherent and nothing runs under a stop, at most one source runs, marks and rosters agree with what they summarise, items, rings and subscriptions are within their limits, and no session has been shown anything above its tier |
| Blob.ParsedOfWire | clients/js/catalog.js:105-118 | a chunk parses back from its 14-byte header and bytes |
| Blob.WireOfParsed | clients/js/catalog.js:105-118 | a parsed payload is kept byte for byte but for the reserved byte |
| Blob.WireLayout | clients/js/catalog.js:105-118 | the 14-byte header byte by byte |
| Blob.CutLayout | clients/js/localhub.js:241-253 | a blob is cut every 192 bytes, an empty one into one empty chunk, and each chunk tells the count and the size |
| Blob.SendBlob | clients/js/localhub.js:241-253 | the chunks wanted, or all of them, are sent in order, and each parses back to its cut of the blob |
| Blob.FetchIsBlob | clients/js/session.js:1007-1033 | whatever the order, duplicates, losses, foreign chunks and new generations, a store fetch that completes has exactly the bytes of its generation |
| Blob.NothingMissing | clients/js/catalog.js:219-227 | nothing is missing exactly when the reassembly is complete |
| Blob.MissingHas | clients/js/catalog.js:222-227 | missingIndices lists exactly the chunks not in |
| Blob.RepairFills | clients/js/catalog.js:204-217 | when the chunks a repair asks for arrive, they are in and everything held is still the bytes of the blob |
| Blob.RepairRounds | clients/js/session.js:776-791 | repair of m missing chunks, 32 a round and none lost, ends after ceil(m/32) rounds and not before |
| Blob.BeginsWhen | clients/js/catalog.js:184-198 | a transfer begins, from any chunk of a blob, if and only if the blob is not empty and within the budget, and then holds that chunk |
| Blob.CatalogsMix | clients/js/session.js:860-869 | chunks of two catalogs of one size mix, which only the etag can tell |
| Blob.WholeWhen | clients/js/session.js:860-870 | whatever catalogs its chunks were cut from, a complete transfer is the catalog b if and only if it has the size of b and of every index the last chunk to come since the transfer began carried the bytes of b |
| Blob.OneOfItsSize | clients/js/session.js:860-870 | chunks of b among those of catalogs of other sizes complete to b, or to another size |
| Blob.EtagTells | clients/js/session.js:872-877 | the etag of what arrived is that of b exactly then, if the digest names no other bytes |
| Joint.VerifiedWhen | clients/js/session.js:872-893 | the client reports the transfer verified against the announced etag exactly then |
| Reassembler.BlobReassembler.Begin | clients/js/catalog.js:184-198 | a transfer begins from a header with chunks, bytes and a size within the budget, and the numbers of any other are refused too |
| Reassembler.BlobReassembler.Insert | clients/js/catalog.js:204-217 | a chunk of this transfer is copied in and counted once; any other changes nothing |
| Reassembler.BlobReassembler.MissingIndices | clients/js/catalog.js:222-227 | the loop lists the chunks not in, ascending |
| Reassembler.StoreFetch.Receive | clients/js/session.js:1007-1033 | a chunk is ignored, refused for its size, starts the transfer over or goes in; the verdict is the whole blob when complete |
| Joint.LiveMeans | clients/js/session.js:1465-1471 | over any runs of connections, when the client is LIVE its hub connection is ready, no NOT_READY is under way, the catalog it decodes with is that of the hub, and every retained channel granted in WELCOME has been delivered on this connection; each connection has a retained channel among its grants or offers the etag of the hub |
| Joint.LiveIff | clients/js/session.js:1418-1471 | on one connection, LIVE means a ready hub and its catalog in every reachable world if and only if the WELCOME promises something retained or the HELLO offered the etag of the hub |
| Joint.NeverNotReady | clients/js/localhub.js:449-451 | in no reachable state is a NOT_READY answer under way to the client |
| Joint.StaleLive | clients/js/session.js:1418-1471 | with nothing promised and another etag offered, a client that kept a catalog goes LIVE at WELCOME with it, on a hub that is not ready |
| Joint.FirstLive | clients/js/session.js:851-906 | with nothing promised, a first connection goes LIVE when its catalog is in, before the hub has heard CATALOG_READY |
| Joint.RepeatedWish | clients/js/session.js:1392-1397 | in any runs of such connections, a client promised one retained channel twice is never LIVE |
| Joint.LiveReached | clients/js/session.js:1385-1544 | liveness: on one connection the client can go LIVE if and only if no retained channel is granted twice |
| Joint.DeclaresTruly | clients/js/session.js:707-728 | in any runs of such connections every CATALOG_READY under way, first or repeated, names the etag of the hub, whose catalog the client holds, and every BLOB_DONE reports the transfer verified |
| Joint.NextPending | clients/js/session.js:707-728 | the declaration is repeated from when it is sent until STATE, or another WELCOME, comes |
| Joint.QuitsWhen | clients/js/session.js:851-870 | the session gives its socket up on a chunk that would begin a catalog larger than it takes, and on nothing else |
| Joint.DemotionHeals | clients/js/session.js:1597-1602 | a NOT_READY sends a LIVE session back to SYNCING, where it declares again the catalog it holds, and the next STATE makes it LIVE again; in any other phase it does nothing |
| JointHub.HelloSame | clients/js/localhub.js:533-558 | a HELLO in the joint model sets the readiness and subscriptions, and pushes the snapshots, of the hub as a step machine |
| JointHub.ReadySame | clients/js/localhub.js:575-579 | a CATALOG_READY likewise |
| JointHub.SubscribeSame | clients/js/localhub.js:602-609 | a SUBSCRIBE likewise, and one of more than 16 wishes is rejected |
| JointHub.UnsubscribeSame | clients/js/localhub.js:610 | an UNSUBSCRIBE likewise |
| JointHub.NotReadySame | clients/js/localhub.js:449-451 | a well addressed intent that is no pause or stop earns a NOT_READY if and only if the joint gate is shut |
| ClientSession.Session.HandleWelcome | clients/js/session.js:1385-1463 | WELCOME resets what was adopted, takes the fast path or asks for the catalog, and checks the LIVE gate |
| ClientSession.Session.HandleState | clients/js/session.js:1504-1544 | a STATE of a channel granted in WELCOME is adopted once and the LIVE gate checked |
| ClientSession.Session.HandleBlobChunk | clients/js/session.js:851-906 | a chunk of a catalog asked for goes in, and a complete catalog that decodes is adopted and declared |
| ClientSession.Session.Conclude | clients/js/session.js:872-906 | a complete catalog is reported verified or not against the announced etag, adopted if it decodes, and declared |
| ClientSession.Session.PumpCatalogReady | clients/js/session.js:717-728 | the declaration is repeated while no STATE has come, up to a number of attempts |
| FetchQueue.NextInv | clients/js/session.js:932-1042 | every event keeps: only the head is on the wire and not beside the catalog, first requests go out in the order of asking, every fetch is queued or settled exactly once, and each end on the wire that the hub has not heard of sends one BLOB_DONE |
| FetchQueue.RunInv | clients/js/session.js:932-1042 | the same in every reachable state |
| FetchQueue.DoneOnce | clients/js/session.js:963-983 | in every run a fetch that has ended sent exactly one BLOB_DONE if it was on the wire, the socket was open and the end neither a NACK nor the closing of the socket; any other sent none |
| FetchQueue.ClosedSettlesAll | clients/js/session.js:1792-1810 | once the socket has closed every fetch ever asked for has been settled exactly once |
| FetchEnds.EndsBecause | clients/js/session.js:932-1042 | in every run a fetch is settled in each way if and only if an event brought that end: resolved by the chunk that was the last its transfer lacked with the digest right, mismatched by one with the digest wrong, nacked, aborted, timed out, rejected or closed |
| FetchEnds.RunTold | clients/js/session.js:963-1031 | in every run each BLOB_DONE goes out as its fetch ends and says verified if it was resolved, hash mismatch if it was mismatched, given up if it was timed out or aborted, and every such end on an open wire sends its own |
| FetchEnds.TickDoes | clients/js/session.js:985-1005 | a tick starts the head if it may go on the wire, or asks again for the first 32 chunks not in, once a transfer that lacks some has not moved for its gap; before the time of a fetch is over it does nothing else |
| FetchEnds.NextOpen | clients/js/session.js:1015-1018 | the session gives its socket up on a store chunk that would begin too big a transfer, and on no other |
| StoreQueue.Session.Finish | clients/js/session.js:963-970 | a fetch leaves the queue once, is reported if due, settled, and the next one pumped |
| StoreQueue.Session.Pump | clients/js/session.js:985-1005 | the head is started, timed out, repaired or left, and never started beside the catalog |
| StoreQueue.Session.RequestCatalog | clients/js/session.js:683-690 | the catalog takes the cursor before the fetch on the wire is aborted, so no other fetch starts |
| StoreQueue.Session.Arrive | clients/js/session.js:1007-1033 | a chunk for the head goes into its reassembly; one that completes it has its verdict said next, VERIFIED_COMPLETE and resolved if the digest is right, HASH_MISMATCH and rejected if not, and any other has nothing said |
| StoreQueue.Session.Close | clients/js/session.js:1792-1804 | every queued fetch is rejected in order |
| Bucket.Sender.Send | clients/js/session.js:620-633 | a bundle is refused for its form, its rate or the socket, or sent: the tokens there are at that time, in the rate and burst of the grant, decide, and only a sent one costs tokens and a sequence number |
| Bucket.Sender.Adopt | clients/js/session.js:549-571 | a grant fills the bucket and keeps the sequence number |
| Bucket.FreshTakes | clients/js/session.js:549-576 | a fresh grant takes n samples at once if and only if n is at most its burst, or without one its whole rate and at least one |
| Bucket.EmptyTakes | clients/js/session.js:575-624 | from an empty bucket, ms milliseconds later, n samples go out if and only if n is at most that bound and 1000 n at most ms times the whole rate |
| Bucket.SendsAllIff | clients/js/session.js:575-633 | every bundle of an orderly run reaches the socket if and only if no stretch of the run asks for more than that bound and what the rate brings in its time (from the beginning: than the tokens there are) |
| Bucket.StaysInBucket | clients/js/session.js:620-633 | tokens stay between none and the capacity |
| Bucket.MovesBound | clients/js/session.js:620-633 | with any clock, the samples sent over any stretch number at most the capacity plus the rate times the sum of the forward moves of the clock |
| Bucket.WindowWhile | clients/js/session.js:575-633 | so in a window [s, t] they keep the bound capacity plus rate times t - s while the forward moves add up to at most t - s |
| Bucket.WindowBound | clients/js/session.js:575-633 | and so always while the clock never goes back in the window, whatever came before |
| Bucket.ClockBackOverspends | clients/js/session.js:620-624 | the bound by forward moves is attained for every number of moves back and forth within one second, which then overspends the bound by its length |
| Bucket.Consecutive | clients/js/session.js:629-632 | frames that reached the socket are numbered consecutively modulo 2^16, across refusals and grants |
| Clock.ClockSync.OnReply | clients/js/session.js:1064-1068 | a reply sets the offset to the floored half sum of the two wrapped differences, and yields the round trip |
| Clock.DiffOf | clients/js/session.js:180-184 | a wrapped difference is the true one less whole 2^32 windows |
| Clock.RttIsDelays | clients/js/session.js:1064-1066 | the round trip is the two one-way delays, across any timer wrap, if and only if the whole exchange and the part at the hub fall in one signed 32-bit window; otherwise it is short by whole windows |
| Clock.HubTime | clients/js/session.js:1064-1081 | the hub time computed is off by half the asymmetry of the delays, at most half the round trip, if and only if both differences fall in one signed 32-bit window; otherwise by 2^31 more (RFC 5905 section 8) |

## Left out

- HubMachine.LocalHub.Take: sessions are known by their id; two sockets that draw one random id are not modelled.
- Cbor.CbDecode: the decoder gives nothing where the input ends early, while the code reads past the end as zero; maps keyed by anything but unsigned integers are not written by the encoder modelled here.
- PackedWrite.WriteSnapshot: text is cut at a byte, not at a UTF-8 boundary, and text written to a number, or a number to text, is not converted as JavaScript would.
- Packed.DecodePacked: the named bits beside a bit field are not decoded; a float is its four raw bytes, so IEEE rounding and the scale of f32 fields are not modelled; conversion to a float is a parameter.
- HubMachine.LocalHub.StoreOp: an item is its slot, name, kind and payload, not its encoded document; a payload in a document that is no byte string counts as empty.
- HubMachine.LocalHub.constructor: a replayed snapshot reads every field of its layout, and a generation is kept modulo 2^16; the check of a given etag and the snapshot of the catalog channel are not modelled.
- HubMachine.LocalHub.ReceiveIntent: the map of an intent comes decoded, its keys distinct, its id a natural number; field names are distinct within a layout; the EVENT frames of latch edges are not modelled.
- HubMachine.LocalHub.PutLatch: the safety snapshot is a record of its bits and fields, and the safety channel is no writable setting.
- HubViews.NextCoherent: what is pushed is what a peer has seen; delivery through the socket's queue is in order and lossless, and STATE sequence numbers are left out.
- HubSources.OneSource: the two generators are fields with a source role, and a source is not a string field.
- Blob.SendBlob: chunk indices asked for are natural numbers, and blobs need at most 65535 chunks.
- Joint.LiveMeans: the catalog of a hub does not change during a connection, so the background refetch on a new announcement and the withdrawal of channels are not modelled.
- ClientSession.Session.HandleWelcome: publish grants, the clock and the refetch state of a WELCOME are not part of the gate and are left out.
- ClientSession.Session.HandleState: announcements on the catalog channel, and the refetch they start, are left out.
- ClientSession.Session.HandleBlobChunk: the background refetch, its restarts and the catalog cache are left out.
- FetchQueue.NextInv: promises, abort signals and timers are events; whether the digest of an item agrees is a parameter.
- HubMachine.LocalHub.EndTrialsOf: two f32 values are compared by their bytes, so 0 and -0 differ where the code takes them for equal.
- Bucket.Sender.Send: the checks before the bucket (phase, channel, grant, clock, encoding, frame size, schedule horizon) are one parameter, and rates are exact reals.
- The hub's routing of a BLOB_REQ (namespace, store access, missing item), its CLOCK and PING answers, and the snapshot of the catalog channel that announces the etag.
- The catalog's annotation decode, pairing and tokens, admission backoff, discovery and identity, PING and deadman, DOM and logging, and the SHA-256 digest: input and output, or easy members.
- The Python tools, the C++ library and the firmware are not part of this model.
