/**
 * Who may send what (clients/js/localhub.js, clients/js/catalog.js): the gate of an intent in the numbers
 * of the catalog, the readings of its values, and the subscriptions.
 */
module HubAccess {
  import opened Bytes
  import opened Packed
  import opened HubCatalog
  import opened Hub

  // ---- access -----------------------------------------------------------------------------------

  /** The schema field a key names: the last that has it. */
  ghost predicate Names(schema: seq<SchemaField>, n: nat, key: nat) {
    n < |schema| && schema[n].key == key && forall j :: n < j < |schema| ==> schema[j].key != key
  }

  lemma {:induction false} NamesIs(schema: seq<SchemaField>, n: nat, key: nat)
    ensures Names(schema, n, key) ==> FieldByKey(schema, key) == Some(schema[n])
    ensures FieldByKey(schema, key).Some? ==> exists k: nat :: Names(schema, k, key)
    decreases |schema|
  {
    if schema != [] {
      var rest := schema[1..];
      assert forall j :: 0 < j < |schema| ==> schema[j] == rest[j - 1];
      NamesIs(rest, if n > 0 then n - 1 else 0, key);
      if FieldByKey(rest, key).Some? {
        var k: nat :| Names(rest, k, key);
        assert Names(schema, k + 1, key);
      } else {
        forall j | 0 <= j < |rest|
          ensures rest[j].key != key
        {
          NoneNamed(rest, j, key);
        }
        if schema[0].key == key {
          assert Names(schema, 0, key);
        }
      }
    }
  }

  lemma {:induction false} NoneNamed(schema: seq<SchemaField>, j: nat, key: nat)
    requires FieldByKey(schema, key).None? && j < |schema|
    ensures schema[j].key != key
    decreases |schema|
  {
    if j > 0 {
      NoneNamed(schema[1..], j - 1, key);
    }
  }

  /**
   * The roles reach the access of the entry, of the field, and of the option sent: of the one the number
   * picks from the list, or of every one for a number that picks none.
   */
  ghost predicate Reaches(e: Entry, f: SchemaField, roles: nat, v: IVal) {
    && roles >= e.access
    && (f.access.Some? ==> roles >= f.access.value)
    && (f.optionAccess.Some? && v.INum? ==>
         var a := f.optionAccess.value;
         && (forall i :: 0 <= i < |a| && Picks(v.r, i) ==> roles >= a[i])
         && ((forall i :: 0 <= i < |a| ==> !Picks(v.r, i)) ==> forall i :: 0 <= i < |a| ==> roles >= a[i]))
  }

  predicate Picks(r: real, i: int) {
    r == i as real
  }

  lemma {:induction false} MaxIs(s: seq<nat>, n: nat)
    ensures n >= MaxOf(s) <==> forall i :: 0 <= i < |s| ==> n >= s[i]
  {
    if s != [] {
      MaxIs(s[1..], n);
      assert forall i :: 0 < i < |s| ==> s[i] == s[1..][i - 1];
      if n >= s[0] && n < MaxOf(s[1..]) {
        var i :| 0 <= i < |s[1..]| && n < s[1..][i];
        assert n < s[i + 1];
      }
    }
  }

  lemma ReachesIs(e: Entry, f: SchemaField, roles: nat, v: IVal)
    ensures Reaches(e, f, roles, v) <==> roles >= NeedFor(e, f, v)
  {
    hide MaxOf;
    if f.optionAccess.Some? && v.INum? {
      var a := f.optionAccess.value;
      MaxIs(a, roles);
      assert Whole(v.r) && 0 <= v.r.Floor < |a| ==> Picks(v.r, v.r.Floor);
    }
  }

  // ---- readings -----------------------------------------------------------------------------------

  /** A number bound by `min` and `max`: within both it stays, and past one it takes it; the upper bound outranks. */
  predicate BoundTo(min: Option<real>, max: Option<real>, r: real, x: real) {
    && (max.Some? ==> x <= max.value)
    && (min.Some? ==> x >= min.value || (max.Some? && x == max.value))
    && (x < r ==> max.Some? && x == max.value)
    && (x > r ==> min.Some? && (x == min.value || (max.Some? && x == max.value < min.value)))
  }

  lemma BoundIs(min: Option<real>, max: Option<real>, r: real)
    ensures BoundTo(min, max, r, ClampTo(min, max, r))
    ensures forall x :: BoundTo(min, max, r, x) ==> x == ClampTo(min, max, r)
  {
  }

  /** The field takes the value: its own kind, whole for an integer, and one of its options if it lists them. */
  predicate Fitting(f: SchemaField, v: IVal) {
    match f.kind
    case BoolT => v.IBool?
    case TStr => v.IText?
    case BStr => v.IBytes?
    case F32 => v.INum? && Listed(f, v.r)
    case _ => v.INum? && v.r == v.r.Floor as real && Listed(f, v.r)
  }

  predicate Listed(f: SchemaField, r: real) {
    f.options.Some? ==> 0.0 <= r < f.options.value as real
  }

  /** It reads the value as `x`: as it is, a number bound by the field, and not below zero for an unsigned one. */
  predicate ReadsAs(f: SchemaField, v: IVal, x: IVal) {
    if v.INum? then x.INum? && BoundTo(f.min, f.max, if f.kind == UIntT && v.r < 0.0 then 0.0 else v.r, x.r) else x == v
  }

  lemma CoercedIs(f: SchemaField, v: IVal)
    ensures Fitting(f, v) <==> Coerced(f, v).Some?
    ensures Fitting(f, v) ==> ReadsAs(f, v, Coerced(f, v).value)
  {
    if v.INum? {
      BoundIs(f.min, f.max, if f.kind == UIntT && v.r < 0.0 then 0.0 else v.r);
    }
  }

  // ---- the gate -------------------------------------------------------------------------------------

  /** The session may send this for the key. */
  ghost predicate MaySend(e: Entry, roles: nat, kv: KV)
    requires e.IntentEntry?
  {
    exists n: nat :: Names(e.schema, n, kv.key) && Reaches(e, e.schema[n], roles, kv.v)
  }

  /** The key is there, and the session may not. */
  ghost predicate MayNot(e: Entry, roles: nat, kv: KV)
    requires e.IntentEntry?
  {
    exists n: nat :: Names(e.schema, n, kv.key) && !Reaches(e, e.schema[n], roles, kv.v)
  }

  /** The key is there, and takes it. */
  ghost predicate Accepts(e: Entry, kv: KV)
    requires e.IntentEntry?
  {
    exists n: nat :: Names(e.schema, n, kv.key) && Fitting(e.schema[n], kv.v)
  }

  lemma KeyIs(e: Entry, roles: nat, kv: KV)
    requires e.IntentEntry?
    ensures var f := FieldByKey(e.schema, kv.key);
            && (MaySend(e, roles, kv) <==> f.Some? && roles >= NeedFor(e, f.value, kv.v))
            && (MayNot(e, roles, kv) <==> f.Some? && roles < NeedFor(e, f.value, kv.v))
            && (Accepts(e, kv) <==> f.Some? && Coerced(f.value, kv.v).Some?)
  {
    hide Names, Reaches, Fitting, NeedFor, Coerced, FieldByKey;
    var f := FieldByKey(e.schema, kv.key);
    forall n: nat | Names(e.schema, n, kv.key)
      ensures n < |e.schema| && f == Some(e.schema[n])
    {
      NamesIs(e.schema, n, kv.key);
      NamesIn(e.schema, n, kv.key);
    }
    if f.Some? {
      NamesIs(e.schema, 0, kv.key);
      var n: nat :| Names(e.schema, n, kv.key);
      ReachesIs(e, f.value, roles, kv.v);
      CoercedIs(f.value, kv.v);
    }
  }

  lemma NamesIn(schema: seq<SchemaField>, n: nat, key: nat)
    requires Names(schema, n, key)
    ensures n < |schema|
  {
  }

  /** Every key is taken, and may be sent. */
  ghost predicate AllFine(e: Entry, roles: nat, value: seq<KV>)
    requires e.IntentEntry?
  {
    forall i :: 0 <= i < |value| ==> MaySend(e, roles, value[i]) && Accepts(e, value[i])
  }

  /** The first key that is not, may not be sent. */
  ghost predicate FirstMayNot(e: Entry, roles: nat, value: seq<KV>)
    requires e.IntentEntry?
  {
    exists i :: 0 <= i < |value| && MayNot(e, roles, value[i]) && AllFine(e, roles, value[..i])
  }

  lemma AllFineStep(e: Entry, roles: nat, value: seq<KV>)
    requires e.IntentEntry? && value != []
    ensures AllFine(e, roles, value) <==> MaySend(e, roles, value[0]) && Accepts(e, value[0]) && AllFine(e, roles, value[1..])
    ensures FirstMayNot(e, roles, value)
       <==> MayNot(e, roles, value[0])
            || (MaySend(e, roles, value[0]) && Accepts(e, value[0]) && FirstMayNot(e, roles, value[1..]))
  {
    hide MaySend, MayNot, Accepts;
    var rest := value[1..];
    assert forall i :: 0 < i < |value| ==> value[i] == rest[i - 1];
    assert forall i :: 0 <= i < |rest| ==> rest[i] == value[i + 1];
    if MayNot(e, roles, value[0]) {
      assert value[..0] == [];
      assert AllFine(e, roles, value[..0]);
    }
    if FirstMayNot(e, roles, value) {
      var i :| 0 <= i < |value| && MayNot(e, roles, value[i]) && AllFine(e, roles, value[..i]);
      if i > 0 {
        FineParts(e, roles, value, i);
        assert MayNot(e, roles, rest[i - 1]);
      }
    }
    if MaySend(e, roles, value[0]) && Accepts(e, value[0]) && FirstMayNot(e, roles, rest) {
      var i :| 0 <= i < |rest| && MayNot(e, roles, rest[i]) && AllFine(e, roles, rest[..i]);
      FineParts(e, roles, value, i + 1);
      assert MayNot(e, roles, value[i + 1]);
    }
  }

  lemma FineParts(e: Entry, roles: nat, value: seq<KV>, i: nat)
    requires e.IntentEntry? && 0 < i <= |value|
    ensures AllFine(e, roles, value[..i]) <==> MaySend(e, roles, value[0]) && Accepts(e, value[0]) && AllFine(e, roles, value[1..][..i - 1])
  {
    hide MaySend, Accepts;
    var part, rest := value[..i], value[1..][..i - 1];
    assert part[0] == value[0] && forall j :: 0 <= j < |rest| ==> rest[j] == part[j + 1];
    assert forall j :: 0 < j < |part| ==> part[j] == rest[j - 1];
  }

  lemma {:induction false} ValidatedWhen(e: Entry, roles: nat, value: seq<KV>, sofar: map<nat, IVal>)
    requires e.IntentEntry?
    ensures Validated(e, roles, value, sofar).Good? <==> AllFine(e, roles, value)
    ensures Validated(e, roles, value, sofar) == Bad(AccessDenied) <==> FirstMayNot(e, roles, value)
    decreases value
  {
    hide FieldByKey, Coerced, NeedFor, MaySend, MayNot, Accepts, AllFine, FirstMayNot;
    if value == [] {
      NoKeys(e, roles);
    } else {
      AllFineStep(e, roles, value);
      KeyIs(e, roles, value[0]);
      var f := FieldByKey(e.schema, value[0].key);
      if f.Some? && roles >= NeedFor(e, f.value, value[0].v) && Coerced(f.value, value[0].v).Some? {
        ValidatedWhen(e, roles, value[1..], sofar[value[0].key := Coerced(f.value, value[0].v).value]);
      }
    }
  }

  lemma NoKeys(e: Entry, roles: nat)
    requires e.IntentEntry?
    ensures AllFine(e, roles, []) && !FirstMayNot(e, roles, [])
  {
  }

  // ---- the operations that outrank the gate -----------------------------------------------------------

  /** On the safety channel, the field of the operation: the first that lists options. */
  ghost predicate OpAt(e: Entry, n: nat)
    requires e.IntentEntry?
  {
    e.id == 0x0005 && n < |e.schema| && e.schema[n].options.Some? && forall j :: 0 <= j < n ==> e.schema[j].options.None?
  }

  ghost predicate HasOps(e: Entry)
    requires e.IntentEntry?
  {
    e.id == 0x0005 && exists n :: 0 <= n < |e.schema| && e.schema[n].options.Some?
  }

  /** The value first names this for the key. */
  ghost predicate Says(value: seq<KV>, key: nat, i: nat) {
    i < |value| && value[i].key == key && forall j :: 0 <= j < i ==> value[j].key != key
  }

  /** A pause or an emergency stop. */
  ghost predicate Outranks(e: Entry, value: seq<KV>)
    requires e.IntentEntry?
  {
    exists n: nat, i: nat ::
      OpAt(e, n) && Says(value, e.schema[n].key, i) && i < |value| && (value[i].v == INum(4.0) || value[i].v == INum(6.0))
  }

  lemma {:induction false} OptionIs(schema: seq<SchemaField>, n: nat)
    ensures n < |schema| && schema[n].options.Some? && (forall j :: 0 <= j < n ==> schema[j].options.None?) ==>
              OptionKey(schema) == Some(schema[n].key)
    ensures OptionKey(schema).Some? <==> exists k :: 0 <= k < |schema| && schema[k].options.Some?
    decreases |schema|
  {
    if schema != [] {
      var rest := schema[1..];
      assert forall j :: 0 < j < |schema| ==> schema[j] == rest[j - 1];
      OptionIs(rest, if n > 0 then n - 1 else 0);
      if OptionKey(rest).Some? {
        var k :| 0 <= k < |rest| && rest[k].options.Some?;
        assert schema[k + 1].options.Some?;
      }
    }
  }

  lemma {:induction false} FirstOption(schema: seq<SchemaField>) returns (n: nat)
    requires exists k :: 0 <= k < |schema| && schema[k].options.Some?
    ensures n < |schema| && schema[n].options.Some? && forall j :: 0 <= j < n ==> schema[j].options.None?
    decreases |schema|
  {
    if schema[0].options.Some? {
      n := 0;
    } else {
      var k :| 0 <= k < |schema| && schema[k].options.Some?;
      assert schema[1..][k - 1].options.Some?;
      var m := FirstOption(schema[1..]);
      n := m + 1;
      assert forall j :: 0 < j < n ==> schema[j] == schema[1..][j - 1];
    }
  }

  lemma {:induction false} SaysIs(value: seq<KV>, key: nat, i: nat)
    ensures Says(value, key, i) ==> LookUp(value, key) == Some(value[i].v)
    ensures LookUp(value, key).Some? ==> exists k: nat :: Says(value, key, k)
    decreases |value|
  {
    if value != [] {
      var rest := value[1..];
      assert forall j :: 0 < j < |value| ==> value[j] == rest[j - 1];
      SaysIs(rest, key, if i > 0 then i - 1 else 0);
      if value[0].key == key {
        assert Says(value, key, 0);
      } else if LookUp(rest, key).Some? {
        var k: nat :| Says(rest, key, k);
        assert Says(value, key, k + 1);
      }
    }
  }

  lemma OutranksIs(e: Entry, value: seq<KV>)
    requires e.IntentEntry?
    ensures Outranks(e, value) <==> Exempt(e, value)
    ensures HasOps(e) <==> OpKey(e).Some?
  {
    hide OptionKey, LookUp, Says;
    OptionIs(e.schema, 0);
    if HasOps(e) {
      var n := FirstOption(e.schema);
      OptionIs(e.schema, n);
      var key := e.schema[n].key;
      SaysIs(value, key, 0);
      if Exempt(e, value) {
        var i: nat :| Says(value, key, i);
        SaysIs(value, key, i);
        SaysIn(value, key, i);
        assert OpAt(e, n);
      }
      if Outranks(e, value) {
        var a: nat, i: nat :|
          OpAt(e, a) && Says(value, e.schema[a].key, i) && i < |value| && (value[i].v == INum(4.0) || value[i].v == INum(6.0));
        assert a == n;
        SaysIs(value, key, i);
      }
    }
  }

  lemma SaysIn(value: seq<KV>, key: nat, i: nat)
    requires Says(value, key, i)
    ensures i < |value|
  {
  }

  // ---- what becomes of an intent ---------------------------------------------------------------------

  /** The intent names an entry of its class and carries a map. */
  ghost predicate Addressed(cat: Catalog, m: Intent, e: Entry) {
    e in cat.entries && e.id == m.ch && e.IntentEntry? && m.value.Some?
  }

  /** The connection is ready, or the operation outranks that; and the control floor holds. */
  ghost predicate LetIn(c: Conn, m: Intent, e: Entry)
    requires e.IntentEntry? && m.value.Some?
  {
    Outranks(e, m.value.value) || (c.ready && (HasOps(e) ==> c.roles >= 1))
  }

  /** The intent carries the id of an answer still in the ring. */
  ghost predicate Repeats(c: Conn, m: Intent) {
    m.id.Some? && exists i :: 0 <= i < |c.ring| && c.ring[i].id == m.id.value
  }

  lemma {:induction false} RingHas(ring: seq<Echo>, id: nat)
    ensures EchoIn(ring, id).Some? <==> exists i :: 0 <= i < |ring| && ring[i].id == id
  {
    if ring != [] {
      RingHas(ring[1..], id);
      assert forall i :: 0 < i < |ring| ==> ring[i] == ring[1..][i - 1];
      if EchoIn(ring[1..], id).Some? {
        var i :| 0 <= i < |ring[1..]| && ring[1..][i].id == id;
        assert ring[i + 1].id == id;
      }
    }
  }

  /** What the gate makes of a well addressed intent. */
  ghost predicate Gated(c: Conn, m: Intent, e: Entry, g: Gate)
    requires e.IntentEntry? && m.value.Some?
  {
    var value := m.value.value;
    && (g == Stop(NotReady) <==> !c.ready && !Outranks(e, value))
    && (g == Stop(NotController) <==> c.ready && HasOps(e) && !Outranks(e, value) && c.roles < 1)
    && (g.Replay? <==> LetIn(c, m, e) && Repeats(c, m))
    && (g == Stop(AccessDenied) <==> LetIn(c, m, e) && !Repeats(c, m) && FirstMayNot(e, c.roles, value))
    && (g.Pass? <==> LetIn(c, m, e) && !Repeats(c, m) && AllFine(e, c.roles, value))
    && (g.Pass? ==> g.e == e)
    && g != Stop(UnknownChannel) && g != Stop(ClassMismatch)
  }

  lemma GateAt(cat: Catalog, c: Conn, m: Intent, e: Entry)
    requires cat.WellFormed() && Addressed(cat, m, e)
    ensures Gated(c, m, e, GateOf(cat, c, m))
  {
    hide Exempt, Outranks, HasOps, OpKey, EchoIn, Validated, FirstMayNot, AllFine;
    FindsIt(cat.entries, e);
    OutranksIs(e, m.value.value);
    ValidatedWhen(e, c.roles, m.value.value, map[]);
    ValidatedOnly(e, c.roles, m.value.value, map[]);
    if m.id.Some? {
      RingHas(c.ring, m.id.value);
    }
  }

  lemma GatedAll(cat: Catalog, c: Conn, m: Intent)
    requires cat.WellFormed()
    ensures forall e :: e in cat.entries && Addressed(cat, m, e) ==> e.IntentEntry? && m.value.Some? && Gated(c, m, e, GateOf(cat, c, m))
  {
    hide GateOf, Gated;
    forall e | e in cat.entries && Addressed(cat, m, e)
      ensures Gated(c, m, e, GateOf(cat, c, m))
    {
      GateAt(cat, c, m, e);
    }
  }

  lemma {:induction false} ValidatedOnly(e: Entry, roles: nat, value: seq<KV>, sofar: map<nat, IVal>)
    requires e.IntentEntry?
    ensures var v := Validated(e, roles, value, sofar); v.Bad? ==> v.code == InvalidValue || v.code == AccessDenied
    decreases value
  {
    hide FieldByKey, Coerced, NeedFor;
    if value != [] {
      var f := FieldByKey(e.schema, value[0].key);
      if f.Some? && roles >= NeedFor(e, f.value, value[0].v) && Coerced(f.value, value[0].v).Some? {
        ValidatedOnly(e, roles, value[1..], sofar[value[0].key := Coerced(f.value, value[0].v).value]);
      }
    }
  }

  /** The codes of the gate: the machine never refuses with one. */
  predicate OfGate(code: Nack) {
    code == UnknownChannel || code == ClassMismatch || code == NotReady || code == NotController || code == AccessDenied
  }

  lemma PlanCodes(cat: Catalog, s: State, sid: nat, e: Entry, kv: map<nat, IVal>, trial: bool)
    requires e.IntentEntry?
    ensures var plan := PlanOf(cat, s, sid, e, kv, trial); plan.Refuse? ==> !OfGate(plan.code)
  {
    hide Has, SourceRunning, Starts, Bound, Get, SavedPayload, Trialable;
  }

  /**
   * A well addressed intent is turned away exactly so: NOT_READY before CATALOG_READY and NOT_CONTROLLER
   * below the control role on a safety operation, a pause or a stop excepted; ACCESS_DENIED if the first of
   * its keys that is not fine is one whose access the session does not reach. Whatever is turned away
   * changes nothing, and all else that is no repeat had every key fine.
   */
  lemma IntentAllowed(cat: Catalog, s: State, sid: nat, m: Intent, e: Entry)
    requires Fits(cat, s.vals) && sid in s.conns && Addressed(cat, m, e)
    ensures var c, r, value := s.conns[sid], OnIntent(cat, s, sid, m), m.value.value;
            && (r.reply == NackReply(NotReady) <==> !c.ready && !Outranks(e, value))
            && (r.reply == NackReply(NotController) <==> c.ready && HasOps(e) && !Outranks(e, value) && c.roles < 1)
            && (r.reply == NackReply(AccessDenied) <==> LetIn(c, m, e) && !Repeats(c, m) && FirstMayNot(e, c.roles, value))
            && (!r.reply.NackReply? && !Repeats(c, m) ==> LetIn(c, m, e) && AllFine(e, c.roles, value))
            && (r.s != s ==> LetIn(c, m, e) && !Repeats(c, m) && AllFine(e, c.roles, value))
            && (r.reply.NackReply? ==> r.s == s)
            && r.reply != NackReply(UnknownChannel) && r.reply != NackReply(ClassMismatch)
  {
    hide GateOf, PlanOf, Perform, Answered, Outranks, HasOps, FirstMayNot, AllFine, Fits;
    var c := s.conns[sid];
    GateOne(cat, s);
    GateAt(cat, c, m, e);
    var g := GateOf(cat, c, m);
    if g.Pass? {
      PlanCodes(cat, s, sid, g.e, g.kv, OnTrial(cat, m));
      AnswerNoNack(cat, s, sid, g.e, g.kv, m.id, OnTrial(cat, m), PlanOf(cat, s, sid, g.e, g.kv, OnTrial(cat, m)));
    }
  }

  lemma GateOne(cat: Catalog, s: State)
    requires Fits(cat, s.vals)
    ensures cat.WellFormed()
  {
  }

  lemma AnswerNoNack(cat: Catalog, s: State, sid: nat, e: Entry, kv: map<nat, IVal>, id: Option<nat>, trial: bool, plan: Plan)
    requires Fits(cat, s.vals) && e.IntentEntry?
    ensures var r := Followed(cat, s, sid, e, kv, id, trial, plan);
            if plan.Refuse? then r == Step(s, NackReply(plan.code)) else !r.reply.NackReply?
  {
    hide Perform, Fits;
  }

  /** An intent for no channel, for one of another class, or without a map is refused as such and changes nothing. */
  lemma Unaddressed(cat: Catalog, s: State, sid: nat, m: Intent)
    requires Fits(cat, s.vals) && sid in s.conns && forall e :: e in cat.entries ==> !Addressed(cat, m, e)
    ensures OnIntent(cat, s, sid, m)
         == Step(s, NackReply(if forall e :: e in cat.entries ==> e.id != m.ch then UnknownChannel
                              else if exists e :: e in cat.entries && e.id == m.ch && !e.IntentEntry? then ClassMismatch
                              else InvalidValue))
  {
    hide Followed, PlanOf, Validated, Exempt, EchoIn;
    GateOne(cat, s);
    FoundIn(cat.entries, m.ch);
    if exists e :: e in cat.entries && e.id == m.ch {
      var e :| e in cat.entries && e.id == m.ch;
      FindsIt(cat.entries, e);
    }
  }

  /** An intent that changes anything was sent by a session let in, whose roles reach every key of it. */
  lemma ChangedBy(cat: Catalog, s: State, ev: Event)
    requires Fits(cat, s.vals) && ev.IntentFrame? && Next(cat, s, ev) != s
    ensures ev.sid in s.conns && ev.m.value.Some?
    ensures exists e :: Addressed(cat, ev.m, e) && LetIn(s.conns[ev.sid], ev.m, e) && AllFine(e, s.conns[ev.sid].roles, ev.m.value.value)
  {
    hide OnIntent, LetIn, AllFine, Fits;
    if forall e :: e in cat.entries ==> !Addressed(cat, ev.m, e) {
      Unaddressed(cat, s, ev.sid, ev.m);
    } else {
      var e :| e in cat.entries && Addressed(cat, ev.m, e);
      IntentAllowed(cat, s, ev.sid, ev.m, e);
    }
  }
}
