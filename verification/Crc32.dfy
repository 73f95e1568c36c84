/** CRC-32/IEEE by table, and the 12-byte ESTOP frame it guards (clients/js/frames.js). */
module Crc32 {

  const POLY: bv32 := 0xedb8_8320

  // ---- bit-serial reflected division -------------------------------------------

  /** One bit of the division. */
  function Bit(c: bv32): bv32 {
    if c & 1 == 1 then POLY ^ (c >> 1) else c >> 1
  }

  function Iter<T>(f: T -> T, c: T, n: nat): T
    decreases n
  {
    if n == 0 then c else Iter(f, f(c), n - 1)
  }

  function Bits(c: bv32, n: nat): bv32 {
    Iter(Bit, c, n)
  }

  function Xor(a: bv32, b: bv32): bv32 {
    a ^ b
  }

  function Up(w: bv32): bv32 {
    w << 8
  }

  function Down(w: bv32): bv32 {
    w >> 8
  }

  /** A message byte enters at the low end of the register. */
  function Mix(c: bv32, b: bv8): bv32 {
    Xor(c, b as bv32)
  }

  /** Eight bits of the division. */
  function Byte(c: bv32): bv32 {
    Bits(c, 8)
  }

  /** The register after a message: each byte enters at the low end, then `step` divides it out. */
  function Register(step: bv32 -> bv32, c: bv32, msg: seq<bv8>): bv32
    decreases msg
  {
    if msg == [] then c else Register(step, step(Mix(c, msg[0])), msg[1..])
  }

  function CrcBy(step: bv32 -> bv32, msg: seq<bv8>): bv32 {
    Xor(Register(step, 0xffff_ffff, msg), 0xffff_ffff)
  }

  function Crc(msg: seq<bv8>): bv32 {
    CrcBy(Byte, msg)
  }

  lemma BitLinear(a: bv32, b: bv32)
    ensures Bit(a ^ b) == Bit(a) ^ Bit(b)
  {
    ShiftLinear(a, b);
    var x, y, p: bv32 := a >> 1, b >> 1, POLY;
    if a & 1 == 1 && b & 1 == 1 {
      assert (p ^ x) ^ (p ^ y) == x ^ y;
    } else if a & 1 == 1 {
      assert (p ^ x) ^ y == p ^ (x ^ y);
    } else if b & 1 == 1 {
      assert x ^ (p ^ y) == p ^ (x ^ y);
    }
  }

  lemma ShiftLinear(a: bv32, b: bv32)
    ensures (a ^ b) >> 1 == (a >> 1) ^ (b >> 1)
    ensures (a ^ b) & 1 == (a & 1) ^ (b & 1)
    ensures a & 1 == 1 || a & 1 == 0
    ensures b & 1 == 1 || b & 1 == 0
  {
  }

  lemma BitInjective(a: bv32, b: bv32)
    requires Bit(a) == Bit(b)
    ensures a == b
  {
  }

  lemma {:induction false} IterLinear<T(!new)>(f: T -> T, op: (T, T) -> T, a: T, b: T, n: nat)
    requires forall x, y :: f(op(x, y)) == op(f(x), f(y))
    ensures Iter(f, op(a, b), n) == op(Iter(f, a, n), Iter(f, b, n))
    decreases n
  {
    if n > 0 {
      IterLinear(f, op, f(a), f(b), n - 1);
    }
  }

  ghost predicate OneToOne(step: bv32 -> bv32) {
    forall x, y :: step(x) == step(y) ==> x == y
  }

  lemma {:induction false} IterInjective(f: bv32 -> bv32, a: bv32, b: bv32, n: nat)
    requires OneToOne(f) && Iter(f, a, n) == Iter(f, b, n)
    ensures a == b
    decreases n
  {
    if n > 0 {
      IterInjective(f, f(a), f(b), n - 1);
    }
  }

  lemma {:induction false} IterAdd<T>(f: T -> T, c: T, m: nat, n: nat)
    ensures Iter(f, Iter(f, c, m), n) == Iter(f, c, m + n)
    decreases m
  {
    if m > 0 {
      IterAdd(f, f(c), m - 1, n);
    }
  }

  lemma BitsLinear(a: bv32, b: bv32, n: nat)
    ensures Bits(Xor(a, b), n) == Xor(Bits(a, n), Bits(b, n))
  {
    forall x, y
      ensures Bit(Xor(x, y)) == Xor(Bit(x), Bit(y))
    {
      BitLinear(x, y);
    }
    IterLinear(Bit, Xor, a, b, n);
  }

  /** No step of the division loses information. */
  lemma BitsInjective(a: bv32, b: bv32, n: nat)
    requires Bits(a, n) == Bits(b, n)
    ensures a == b
  {
    forall x, y | Bit(x) == Bit(y)
      ensures x == y
    {
      BitInjective(x, y);
    }
    IterInjective(Bit, a, b, n);
  }

  lemma ClearBit(c: bv32)
    requires c & 1 == 0
    ensures Bit(c) == c >> 1
  {
  }

  ghost predicate ShiftsEven(f: bv32 -> bv32) {
    forall c :: c & 1 == 0 ==> f(c) == c >> 1
  }

  lemma Shift2(c: bv32)
    requires c & 3 == 0
    ensures c & 1 == 0 && (c >> 1) & 1 == 0 && (c >> 1) >> 1 == c >> 2
  {
  }

  lemma Shift4(c: bv32)
    requires c & 15 == 0
    ensures c & 3 == 0 && (c >> 2) & 3 == 0 && (c >> 2) >> 2 == c >> 4
  {
  }

  lemma Shift8(c: bv32)
    requires c & 0xff == 0
    ensures c & 15 == 0 && (c >> 4) & 15 == 0 && (c >> 4) >> 4 == c >> 8
  {
  }

  lemma Low2(f: bv32 -> bv32, c: bv32)
    requires ShiftsEven(f) && c & 3 == 0
    ensures Iter(f, c, 2) == c >> 2
  {
    Shift2(c);
    var d := c >> 1;
    assert f(c) == d;
    assert Iter(f, c, 2) == Iter(f, d, 1) == f(d);
  }

  lemma Low4(f: bv32 -> bv32, c: bv32)
    requires ShiftsEven(f) && c & 15 == 0
    ensures Iter(f, c, 4) == c >> 4
  {
    Shift4(c);
    var d := c >> 2;
    Low2(f, c);
    Low2(f, d);
    IterAdd(f, c, 2, 2);
  }

  lemma Low8(f: bv32 -> bv32, c: bv32)
    requires ShiftsEven(f) && c & 0xff == 0
    ensures Iter(f, c, 8) == c >> 8
  {
    Shift8(c);
    var d := c >> 4;
    Low4(f, c);
    Low4(f, d);
    IterAdd(f, c, 4, 4);
  }

  /** Bits above the byte only shift. */
  lemma HighBits(c: bv32, n: nat)
    requires c & 0xff == 0 && n == 8
    ensures Bits(c, n) == c >> 8
  {
    forall x: bv32 | x & 1 == 0
      ensures Bit(x) == x >> 1
    {
      ClearBit(x);
    }
    Low8(Bit, c);
  }

  // ---- the table ------------------------------------------------------------------

  /** The low byte of the register, which selects the table entry. */
  function Low(x: bv32): bv8 {
    (x & 0xff) as bv8
  }

  /** The law that lets the 256 entries for single bytes replace the bit steps. */
  ghost predicate TableLaw(step: bv32 -> bv32) {
    forall c, b {:trigger Mix(c, b)} :: Xor(step(Low(Mix(c, b)) as bv32), Down(c)) == step(Mix(c, b))
  }

  function High(x: bv32): bv32 {
    x & 0xffff_ff00
  }

  lemma LowAndHigh(x: bv32)
    ensures Xor(Low(x) as bv32, High(x)) == x
  {
  }

  lemma HighClear(x: bv32)
    ensures High(x) & 0xff == 0
  {
  }

  lemma HighOfMix(c: bv32, b: bv8)
    ensures Down(High(Mix(c, b))) == Down(c)
  {
  }

  ghost predicate Linear(step: bv32 -> bv32) {
    forall x, y :: step(Xor(x, y)) == Xor(step(x), step(y))
  }

  ghost predicate ShiftsHigh(step: bv32 -> bv32) {
    forall x :: x & 0xff == 0 ==> step(x) == Down(x)
  }

  lemma StepParts(step: bv32 -> bv32, x: bv32, low: bv32, high: bv32, d: bv32)
    requires Linear(step) && x == Xor(low, high) && step(high) == d
    ensures Xor(step(low), d) == step(x)
  {
  }

  lemma ShiftHigh(step: bv32 -> bv32, x: bv32, d: bv32)
    requires ShiftsHigh(step) && x & 0xff == 0 && Down(x) == d
    ensures step(x) == d
  {
  }

  lemma StepLaw(c: bv32, b: bv8, step: bv32 -> bv32)
    requires Linear(step) && ShiftsHigh(step)
    ensures Xor(step(Low(Mix(c, b)) as bv32), Down(c)) == step(Mix(c, b))
  {
    var x := Mix(c, b);
    LowAndHigh(x);
    HighClear(x);
    HighOfMix(c, b);
    ShiftHigh(step, High(x), Down(c));
    StepParts(step, x, Low(x) as bv32, High(x), Down(c));
  }

  lemma StepTableLaw(step: bv32 -> bv32)
    requires Linear(step) && ShiftsHigh(step)
    ensures TableLaw(step)
  {
    forall c, b
      ensures Xor(step(Low(Mix(c, b)) as bv32), Down(c)) == step(Mix(c, b))
    {
      StepLaw(c, b, step);
    }
  }

  lemma ByteIsLinear()
    ensures Linear(Byte)
  {
    forall x, y
      ensures Byte(Xor(x, y)) == Xor(Byte(x), Byte(y))
    {
      BitsLinear(x, y, 8);
    }
  }

  lemma ByteShiftsHigh()
    ensures ShiftsHigh(Byte)
  {
    forall x: bv32 | x & 0xff == 0
      ensures Byte(x) == Down(x)
    {
      HighBits(x, 8);
    }
  }

  lemma ByteTableLaw()
    ensures TableLaw(Byte)
  {
    ByteIsLinear();
    ByteShiftsHigh();
    StepTableLaw(Byte);
  }

  /** Entry `b` of the table is `step` of the byte `b`. */
  ghost predicate IsTable(t: array<bv32>, step: bv32 -> bv32)
    reads t
  {
    t.Length == 256 && forall b: bv8 {:trigger step(b as bv32)} :: t[b as nat] == step(b as bv32)
  }

  method TableEntry(b: bv8) returns (c: bv32)
    ensures c == Byte(b as bv32)
  {
    c := b as bv32;
    ghost var left := 8;
    var k := 0;
    while k < 8
      invariant 0 <= k <= 8 && left == 8 - k
      invariant Byte(b as bv32) == Bits(c, left)
    {
      c := if c & 1 == 1 then POLY ^ (c >> 1) else c >> 1;
      k := k + 1;
      left := left - 1;
    }
  }

  function ByteOf(n: nat): bv8
    requires n < 256
  {
    n as bv8
  }

  lemma ByteOfNat(b: bv8)
    ensures ByteOf(b as nat) == b
  {
  }

  lemma Indexed(t: array<bv32>, step: bv32 -> bv32)
    requires t.Length == 256 && forall i: nat :: i < 256 ==> t[i] == step(ByteOf(i) as bv32)
    ensures IsTable(t, step)
  {
    forall b: bv8 {:trigger step(b as bv32)}
      ensures t[b as nat] == step(b as bv32)
    {
      ByteOfNat(b);
    }
  }

  method BuildTable() returns (t: array<bv32>)
    ensures fresh(t) && IsTable(t, Byte)
  {
    t := new bv32[256];
    var n := 0;
    while n < 256
      invariant 0 <= n <= 256
      invariant forall i: nat :: i < n ==> t[i] == Byte(ByteOf(i) as bv32)
    {
      t[n] := TableEntry(ByteOf(n));
      n := n + 1;
    }
    Indexed(t, Byte);
  }

  method TableRegister(table: array<bv32>, bytes: seq<bv8>, ghost step: bv32 -> bv32) returns (c: bv32)
    requires IsTable(table, step) && TableLaw(step)
    ensures c == Register(step, 0xffff_ffff, bytes)
  {
    c := 0xffff_ffff;
    var i := 0;
    assert bytes[0..] == bytes;
    while i < |bytes|
      invariant 0 <= i <= |bytes|
      invariant Register(step, 0xffff_ffff, bytes) == Register(step, c, bytes[i..])
    {
      ghost var rest := bytes[i..];
      assert rest[0] == bytes[i] && rest[1..] == bytes[i + 1..];
      var index := Low(Mix(c, bytes[i]));
      ghost var entry := step(index as bv32);
      c := Xor(table[index as nat], Down(c));
      i := i + 1;
    }
  }

  method ComputeCrc32(table: array<bv32>, bytes: seq<bv8>) returns (r: bv32)
    requires IsTable(table, Byte)
    ensures r == Crc(bytes)
  {
    ByteTableLaw();
    var c := TableRegister(table, bytes, Byte);
    r := Xor(c, 0xffff_ffff);
  }

  // ---- words and bytes, on the operators themselves -------------------------------------

  lemma XorRegroup(a: bv32, b: bv32, c: bv32)
    ensures Xor(Xor(a, b), c) == Xor(a, Xor(c, b))
  {
  }

  lemma XorCancel(c: bv32, w: bv32)
    ensures Xor(c, Xor(c, w)) == w && Xor(Xor(c, w), w) == c
  {
  }

  /** A word of at most `n` bytes. */
  predicate Within(w: bv32, n: nat) {
    match n
    case 0 => w == 0
    case 1 => w & 0xffff_ff00 == 0
    case 2 => w & 0xffff_0000 == 0
    case 3 => w & 0xff00_0000 == 0
    case _ => true
  }

  lemma UpWithin0(w: bv32, b: bv8)
    requires Within(w, 0)
    ensures Within(Mix(Up(w), b), 1) && Within(w, 3)
  {
  }

  lemma UpWithin1(w: bv32, b: bv8)
    requires Within(w, 1)
    ensures Within(Mix(Up(w), b), 2) && Within(w, 3)
  {
  }

  lemma UpWithin2(w: bv32, b: bv8)
    requires Within(w, 2)
    ensures Within(Mix(Up(w), b), 3) && Within(w, 3)
  {
  }

  lemma UpDown(w: bv32)
    requires w & 0xff00_0000 == 0
    ensures Down(Up(w)) == w && Up(w) & 0xff == 0
  {
  }

  lemma UpMixLow(w: bv32, b: bv8)
    ensures Low(Mix(Up(w), b)) == b
  {
  }

  lemma UpMixDown(w: bv32, b: bv8)
    requires w & 0xff00_0000 == 0
    ensures Down(Mix(Up(w), b)) == w
  {
  }

  lemma UpWithin(w: bv32, b: bv8, n: nat)
    requires Within(w, n) && n < 4
    ensures Within(Mix(Up(w), b), n + 1) && Within(w, 3)
  {
    match n
    case 0 => UpWithin0(w, b);
    case 1 => UpWithin1(w, b);
    case 2 => UpWithin2(w, b);
    case 3 =>
  }

  // ---- what the check detects -----------------------------------------------------------

  lemma {:induction false} RegisterConcat(step: bv32 -> bv32, c: bv32, a: seq<bv8>, b: seq<bv8>)
    ensures Register(step, c, a + b) == Register(step, Register(step, c, a), b)
    decreases a
  {
    if a == [] {
      assert a + b == b;
    } else {
      assert (a + b)[0] == a[0] && (a + b)[1..] == a[1..] + b;
      RegisterConcat(step, step(Mix(c, a[0])), a[1..], b);
    }
  }

  lemma MixOneToOne(c: bv32, d: bv32, b: bv8)
    requires Mix(c, b) == Mix(d, b)
    ensures c == d
  {
  }

  /** A message never merges two different register values. */
  lemma {:induction false} RegisterOneToOne(step: bv32 -> bv32, c: bv32, d: bv32, msg: seq<bv8>)
    requires OneToOne(step) && Register(step, c, msg) == Register(step, d, msg)
    ensures c == d
    decreases msg
  {
    if msg != [] {
      RegisterOneToOne(step, step(Mix(c, msg[0])), step(Mix(d, msg[0])), msg[1..]);
      MixOneToOne(c, d, msg[0]);
    }
  }

  /** Up to four bytes, little-endian. */
  function Word(b: seq<bv8>): bv32
    decreases b
  {
    if b == [] then 0 else Mix(Up(Word(b[1..])), b[0])
  }

  lemma {:induction false} WordWithin(b: seq<bv8>)
    requires |b| <= 4
    ensures Within(Word(b), |b|)
    decreases b
  {
    if b != [] {
      WordWithin(b[1..]);
      UpWithin(Word(b[1..]), b[0], |b| - 1);
    }
  }

  lemma WordParts(b: seq<bv8>)
    requires 0 < |b| <= 4
    ensures Low(Word(b)) == b[0] && Down(Word(b)) == Word(b[1..])
    ensures Down(Up(Word(b[1..]))) == Word(b[1..]) && Up(Word(b[1..])) & 0xff == 0
  {
    var w := Word(b[1..]);
    WordWithin(b[1..]);
    UpWithin(w, b[0], |b| - 1);
    UpDown(w);
    UpMixLow(w, b[0]);
    UpMixDown(w, b[0]);
  }

  lemma {:induction false} WordOneToOne(a: seq<bv8>, b: seq<bv8>)
    requires |a| == |b| <= 4 && Word(a) == Word(b)
    ensures a == b
    decreases a
  {
    if a != [] {
      WordParts(a);
      WordParts(b);
      WordOneToOne(a[1..], b[1..]);
      assert a == [a[0]] + a[1..] && b == [b[0]] + b[1..];
    }
  }

  /** Bytes that enter a byte step later can enter now, one byte higher. */
  lemma EnterEarly(step: bv32 -> bv32, c: bv32, b: bv8, w: bv32)
    requires Linear(step) && ShiftsHigh(step) && Down(Up(w)) == w && Up(w) & 0xff == 0
    ensures Xor(step(Mix(c, b)), w) == step(Xor(c, Mix(Up(w), b)))
  {
    var shifted := Up(w);
    var x := Mix(c, b);
    assert step(shifted) == w;
    assert step(Xor(x, shifted)) == Xor(step(x), step(shifted));
    XorRegroup(c, b as bv32, shifted);
  }

  /** Dividing a message of at most four bytes is dividing its word all at once. */
  lemma {:induction false} RegisterWord(step: bv32 -> bv32, c: bv32, b: seq<bv8>)
    requires Linear(step) && ShiftsHigh(step) && |b| <= 4
    ensures Register(step, c, b) == Iter(step, Xor(c, Word(b)), |b|)
    decreases b
  {
    if b == [] {
      XorZero(c);
    } else {
      var rest := b[1..];
      WordParts(b);
      RegisterWord(step, step(Mix(c, b[0])), rest);
      EnterEarly(step, c, b[0], Word(rest));
    }
  }

  lemma XorZero(c: bv32)
    ensures Xor(c, 0) == c
  {
  }

  lemma XorOneToOne(c: bv32, v: bv32, w: bv32)
    requires Xor(c, v) == Xor(c, w)
    ensures v == w
  {
  }

  lemma ByteOneToOne()
    ensures OneToOne(Byte)
  {
    forall x, y | Byte(x) == Byte(y)
      ensures x == y
    {
      BitsInjective(x, y, 8);
    }
  }

  /** From one register value, two different bursts of at most four bytes end in different values. */
  lemma BurstOneToOne(step: bv32 -> bv32, c: bv32, a: seq<bv8>, b: seq<bv8>)
    requires Linear(step) && ShiftsHigh(step) && OneToOne(step) && |a| == |b| <= 4
    requires Register(step, c, a) == Register(step, c, b)
    ensures a == b
  {
    RegisterWord(step, c, a);
    RegisterWord(step, c, b);
    IterInjective(step, Xor(c, Word(a)), Xor(c, Word(b)), |a|);
    XorOneToOne(c, Word(a), Word(b));
    WordOneToOne(a, b);
  }

  /** The register tells apart any two messages that differ only within four consecutive bytes. */
  lemma RegisterBurst(step: bv32 -> bv32, c: bv32, before: seq<bv8>, a: seq<bv8>, b: seq<bv8>, after: seq<bv8>)
    requires Linear(step) && ShiftsHigh(step) && OneToOne(step) && |a| == |b| <= 4
    requires Register(step, c, before + a + after) == Register(step, c, before + b + after)
    ensures a == b
  {
    RegisterConcat(step, c, before + a, after);
    RegisterConcat(step, c, before + b, after);
    RegisterConcat(step, c, before, a);
    RegisterConcat(step, c, before, b);
    var d := Register(step, c, before);
    RegisterOneToOne(step, Register(step, d, a), Register(step, d, b), after);
    BurstOneToOne(step, d, a, b);
  }

  lemma ByteLaws()
    ensures Linear(Byte) && ShiftsHigh(Byte) && OneToOne(Byte)
  {
    ByteIsLinear();
    ByteShiftsHigh();
    ByteOneToOne();
  }

  lemma BurstDetectedBy(step: bv32 -> bv32, before: seq<bv8>, a: seq<bv8>, b: seq<bv8>, after: seq<bv8>)
    requires Linear(step) && ShiftsHigh(step) && OneToOne(step) && |a| == |b| <= 4 && a != b
    ensures CrcBy(step, before + a + after) != CrcBy(step, before + b + after)
  {
    if CrcBy(step, before + a + after) == CrcBy(step, before + b + after) {
      UnXor(Register(step, 0xffff_ffff, before + a + after), Register(step, 0xffff_ffff, before + b + after));
      RegisterBurst(step, 0xffff_ffff, before, a, b, after);
    }
  }

  /** A change confined to four consecutive bytes always changes the CRC, whatever the message's length. */
  lemma BurstDetected(before: seq<bv8>, a: seq<bv8>, b: seq<bv8>, after: seq<bv8>)
    requires |a| == |b| <= 4 && a != b
    ensures Crc(before + a + after) != Crc(before + b + after)
  {
    ByteLaws();
    BurstDetectedBy(Byte, before, a, b, after);
  }

  lemma UnXor(v: bv32, w: bv32)
    requires Xor(v, 0xffff_ffff) == Xor(w, 0xffff_ffff)
    ensures v == w
  {
    XorCancel(v, 0xffff_ffff);
    XorCancel(w, 0xffff_ffff);
  }

  // ---- the ESTOP frame ---------------------------------------------------------------------

  const ESTOP_FRAME_BYTES := 12
  const MAGIC: seq<bv8> := [0xe5, 0xe5, 0xe5, 0xe5]

  function LowHalf(s: bv16): seq<bv8> {
    [(s & 0xff) as bv8, (s >> 8) as bv8]
  }

  function WordBytes(w: bv32): (b: seq<bv8>)
    ensures |b| == 4
  {
    [(w & 0xff) as bv8, ((w >> 8) & 0xff) as bv8, ((w >> 16) & 0xff) as bv8, (w >> 24) as bv8]
  }

  function EncodeEstopFrame(cause: bv8, origin: bv8, seq_: bv16): (f: seq<bv8>)
    ensures |f| == ESTOP_FRAME_BYTES
  {
    var head := MAGIC + [cause, origin] + LowHalf(seq_);
    head + WordBytes(Crc(head))
  }

  /** The hub's test on a raw message: length, magic, CRC over the first eight bytes. */
  predicate AcceptsEstop(f: seq<bv8>) {
    AcceptsBy(Byte, f)
  }

  predicate AcceptsBy(step: bv32 -> bv32, f: seq<bv8>) {
    |f| == ESTOP_FRAME_BYTES && f[..4] == MAGIC && CrcBy(step, f[..8]) == Word(f[8..])
  }

  lemma Reassembled(w: bv32)
    ensures var b := WordBytes(w);
            Mix(Up(Mix(Up(Mix(Up(Mix(Up(0), b[3])), b[2])), b[1])), b[0]) == w
  {
  }

  lemma WordOfFour(b: seq<bv8>)
    requires |b| == 4
    ensures Word(b) == Mix(Up(Mix(Up(Mix(Up(Mix(Up(0), b[3])), b[2])), b[1])), b[0])
  {
    var b1, b2, b3 := b[1..], b[2..], b[3..];
    assert b1[1..] == b2 && b2[1..] == b3 && b3[1..] == [];
    assert Word(b3) == Mix(Up(Word([])), b[3]);
    assert Word(b2) == Mix(Up(Word(b3)), b[2]);
    assert Word(b1) == Mix(Up(Word(b2)), b[1]);
  }

  lemma WordRoundTrip(w: bv32)
    ensures Word(WordBytes(w)) == w
  {
    WordOfFour(WordBytes(w));
    Reassembled(w);
  }

  lemma EncodedEstopAccepted(cause: bv8, origin: bv8, seq_: bv16)
    ensures AcceptsEstop(EncodeEstopFrame(cause, origin, seq_))
  {
    var head := MAGIC + [cause, origin] + LowHalf(seq_);
    var f := EncodeEstopFrame(cause, origin, seq_);
    assert f[..8] == head && f[8..] == WordBytes(Crc(head)) && f[..4] == MAGIC;
    WordRoundTrip(Crc(head));
  }

  /** A word from four bytes, the low one first. */
  lemma WordLayout(b: seq<bv8>)
    requires |b| == 4
    ensures Word(b) == (b[0] as bv32) ^ ((b[1] as bv32) << 8) ^ ((b[2] as bv32) << 16) ^ ((b[3] as bv32) << 24)
  {
    hide Word, Mix, Up;
    WordOfFour(b);
    WordMixed(b[0], b[1], b[2], b[3]);
  }

  lemma WordMixed(b0: bv8, b1: bv8, b2: bv8, b3: bv8)
    ensures Mix(Up(Mix(Up(Mix(Up(Mix(Up(0), b3)), b2)), b1)), b0)
         == (b0 as bv32) ^ ((b1 as bv32) << 8) ^ ((b2 as bv32) << 16) ^ ((b3 as bv32) << 24)
  {
  }

  /**
   * The hub latches a stop on a raw message of 12 bytes that begins with four e5 and ends in the CRC of its first
   * eight bytes, low byte first, and on no other.
   */
  lemma EstopLayout(f: seq<bv8>)
    ensures AcceptsEstop(f)
       <==> |f| == 12 && f[0] == 0xe5 && f[1] == 0xe5 && f[2] == 0xe5 && f[3] == 0xe5
            && Crc(f[..8]) == (f[8] as bv32) ^ ((f[9] as bv32) << 8) ^ ((f[10] as bv32) << 16) ^ ((f[11] as bv32) << 24)
  {
    hide Register, Word;
    if |f| == 12 {
      assert f[..4] == [f[0], f[1], f[2], f[3]];
      WordLayout(f[8..]);
    }
  }

  /** An ESTOP frame holds cause, origin and sequence number behind the four e5. */
  lemma EncodedLayout(cause: bv8, origin: bv8, seq_: bv16)
    ensures EncodeEstopFrame(cause, origin, seq_)[..8]
         == [0xe5, 0xe5, 0xe5, 0xe5, cause, origin, (seq_ & 0xff) as bv8, (seq_ >> 8) as bv8]
  {
    hide Register;
  }

  /** The register value every message followed by its own CRC ends in. */
  function Residue(step: bv32 -> bv32): bv32 {
    Iter(step, 0xffff_ffff, 4)
  }

  lemma IterMatches(step: bv32 -> bv32, c: bv32, w: bv32, all: bv32, n: nat)
    requires OneToOne(step)
    ensures Xor(c, all) == w <==> Iter(step, Xor(c, w), n) == Iter(step, all, n)
  {
    XorCancel(c, all);
    XorCancel(c, w);
    var x := Xor(c, w);
    if Iter(step, x, n) == Iter(step, all, n) {
      IterInjective(step, x, all, n);
    }
  }

  lemma WordMatches(step: bv32 -> bv32, all: bv32, data: seq<bv8>, tail: seq<bv8>)
    requires Linear(step) && ShiftsHigh(step) && OneToOne(step) && |tail| <= 4
    ensures Xor(Register(step, all, data), all) == Word(tail)
       <==> Register(step, all, data + tail) == Iter(step, all, |tail|)
  {
    var c := Register(step, all, data);
    RegisterConcat(step, all, data, tail);
    RegisterWord(step, c, tail);
    IterMatches(step, c, Word(tail), all, |tail|);
  }

  /** Data followed by a word has that word as its CRC exactly when the register ends in the residue. */
  lemma CrcMatches(step: bv32 -> bv32, data: seq<bv8>, tail: seq<bv8>)
    requires Linear(step) && ShiftsHigh(step) && OneToOne(step) && |tail| == 4
    ensures CrcBy(step, data) == Word(tail) <==> Register(step, 0xffff_ffff, data + tail) == Residue(step)
  {
    WordMatches(step, 0xffff_ffff, data, tail);
  }

  lemma AcceptedResidue(step: bv32 -> bv32, f: seq<bv8>)
    requires Linear(step) && ShiftsHigh(step) && OneToOne(step) && AcceptsBy(step, f)
    ensures Register(step, 0xffff_ffff, f) == Residue(step)
  {
    assert f[..8] + f[8..] == f;
    CrcMatches(step, f[..8], f[8..]);
  }

  lemma AlteredRejectedBy(step: bv32 -> bv32, before: seq<bv8>, a: seq<bv8>, b: seq<bv8>, after: seq<bv8>)
    requires Linear(step) && ShiftsHigh(step) && OneToOne(step) && |a| == |b| <= 4 && a != b
    requires AcceptsBy(step, before + a + after)
    ensures !AcceptsBy(step, before + b + after)
  {
    var f, g := before + a + after, before + b + after;
    AcceptedResidue(step, f);
    if AcceptsBy(step, g) {
      AcceptedResidue(step, g);
      RegisterBurst(step, 0xffff_ffff, before, a, b, after);
    }
  }

  /** A frame the hub latches on, altered within four consecutive bytes, is never latched on again. */
  lemma AlteredEstopRejected(before: seq<bv8>, a: seq<bv8>, b: seq<bv8>, after: seq<bv8>)
    requires |a| == |b| <= 4 && a != b
    requires AcceptsEstop(before + a + after)
    ensures !AcceptsEstop(before + b + after)
  {
    ByteLaws();
    AlteredRejectedBy(Byte, before, a, b, after);
  }

  // ---- the check value -------------------------------------------------------------------

  /** Eight bits of the division, bit by bit. */
  lemma ByteIs(c: bv32, d: bv32)
    requires Bit(Bit(Bit(Bit(Bit(Bit(Bit(Bit(c)))))))) == d
    ensures Byte(c) == d
  {
    IterIs(Bit, c);
  }

  lemma IterIs<T>(f: T -> T, c: T)
    ensures Iter(f, c, 8) == f(f(f(f(f(f(f(f(c))))))))
  {
    assert Iter(f, f(c), 7) == Iter(f, f(f(c)), 6);
    assert Iter(f, f(f(f(c))), 5) == Iter(f, f(f(f(f(c)))), 4);
    assert Iter(f, f(f(f(f(f(c))))), 3) == Iter(f, f(f(f(f(f(f(c)))))), 2);
  }

  /** One byte of a message. */
  lemma Takes(c: bv32, msg: seq<bv8>, m: bv32, d: bv32)
    requires msg != [] && Xor(c, msg[0] as bv32) == m && Bit(Bit(Bit(Bit(Bit(Bit(Bit(Bit(m)))))))) == d
    ensures Register(Byte, c, msg) == Register(Byte, d, msg[1..])
  {
    ByteIs(m, d);
  }

  lemma FromOne(msg: seq<bv8>)
    requires |msg| >= 3 && msg[0] == 0x31 && msg[1] == 0x32 && msg[2] == 0x33
    ensures Register(Byte, 0xffff_ffff, msg) == Register(Byte, 0x77b7_9c2d, msg[3..])
  {
    Takes(0xffff_ffff, msg, 0xffff_ffce, 0x7c23_1048);
    Takes(0x7c23_1048, msg[1..], 0x7c23_107a, 0xb0ac_bb32);
    Takes(0xb0ac_bb32, msg[2..], 0xb0ac_bb01, 0x77b7_9c2d);
    assert msg[1..][1..] == msg[2..] && msg[2..][1..] == msg[3..];
  }

  lemma FromFour(msg: seq<bv8>)
    requires |msg| >= 3 && msg[0] == 0x34 && msg[1] == 0x35 && msg[2] == 0x36
    ensures Register(Byte, 0x77b7_9c2d, msg) == Register(Byte, 0xf68d_2c9e, msg[3..])
  {
    Takes(0x77b7_9c2d, msg, 0x77b7_9c19, 0x641c_1f5c);
    Takes(0x641c_1f5c, msg[1..], 0x641c_1f69, 0x340a_c5e3);
    Takes(0x340a_c5e3, msg[2..], 0x340a_c5d5, 0xf68d_2c9e);
    assert msg[1..][1..] == msg[2..] && msg[2..][1..] == msg[3..];
  }

  lemma FromSeven(msg: seq<bv8>)
    requires |msg| >= 3 && msg[0] == 0x37 && msg[1] == 0x38 && msg[2] == 0x39
    ensures Register(Byte, 0xf68d_2c9e, msg) == Register(Byte, 0x340b_c6d9, msg[3..])
  {
    Takes(0xf68d_2c9e, msg, 0xf68d_2ca9, 0xaffc_9660);
    Takes(0xaffc_9660, msg[1..], 0xaffc_9658, 0x651f_2550);
    Takes(0x651f_2550, msg[2..], 0x651f_2569, 0x340b_c6d9);
    assert msg[1..][1..] == msg[2..] && msg[2..][1..] == msg[3..];
  }

  /** The check value of this CRC: that of the nine ASCII digits from 1 on. */
  lemma CheckValue()
    ensures Crc([0x31, 0x32, 0x33, 0x34, 0x35, 0x36, 0x37, 0x38, 0x39]) == 0xcbf4_3926
  {
    hide Byte;
    var msg: seq<bv8> := [0x31, 0x32, 0x33, 0x34, 0x35, 0x36, 0x37, 0x38, 0x39];
    FromOne(msg);
    FromFour(msg[3..]);
    FromSeven(msg[6..]);
    assert msg[3..][3..] == msg[6..] && msg[6..][3..] == [];
    Whitened(msg, 0x340b_c6d9);
  }

  lemma Whitened(msg: seq<bv8>, c: bv32)
    requires Register(Byte, 0xffff_ffff, msg) == c
    ensures Crc(msg) == Xor(c, 0xffff_ffff)
  {
  }
}
