/**
 Stable identifiers of generated KiCad entities.  The bytes that are hashed determine
 the identity fields, the identifiers have the form that RFC 9562 asks for, and the
 check for shared paths and colliding identifiers is complete.
*/
module Identity {
  import opened Wrappers
  import opened Sorting

  type Byte = b: int | 0 <= b < 256

  type Field = seq<Byte>

  const TWO_TO_THE_64: nat := 0x1_0000_0000_0000_0000

  // --- The preimage -----------------------------------------------------------

  /** The lowest n bytes of a number, highest first. */
  function BigEndian(value: nat, n: nat): (bytes: seq<Byte>)
    ensures |bytes| == n
  {
    if n == 0 then [] else BigEndian(value / 256, n - 1) + [value % 256]
  }

  function FromBigEndian(bytes: seq<Byte>): nat {
    if bytes == [] then 0 else 256 * FromBigEndian(bytes[..|bytes| - 1]) + bytes[|bytes| - 1]
  }

  function Pow256(n: nat): (p: nat)
    ensures p >= 1
  {
    if n == 0 then 1 else 256 * Pow256(n - 1)
  }

  lemma {:induction false} BigEndianInverts(value: nat, n: nat)
    requires value < Pow256(n)
    ensures FromBigEndian(BigEndian(value, n)) == value
  {
    if n > 0 {
      assert value / 256 < Pow256(n - 1);
      BigEndianInverts(value / 256, n - 1);
      var bytes := BigEndian(value, n);
      assert bytes[..n - 1] == BigEndian(value / 256, n - 1) && bytes[n - 1] == value % 256;
    }
  }

  lemma SixtyFourBits()
    ensures Pow256(8) == TWO_TO_THE_64
  {
    assert Pow256(1) == 256 && Pow256(2) == 0x1_0000 && Pow256(4) == 0x1_0000_0000;
  }

  predicate FitsU64(f: Field) {
    |f| < TWO_TO_THE_64
  }

  function FieldBytes(f: Field): seq<Byte> {
    BigEndian(|f|, 8) + f
  }

  function Preimage(fields: seq<Field>): seq<Byte> {
    if fields == [] then [] else FieldBytes(fields[0]) + Preimage(fields[1..])
  }

  /** The bytes are the fields, each behind its length: eight bytes, the most significant first. */
  ghost predicate SaysFields(bytes: seq<Byte>, fields: seq<Field>)
    decreases |fields|
  {
    if fields == [] then bytes == []
    else
      var n := |fields[0]|;
      && |bytes| >= 8 + n && EightDigits(bytes) == n && bytes[8..8 + n] == fields[0]
      && SaysFields(bytes[8 + n..], fields[1..])
  }

  ghost function EightDigits(b: seq<int>): int
    requires |b| >= 8
  {
    b[0] * 0x100_0000_0000_0000 + b[1] * 0x1_0000_0000_0000 + b[2] * 0x100_0000_0000 + b[3] * 0x1_0000_0000
    + b[4] * 0x100_0000 + b[5] * 0x1_0000 + b[6] * 0x100 + b[7]
  }

  lemma EightBytesSay(bytes: seq<Byte>)
    requires |bytes| == 8
    ensures FromBigEndian(bytes) == EightDigits(bytes)
  {
    hide FromBigEndian;
    assert bytes[..0] == [] && bytes[..8] == bytes;
    OneByteOn(bytes, 1);
    OneByteOn(bytes, 2);
    OneByteOn(bytes, 3);
    OneByteOn(bytes, 4);
    OneByteOn(bytes, 5);
    OneByteOn(bytes, 6);
    OneByteOn(bytes, 7);
    OneByteOn(bytes, 8);
  }

  lemma OneByteOn(bytes: seq<Byte>, n: nat)
    requires 0 < n <= |bytes|
    ensures FromBigEndian(bytes[..n]) == 256 * FromBigEndian(bytes[..n - 1]) + (bytes[n - 1] as int)
    ensures FromBigEndian([]) == 0
  {
    assert bytes[..n][..n - 1] == bytes[..n - 1];
  }

  lemma {:induction false} PreimageSays(fields: seq<Field>)
    requires forall f | f in fields :: FitsU64(f)
    ensures SaysFields(Preimage(fields), fields)
    decreases |fields|
  {
    if fields != [] {
      var f, bytes := fields[0], Preimage(fields);
      assert f in fields;
      PreimageSays(fields[1..]);
      SixtyFourBits();
      BigEndianInverts(|f|, 8);
      var length := BigEndian(|f|, 8);
      EightBytesSay(length);
      assert bytes == length + f + Preimage(fields[1..]);
      hide FromBigEndian, BigEndian, Preimage;
      assert bytes[8..8 + |f|] == f && bytes[8 + |f|..] == Preimage(fields[1..]);
      assert forall i | 0 <= i < 8 :: bytes[i] == length[i];
    }
  }

  method AppendIdentityField(identity: seq<Byte>, value: Field) returns (extended: seq<Byte>)
    requires FitsU64(value)
    ensures extended == identity + FieldBytes(value)
  {
    extended := identity + BigEndian(|value|, 8);
    extended := extended + value;
  }

  /** The first field can be read off the front. */
  lemma FirstFieldIsDetermined(f: Field, g: Field, x: seq<Byte>, y: seq<Byte>)
    requires FitsU64(f) && FitsU64(g) && FieldBytes(f) + x == FieldBytes(g) + y
    ensures f == g && x == y
  {
    var a, b := FieldBytes(f) + x, FieldBytes(g) + y;
    SixtyFourBits();
    BigEndianInverts(|f|, 8);
    BigEndianInverts(|g|, 8);
    assert a[..8] == BigEndian(|f|, 8) && b[..8] == BigEndian(|g|, 8);
    assert a[8..8 + |f|] == f && b[8..8 + |g|] == g;
    assert a[8 + |f|..] == x && b[8 + |g|..] == y;
  }

  /** Length-delimited encoding loses nothing: not the contents, not the borders, not the number of fields. */
  lemma {:induction false} PreimageIsInjective(a: seq<Field>, b: seq<Field>)
    requires (forall f | f in a :: FitsU64(f)) && (forall f | f in b :: FitsU64(f))
    requires Preimage(a) == Preimage(b)
    ensures a == b
  {
    assert a != [] ==> |Preimage(a)| >= 8;
    assert b != [] ==> |Preimage(b)| >= 8;
    if a != [] && b != [] {
      FirstFieldIsDetermined(a[0], b[0], Preimage(a[1..]), Preimage(b[1..]));
      PreimageIsInjective(a[1..], b[1..]);
    }
  }

  // --- The identifier ---------------------------------------------------------

  datatype IdentityKey = IdentityKey(namespace: Field, kind: Field, fields: seq<Field>) {
    predicate Valid() {
      FitsU64(namespace) && FitsU64(kind) && forall f | f in fields :: FitsU64(f)
    }

    function AllFields(version: Field): (fields: seq<Field>) {
      [version, namespace, kind] + fields
    }
  }

  /** Any 64-bit hash with a seed. */
  type Hash = (nat, seq<Byte>) -> nat

  method PreimageOf(version: Field, key: IdentityKey) returns (identity: seq<Byte>)
    requires FitsU64(version) && key.Valid()
    ensures identity == Preimage(key.AllFields(version))
  {
    var fields := key.AllFields(version);
    identity := [];
    for index := 0 to |fields|
      invariant identity + Preimage(fields[index..]) == Preimage(fields)
    {
      assert fields[index..][1..] == fields[index + 1..];
      identity := AppendIdentityField(identity, fields[index]);
    }
  }

  /** Two entities are hashed from the same bytes only if they are the same entity. */
  lemma KeysAreDetermined(version: Field, a: IdentityKey, b: IdentityKey)
    requires FitsU64(version) && a.Valid() && b.Valid()
    requires Preimage(a.AllFields(version)) == Preimage(b.AllFields(version))
    ensures a == b
  {
    var x, y := a.AllFields(version), b.AllFields(version);
    PreimageIsInjective(x, y);
    assert x[1] == a.namespace && y[1] == b.namespace && x[2] == a.kind && y[2] == b.kind;
    assert x[3..] == a.fields && y[3..] == b.fields;
  }

  /** The bits of `b` that `mask` leaves, for masks of low bits. */
  function LowBits(b: Byte, limit: int): (r: Byte)
    requires 0 < limit <= 256
    ensures r < limit
  {
    b % limit
  }

  /** Sixteen bytes from two hashes, with version 8 and the variant of RFC 9562 put in. */
  function UuidBytes(hash: Hash, identity: seq<Byte>): (bytes: seq<Byte>)
    ensures |bytes| == 16
  {
    var first := hash(0xcbf2_9ce4_8422_2325, identity) % TWO_TO_THE_64;
    var second := hash(Xor(0x8422_2325_cbf2_9ce4, first), identity) % TWO_TO_THE_64;
    var raw := BigEndian(first, 8) + BigEndian(second, 8);
    raw[6 := LowBits(raw[6], 16) + 0x80][8 := LowBits(raw[8], 64) + 0x80]
  }

  function Xor(a: nat, b: nat): nat {
    if a == 0 && b == 0 then 0 else 2 * Xor(a / 2, b / 2) + (if a % 2 == b % 2 then 0 else 1)
  }

  function HexDigit(n: nat): char
    requires n < 16
  {
    if n < 10 then '0' + n as char else 'a' + (n - 10) as char
  }

  function HexText(bytes: seq<Byte>): (s: string)
    ensures |s| == 2 * |bytes|
  {
    if bytes == [] then []
    else
      [HexDigit(bytes[0] / 16), HexDigit(bytes[0] % 16)] + HexText(bytes[1..])
  }

  function UuidText(bytes: seq<Byte>): string
    requires |bytes| == 16
  {
    HexText(bytes[..4]) + "-" + HexText(bytes[4..6]) + "-" + HexText(bytes[6..8]) + "-" + HexText(bytes[8..10]) + "-"
    + HexText(bytes[10..])
  }

  method StableUuid(hash: Hash, version: Field, key: IdentityKey) returns (uuid: string)
    requires FitsU64(version) && key.Valid()
    ensures uuid == UuidText(UuidBytes(hash, Preimage([version, key.namespace, key.kind] + key.fields)))
    ensures SaysHashes(uuid, hash, Preimage([version, key.namespace, key.kind] + key.fields))
    ensures SaysFields(Preimage([version, key.namespace, key.kind] + key.fields),
                       [version, key.namespace, key.kind] + key.fields)
  {
    var identity := PreimageOf(version, key);
    PreimageSays([version, key.namespace, key.kind] + key.fields);
    uuid := UuidText(UuidBytes(hash, identity));
    UuidReads(hash, identity);
  }

  // --- What an identifier says -------------------------------------------------

  /** A hexadecimal number read from its characters. */
  function HexNumber(s: string): int {
    if s == [] then 0
    else
      var u := s[|s| - 1] as int;
      16 * HexNumber(s[..|s| - 1]) + (if u <= 57 then u - 48 else u - 87)
  }

  /** The digits of an identifier, without its hyphens. */
  function UuidDigits(s: string): string
    requires |s| == 36
  {
    s[..8] + s[9..13] + s[14..18] + s[19..23] + s[24..]
  }

  /**
   Read as a number of 128 bits, the identifier is the one hash and then the other, but
   for four bits of the first that say 8 and the two highest of the second that say 2.
   The second hash starts from the first.
  */
  ghost predicate SaysHashes(uuid: string, hash: Hash, identity: seq<Byte>) {
    && |uuid| == 36 && uuid[8] == uuid[13] == uuid[18] == uuid[23] == '-'
    && var first := hash(0xcbf2_9ce4_8422_2325, identity) % 0x1_0000_0000_0000_0000;
       var second := hash(Xor(0x8422_2325_cbf2_9ce4, first), identity) % 0x1_0000_0000_0000_0000;
       var number := HexNumber(UuidDigits(uuid));
       var high, low := number / 0x1_0000_0000_0000_0000, number % 0x1_0000_0000_0000_0000;
       && high / 0x1_0000 == first / 0x1_0000 && high % 0x1000 == first % 0x1000 && high / 0x1000 % 0x10 == 8
       && low % 0x4000_0000_0000_0000 == second % 0x4000_0000_0000_0000 && low / 0x4000_0000_0000_0000 == 2
  }

  /** A bit of a number. */
  function Bit(n: nat, i: nat): nat {
    if i == 0 then n % 2 else Bit(n / 2, i - 1)
  }

  /** A bit of the exclusive or is set where exactly one of the two has it. */
  lemma {:induction false} XorBits(a: nat, b: nat, i: nat)
    ensures Bit(Xor(a, b), i) == 1 <==> Bit(a, i) != Bit(b, i)
    decreases i
  {
    if a == 0 && b == 0 {
      BitOfZero(i);
    } else if i > 0 {
      XorBits(a / 2, b / 2, i - 1);
      assert Xor(a, b) / 2 == Xor(a / 2, b / 2);
    }
  }

  lemma {:induction false} BitOfZero(i: nat)
    ensures Bit(0, i) == 0
  {
    if i > 0 {
      BitOfZero(i - 1);
    }
  }

  lemma {:induction false} HexTextJoins(a: seq<Byte>, b: seq<Byte>)
    ensures HexText(a + b) == HexText(a) + HexText(b)
  {
    if a == [] {
      assert a + b == b;
    } else {
      assert (a + b)[1..] == a[1..] + b;
      HexTextJoins(a[1..], b);
    }
  }

  /** The digits of bytes are the number that the bytes make up. */
  lemma {:induction false} HexTextReads(bytes: seq<Byte>)
    ensures HexNumber(HexText(bytes)) == FromBigEndian(bytes)
  {
    if bytes != [] {
      var front, last := bytes[..|bytes| - 1], bytes[|bytes| - 1];
      HexTextReads(front);
      HexTextJoins(front, [last]);
      assert bytes == front + [last];
      assert [last][1..] == [];
      var s, pair := HexText(bytes), HexText([last]);
      assert pair == [HexDigit(last / 16), HexDigit(last % 16)];
      assert s == HexText(front) + pair;
      assert s[..|s| - 1] == HexText(front) + [pair[0]];
      assert s[..|s| - 1][..|s| - 2] == HexText(front);
    }
  }

  lemma UuidDigitsAre(bytes: seq<Byte>)
    requires |bytes| == 16
    ensures |UuidText(bytes)| == 36 && UuidDigits(UuidText(bytes)) == HexText(bytes)
    ensures UuidText(bytes)[8] == UuidText(bytes)[13] == UuidText(bytes)[18] == UuidText(bytes)[23] == '-'
  {
    hide HexText;
    TextParts(HexText(bytes[..4]), HexText(bytes[4..6]), HexText(bytes[6..8]), HexText(bytes[8..10]),
              HexText(bytes[10..]));
    assert UuidDigits(UuidText(bytes))
        == HexText(bytes[..4]) + HexText(bytes[4..6]) + HexText(bytes[6..8]) + HexText(bytes[8..10])
           + HexText(bytes[10..]);
    hide UuidText, UuidDigits;
    DigitsJoin(bytes, 4, 6);
    DigitsJoin(bytes, 6, 8);
    DigitsJoin(bytes, 8, 10);
    DigitsJoin(bytes, 10, 16);
    assert bytes[10..16] == bytes[10..] && bytes[..16] == bytes;
  }

  lemma DigitsJoin(bytes: seq<Byte>, i: nat, j: nat)
    requires i <= j <= |bytes|
    ensures HexText(bytes[..j]) == HexText(bytes[..i]) + HexText(bytes[i..j])
  {
    hide HexText;
    HexTextJoins(bytes[..i], bytes[i..j]);
    assert bytes[..j] == bytes[..i] + bytes[i..j];
  }

  lemma {:induction false} FromBigEndianJoins(a: seq<Byte>, b: seq<Byte>)
    ensures FromBigEndian(a + b) == FromBigEndian(a) * Pow256(|b|) + FromBigEndian(b)
  {
    if b == [] {
      assert a + b == a;
    } else {
      var n := |b| - 1;
      FromBigEndianJoins(a, b[..n]);
      assert (a + b)[..|a + b| - 1] == a + b[..n];
      ByteOn(FromBigEndian(a), Pow256(n), FromBigEndian(b[..n]), b[n]);
    }
  }

  lemma ByteOn(a: int, p: int, rest: int, last: int)
    ensures 256 * (a * p + rest) + last == a * (256 * p) + (256 * rest + last)
  {
  }

  lemma UuidReads(hash: Hash, identity: seq<Byte>)
    ensures SaysHashes(UuidText(UuidBytes(hash, identity)), hash, identity)
  {
    var first := hash(0xcbf2_9ce4_8422_2325, identity) % TWO_TO_THE_64;
    var second := hash(Xor(0x8422_2325_cbf2_9ce4, first), identity) % TWO_TO_THE_64;
    hide HexText, UuidText, UuidDigits, UuidBytes, Xor, FromBigEndian, HexNumber, BigEndian;
    var bytes := UuidBytes(hash, identity);
    var high, low := UuidHalves(hash, identity);
    UuidDigitsAre(bytes);
    HexTextReads(bytes);
    TwoHalves(high, low);
  }

  lemma UuidHalves(hash: Hash, identity: seq<Byte>) returns (high: nat, low: nat)
    ensures var first := hash(0xcbf2_9ce4_8422_2325, identity) % TWO_TO_THE_64;
            var second := hash(Xor(0x8422_2325_cbf2_9ce4, first), identity) % TWO_TO_THE_64;
            && FromBigEndian(UuidBytes(hash, identity)) == high * 0x1_0000_0000_0000_0000 + low
            && low < 0x1_0000_0000_0000_0000
            && high / 0x1_0000 == first / 0x1_0000 && high % 0x1000 == first % 0x1000 && high / 0x1000 % 0x10 == 8
            && low % 0x4000_0000_0000_0000 == second % 0x4000_0000_0000_0000 && low / 0x4000_0000_0000_0000 == 2
  {
    hide FromBigEndian, BigEndian, Xor, LowBits;
    var first := hash(0xcbf2_9ce4_8422_2325, identity) % TWO_TO_THE_64;
    var second := hash(Xor(0x8422_2325_cbf2_9ce4, first), identity) % TWO_TO_THE_64;
    high, low := HalvesAre(first, second, UuidBytes(hash, identity));
  }

  /** The two halves of the number, with their marks. */
  lemma HalvesAre(first: nat, second: nat, bytes: seq<Byte>) returns (high: nat, low: nat)
    requires first < TWO_TO_THE_64 && second < TWO_TO_THE_64
    requires var raw := BigEndian(first, 8) + BigEndian(second, 8);
             bytes == raw[6 := LowBits(raw[6], 16) + 0x80][8 := LowBits(raw[8], 64) + 0x80]
    ensures FromBigEndian(bytes) == high * 0x1_0000_0000_0000_0000 + low && low < 0x1_0000_0000_0000_0000
    ensures high / 0x1_0000 == first / 0x1_0000 && high % 0x1000 == first % 0x1000 && high / 0x1000 % 0x10 == 8
    ensures low % 0x4000_0000_0000_0000 == second % 0x4000_0000_0000_0000 && low / 0x4000_0000_0000_0000 == 2
  {
    hide FromBigEndian, BigEndian, Pow256;
    var a, b := BigEndian(first, 8), BigEndian(second, 8);
    SixtyFourBits();
    BigEndianInverts(first, 8);
    BigEndianInverts(second, 8);
    var h, l := bytes[..8], bytes[8..];
    assert h == a[6 := LowBits(a[6], 16) + 0x80] && l == b[0 := LowBits(b[0], 64) + 0x80];
    assert bytes == h + l;
    FromBigEndianJoins(h, l);
    BigEndianBound(l);
    MarkedHigh(a, h);
    MarkedLow(b, l);
    high, low := FromBigEndian(h), FromBigEndian(l);
  }

  lemma EightBytes(bytes: seq<Byte>)
    requires |bytes| == 8
    ensures FromBigEndian(bytes)
         == 0x1_0000 * FromBigEndian(bytes[..6]) + 0x100 * (bytes[6] as int) + bytes[7] as int
    ensures FromBigEndian(bytes) == (bytes[0] as int) * 0x100_0000_0000_0000 + FromBigEndian(bytes[1..])
    ensures 0 <= FromBigEndian(bytes[1..]) < 0x100_0000_0000_0000
  {
    assert bytes[..7][..6] == bytes[..6];
    FromBigEndianJoins(bytes[..1], bytes[1..]);
    assert bytes == bytes[..1] + bytes[1..];
    assert bytes[..1][..0] == [];
    assert FromBigEndian(bytes[..1]) == bytes[0];
    assert Pow256(2) == 0x1_0000 && Pow256(4) == 0x1_0000_0000 && Pow256(7) == 0x100_0000_0000_0000;
    BigEndianBound(bytes[1..]);
  }

  lemma {:induction false} BigEndianBound(bytes: seq<Byte>)
    ensures FromBigEndian(bytes) < Pow256(|bytes|)
  {
    if bytes != [] {
      BigEndianBound(bytes[..|bytes| - 1]);
    }
  }

  lemma MarkedHigh(a: seq<Byte>, h: seq<Byte>)
    requires |a| == 8 && h == a[6 := LowBits(a[6], 16) + 0x80]
    ensures FromBigEndian(h) / 0x1_0000 == FromBigEndian(a) / 0x1_0000
    ensures FromBigEndian(h) % 0x1000 == FromBigEndian(a) % 0x1000 && FromBigEndian(h) / 0x1000 % 0x10 == 8
  {
    hide FromBigEndian;
    EightBytes(a);
    EightBytes(h);
    assert h[..6] == a[..6] && h[7] == a[7] && h[6] == a[6] % 16 + 0x80;
    MarkedByte(FromBigEndian(a), FromBigEndian(h), FromBigEndian(a[..6]), a[6], a[7]);
  }

  lemma MarkedByte(v: int, w: int, x: int, b: int, c: int)
    requires 0 <= b < 256 && 0 <= c < 256
    requires v == 0x1_0000 * x + 0x100 * b + c && w == 0x1_0000 * x + 0x100 * (b % 16 + 0x80) + c
    ensures w / 0x1_0000 == v / 0x1_0000 && w % 0x1000 == v % 0x1000 && w / 0x1000 % 0x10 == 8
  {
    var q, r := b / 16, b % 16;
    Divided(v, 0x1_0000, x, 0x100 * b + c);
    Divided(w, 0x1_0000, x, 0x100 * (r + 0x80) + c);
    Divided(v, 0x1000, 16 * x + q, 0x100 * r + c);
    Divided(w, 0x1000, 16 * x + 8, 0x100 * r + c);
    Divided(16 * x + 8, 0x10, x, 8);
  }

  /** There is one quotient and one remainder. */
  lemma Divided(n: int, d: int, q: int, r: int)
    requires n == d * q + r && 0 <= r < d
    ensures n / d == q && n % d == r
  {
    var p, s := n / d, n % d;
    assert n == d * p + s && 0 <= s < d;
    if p < q {
      Grows(d, p, q);
    } else if q < p {
      Grows(d, q, p);
    }
  }

  lemma Grows(d: int, p: int, q: int)
    requires d > 0 && p < q
    ensures d * p + d <= d * q
  {
    var more := q - p - 1;
    assert d * q == d * (p + 1 + more) == d * p + d + d * more;
    assert d * more >= 0;
  }

  lemma MarkedLow(a: seq<Byte>, h: seq<Byte>)
    requires |a| == 8 && h == a[0 := LowBits(a[0], 64) + 0x80]
    ensures FromBigEndian(h) % 0x4000_0000_0000_0000 == FromBigEndian(a) % 0x4000_0000_0000_0000
    ensures FromBigEndian(h) / 0x4000_0000_0000_0000 == 2
  {
    hide FromBigEndian;
    EightBytes(a);
    EightBytes(h);
    assert h[1..] == a[1..] && h[0] == a[0] % 64 + 0x80;
    MarkedTop(FromBigEndian(a), FromBigEndian(h), a[0], FromBigEndian(a[1..]));
  }

  lemma MarkedTop(v: int, w: int, b: int, x: int)
    requires 0 <= b < 256 && 0 <= x < 0x100_0000_0000_0000
    requires v == b * 0x100_0000_0000_0000 + x && w == (b % 64 + 0x80) * 0x100_0000_0000_0000 + x
    ensures w % 0x4000_0000_0000_0000 == v % 0x4000_0000_0000_0000 && w / 0x4000_0000_0000_0000 == 2
  {
    var q, r := b / 64, b % 64;
    Divided(v, 0x4000_0000_0000_0000, q, r * 0x100_0000_0000_0000 + x);
    Divided(w, 0x4000_0000_0000_0000, 2, r * 0x100_0000_0000_0000 + x);
  }

  lemma TwoHalves(high: nat, low: nat)
    requires low < 0x1_0000_0000_0000_0000
    ensures (high * 0x1_0000_0000_0000_0000 + low) / 0x1_0000_0000_0000_0000 == high
    ensures (high * 0x1_0000_0000_0000_0000 + low) % 0x1_0000_0000_0000_0000 == low
  {
  }

  /** Version 8 and variant 10, as bits and as digits of the text. */
  lemma VersionAndVariant(hash: Hash, identity: seq<Byte>)
    ensures var bytes := UuidBytes(hash, identity);
            && bytes[6] / 16 == 8 && bytes[8] / 64 == 2
            && |UuidText(bytes)| == 36
            && UuidText(bytes)[8] == UuidText(bytes)[13] == UuidText(bytes)[18] == UuidText(bytes)[23] == '-'
            && UuidText(bytes)[14] == '8' && UuidText(bytes)[19] in ['8', '9', 'a', 'b']
  {
    var bytes := UuidBytes(hash, identity);
    var a, b, c, d := HexText(bytes[..4]), HexText(bytes[4..6]), HexText(bytes[6..8]), HexText(bytes[8..10]);
    var e := HexText(bytes[10..]);
    TextParts(a, b, c, d, e);
    assert bytes[6..8][0] == bytes[6] && bytes[8..10][0] == bytes[8];
    assert c[0] == HexDigit(bytes[6] / 16) && d[0] == HexDigit(bytes[8] / 16);
    assert 8 <= bytes[8] / 16 < 12;
  }

  lemma TextParts(a: string, b: string, c: string, d: string, e: string)
    requires |a| == 8 && |b| == 4 && |c| == 4 && |d| == 4 && |e| == 12
    ensures var s := a + "-" + b + "-" + c + "-" + d + "-" + e;
            && |s| == 36 && s[8] == s[13] == s[18] == s[23] == '-' && s[14] == c[0] && s[19] == d[0]
            && s[..8] == a && s[9..13] == b && s[14..18] == c && s[19..23] == d && s[24..] == e
  {
  }

  lemma {:induction false} HexTextIsInjective(a: seq<Byte>, b: seq<Byte>)
    requires |a| == |b| && HexText(a) == HexText(b)
    ensures a == b
  {
    if a != [] {
      var s, t := HexText(a), HexText(b);
      assert s[0] == HexDigit(a[0] / 16) && t[0] == HexDigit(b[0] / 16);
      assert s[1] == HexDigit(a[0] % 16) && t[1] == HexDigit(b[0] % 16);
      assert a[0] / 16 == b[0] / 16 && a[0] % 16 == b[0] % 16;
      assert HexText(a[1..]) == s[2..] && HexText(b[1..]) == t[2..];
      HexTextIsInjective(a[1..], b[1..]);
    }
  }

  /** Texts collide only if the bytes do. */
  lemma UuidTextIsInjective(a: seq<Byte>, b: seq<Byte>)
    requires |a| == |b| == 16 && UuidText(a) == UuidText(b)
    ensures a == b
  {
    TextParts(HexText(a[..4]), HexText(a[4..6]), HexText(a[6..8]), HexText(a[8..10]), HexText(a[10..]));
    TextParts(HexText(b[..4]), HexText(b[4..6]), HexText(b[6..8]), HexText(b[8..10]), HexText(b[10..]));
    HexTextIsInjective(a[..4], b[..4]);
    HexTextIsInjective(a[4..6], b[4..6]);
    HexTextIsInjective(a[6..8], b[6..8]);
    HexTextIsInjective(a[8..10], b[8..10]);
    HexTextIsInjective(a[10..], b[10..]);
    assert a == a[..4] + a[4..6] + a[6..8] + a[8..10] + a[10..];
    assert b == b[..4] + b[4..6] + b[6..8] + b[8..10] + b[10..];
  }

  // --- The check --------------------------------------------------------------

  datatype KicadIdentity = KicadIdentity(uuid: string, semanticPath: string)

  datatype Diagnostic = SharedPath(path: string) | SharedUuid(path: string, first: string)

  function PathOf(i: KicadIdentity): string {
    i.semanticPath
  }

  function UuidOf(i: KicadIdentity): string {
    i.uuid
  }

  /** Sorted by path, and by identifier within a path. */
  function SortedIdentities(identities: seq<KicadIdentity>): seq<KicadIdentity> {
    SortBy(SortBy(identities, UuidOf), PathOf)
  }

  /** Reports every path that its successor shares, and every identifier that was seen before. */
  method ValidateIdentities(identities: seq<KicadIdentity>)
    returns (diagnostics: seq<Diagnostic>, sorted: seq<KicadIdentity>)
    ensures diagnostics == [] <==>
              forall i, j | 0 <= i < j < |identities| ::
                identities[i].semanticPath != identities[j].semanticPath && identities[i].uuid != identities[j].uuid
    ensures sorted == SortedIdentities(identities) && multiset(sorted) == multiset(identities)
    ensures forall i, j | 0 <= i < j < |sorted| ::
              || Precedes(sorted[i].semanticPath, sorted[j].semanticPath)
              || (sorted[i].semanticPath == sorted[j].semanticPath
                  && (sorted[i].uuid == sorted[j].uuid || Precedes(sorted[i].uuid, sorted[j].uuid)))
  {
    hide SortBy, Precedes, AtMost;
    InOrder(identities);
    sorted := SortedIdentities(identities);
    var byUuid := SortBy(identities, UuidOf);
    SortSorts(byUuid, PathOf);
    NeighboursSuffice(sorted, PathOf);
    SortKeepsDistinctness(byUuid, PathOf);
    SortKeepsDistinctness(byUuid, UuidOf);
    SortKeepsDistinctness(identities, UuidOf);
    SameElementsBothWays(identities, byUuid, PathOf);
    SameElementsBothWays(identities, sorted, UuidOf);
    assert forall i | 0 <= i < |identities| ::
        PathOf(identities[i]) == identities[i].semanticPath && UuidOf(identities[i]) == identities[i].uuid;
    var paths := SharedPaths(sorted);
    var uuids := SharedUuids(sorted);
    diagnostics := paths + uuids;
  }

  /** First by path, and within a path by identifier. */
  lemma InOrder(identities: seq<KicadIdentity>)
    ensures var sorted := SortedIdentities(identities);
            forall i, j | 0 <= i < j < |sorted| ::
              || Precedes(sorted[i].semanticPath, sorted[j].semanticPath)
              || (sorted[i].semanticPath == sorted[j].semanticPath
                  && (sorted[i].uuid == sorted[j].uuid || Precedes(sorted[i].uuid, sorted[j].uuid)))
  {
    hide SortBy, Precedes, AtMost;
    var byUuid, sorted := SortBy(identities, UuidOf), SortedIdentities(identities);
    SortSorts(identities, UuidOf);
    SortSorts(byUuid, PathOf);
    SortIsStable(byUuid, PathOf, UuidOf);
    forall i, j | 0 <= i < j < |sorted|
      ensures || Precedes(sorted[i].semanticPath, sorted[j].semanticPath)
              || (sorted[i].semanticPath == sorted[j].semanticPath
                  && (sorted[i].uuid == sorted[j].uuid || Precedes(sorted[i].uuid, sorted[j].uuid)))
    {
      AtMostIs(PathOf(sorted[i]), PathOf(sorted[j]));
      AtMostIs(UuidOf(sorted[i]), UuidOf(sorted[j]));
    }
  }

  lemma SameElementsBothWays<T>(xs: seq<T>, ys: seq<T>, key: T -> string)
    requires multiset(xs) == multiset(ys)
    ensures DistinctBy(xs, key) <==> DistinctBy(ys, key)
  {
    if DistinctBy(xs, key) {
      SameElements(xs, ys, key);
    }
    if DistinctBy(ys, key) {
      SameElements(ys, xs, key);
    }
  }

  method SharedPaths(sorted: seq<KicadIdentity>) returns (diagnostics: seq<Diagnostic>)
    ensures diagnostics == [] <==> NeighboursDiffer(sorted, PathOf)
  {
    diagnostics := [];
    var index := 0;
    while index + 1 < |sorted|
      invariant 0 <= index && (index == 0 || index < |sorted|)
      invariant diagnostics == [] <==> forall i | 0 <= i < index :: PathOf(sorted[i]) != PathOf(sorted[i + 1])
    {
      if sorted[index].semanticPath == sorted[index + 1].semanticPath {
        diagnostics := diagnostics + [SharedPath(sorted[index + 1].semanticPath)];
      }
      index := index + 1;
    }
  }

  method SharedUuids(identities: seq<KicadIdentity>) returns (diagnostics: seq<Diagnostic>)
    ensures diagnostics == [] <==> DistinctBy(identities, UuidOf)
  {
    diagnostics := [];
    var seen: map<string, string> := map[];
    for index := 0 to |identities|
      invariant forall u :: u in seen <==> exists i | 0 <= i < index :: identities[i].uuid == u
      invariant diagnostics == [] <==>
                  forall i, j | 0 <= i < j < index :: UuidOf(identities[i]) != UuidOf(identities[j])
    {
      var identity := identities[index];
      if identity.uuid in seen {
        ghost var i :| 0 <= i < index && identities[i].uuid == identity.uuid;
        assert UuidOf(identities[i]) == UuidOf(identities[index]);
        diagnostics := diagnostics + [SharedUuid(identity.semanticPath, seen[identity.uuid])];
      }
      seen := seen[identity.uuid := identity.semanticPath];
    }
  }

  // --- Generated outputs ------------------------------------------------------

  datatype GeneratedFile = GeneratedFile(path: string, contents: seq<Byte>)

  function FilePath(f: GeneratedFile): string {
    f.path
  }

  /** Sorts the outputs, and refuses two with the same path. */
  method SortOutputs(outputs: seq<GeneratedFile>) returns (r: Option<seq<GeneratedFile>>)
    ensures r.Some? <==> forall i, j | 0 <= i < j < |outputs| :: outputs[i].path != outputs[j].path
    ensures r.Some? ==> multiset(r.value) == multiset(outputs)
    ensures r.Some? ==> forall i, j | 0 <= i < j < |r.value| :: Precedes(r.value[i].path, r.value[j].path)
  {
    hide SortBy, Precedes, AtMost;
    assert forall i | 0 <= i < |outputs| :: FilePath(outputs[i]) == outputs[i].path;
    var sorted := SortBy(outputs, FilePath);
    SortSorts(outputs, FilePath);
    NeighboursSuffice(sorted, FilePath);
    SortKeepsDistinctness(outputs, FilePath);
    if exists i | 0 <= i < |sorted| - 1 :: FilePath(sorted[i]) == FilePath(sorted[i + 1]) {
      return None;
    }
    forall i, j | 0 <= i < j < |sorted| ensures Precedes(sorted[i].path, sorted[j].path) {
      AtMostIs(FilePath(sorted[i]), FilePath(sorted[j]));
      assert FilePath(sorted[i]) != FilePath(sorted[j]);
    }
    r := Some(sorted);
  }
}
