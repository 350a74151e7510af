/**
 Lowering a design to SPICE.  The simulator reads names without regard to case and
 knows node 0 and GND as ground, so nets and references are renamed where they would
 collide or be misread, and the circuit must stay the same circuit.
*/
module Spice {
  import opened DecimalDigits
  import opened Reading
  import opened Literals
  import opened Sorting
  import opened Circuits

  // --- Names without case -----------------------------------------------------

  function Upper(c: char): char {
    if 'a' <= c <= 'z' then c - 32 as char else c
  }

  function CaseKey(s: string): (k: string)
    ensures |k| == |s|
  {
    seq(|s|, i requires 0 <= i < |s| => Upper(s[i]))
  }

  lemma CaseKeyConcat(a: string, b: string)
    ensures CaseKey(a + b) == CaseKey(a) + CaseKey(b)
  {
  }

  /** One letter in upper and in lower case, or the same character, by their codes. */
  predicate SameLetter(u: int, v: int) {
    u == v || (65 <= u <= 90 && v == u + 32) || (65 <= v <= 90 && u == v + 32)
  }

  /** The same name to a reader who does not look at case. */
  predicate SameLetters(a: string, b: string) {
    |a| == |b| && forall i | 0 <= i < |a| :: SameLetter(a[i] as int, b[i] as int)
  }

  lemma CaseKeyIs(a: string, b: string)
    ensures CaseKey(a) == CaseKey(b) <==> SameLetters(a, b)
  {
    if |a| == |b| {
      forall i | 0 <= i < |a| ensures CaseKey(a)[i] == CaseKey(b)[i] <==> SameLetter(a[i] as int, b[i] as int) {
        UpperIs(a[i], b[i]);
      }
      if SameLetters(a, b) {
        assert forall i | 0 <= i < |a| :: SameLetter(a[i] as int, b[i] as int);
      }
    }
  }

  lemma UpperIs(c: char, d: char)
    ensures Upper(c) == Upper(d) <==> SameLetter(c as int, d as int)
  {
  }

  predicate IsNameChar(c: char) {
    IsAlphanumeric(c) || c == '_'
  }

  predicate Supported(s: string) {
    s != [] && forall i | 0 <= i < |s| :: IsNameChar(s[i])
  }

  predicate NodeReserved(s: string) {
    s == "0" || CaseKey(s) == "GND"
  }

  /** Letters, digits and underscores, by their codes. */
  predicate IsPlainName(s: string) {
    s != [] && forall i | 0 <= i < |s| ::
      var u := s[i] as int; 48 <= u <= 57 || 65 <= u <= 90 || 97 <= u <= 122 || u == 95
  }

  lemma SupportedIs(s: string)
    ensures Supported(s) <==> IsPlainName(s)
    ensures NodeReserved(s) <==> s == "0" || SameLetters(s, "GND")
  {
    CaseKeyIs(s, "GND");
    assert CaseKey("GND") == "GND";
  }

  // --- Hexadecimal ------------------------------------------------------------

  function HexDigit(n: nat): char
    requires n < 16
  {
    if n < 10 then '0' + n as char else 'A' + (n - 10) as char
  }

  type Byte = b: int | 0 <= b < 256

  function HexPair(b: Byte): string {
    [HexDigit(b / 16), HexDigit(b % 16)]
  }

  function HexEncoded(bytes: seq<Byte>): string {
    if bytes == [] then [] else HexEncoded(bytes[..|bytes| - 1]) + HexPair(bytes[|bytes| - 1])
  }

  method HexEncode(bytes: seq<Byte>) returns (encoded: string)
    ensures encoded == HexEncoded(bytes)
  {
    encoded := [];
    for index := 0 to |bytes|
      invariant encoded == HexEncoded(bytes[..index])
    {
      assert bytes[..index + 1][..index] == bytes[..index];
      encoded := encoded + HexPair(bytes[index]);
    }
    assert bytes[..|bytes|] == bytes;
  }

  lemma HexPairIsInjective(a: Byte, b: Byte)
    requires HexPair(a) == HexPair(b)
    ensures a == b
  {
    assert HexPair(a)[0] == HexPair(b)[0] && HexPair(a)[1] == HexPair(b)[1];
    assert a / 16 == b / 16 && a % 16 == b % 16;
  }

  /** What was encoded can be read back. */
  lemma {:induction false} HexIsInjective(a: seq<Byte>, b: seq<Byte>)
    requires HexEncoded(a) == HexEncoded(b)
    ensures a == b
    decreases |a|
  {
    HexLength(a);
    HexLength(b);
    if a != [] {
      var n := |a| - 1;
      var x, y := HexEncoded(a[..n]), HexEncoded(b[..n]);
      HexLength(a[..n]);
      HexLength(b[..n]);
      assert x + HexPair(a[n]) == y + HexPair(b[n]);
      assert x == (x + HexPair(a[n]))[..2 * n] && y == (y + HexPair(b[n]))[..2 * n];
      assert HexPair(a[n]) == (x + HexPair(a[n]))[2 * n..] && HexPair(b[n]) == (y + HexPair(b[n]))[2 * n..];
      HexIsInjective(a[..n], b[..n]);
      HexPairIsInjective(a[n], b[n]);
      assert a == a[..n] + [a[n]] && b == b[..n] + [b[n]];
    }
  }

  lemma {:induction false} HexLength(bytes: seq<Byte>)
    ensures |HexEncoded(bytes)| == 2 * |bytes|
    ensures forall i | 0 <= i < |HexEncoded(bytes)| :: IsNameChar(HexEncoded(bytes)[i])
  {
    if bytes != [] {
      HexLength(bytes[..|bytes| - 1]);
    }
  }

  /** What a hexadecimal digit stands for, by its code. */
  function DigitAt(s: string, i: nat): int
    requires i < |s|
  {
    var u := s[i] as int;
    if u <= 57 then u - 48 else u - 55
  }

  /** The i-th pair of digits denotes the i-th byte, the high digit first. */
  lemma {:induction false} HexReads(bytes: seq<Byte>, i: nat)
    requires i < |bytes|
    ensures |HexEncoded(bytes)| == 2 * |bytes|
    ensures 16 * DigitAt(HexEncoded(bytes), 2 * i) + DigitAt(HexEncoded(bytes), 2 * i + 1) == bytes[i]
    ensures forall k | 0 <= k < 2 * |bytes| ::
              var u := HexEncoded(bytes)[k] as int; 48 <= u <= 57 || 65 <= u <= 70
    decreases |bytes|
  {
    var front, last := bytes[..|bytes| - 1], bytes[|bytes| - 1];
    HexLength(front);
    PairReads(last);
    var s := HexEncoded(bytes);
    assert s == HexEncoded(front) + HexPair(last);
    if front != [] {
      HexReads(front, if i < |front| then i else 0);
    }
  }

  lemma PairReads(b: Byte)
    ensures 16 * DigitAt(HexPair(b), 0) + DigitAt(HexPair(b), 1) == b
    ensures forall k | 0 <= k < 2 :: var u := HexPair(b)[k] as int; 48 <= u <= 57 || 65 <= u <= 70
  {
  }

  /** The bytes of a text without any character beyond ASCII. */
  function AsciiBytes(s: string): seq<Byte>
    requires IsAscii(s)
  {
    seq(|s|, i requires 0 <= i < |s| => s[i] as int)
  }

  /** The name in hexadecimal. */
  function HexOfName(s: string): string
    requires IsAscii(s)
  {
    HexEncoded(AsciiBytes(s))
  }

  /** The names recorded in the netlist can be read back. */
  lemma NamesCanBeReadBack(a: string, b: string)
    requires IsAscii(a) && IsAscii(b) && HexOfName(a) == HexOfName(b)
    ensures a == b
  {
    HexIsInjective(AsciiBytes(a), AsciiBytes(b));
    assert forall i | 0 <= i < |a| :: AsciiBytes(a)[i] == a[i] as int && AsciiBytes(b)[i] == b[i] as int;
  }

  // --- Mangled names ----------------------------------------------------------

  /** The n-th name to try. */
  function Candidate(base: string, n: nat): string {
    if n == 0 then base else base + "_" + DigitText(Print(n))
  }

  /** The n-th name ends in the number n, written without a leading zero. */
  lemma CandidateReads(base: string, n: nat)
    ensures if n == 0 then Candidate(base, n) == base
            else exists digits :: Candidate(base, n) == base + "_" + digits && IsNatural(digits) && Natural(digits) == n
                                  && digits[0] != '0'
  {
    if n > 0 {
      var digits := DigitText(Print(n));
      DigitTextReads(Print(n));
      TrimmedZero(Print(n));
      assert digits[0] == DigitChar(Print(n)[0]);
      assert Candidate(base, n) == base + "_" + digits;
    }
  }

  lemma CaseKeyOfDigits(ds: Digits)
    ensures CaseKey(DigitText(ds)) == DigitText(ds)
  {
  }

  /** Different attempts are different names even without regard to case. */
  lemma CandidateKeysDiffer(base: string, m: nat, n: nat)
    requires CaseKey(Candidate(base, m)) == CaseKey(Candidate(base, n))
    ensures m == n
  {
    var key := CaseKey(base);
    CaseKeyConcat(base + "_", DigitText(Print(m)));
    CaseKeyConcat(base + "_", DigitText(Print(n)));
    CaseKeyConcat(base, "_");
    CaseKeyOfDigits(Print(m));
    CaseKeyOfDigits(Print(n));
    if m > 0 && n > 0 {
      var front := CaseKey(base + "_");
      assert front + DigitText(Print(m)) == front + DigitText(Print(n));
      assert DigitText(Print(m)) == (front + DigitText(Print(m)))[|front|..];
      assert DigitText(Print(n)) == (front + DigitText(Print(n)))[|front|..];
      PrintedTextIsInjective(m, n);
    }
  }

  /** `name` is what mangling the bytes of a text gives when the keys in `used` are taken. */
  ghost predicate Mangled(prefix: string, source: seq<Byte>, used: set<string>, name: string) {
    exists n: nat ::
      && name == Candidate(prefix + "_" + HexEncoded(source), n)
      && CaseKey(name) !in used
      && forall m | 0 <= m < n :: CaseKey(Candidate(prefix + "_" + HexEncoded(source), m)) in used
  }

  lemma CandidateIsSupported(prefix: string, source: seq<Byte>, n: nat)
    requires Supported(prefix)
    ensures Supported(Candidate(prefix + "_" + HexEncoded(source), n))
    ensures prefix + "_" <= Candidate(prefix + "_" + HexEncoded(source), n)
  {
    hide HexEncoded;
    HexLength(source);
    var base := prefix + "_" + HexEncoded(source);
    SupportedConcat(prefix, "_");
    SupportedConcat(prefix + "_", HexEncoded(source));
    if n > 0 {
      SupportedConcat(base, "_");
      DigitsAreNameChars(Print(n));
      SupportedConcat(base + "_", DigitText(Print(n)));
    }
  }

  lemma SupportedConcat(a: string, b: string)
    requires Supported(a) && forall i | 0 <= i < |b| :: IsNameChar(b[i])
    ensures Supported(a + b)
  {
  }

  lemma DigitsAreNameChars(ds: Digits)
    ensures forall i | 0 <= i < |DigitText(ds)| :: IsNameChar(DigitText(ds)[i])
  {
  }

  /**
   Tries names until one is new.  Every attempt has a key of its own, so at most as
   many attempts fail as there are keys in use.
  */
  method UniqueMangled(prefix: string, source: seq<Byte>, used: set<string>)
    returns (candidate: string, extended: set<string>)
    requires Supported(prefix)
    ensures Mangled(prefix, source, used, candidate)
    ensures Supported(candidate) && prefix + "_" <= candidate
    ensures CaseKey(candidate) !in used && extended == used + {CaseKey(candidate)}
  {
    hide Candidate, CaseKey, Supported, HexEncoded;
    var hex := HexEncode(source);
    var base := prefix + "_" + hex;
    var discriminator: nat := 0;
    candidate := Candidate(base, discriminator);
    ghost var tried: set<string> := {};
    while CaseKey(candidate) in used
      invariant candidate == Candidate(base, discriminator)
      invariant tried <= used
      invariant forall k | k in tried :: exists m | 0 <= m < discriminator :: k == CaseKey(Candidate(base, m))
      invariant forall m | 0 <= m < discriminator :: CaseKey(Candidate(base, m)) in tried
      decreases |used - tried|
    {
      ghost var key := CaseKey(candidate);
      if key in tried {
        var m :| 0 <= m < discriminator && key == CaseKey(Candidate(base, m));
        CandidateKeysDiffer(base, m, discriminator);
        assert false;
      }
      assert used - tried == (used - tried - {key}) + {key};
      assert used - (tried + {key}) == used - tried - {key};
      tried := tried + {key};
      discriminator := discriminator + 1;
      candidate := Candidate(base, discriminator);
    }
    CandidateIsSupported(prefix, source, discriminator);
    extended := used + {CaseKey(candidate)};
  }

  // --- Counting names without case --------------------------------------------

  /** The case keys of the values that are counted. */
  function Keys(values: seq<string>, counted: seq<bool>): multiset<string>
    requires |values| == |counted|
  {
    if values == [] then multiset{}
    else
      var last := |values| - 1;
      Keys(values[..last], counted[..last])
      + (if counted[last] then multiset{CaseKey(values[last])} else multiset{})
  }

  method CaseCounts(values: seq<string>, counted: seq<bool>) returns (counts: map<string, nat>)
    requires |values| == |counted|
    ensures forall k :: k in counts <==> k in Keys(values, counted)
    ensures forall k | k in counts :: counts[k] == Keys(values, counted)[k]
  {
    hide CaseKey, Keys;
    counts := map[];
    NoKeys(values, counted);
    for index := 0 to |values|
      invariant forall k :: k in counts <==> k in Keys(values[..index], counted[..index])
      invariant forall k | k in counts :: counts[k] == Keys(values[..index], counted[..index])[k]
    {
      OneMoreKey(values, counted, index);
      if counted[index] {
        var key := CaseKey(values[index]);
        counts := counts[key := (if key in counts then counts[key] else 0) + 1];
      }
    }
    assert values[..|values|] == values && counted[..|counted|] == counted;
  }

  lemma NoKeys(values: seq<string>, counted: seq<bool>)
    requires |values| == |counted|
    ensures Keys(values[..0], counted[..0]) == multiset{}
  {
  }

  lemma OneMoreKey(values: seq<string>, counted: seq<bool>, n: nat)
    requires |values| == |counted| && n < |values|
    ensures Keys(values[..n + 1], counted[..n + 1])
         == Keys(values[..n], counted[..n]) + (if counted[n] then multiset{CaseKey(values[n])} else multiset{})
  {
    hide CaseKey;
    assert values[..n + 1][..n] == values[..n] && counted[..n + 1][..n] == counted[..n];
  }

  /** No other counted value has the key of the i-th. */
  predicate Alone(values: seq<string>, counted: seq<bool>, i: nat)
    requires |values| == |counted| && i < |values|
  {
    forall j | 0 <= j < |values| && j != i && counted[j] :: CaseKey(values[j]) != CaseKey(values[i])
  }

  predicate HasKey(values: seq<string>, counted: seq<bool>, key: string)
    requires |values| == |counted|
  {
    exists j | 0 <= j < |values| :: counted[j] && CaseKey(values[j]) == key
  }

  lemma HasKeyInFront(values: seq<string>, counted: seq<bool>, key: string)
    requires |values| == |counted| > 0
    ensures var last := |values| - 1;
            HasKey(values, counted, key) <==>
              HasKey(values[..last], counted[..last], key) || (counted[last] && CaseKey(values[last]) == key)
  {
    hide CaseKey;
    var last := |values| - 1;
    assert forall j | 0 <= j < last :: values[..last][j] == values[j] && counted[..last][j] == counted[j];
  }

  lemma {:induction false} AbsentKey(values: seq<string>, counted: seq<bool>, key: string)
    requires |values| == |counted|
    ensures key in Keys(values, counted) <==> HasKey(values, counted, key)
  {
    hide CaseKey;
    if values != [] {
      hide HasKey;
      AbsentKey(values[..|values| - 1], counted[..|values| - 1], key);
      HasKeyInFront(values, counted, key);
    }
  }

  /** A key that is counted once belongs to one value. */
  lemma {:induction false} CountedOnceIsAlone(values: seq<string>, counted: seq<bool>, i: nat)
    requires |values| == |counted| && i < |values| && counted[i]
    ensures Keys(values, counted)[CaseKey(values[i])] == 1 <==> Alone(values, counted, i)
    ensures CaseKey(values[i]) in Keys(values, counted)
  {
    hide CaseKey;
    var last := |values| - 1;
    var key := CaseKey(values[i]);
    var vs, cs := values[..last], counted[..last];
    AbsentKey(vs, cs, key);
    if i < last {
      CountedOnceIsAlone(vs, cs, i);
      if Alone(values, counted, i) {
        assert Alone(vs, cs, i);
      }
      if Alone(vs, cs, i) && !(counted[last] && CaseKey(values[last]) == key) {
        forall j | 0 <= j < |values| && j != i && counted[j] ensures CaseKey(values[j]) != key {
          if j < last {
            assert vs[j] == values[j] && cs[j];
          }
        }
      }
    } else {
      if key !in Keys(vs, cs) {
        forall j | 0 <= j < |values| && j != i && counted[j] ensures CaseKey(values[j]) != key {
          assert vs[j] == values[j] && cs[j];
        }
      }
    }
  }

  // --- Allocating names in two phases -----------------------------------------

  /** One thing to be named: kept as it is, or mangled from a source. */
  datatype Request = Request(name: string, keep: bool, prefix: string, source: string)

  predicate RequestOk(r: Request) {
    !r.keep ==> Supported(r.prefix) && IsAscii(r.source)
  }

  /** The keys of the names to keep, taken before anything is mangled. */
  function KeptKeys(requests: seq<Request>): set<string> {
    set r | r in requests && r.keep :: CaseKey(r.name)
  }

  /** The i-th name is as requested. */
  ghost predicate Granted(r: Request, name: string)
    requires RequestOk(r)
  {
    if r.keep then name == r.name
    else
      && Supported(name) && r.prefix + "_" <= name
      && exists used :: Mangled(r.prefix, AsciiBytes(r.source), used, name)
  }

  ghost predicate AllGranted(requests: seq<Request>, names: seq<string>)
    requires forall i | 0 <= i < |requests| :: RequestOk(requests[i])
  {
    |names| <= |requests| && forall i | 0 <= i < |names| :: Granted(requests[i], names[i])
  }

  predicate KeysDiffer(names: seq<string>) {
    forall i, j | 0 <= i < j < |names| :: CaseKey(names[i]) != CaseKey(names[j])
  }

  /**
   First reserves every name that is kept, then mangles the others one by one: no
   mangled name can collide with a kept one, wherever that stands in the list.
  */
  method Allocate(requests: seq<Request>, reserved: set<string>) returns (names: seq<string>)
    requires forall i | 0 <= i < |requests| :: RequestOk(requests[i])
    requires forall i, j | 0 <= i < j < |requests| && requests[i].keep && requests[j].keep ::
               CaseKey(requests[i].name) != CaseKey(requests[j].name)
    ensures |names| == |requests| && AllGranted(requests, names) && KeysDiffer(names)
    ensures forall i | 0 <= i < |requests| && !requests[i].keep :: CaseKey(names[i]) !in reserved
  {
    hide CaseKey, RequestOk, Granted;
    var used := reserved;
    for index := 0 to |requests|
      invariant used == reserved + KeptKeys(requests[..index])
    {
      assert requests[..index + 1] == requests[..index] + [requests[index]];
      if requests[index].keep {
        used := used + {CaseKey(requests[index].name)};
      }
    }
    assert requests[..|requests|] == requests;
    KeptAreReserved(requests, reserved);
    names := GrantAll(requests, used);
  }

  lemma KeptAreReserved(requests: seq<Request>, reserved: set<string>)
    ensures forall i | 0 <= i < |requests| && requests[i].keep ::
              CaseKey(requests[i].name) in reserved + KeptKeys(requests)
  {
    hide CaseKey;
    forall i | 0 <= i < |requests| && requests[i].keep ensures CaseKey(requests[i].name) in KeptKeys(requests) {
      assert requests[i] in requests;
    }
  }

  /** The second phase: what is kept is already in `taken`. */
  method GrantAll(requests: seq<Request>, taken: set<string>) returns (names: seq<string>)
    requires forall i | 0 <= i < |requests| :: RequestOk(requests[i])
    requires forall i, j | 0 <= i < j < |requests| && requests[i].keep && requests[j].keep ::
               CaseKey(requests[i].name) != CaseKey(requests[j].name)
    requires forall i | 0 <= i < |requests| && requests[i].keep :: CaseKey(requests[i].name) in taken
    ensures |names| == |requests| && AllGranted(requests, names) && KeysDiffer(names)
    ensures forall i | 0 <= i < |requests| && !requests[i].keep :: CaseKey(names[i]) !in taken
  {
    hide CaseKey, RequestOk, Granted;
    var used := taken;
    names := [];
    for index := 0 to |requests|
      invariant |names| == index && AllGranted(requests, names)
      invariant taken <= used
      invariant forall i | 0 <= i < index :: CaseKey(names[i]) in used
      invariant forall i | 0 <= i < index && requests[i].keep :: names[i] == requests[i].name
      invariant forall i | 0 <= i < index && !requests[i].keep :: CaseKey(names[i]) !in taken
      invariant KeysDiffer(names)
    {
      var name;
      name, used := Grant(requests[index], used);
      names := names + [name];
    }
  }

  method Grant(r: Request, used: set<string>) returns (name: string, extended: set<string>)
    requires RequestOk(r) && (r.keep ==> CaseKey(r.name) in used)
    ensures Granted(r, name) && (r.keep ==> name == r.name)
    ensures !r.keep ==> CaseKey(name) !in used
    ensures extended == used + {CaseKey(name)}
  {
    hide CaseKey, RequestOk, Granted;
    if r.keep {
      name, extended := r.name, used;
    } else {
      RequestMeans(r);
      name, extended := UniqueMangled(r.prefix, AsciiBytes(r.source), used);
    }
    GrantMeans(r, name);
  }

  lemma RequestMeans(r: Request)
    requires RequestOk(r) && !r.keep
    ensures Supported(r.prefix) && IsAscii(r.source)
  {
  }

  lemma GrantMeans(r: Request, name: string)
    requires RequestOk(r)
    ensures r.keep && name == r.name ==> Granted(r, name)
    ensures !r.keep && Supported(name) && r.prefix + "_" <= name ==>
              (exists used :: Mangled(r.prefix, AsciiBytes(r.source), used, name)) ==> Granted(r, name)
  {
  }

  // --- Nodes ------------------------------------------------------------------

  datatype NetMapping = NetMapping(net: string, node: string)

  datatype DeviceMapping = DeviceMapping(path: string, reference: string, device: string)

  function NetName(n: Net): string {
    n.name
  }

  function ComponentPath(c: Component): string {
    c.path
  }

  function Names(nets: seq<Net>): (r: seq<string>)
    ensures |r| == |nets|
  {
    seq(|nets|, i requires 0 <= i < |nets| => nets[i].name)
  }

  function Nonground(nets: seq<Net>): (r: seq<bool>)
    ensures |r| == |nets|
  {
    seq(|nets|, i requires 0 <= i < |nets| => !nets[i].isGround)
  }

  /** A name the simulator reads as it is, and that no other net shares. */
  predicate NodePreservable(nets: seq<Net>, i: nat)
    requires i < |nets|
  {
    Supported(nets[i].name) && !NodeReserved(nets[i].name) && Alone(Names(nets), Nonground(nets), i)
  }

  /** The node of the i-th net: 0 for ground, the net's name if that is safe, and else a mangled name. */
  ghost predicate NodeFor(nets: seq<Net>, i: nat, node: string)
    requires i < |nets|
  {
    if nets[i].isGround then node == "0"
    else
      && Supported(node) && !NodeReserved(node)
      && if NodePreservable(nets, i) then node == nets[i].name
         else IsAscii(nets[i].name) && exists used :: Mangled("CCN", AsciiBytes(nets[i].name), used, node)
  }

  /** A list of nets that can be named: distinct names, at most one ground. */
  predicate Nameable(nets: seq<Net>) {
    && DistinctBy(nets, NetName)
    && (forall i | 0 <= i < |nets| :: TokenIsValid(nets[i].name))
    && (forall i, j | 0 <= i < j < |nets| :: !(nets[i].isGround && nets[j].isGround))
  }

  function NodeRequest(net: Net, counts: map<string, nat>): Request {
    var key := CaseKey(net.name);
    if net.isGround then Request("0", true, "CCN", net.name)
    else
      Request(net.name,
              Supported(net.name) && !NodeReserved(net.name) && key in counts && counts[key] == 1,
              "CCN", net.name)
  }

  ghost predicate CountsFor(nets: seq<Net>, counts: map<string, nat>) {
    && (forall k :: k in counts <==> k in Keys(Names(nets), Nonground(nets)))
    && (forall k | k in counts :: counts[k] == Keys(Names(nets), Nonground(nets))[k])
  }

  lemma NodeRequestMeans(nets: seq<Net>, counts: map<string, nat>, i: nat)
    requires CountsFor(nets, counts) && i < |nets| && TokenIsValid(nets[i].name)
    ensures RequestOk(NodeRequest(nets[i], counts))
    ensures NodeRequest(nets[i], counts).keep <==> nets[i].isGround || NodePreservable(nets, i)
  {
    TokensAreAscii(nets[i].name);
    if !nets[i].isGround {
      CountedOnceIsAlone(Names(nets), Nonground(nets), i);
    }
    hide CaseKey, TokenIsValid, IsAscii, Alone, Keys, NodeReserved;
  }

  /** Kept nodes differ: two names that are alone, or one of them the only ground. */
  lemma KeptNodesDiffer(nets: seq<Net>, counts: map<string, nat>, i: nat, j: nat)
    requires CountsFor(nets, counts) && Nameable(nets) && i < j < |nets|
    requires NodeRequest(nets[i], counts).keep && NodeRequest(nets[j], counts).keep
    ensures CaseKey(NodeRequest(nets[i], counts).name) != CaseKey(NodeRequest(nets[j], counts).name)
  {
    NodeRequestMeans(nets, counts, i);
    NodeRequestMeans(nets, counts, j);
    if nets[i].isGround || nets[j].isGround {
      var other := if nets[i].isGround then nets[j].name else nets[i].name;
      if CaseKey(other) == CaseKey("0") {
        OnlyZeroReadsAsZero(other);
      }
    } else {
      assert Alone(Names(nets), Nonground(nets), i) && Nonground(nets)[j];
      assert Names(nets)[i] == nets[i].name && Names(nets)[j] == nets[j].name;
    }
  }

  lemma OnlyZeroReadsAsZero(name: string)
    requires CaseKey(name) == CaseKey("0")
    ensures NodeReserved(name)
  {
    assert |name| == 1 && Upper(name[0]) == CaseKey(name)[0] == CaseKey("0")[0] == '0';
    assert name == "0";
  }

  lemma MangledIsNotReserved(name: string)
    requires "CCN" + "_" <= name
    ensures !NodeReserved(name)
  {
    assert name[0] == ("CCN" + "_")[0] == 'C';
    assert CaseKey(name)[0] == 'C' && |name| >= 4;
  }

  method LowerNets(nets: seq<Net>) returns (mappings: seq<NetMapping>)
    requires Nameable(nets)
    ensures |mappings| == |nets|
    ensures forall i | 0 <= i < |nets| :: mappings[i].net == nets[i].name && NodeFor(nets, i, mappings[i].node)
    ensures forall i, j | 0 <= i < j < |nets| :: CaseKey(mappings[i].node) != CaseKey(mappings[j].node)
  {
    hide CaseKey, NodeRequest, RequestOk, Granted, NodeFor, NodePreservable, Keys;
    var counts := CaseCounts(Names(nets), Nonground(nets));
    var requests := seq(|nets|, i requires 0 <= i < |nets| => NodeRequest(nets[i], counts));
    forall i | 0 <= i < |nets| ensures RequestOk(requests[i]) {
      NodeRequestMeans(nets, counts, i);
    }
    forall i, j | 0 <= i < j < |nets| && requests[i].keep && requests[j].keep
      ensures CaseKey(requests[i].name) != CaseKey(requests[j].name)
    {
      KeptNodesDiffer(nets, counts, i, j);
    }
    var nodes := Allocate(requests, {"0"});
    mappings := seq(|nets|, i requires 0 <= i < |nets| => NetMapping(nets[i].name, nodes[i]));
    forall i | 0 <= i < |nets| ensures NodeFor(nets, i, nodes[i]) {
      NodeIsFor(nets, counts, i, nodes[i]);
    }
  }

  lemma NodeIsFor(nets: seq<Net>, counts: map<string, nat>, i: nat, node: string)
    requires CountsFor(nets, counts) && i < |nets| && TokenIsValid(nets[i].name)
    requires RequestOk(NodeRequest(nets[i], counts)) && Granted(NodeRequest(nets[i], counts), node)
    ensures NodeFor(nets, i, node)
  {
    NodeRequestMeans(nets, counts, i);
    TokensAreAscii(nets[i].name);
    hide CountsFor, NodePreservable, CaseKey, Mangled;
    if !nets[i].isGround && NodeRequest(nets[i], counts).keep {
      PreservableMeans(nets, i);
    } else if !nets[i].isGround {
      MangledIsNotReserved(node);
    }
  }

  lemma PreservableMeans(nets: seq<Net>, i: nat)
    requires i < |nets| && NodePreservable(nets, i)
    ensures Supported(nets[i].name) && !NodeReserved(nets[i].name)
  {
  }

  // --- Devices ----------------------------------------------------------------

  /** The letter by which the simulator knows what a device is. */
  predicate StartsLike(model: SimulationModel, name: string) {
    name != [] && match model
      case Resistor(_, _) => name[0] == 'R' || name[0] == 'r'
      case DcVoltageSource(_, _) => name[0] == 'V' || name[0] == 'v'
  }

  function Prefix(model: SimulationModel): string {
    match model
    case Resistor(_, _) => "RCC"
    case DcVoltageSource(_, _) => "VCC"
  }

  function References(components: seq<Component>): (r: seq<string>)
    ensures |r| == |components|
  {
    seq(|components|, i requires 0 <= i < |components| => components[i].reference)
  }

  function All(n: nat): (r: seq<bool>)
    ensures |r| == n
  {
    seq(n, _ => true)
  }

  predicate ReferencePreservable(components: seq<Component>, i: nat)
    requires i < |components| && components[i].simulation.Some?
  {
    && StartsLike(components[i].simulation.value, components[i].reference)
    && Supported(components[i].reference)
    && Alone(References(components), All(|components|), i)
  }

  function MangleSource(c: Component): string {
    c.reference + ['\0'] + c.path
  }

  /** The device of the i-th component: its reference if that is safe, and else a mangled name. */
  ghost predicate DeviceFor(components: seq<Component>, i: nat, device: string)
    requires i < |components| && components[i].simulation.Some?
  {
    && Supported(device) && StartsLike(components[i].simulation.value, device)
    && if ReferencePreservable(components, i) then device == components[i].reference
       else IsAscii(MangleSource(components[i]))
            && exists used ::
                 Mangled(Prefix(components[i].simulation.value), AsciiBytes(MangleSource(components[i])), used, device)
  }

  predicate Instantiable(c: Component) {
    c.simulation.Some? && IsAscii(c.reference) && IsAscii(c.path)
  }

  function DeviceRequest(c: Component, counts: map<string, nat>): Request
    requires Instantiable(c)
  {
    var key := CaseKey(c.reference);
    Request(c.reference,
            StartsLike(c.simulation.value, c.reference) && Supported(c.reference) && key in counts && counts[key] == 1,
            Prefix(c.simulation.value), MangleSource(c))
  }

  ghost predicate ReferenceCounts(components: seq<Component>, counts: map<string, nat>) {
    && (forall k :: k in counts <==> k in Keys(References(components), All(|components|)))
    && (forall k | k in counts :: counts[k] == Keys(References(components), All(|components|))[k])
  }

  lemma DeviceRequestMeans(components: seq<Component>, counts: map<string, nat>, i: nat)
    requires ReferenceCounts(components, counts) && i < |components| && Instantiable(components[i])
    ensures RequestOk(DeviceRequest(components[i], counts))
    ensures DeviceRequest(components[i], counts).keep <==> ReferencePreservable(components, i)
  {
    CountedOnceIsAlone(References(components), All(|components|), i);
    hide CaseKey, Alone, Keys;
  }

  lemma MangledStartsLike(model: SimulationModel, name: string)
    requires Prefix(model) + "_" <= name
    ensures StartsLike(model, name)
  {
    assert name[0] == (Prefix(model) + "_")[0] == Prefix(model)[0];
  }

  lemma DeviceIsFor(components: seq<Component>, counts: map<string, nat>, i: nat, device: string)
    requires ReferenceCounts(components, counts) && i < |components| && Instantiable(components[i])
    requires RequestOk(DeviceRequest(components[i], counts))
    requires Granted(DeviceRequest(components[i], counts), device)
    ensures DeviceFor(components, i, device)
  {
    DeviceRequestMeans(components, counts, i);
    hide ReferenceCounts, CaseKey, Mangled, Alone, StartsLike;
    if !DeviceRequest(components[i], counts).keep {
      MangledStartsLike(components[i].simulation.value, device);
    }
  }

  method LowerDevices(components: seq<Component>) returns (mappings: seq<DeviceMapping>)
    requires forall i | 0 <= i < |components| :: Instantiable(components[i])
    ensures |mappings| == |components|
    ensures forall i | 0 <= i < |components| ::
              && mappings[i].path == components[i].path && mappings[i].reference == components[i].reference
              && Instantiable(components[i]) && DeviceFor(components, i, mappings[i].device)
    ensures forall i, j | 0 <= i < j < |components| :: CaseKey(mappings[i].device) != CaseKey(mappings[j].device)
  {
    hide CaseKey, DeviceRequest, RequestOk, Granted, DeviceFor, ReferencePreservable, Keys;
    var counts := CaseCounts(References(components), All(|components|));
    var requests := seq(|components|, i requires 0 <= i < |components| && Instantiable(components[i]) =>
                        DeviceRequest(components[i], counts));
    forall i | 0 <= i < |components| ensures RequestOk(requests[i]) {
      DeviceRequestMeans(components, counts, i);
    }
    forall i, j | 0 <= i < j < |components| && requests[i].keep && requests[j].keep
      ensures CaseKey(requests[i].name) != CaseKey(requests[j].name)
    {
      KeptDevicesDiffer(components, counts, i, j);
    }
    var devices := Allocate(requests, {});
    mappings := seq(|components|, i requires 0 <= i < |components| =>
                    DeviceMapping(components[i].path, components[i].reference, devices[i]));
    forall i | 0 <= i < |components| ensures DeviceFor(components, i, devices[i]) {
      DeviceIsFor(components, counts, i, devices[i]);
    }
  }

  lemma KeptDevicesDiffer(components: seq<Component>, counts: map<string, nat>, i: nat, j: nat)
    requires ReferenceCounts(components, counts) && i < j < |components|
    requires Instantiable(components[i]) && Instantiable(components[j])
    requires DeviceRequest(components[i], counts).keep && DeviceRequest(components[j], counts).keep
    ensures CaseKey(DeviceRequest(components[i], counts).name) != CaseKey(DeviceRequest(components[j], counts).name)
  {
    DeviceRequestMeans(components, counts, i);
    assert Alone(References(components), All(|components|), i);
    assert References(components)[j] == components[j].reference && References(components)[i] == components[i].reference;
  }
}
