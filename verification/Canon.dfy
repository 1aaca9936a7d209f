/** Canonical byte encodings (canon.py) and the identity preimages built from them
    (model.py, `Corridor.identity_bytes`, `_instance_payload`).

    A digest is taken of these bytes, so two different contents must never share a preimage:
    every encoder here is uniquely decodable.
 */
module Canon {
  import opened Sorting

  type Byte = b: int | 0 <= b < 256

  type Bytes = seq<Byte>

  datatype Encoded = Encoded(bytes: Bytes) | NotUnsigned | TooLong | DuplicateKey

  // ---------------------------------------------------------------------------
  // LEB128 (section 7.6 of the DWARF 5 standard)
  // ---------------------------------------------------------------------------

  /** Unsigned LEB128 of minimal length. */
  function Leb128(n: nat): (bs: Bytes)
    ensures bs != []
  {
    if n < 128 then [n] else [n % 128 + 128] + Leb128(n / 128)
  }

  /** The byte loop of `leb128`. */
  method EncodeLeb128(value: int) returns (r: Encoded)
    ensures r == if value < 0 then NotUnsigned else Encoded(Leb128(value))
  {
    if value < 0 {
      return NotUnsigned;
    }
    var rest, out: Bytes := value, [];
    while rest >= 128
      invariant rest >= 0 && out + Leb128(rest) == Leb128(value)
    {
      assert out + Leb128(rest) == (out + [rest % 128 + 128]) + Leb128(rest / 128);
      out := out + [rest % 128 + 128];
      rest := rest / 128;
    }
    return Encoded(out + [rest % 128]);
  }

  /** The number a byte string denotes: seven bits a byte, least significant first, every
      byte but the last marked. */
  function Denotes(bs: Bytes): (n: nat)
  {
    if bs == [] then 0 else bs[0] % 128 + 128 * Denotes(bs[1..])
  }

  predicate Terminated(bs: Bytes) {
    bs != [] && bs[|bs| - 1] < 128 && forall i :: 0 <= i < |bs| - 1 ==> bs[i] >= 128
  }

  lemma Leb128Step(b: Byte, n: nat)
    requires b >= 128
    ensures Leb128(b % 128 + 128 * n) == if n == 0 then [b - 128] else [b] + Leb128(n)
  {
    assert (b % 128 + 128 * n) / 128 == n;
  }

  /** No byte string that denotes a number is shorter than its encoding, and the encoding is
      the only one without a zero byte added at the end. */
  lemma {:induction false} Leb128IsMinimal(bs: Bytes)
    requires Terminated(bs)
    ensures |Leb128(Denotes(bs))| <= |bs|
    ensures bs == Leb128(Denotes(bs)) <==> |bs| == 1 || bs[|bs| - 1] != 0
    decreases |bs|
  {
    if |bs| == 1 {
      assert Denotes(bs[1..]) == 0;
    } else {
      var rest := bs[1..];
      Leb128IsMinimal(rest);
      ZeroDenotesZeroes(rest);
      Leb128OfLonger(bs, rest);
      assert bs == [bs[0]] + rest && bs[|bs| - 1] == rest[|rest| - 1];
      var tail := Leb128(Denotes(rest));
      if Denotes(rest) != 0 {
        assert Leb128(Denotes(bs)) == [bs[0]] + tail;
        assert bs == [bs[0]] + tail <==> rest == tail;
      }
    }
  }

  /** The encoding of a number of several bytes, from that of its higher bytes. */
  lemma {:induction false} Leb128OfLonger(bs: Bytes, rest: Bytes)
    requires Terminated(bs) && |bs| > 1 && rest == bs[1..]
    ensures Terminated(rest)
    ensures Leb128(Denotes(bs)) == if Denotes(rest) == 0 then [bs[0] - 128] else [bs[0]] + Leb128(Denotes(rest))
  {
    Leb128Step(bs[0], Denotes(rest));
  }

  lemma {:induction false} ZeroDenotesZeroes(bs: Bytes)
    requires Terminated(bs)
    ensures bs[|bs| - 1] != 0 ==> Denotes(bs) > 0
    ensures |bs| == 1 && bs[0] == 0 ==> Denotes(bs) == 0
    decreases |bs|
  {
    if |bs| > 1 {
      ZeroDenotesZeroes(bs[1..]);
    }
  }

  lemma {:induction false} Leb128Denotes(n: nat)
    ensures Terminated(Leb128(n)) && Denotes(Leb128(n)) == n
  {
    if n < 128 {
      assert Denotes([]) == 0;
    } else {
      Leb128Denotes(n / 128);
      DenotesStep(n % 128 + 128, Leb128(n / 128));
    }
  }

  lemma {:induction false} DenotesStep(b: Byte, rest: Bytes)
    requires b >= 128 && Terminated(rest)
    ensures Terminated([b] + rest) && Denotes([b] + rest) == b - 128 + 128 * Denotes(rest)
  {
    var bs: Bytes := [b] + rest;
    assert bs[1..] == rest;
    assert bs[|bs| - 1] == rest[|rest| - 1];
    forall i | 0 <= i < |bs| - 1 ensures bs[i] >= 128 {
      assert i > 0 ==> bs[i] == rest[i - 1];
    }
  }

  /** One LEB128 number is never the beginning of another. */
  lemma {:induction false} Leb128Decodes(a: nat, r: Bytes, b: nat, s: Bytes)
    requires Leb128(a) + r == Leb128(b) + s
    ensures a == b && r == s
  {
    FirstByte(a);
    FirstByte(b);
    StripFirst(Leb128(a), r, Leb128(b), s);
    if a < 128 {
      assert [] + r == r && [] + s == s;
    } else {
      Leb128Decodes(a / 128, r, b / 128, s);
    }
  }

  /** The first byte is below 128 exactly when it is the only one. */
  lemma {:induction false} FirstByte(n: nat)
    ensures Leb128(n) != [] && Leb128(n)[0] == (if n < 128 then n else n % 128 + 128)
    ensures Leb128(n)[1..] == if n < 128 then [] else Leb128(n / 128)
  {
  }

  lemma StripFirst(a: Bytes, r: Bytes, b: Bytes, s: Bytes)
    requires a != [] && b != [] && a + r == b + s
    ensures a[0] == b[0] && a[1..] + r == b[1..] + s
  {
    assert (a + r)[0] == a[0] && (b + s)[0] == b[0];
    assert (a + r)[1..] == a[1..] + r && (b + s)[1..] == b[1..] + s;
  }

  // ---------------------------------------------------------------------------
  // Sequences of self-delimiting parts
  // ---------------------------------------------------------------------------

  function Join(parts: seq<Bytes>): Bytes {
    if parts == [] then [] else parts[0] + Join(parts[1..])
  }

  /** No part is the beginning of another. */
  ghost predicate PrefixFree(parts: iset<Bytes>) {
    forall a, b :: a in parts && b in parts && a <= b ==> a == b
  }

  lemma PrefixOfSame(a: Bytes, r: Bytes, b: Bytes, s: Bytes)
    requires a + r == b + s && |a| <= |b|
    ensures a <= b
  {
    assert a == (a + r)[..|a|] == (b + s)[..|a|] == b[..|a|];
  }

  lemma PartsAgree(code: iset<Bytes>, a: Bytes, r: Bytes, b: Bytes, s: Bytes)
    requires PrefixFree(code) && a in code && b in code && a + r == b + s
    ensures a == b && r == s
  {
    if |a| <= |b| {
      PrefixOfSame(a, r, b, s);
    } else {
      PrefixOfSame(b, s, a, r);
    }
    assert r == (a + r)[|a|..] && s == (b + s)[|b|..];
  }

  /** Equally many parts of a prefix-free code can be cut apart in one way only. */
  lemma {:induction false} JoinDecodes(code: iset<Bytes>, xs: seq<Bytes>, r: Bytes, ys: seq<Bytes>, s: Bytes)
    requires PrefixFree(code) && |xs| == |ys| && Join(xs) + r == Join(ys) + s
    requires forall k :: 0 <= k < |xs| ==> xs[k] in code && ys[k] in code
    ensures xs == ys && r == s
  {
    if xs != [] {
      var x, y := Join(xs[1..]) + r, Join(ys[1..]) + s;
      assert Join(xs) + r == xs[0] + x && Join(ys) + s == ys[0] + y;
      PartsAgree(code, xs[0], x, ys[0], y);
      JoinDecodes(code, xs[1..], r, ys[1..], s);
      assert xs == [xs[0]] + xs[1..] && ys == [ys[0]] + ys[1..];
    } else {
      assert Join(xs) + r == r && Join(ys) + s == s;
    }
  }

  function Leb128Each(values: seq<nat>): (parts: seq<Bytes>)
    ensures |parts| == |values| && forall k :: 0 <= k < |parts| ==> parts[k] == Leb128(values[k])
  {
    seq(|values|, k requires 0 <= k < |values| => Leb128(values[k]))
  }

  /** `leb128_seq`: the count, then each value. */
  function Leb128Seq(values: seq<nat>): Bytes {
    Leb128(|values|) + Join(Leb128Each(values))
  }

  lemma NumbersArePrefixFree()
    ensures PrefixFree(iset n: nat | true :: Leb128(n))
  {
    forall a: nat, b: nat | Leb128(a) <= Leb128(b) ensures Leb128(a) == Leb128(b) {
      var r := Leb128(b)[|Leb128(a)|..];
      assert Leb128(a) + r == Leb128(b) + [];
      Leb128Decodes(a, r, b, []);
    }
  }

  /** A vector of numbers can be read back off its preimage, whatever follows it. */
  lemma Leb128SeqDecodes(a: seq<nat>, r: Bytes, b: seq<nat>, s: Bytes)
    requires Leb128Seq(a) + r == Leb128Seq(b) + s
    ensures a == b && r == s
  {
    var x, y := Join(Leb128Each(a)) + r, Join(Leb128Each(b)) + s;
    assert Leb128Seq(a) + r == Leb128(|a|) + x && Leb128Seq(b) + s == Leb128(|b|) + y;
    Leb128Decodes(|a|, x, |b|, y);
    NumbersArePrefixFree();
    JoinDecodes(iset n: nat | true :: Leb128(n), Leb128Each(a), r, Leb128Each(b), s);
    forall k | 0 <= k < |a| ensures a[k] == b[k] {
      assert Leb128Each(a)[k] == Leb128Each(b)[k];
      Leb128Decodes(a[k], [], b[k], []);
    }
  }

  // ---------------------------------------------------------------------------
  // Length-prefixed fields
  // ---------------------------------------------------------------------------

  const MAX_SEQ := 0xFFFF_FFFF

  /** Four octets, most significant first. */
  function U32(n: nat): (bs: Bytes)
    requires n <= MAX_SEQ
    ensures |bs| == 4
  {
    [n / 0x100_0000, n / 0x1_0000 % 256, n / 0x100 % 256, n % 256]
  }

  lemma U32Injective(a: nat, b: nat)
    requires a <= MAX_SEQ && b <= MAX_SEQ && U32(a) == U32(b)
    ensures a == b
  {
    U32Value(a);
    U32Value(b);
  }

  lemma U32Value(n: nat)
    requires n <= MAX_SEQ
    ensures n == (U32(n)[0] as int) * 0x100_0000 + (U32(n)[1] as int) * 0x1_0000
                 + (U32(n)[2] as int) * 0x100 + U32(n)[3] as int
  {
    var high, middle := n / 0x1_0000, n / 0x100;
    assert middle / 0x100 == high && high / 0x100 == n / 0x100_0000;
  }

  /** `blob`: the octet count, then the octets. */
  function Blob(value: Bytes): (r: Bytes)
    requires |value| <= MAX_SEQ
  {
    U32(|value|) + value
  }

  predicate Fits(values: seq<Bytes>) {
    |values| <= MAX_SEQ && forall k :: 0 <= k < |values| ==> |values[k]| <= MAX_SEQ
  }

  ghost function Blobs(): iset<Bytes> {
    iset v: Bytes | |v| <= MAX_SEQ :: Blob(v)
  }

  lemma BlobDecodes(a: Bytes, r: Bytes, b: Bytes, s: Bytes)
    requires |a| <= MAX_SEQ && |b| <= MAX_SEQ && Blob(a) + r == Blob(b) + s
    ensures a == b && r == s
  {
    var x, y := Blob(a) + r, Blob(b) + s;
    assert U32(|a|) == x[..4] && U32(|b|) == y[..4];
    U32Injective(|a|, |b|);
    assert a + r == x[4..] && b + s == y[4..];
    assert a == (a + r)[..|a|] && b == (b + s)[..|a|];
    assert r == (a + r)[|a|..] && s == (b + s)[|a|..];
  }

  lemma BlobsArePrefixFree()
    ensures PrefixFree(Blobs())
  {
    forall a: Bytes, b: Bytes | |a| <= MAX_SEQ && |b| <= MAX_SEQ && Blob(a) <= Blob(b) ensures a == b {
      var r := Blob(b)[|Blob(a)|..];
      assert Blob(a) + r == Blob(b) + [];
      BlobDecodes(a, r, b, []);
    }
  }

  function BlobEach(values: seq<Bytes>): (parts: seq<Bytes>)
    requires Fits(values)
    ensures |parts| == |values| && forall k :: 0 <= k < |parts| ==> parts[k] == Blob(values[k])
  {
    seq(|values|, k requires 0 <= k < |values| => Blob(values[k]))
  }

  /** `ordered_seq` over identifiers: the count, then each as a blob. */
  function IdSeq(values: seq<Bytes>): Bytes
    requires Fits(values)
  {
    U32(|values|) + Join(BlobEach(values))
  }

  lemma CountDecodes(a: nat, x: Bytes, b: nat, y: Bytes)
    requires a <= MAX_SEQ && b <= MAX_SEQ && U32(a) + x == U32(b) + y
    ensures a == b && x == y
  {
    assert U32(a) == (U32(a) + x)[..4] && U32(b) == (U32(b) + y)[..4];
    U32Injective(a, b);
    assert x == (U32(a) + x)[4..] && y == (U32(b) + y)[4..];
  }

  lemma SameBlobs(a: seq<Bytes>, b: seq<Bytes>)
    requires Fits(a) && Fits(b) && BlobEach(a) == BlobEach(b)
    ensures a == b
  {
    assert |a| == |BlobEach(a)| == |b|;
    forall k | 0 <= k < |a| ensures a[k] == b[k] {
      assert BlobEach(a)[k] == BlobEach(b)[k];
      BlobDecodes(a[k], [], b[k], []);
    }
  }

  lemma IdSeqDecodes(a: seq<Bytes>, r: Bytes, b: seq<Bytes>, s: Bytes)
    requires Fits(a) && Fits(b) && IdSeq(a) + r == IdSeq(b) + s
    ensures a == b && r == s
  {
    var x, y := Join(BlobEach(a)) + r, Join(BlobEach(b)) + s;
    assert IdSeq(a) + r == U32(|a|) + x && IdSeq(b) + s == U32(|b|) + y;
    CountDecodes(|a|, x, |b|, y);
    BlobsArePrefixFree();
    JoinDecodes(Blobs(), BlobEach(a), r, BlobEach(b), s);
    SameBlobs(a, b);
  }

  // ---------------------------------------------------------------------------
  // Identity preimages
  // ---------------------------------------------------------------------------

  /** What an instance is identified by. Its blocker masks are left out on purpose. */
  datatype Identity = Identity(body: seq<Bytes>, evidence: seq<Bytes>, head: Bytes, licences: seq<Bytes>, rule: Bytes)

  predicate Encodable(i: Identity) {
    Fits(i.body) && Fits(i.evidence) && Fits(i.licences) && |i.head| <= MAX_SEQ && |i.rule| <= MAX_SEQ
  }

  /** `_instance_payload`. */
  function InstancePayload(i: Identity): Bytes
    requires Encodable(i)
  {
    IdSeq(i.body) + (IdSeq(i.evidence) + (Blob(i.head) + (IdSeq(i.licences) + Blob(i.rule))))
  }

  /** Two instances share a preimage only when they agree on everything it is made of. */
  lemma InstancePayloadDecodes(i: Identity, j: Identity)
    requires Encodable(i) && Encodable(j) && InstancePayload(i) == InstancePayload(j)
    ensures i == j
  {
    IdSeqDecodes(i.body, IdSeq(i.evidence) + (Blob(i.head) + (IdSeq(i.licences) + Blob(i.rule))),
                 j.body, IdSeq(j.evidence) + (Blob(j.head) + (IdSeq(j.licences) + Blob(j.rule))));
    IdSeqDecodes(i.evidence, Blob(i.head) + (IdSeq(i.licences) + Blob(i.rule)),
                 j.evidence, Blob(j.head) + (IdSeq(j.licences) + Blob(j.rule)));
    BlobDecodes(i.head, IdSeq(i.licences) + Blob(i.rule), j.head, IdSeq(j.licences) + Blob(j.rule));
    IdSeqDecodes(i.licences, Blob(i.rule), j.licences, Blob(j.rule));
    assert Blob(i.rule) + [] == Blob(j.rule) + [];
    BlobDecodes(i.rule, [], j.rule, []);
  }

  // ---------------------------------------------------------------------------
  // String maps
  // ---------------------------------------------------------------------------

  /** One entry, each side as the octets its text encodes to. */
  datatype Pair = Pair(key: Bytes, value: Bytes)

  /** Bytewise order; a proper prefix comes first. */
  predicate BytesLess(a: Bytes, b: Bytes) {
    b != [] && (a == [] || a[0] < b[0] || (a[0] == b[0] && BytesLess(a[1..], b[1..])))
  }

  lemma {:induction false} BytesLessTotal(a: Bytes, b: Bytes)
    ensures !(BytesLess(a, b) && BytesLess(b, a))
    ensures BytesLess(a, b) || BytesLess(b, a) <==> a != b
    decreases |a|
  {
    if a != [] && b != [] && a[0] == b[0] {
      BytesLessTotal(a[1..], b[1..]);
      assert a == [a[0]] + a[1..] && b == [b[0]] + b[1..];
    }
  }

  lemma {:induction false} BytesLessTransitive(a: Bytes, b: Bytes, c: Bytes)
    requires BytesLess(a, b) && BytesLess(b, c)
    ensures BytesLess(a, c)
    decreases |a|
  {
    if a != [] && a[0] == b[0] == c[0] {
      BytesLessTransitive(a[1..], b[1..], c[1..]);
    }
  }

  predicate FitsPairs(items: seq<Pair>) {
    forall k :: 0 <= k < |items| ==> FitsPair(items[k])
  }

  predicate FitsPair(p: Pair) {
    |p.key| <= MAX_SEQ && |p.value| <= MAX_SEQ
  }

  /** The sort key of an entry: its encoded key. */
  predicate KeyLess(p: Pair, q: Pair)
    requires FitsPair(p) && FitsPair(q)
  {
    BytesLess(Blob(p.key), Blob(q.key))
  }

  lemma KeyLessTotal(p: Pair, q: Pair)
    requires FitsPair(p) && FitsPair(q)
    ensures !(KeyLess(p, q) && KeyLess(q, p))
    ensures KeyLess(p, q) || KeyLess(q, p) <==> p.key != q.key
  {
    BytesLessTotal(Blob(p.key), Blob(q.key));
    if Blob(p.key) == Blob(q.key) {
      assert Blob(p.key) + [] == Blob(q.key) + [];
      BlobDecodes(p.key, [], q.key, []);
    }
  }

  /** No two entries share a key. */
  ghost predicate DistinctKeys(items: seq<Pair>) {
    && (forall p, q :: p in items && q in items && p.key == q.key ==> p == q)
    && forall p :: p in items ==> multiset(items)[p] == 1
  }

  /** The order the encoder sorts in. */
  function ByKey(): (Pair, Pair) -> bool {
    (p, q) => FitsPair(p) && FitsPair(q) && KeyLess(p, q)
  }

  lemma ByKeyIsStrict()
    ensures StrictOrder(ByKey())
  {
    forall p, q | ByKey()(p, q) ensures !ByKey()(q, p) {
      KeyLessTotal(p, q);
    }
    forall p, q, r | ByKey()(p, q) && ByKey()(q, r) ensures ByKey()(p, r) {
      BytesLessTransitive(Blob(p.key), Blob(q.key), Blob(r.key));
    }
  }

  function SortPairs(items: seq<Pair>): (r: seq<Pair>)
    requires FitsPairs(items)
    ensures FitsPairs(r) && multiset(r) == multiset(items) && |r| == |items|
  {
    SortLength(ByKey(), items);
    var r := Sort(ByKey(), items);
    assert forall k :: 0 <= k < |r| ==> r[k] in items;
    r
  }

  lemma DistinctKeysAscend(items: seq<Pair>)
    requires FitsPairs(items) && DistinctKeys(items)
    ensures Ascending(ByKey(), SortPairs(items))
  {
    ByKeyIsStrict();
    forall p, q | p in items && q in items && p != q ensures ByKey()(p, q) || ByKey()(q, p) {
      KeyLessTotal(p, q);
    }
    SortAscends(ByKey(), items);
  }

  lemma AscendingKeysDiffer(sorted: seq<Pair>)
    requires FitsPairs(sorted) && Ascending(ByKey(), sorted)
    ensures DistinctKeys(sorted)
  {
    ByKeyIsStrict();
    forall p | p in sorted ensures multiset(sorted)[p] == 1 {
      AscendingOnce(ByKey(), sorted, p);
    }
    forall i, j | 0 <= i < j < |sorted| ensures sorted[i].key != sorted[j].key {
      assert ByKey()(sorted[i], sorted[j]);
      KeyLessTotal(sorted[i], sorted[j]);
    }
  }

  /** Distinct keys are exactly what makes the sorted entries ascend. */
  lemma SortedAscendsIffDistinct(items: seq<Pair>)
    requires FitsPairs(items)
    ensures Ascending(ByKey(), SortPairs(items)) <==> DistinctKeys(items)
  {
    SortLength(ByKey(), items);
    if DistinctKeys(items) {
      DistinctKeysAscend(items);
    }
    if Ascending(ByKey(), SortPairs(items)) {
      AscendingKeysDiffer(SortPairs(items));
    }
  }

  function PairParts(items: seq<Pair>): (parts: seq<Bytes>)
    requires FitsPairs(items)
    ensures |parts| == |items| && forall k :: 0 <= k < |parts| ==> parts[k] == Blob(items[k].key) + Blob(items[k].value)
  {
    seq(|items|, k requires 0 <= k < |items| => Blob(items[k].key) + Blob(items[k].value))
  }

  function PairBytes(items: seq<Pair>): Bytes
    requires FitsPairs(items) && |items| <= MAX_SEQ
  {
    U32(|items|) + Join(PairParts(items))
  }

  /** `pairs`: the sorted entries behind their count, or the first complaint. */
  method Pairs(items: seq<Pair>) returns (r: Encoded)
    ensures r.Encoded? <==> FitsPairs(items) && DistinctKeys(items) && |items| <= MAX_SEQ
    ensures r.Encoded? ==> r.bytes == PairBytes(SortPairs(items))
    ensures r.Encoded? ==> multiset(SortPairs(items)) == multiset(items) && KeysAscend(SortPairs(items))
    ensures r.DuplicateKey? <==> FitsPairs(items) && !DistinctKeys(items)
    ensures !r.NotUnsigned?
  {
    if exists k :: 0 <= k < |items| && !FitsPair(items[k]) {
      return TooLong;
    }
    var encoded := SortPairs(items);
    ByKeyIsStrict();
    SortedAscendsIffDistinct(items);
    var k := 1;
    while k < |encoded|
      invariant 1 <= k
      invariant forall i :: 1 <= i < |encoded| && i < k ==> encoded[i - 1].key != encoded[i].key
    {
      if encoded[k - 1].key == encoded[k].key {
        KeyLessTotal(encoded[k - 1], encoded[k]);
        assert !ByKey()(encoded[k - 1], encoded[k]);
        return DuplicateKey;
      }
      k := k + 1;
    }
    NoTwinsAscend(items);
    if |encoded| > MAX_SEQ {
      return TooLong;
    }
    KeysAreByKey(encoded);
    return Encoded(PairBytes(encoded));
  }

  /** The encoded keys ascend, byte by byte. */
  ghost predicate KeysAscend(entries: seq<Pair>) {
    FitsPairs(entries)
    && forall i, j :: 0 <= i < j < |entries| ==> LexicallyLess(Blob(entries[i].key), Blob(entries[j].key))
  }

  /** At the first difference the smaller byte comes first; where there is none, the shorter sequence. */
  ghost predicate LexicallyLess(a: Bytes, b: Bytes) {
    exists k :: 0 <= k <= |a| && k <= |b| && a[..k] == b[..k]
      && if k < |a| then k < |b| && a[k] < b[k] else k < |b|
  }

  lemma {:induction false} BytesLessMeans(a: Bytes, b: Bytes)
    ensures BytesLess(a, b) ==> LexicallyLess(a, b)
    decreases |a|
  {
    if BytesLess(a, b) {
      if a == [] || a[0] != b[0] {
        assert a[..0] == b[..0];
      } else {
        BytesLessMeans(a[1..], b[1..]);
        var k :| 0 <= k <= |a[1..]| && k <= |b[1..]| && a[1..][..k] == b[1..][..k]
            && if k < |a[1..]| then k < |b[1..]| && a[1..][k] < b[1..][k] else k < |b[1..]|;
        assert a[..k + 1] == [a[0]] + a[1..][..k] && b[..k + 1] == [b[0]] + b[1..][..k];
      }
    }
  }

  lemma KeysAreByKey(entries: seq<Pair>)
    requires FitsPairs(entries) && Ascending(ByKey(), entries)
    ensures KeysAscend(entries)
  {
    forall i, j | 0 <= i < j < |entries| ensures LexicallyLess(Blob(entries[i].key), Blob(entries[j].key)) {
      assert ByKey()(entries[i], entries[j]);
      BytesLessMeans(Blob(entries[i].key), Blob(entries[j].key));
    }
  }

  /** The scan for equal neighbours finds every duplicate, the entries being sorted. */
  lemma NoTwinsAscend(items: seq<Pair>)
    requires FitsPairs(items)
    requires forall i :: 1 <= i < |SortPairs(items)| ==> SortPairs(items)[i - 1].key != SortPairs(items)[i].key
    ensures Ascending(ByKey(), SortPairs(items))
  {
    var sorted := SortPairs(items);
    ByKeyIsStrict();
    SortNeverDown(ByKey(), items);
    forall i | 1 <= i < |sorted| ensures ByKey()(sorted[i - 1], sorted[i]) {
      KeyLessTotal(sorted[i - 1], sorted[i]);
    }
    ChainAscends(ByKey(), sorted);
  }

  lemma PairPartsArePrefixFree()
    ensures PrefixFree(iset p: Pair | FitsPair(p) :: Blob(p.key) + Blob(p.value))
  {
    forall p: Pair, q: Pair | FitsPair(p) && FitsPair(q) && Blob(p.key) + Blob(p.value) <= Blob(q.key) + Blob(q.value)
      ensures p == q
    {
      var x, y := Blob(p.key) + Blob(p.value), Blob(q.key) + Blob(q.value);
      PairPartDecodes(p, y[|x|..], q, []);
    }
  }

  lemma PairPartDecodes(p: Pair, r: Bytes, q: Pair, s: Bytes)
    requires FitsPair(p) && FitsPair(q) && Blob(p.key) + Blob(p.value) + r == Blob(q.key) + Blob(q.value) + s
    ensures p == q && r == s
  {
    assert Blob(p.key) + Blob(p.value) + r == Blob(p.key) + (Blob(p.value) + r);
    assert Blob(q.key) + Blob(q.value) + s == Blob(q.key) + (Blob(q.value) + s);
    BlobDecodes(p.key, Blob(p.value) + r, q.key, Blob(q.value) + s);
    BlobDecodes(p.value, r, q.value, s);
  }

  lemma PairBytesDecodes(a: seq<Pair>, b: seq<Pair>)
    requires FitsPairs(a) && FitsPairs(b) && |a| <= MAX_SEQ && |b| <= MAX_SEQ && PairBytes(a) == PairBytes(b)
    ensures a == b
  {
    var x, y := Join(PairParts(a)), Join(PairParts(b));
    assert U32(|a|) == (U32(|a|) + x)[..4] && U32(|b|) == (U32(|b|) + y)[..4];
    U32Injective(|a|, |b|);
    assert x == (U32(|a|) + x)[4..] && y == (U32(|b|) + y)[4..];
    PairPartsArePrefixFree();
    assert x + [] == y + [];
    JoinDecodes(iset p: Pair | FitsPair(p) :: Blob(p.key) + Blob(p.value), PairParts(a), [], PairParts(b), []);
    forall k | 0 <= k < |a| ensures a[k] == b[k] {
      assert PairParts(a)[k] == PairParts(b)[k];
      PairPartDecodes(a[k], [], b[k], []);
    }
  }

  /** Two string maps have the same bytes exactly when they hold the same entries, in
      whatever order they were given. */
  lemma PairsIdentifyEntries(a: seq<Pair>, b: seq<Pair>)
    requires FitsPairs(a) && FitsPairs(b) && DistinctKeys(a) && DistinctKeys(b) && |a| <= MAX_SEQ && |b| <= MAX_SEQ
    ensures PairBytes(SortPairs(a)) == PairBytes(SortPairs(b)) <==> multiset(a) == multiset(b)
  {
    if PairBytes(SortPairs(a)) == PairBytes(SortPairs(b)) {
      PairBytesDecodes(SortPairs(a), SortPairs(b));
    }
    if multiset(a) == multiset(b) {
      ByKeyIsStrict();
      SortedAscendsIffDistinct(a);
      SortedAscendsIffDistinct(b);
      AscendingIsUnique(ByKey(), SortPairs(a), SortPairs(b));
    }
  }
}
