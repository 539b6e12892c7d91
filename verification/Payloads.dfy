/**
 * Signed payloads that carry numbers and sets: the content payload, the pin
 * payload and the roster behind a key rotation's digest.
 */
module Payloads {
  import opened Encoding
  import opened SortKeys
  import opened Wrappers

  // ----- numbers -----

  /** []byte(strconv.FormatUint(n, 10)). */
  function DecimalBytes(n: nat): Bytes {
    var s := Decimal(n);
    seq(|s|, i requires 0 <= i < |s| => s[i] as int as byte)
  }

  /** What ASCII digits are worth. */
  function Worth(b: Bytes): int { if b == [] then 0 else 10 * Worth(b[..|b| - 1]) + (b[|b| - 1] as int - 48) }

  /** Digits, most significant first, and no zero ahead of them. */
  lemma {:induction false} DecimalBytesAreDigits(n: nat)
    ensures var d := DecimalBytes(n);
            && |d| >= 1 && (forall i :: 0 <= i < |d| ==> 48 <= d[i] <= 57) && Worth(d) == n && (d[0] == 48 ==> n == 0)
  {
    var d := DecimalBytes(n);
    if n >= 10 {
      DecimalBytesAreDigits(n / 10);
      assert d[..|d| - 1] == DecimalBytes(n / 10);
      assert d[|d| - 1] as int == 48 + n % 10;
    } else {
      assert d[..0] == [];
    }
  }

  lemma DecimalBytesAreInjective(m: nat, n: nat)
    requires DecimalBytes(m) == DecimalBytes(n)
    ensures m == n
  {
    forall i | 0 <= i < |Decimal(m)| ensures Decimal(m)[i] == Decimal(n)[i] {
      assert DecimalBytes(m)[i] == DecimalBytes(n)[i];
    }
    assert |DecimalBytes(m)| == |DecimalBytes(n)|;
    assert Decimal(m) == Decimal(n);
    ParseDecimal(m);
    ParseDecimal(n);
  }

  // ----- content -----

  /** hash stands for SHA-256. */
  function SignedPayload(author: Bytes, groupId: Bytes, sortKey: Bytes, generation: nat, day: Bytes, ciphertext: Bytes,
                         hash: Bytes -> Bytes): Bytes {
    Concat([author, groupId, sortKey, DecimalBytes(generation), day, hash(ciphertext)])
  }

  /** Which field stands where: signatures made elsewhere cover these bytes. */
  lemma SignedPayloadLayout(author: Bytes, groupId: Bytes, sortKey: Bytes, generation: nat, day: Bytes, ciphertext: Bytes,
                            hash: Bytes -> Bytes)
    requires Encodable([author, groupId, sortKey, DecimalBytes(generation), day, hash(ciphertext)])
    ensures ParseFields(SignedPayload(author, groupId, sortKey, generation, day, ciphertext, hash))
            == Some([author, groupId, sortKey, DecimalBytes(generation), day, hash(ciphertext)])
  {
    ParseInvertsConcat([author, groupId, sortKey, DecimalBytes(generation), day, hash(ciphertext)]);
  }

  /** As far as hash collides nowhere, a content signature fixes its address, generation, day and ciphertext: none can be moved. */
  lemma SignedPayloadBindsEveryField(a1: Bytes, g1: Bytes, k1: Bytes, n1: nat, d1: Bytes, c1: Bytes,
                                     a2: Bytes, g2: Bytes, k2: Bytes, n2: nat, d2: Bytes, c2: Bytes,
                                     hash: Bytes -> Bytes)
    requires Encodable([a1, g1, k1, DecimalBytes(n1), d1, hash(c1)])
    requires Encodable([a2, g2, k2, DecimalBytes(n2), d2, hash(c2)])
    requires SignedPayload(a1, g1, k1, n1, d1, c1, hash) == SignedPayload(a2, g2, k2, n2, d2, c2, hash)
    ensures a1 == a2 && g1 == g2 && k1 == k2 && n1 == n2 && d1 == d2 && hash(c1) == hash(c2)
    ensures (forall b, c :: hash(b) == hash(c) ==> b == c) ==> c1 == c2
  {
    var f1 := [a1, g1, k1, DecimalBytes(n1), d1, hash(c1)];
    var f2 := [a2, g2, k2, DecimalBytes(n2), d2, hash(c2)];
    ParseInvertsConcat(f1);
    ParseInvertsConcat(f2);
    assert f1 == f2;
    assert f1[0] == f2[0] && f1[1] == f2[1] && f1[2] == f2[2] && f1[3] == f2[3] && f1[4] == f2[4] && f1[5] == f2[5];
    DecimalBytesAreInjective(n1, n2);
  }

  // ----- sorted sets -----

  function AsString(b: Bytes): string { seq(|b|, i requires 0 <= i < |b| => b[i] as int as char) }

  /** bytes.Compare(a, b) <= 0. */
  predicate NotAfter(a: Bytes, b: Bytes) { AtOrBefore(AsString(a), AsString(b)) }

  /** a ends first, or has the lower byte where they part. */
  ghost predicate ByteOrdered(a: Bytes, b: Bytes) {
    exists k :: 0 <= k <= |a| && k <= |b| && a[..k] == b[..k] && (k == |a| || (k < |b| && a[k] < b[k]))
  }

  lemma {:induction false} NotAfterIsByteOrder(a: Bytes, b: Bytes)
    ensures NotAfter(a, b) <==> ByteOrdered(a, b)
  {
    if a == [] {
      assert a[..0] == b[..0];
      assert NotAfter(a, b) by { if b != [] { assert AsString(b) != ""; } }
    } else if b != [] {
      var x, y := AsString(a), AsString(b);
      assert x[1..] == AsString(a[1..]) && y[1..] == AsString(b[1..]) && x == [x[0]] + x[1..] && y == [y[0]] + y[1..];
      NotAfterIsByteOrder(a[1..], b[1..]);
      SameFirst(a, b);
      if a[0] < b[0] { assert a[..0] == b[..0]; }
    }
  }

  lemma SameFirst(a: Bytes, b: Bytes)
    requires a != [] && b != []
    ensures a[0] == b[0] ==> (ByteOrdered(a, b) <==> ByteOrdered(a[1..], b[1..]))
    ensures a[0] > b[0] ==> !ByteOrdered(a, b)
  {
    if ByteOrdered(a, b) {
      var k :| 0 <= k <= |a| && k <= |b| && a[..k] == b[..k] && (k == |a| || (k < |b| && a[k] < b[k]));
      if k > 0 {
        assert a[..k][0] == a[0] && b[..k][0] == b[0];
        assert a[1..][..k - 1] == a[..k][1..] && b[1..][..k - 1] == b[..k][1..];
      }
    }
    if a[0] == b[0] && ByteOrdered(a[1..], b[1..]) {
      var k :| 0 <= k <= |a[1..]| && k <= |b[1..]| && a[1..][..k] == b[1..][..k]
               && (k == |a[1..]| || (k < |b[1..]| && a[1..][k] < b[1..][k]));
      assert a[..k + 1] == [a[0]] + a[1..][..k] && b[..k + 1] == [b[0]] + b[1..][..k];
    }
  }

  lemma NotAfterIsAnOrder(a: Bytes, b: Bytes, c: Bytes)
    ensures NotAfter(a, b) || NotAfter(b, a)
    ensures NotAfter(a, b) && NotAfter(b, a) ==> a == b
    ensures NotAfter(a, b) && NotAfter(b, c) ==> NotAfter(a, c)
  {
    BeforeIsTotal(AsString(a), AsString(b));
    if NotAfter(a, b) && NotAfter(b, a) {
      forall i | 0 <= i < |a| ensures a[i] == b[i] {
        assert AsString(a)[i] == AsString(b)[i];
      }
      assert |AsString(a)| == |AsString(b)|;
    }
    if Before(AsString(a), AsString(b)) && Before(AsString(b), AsString(c)) {
      BeforeIsTransitive(AsString(a), AsString(b), AsString(c));
    }
  }

  ghost predicate Sorted(s: seq<Bytes>) {
    forall i, j :: 0 <= i <= j < |s| ==> NotAfter(s[i], s[j])
  }

  function Insert(x: Bytes, s: seq<Bytes>): seq<Bytes> {
    if s == [] || NotAfter(x, s[0]) then [x] + s else [s[0]] + Insert(x, s[1..])
  }

  /** The sorted copy sort.Slice leaves. */
  function Sort(s: seq<Bytes>): seq<Bytes> {
    if s == [] then [] else Insert(s[0], Sort(s[1..]))
  }

  lemma {:induction false} InsertKeepsOrder(x: Bytes, s: seq<Bytes>)
    requires Sorted(s)
    ensures multiset(Insert(x, s)) == multiset(s) + multiset{x}
    ensures Sorted(Insert(x, s))
  {
    NotAfterIsAnOrder(x, x, x);
    if s == [] {
    } else if NotAfter(x, s[0]) {
      forall j | 0 <= j < |s| ensures NotAfter(x, s[j]) {
        NotAfterIsAnOrder(x, s[0], s[j]);
      }
    } else {
      NotAfterIsAnOrder(x, s[0], x);
      InsertKeepsOrder(x, s[1..]);
      var t := Insert(x, s[1..]);
      assert s == [s[0]] + s[1..];
      forall j | 0 <= j < |t| ensures NotAfter(s[0], t[j]) {
        assert t[j] in multiset(t);
        assert t[j] == x || t[j] in s[1..];
      }
      NotAfterIsAnOrder(s[0], s[0], s[0]);
    }
  }

  lemma {:induction false} SortSorts(s: seq<Bytes>)
    ensures Sorted(Sort(s)) && multiset(Sort(s)) == multiset(s)
  {
    if s == [] {
    } else {
      SortSorts(s[1..]);
      InsertKeepsOrder(s[0], Sort(s[1..]));
      assert s == [s[0]] + s[1..];
    }
  }

  /** Two sorted lists of the same elements are one list, whatever algorithm made them. */
  lemma {:induction false} SortedListsAreUnique(s: seq<Bytes>, t: seq<Bytes>)
    requires Sorted(s) && Sorted(t) && multiset(s) == multiset(t)
    ensures s == t
  {
    if s == [] {
      assert |t| == |multiset(t)| == 0;
    } else {
      assert |s| == |multiset(s)| == |multiset(t)| == |t|;
      assert s[0] in multiset(t) && t[0] in multiset(s);
      var i :| 0 <= i < |t| && t[i] == s[0];
      var j :| 0 <= j < |s| && s[j] == t[0];
      NotAfterIsAnOrder(s[0], t[0], s[0]);
      assert s == [s[0]] + s[1..] && t == [t[0]] + t[1..];
      assert multiset(s[1..]) == multiset(s) - multiset{s[0]};
      SortedListsAreUnique(s[1..], t[1..]);
    }
  }

  lemma SortIsCanonical(s: seq<Bytes>, t: seq<Bytes>)
    ensures Sort(s) == Sort(t) <==> multiset(s) == multiset(t)
  {
    SortSorts(s);
    SortSorts(t);
    if multiset(s) == multiset(t) {
      SortedListsAreUnique(Sort(s), Sort(t));
    }
  }

  // ----- the two set payloads -----

  datatype PinHeader = PinHeader(pinner: Bytes, pinned: Bytes, pinnerKey: Bytes, wrappingKey: Bytes, day: Bytes, epoch: nat)

  function PinFields(h: PinHeader, keys: seq<Bytes>): seq<Bytes> {
    [h.pinner, h.pinned, h.pinnerKey, h.wrappingKey, h.day, DecimalBytes(h.epoch), DecimalBytes(|keys|)] + Sort(keys)
  }

  function PinPayload(h: PinHeader, keys: seq<Bytes>): Bytes { Concat(PinFields(h, keys)) }

  /** The same items, in the order of their bytes. */
  ghost predicate InByteOrder(items: seq<Bytes>, listed: seq<Bytes>) {
    multiset(listed) == multiset(items) && forall i, j :: 0 <= i <= j < |listed| ==> ByteOrdered(listed[i], listed[j])
  }

  lemma SortIsInByteOrder(items: seq<Bytes>)
    ensures InByteOrder(items, Sort(items))
  {
    SortSorts(items);
    var s := Sort(items);
    forall i, j | 0 <= i <= j < |s| ensures ByteOrdered(s[i], s[j]) { NotAfterIsByteOrder(s[i], s[j]); }
  }

  /** Which field stands where, and the keys in order. */
  lemma PinPayloadLayout(h: PinHeader, keys: seq<Bytes>)
    requires Encodable(PinFields(h, keys))
    ensures var f := ParseFields(PinPayload(h, keys));
            && f.Some? && |f.value| == 7 + |keys|
            && f.value[..5] == [h.pinner, h.pinned, h.pinnerKey, h.wrappingKey, h.day]
            && f.value[5] == DecimalBytes(h.epoch) && f.value[6] == DecimalBytes(|keys|) && InByteOrder(keys, f.value[7..])
  {
    var f := PinFields(h, keys);
    ParseInvertsConcat(f);
    SortIsInByteOrder(keys);
    assert f[7..] == Sort(keys);
    assert |Sort(keys)| == |multiset(Sort(keys))| == |multiset(keys)| == |keys|;
  }

  /** A pin's bytes say exactly who pinned whom, when, and which set of keys. */
  lemma PinPayloadIsCanonical(h1: PinHeader, keys1: seq<Bytes>, h2: PinHeader, keys2: seq<Bytes>)
    requires Encodable(PinFields(h1, keys1)) && Encodable(PinFields(h2, keys2))
    ensures PinPayload(h1, keys1) == PinPayload(h2, keys2) <==> h1 == h2 && multiset(keys1) == multiset(keys2)
  {
    var f1, f2 := PinFields(h1, keys1), PinFields(h2, keys2);
    SortIsCanonical(keys1, keys2);
    if PinPayload(h1, keys1) == PinPayload(h2, keys2) {
      ParseInvertsConcat(f1);
      ParseInvertsConcat(f2);
      assert f1 == f2;
      assert f1[0] == f2[0] && f1[1] == f2[1] && f1[2] == f2[2] && f1[3] == f2[3] && f1[4] == f2[4] && f1[5] == f2[5];
      assert f1[7..] == Sort(keys1) && f2[7..] == Sort(keys2);
      DecimalBytesAreInjective(h1.epoch, h2.epoch);
    }
    if h1 == h2 && multiset(keys1) == multiset(keys2) {
      assert |keys1| == |multiset(keys1)| == |multiset(keys2)| == |keys2|;
    }
  }

  /** The bytes RosterDigest hashes. */
  function RosterFields(entries: seq<Bytes>): seq<Bytes> { [DecimalBytes(|entries|)] + Sort(entries) }

  function RosterPreimage(entries: seq<Bytes>): Bytes { Concat(RosterFields(entries)) }

  lemma RosterPreimageLayout(entries: seq<Bytes>)
    requires Encodable(RosterFields(entries))
    ensures var f := ParseFields(RosterPreimage(entries));
            f.Some? && f.value != [] && f.value[0] == DecimalBytes(|entries|) && InByteOrder(entries, f.value[1..])
  {
    var f := RosterFields(entries);
    ParseInvertsConcat(f);
    SortIsInByteOrder(entries);
    assert f[1..] == Sort(entries);
  }

  lemma RosterPreimageIsCanonical(a: seq<Bytes>, b: seq<Bytes>)
    requires Encodable(RosterFields(a)) && Encodable(RosterFields(b))
    ensures RosterPreimage(a) == RosterPreimage(b) <==> multiset(a) == multiset(b)
  {
    var f1, f2 := RosterFields(a), RosterFields(b);
    SortIsCanonical(a, b);
    if RosterPreimage(a) == RosterPreimage(b) {
      ParseInvertsConcat(f1);
      ParseInvertsConcat(f2);
      assert f1[1..] == Sort(a) && f2[1..] == Sort(b);
    }
    if multiset(a) == multiset(b) {
      assert |a| == |multiset(a)| == |multiset(b)| == |b|;
    }
  }

  // ----- the key bundle -----

  const KEY_BUNDLE_VERSION: byte := 1
  const SEED_SIZE := 32
  const X25519_PRIVATE_KEY_SIZE := 32

  datatype KeyBundle = KeyBundle(signingSeed: Bytes, wrappingPrivateKey: Bytes)

  datatype BundleError = UnsupportedVersion | Malformed

  function EncodeKeyBundle(b: KeyBundle): Result<Bytes, BundleError> {
    if |b.signingSeed| != SEED_SIZE || |b.wrappingPrivateKey| != X25519_PRIVATE_KEY_SIZE then Err(Malformed)
    else Ok([KEY_BUNDLE_VERSION] + LengthPrefixed(b.signingSeed) + LengthPrefixed(b.wrappingPrivateKey))
  }

  function DecodeKeyBundle(data: Bytes): Result<KeyBundle, BundleError> {
    if |data| < 1 then Err(Malformed)
    else if data[0] != KEY_BUNDLE_VERSION then Err(UnsupportedVersion)
    else
      match ReadLengthPrefixed(data[1..])
      case None => Err(Malformed)
      case Some((seed, rest)) =>
        if |seed| != SEED_SIZE then Err(Malformed)
        else
          match ReadLengthPrefixed(rest)
          case None => Err(Malformed)
          case Some((key, left)) =>
            if |key| != X25519_PRIVATE_KEY_SIZE || |left| != 0 then Err(Malformed)
            else Ok(KeyBundle(seed, key))
  }

  /** Decode inverts encode, and accepts nothing else; an unknown version is told from damage. */
  lemma KeyBundleRoundTrip(b: KeyBundle, data: Bytes)
    ensures DecodeKeyBundle(data) == Ok(b) <==> EncodeKeyBundle(b) == Ok(data)
    ensures DecodeKeyBundle(data) == Err(UnsupportedVersion) <==> |data| >= 1 && data[0] != KEY_BUNDLE_VERSION
  {
    var seed, key := LengthPrefixed(b.signingSeed), LengthPrefixed(b.wrappingPrivateKey);
    if EncodeKeyBundle(b) == Ok(data) {
      assert data[1..] == seed + key;
      ReadAfterWrite(b.signingSeed, key);
      ReadAfterWrite(b.wrappingPrivateKey, []);
      assert key + [] == key;
    }
    if DecodeKeyBundle(data) == Ok(b) {
      ReadTakesApart(data[1..]);
      var rest := ReadLengthPrefixed(data[1..]).value.1;
      ReadTakesApart(rest);
      assert LengthPrefixed(b.signingSeed) + rest == data[1..];
      var left := ReadLengthPrefixed(rest).value.1;
      assert key + left == rest && left == [];
      assert seed + key == data[1..];
      assert [KEY_BUNDLE_VERSION] + seed + key == data;
    }
  }

  /** A version byte, then the seed and the private key, each behind its length. */
  lemma KeyBundleLayout(b: KeyBundle)
    ensures EncodeKeyBundle(b).Ok? <==> |b.signingSeed| == 32 && |b.wrappingPrivateKey| == 32
    ensures EncodeKeyBundle(b).Ok? ==>
              EncodeKeyBundle(b).value == [1, 0, 0, 0, 32] + b.signingSeed + [0, 0, 0, 32] + b.wrappingPrivateKey
  {
    if EncodeKeyBundle(b).Ok? {
      var head: Bytes := [1];
      assert PutUint32(32) == [0, 0, 0, 32];
      assert head + PutUint32(32) == [1, 0, 0, 0, 32];
      assert LengthPrefixed(b.signingSeed) == PutUint32(32) + b.signingSeed;
      assert LengthPrefixed(b.wrappingPrivateKey) == PutUint32(32) + b.wrappingPrivateKey;
    }
  }
}
