/**
 * The byte layouts that signatures cover: length-prefixed field lists under a
 * signing context, and why a reader can take them apart in one way only.
 */
module Encoding {
  import opened Wrappers

  newtype byte = x: int | 0 <= x < 256
  type Bytes = seq<byte>

  const FIELD_LIMIT: nat := 0x1_0000_0000

  // ----- one length-prefixed field -----

  /** The big-endian uint32 of a length; a length of 2^32 or more wraps around. */
  function PutUint32(n: nat): (b: Bytes)
    ensures |b| == 4
  {
    [(n / 0x100_0000 % 256) as byte, (n / 0x1_0000 % 256) as byte, (n / 0x100 % 256) as byte, (n % 256) as byte]
  }

  function Uint32(b: Bytes): (n: nat)
    requires |b| == 4
    ensures n < FIELD_LIMIT
  {
    b[0] as nat * 0x100_0000 + b[1] as nat * 0x1_0000 + b[2] as nat * 0x100 + b[3] as nat
  }

  lemma DividesOnce(n: nat, q: nat, r: nat)
    requires n == 0x100 * q + r && r < 0x100
    ensures n / 0x100 == q && n % 0x100 == r
  {
  }

  lemma DividesTwice(n: nat)
    ensures n / 0x1_0000 == n / 0x100 / 0x100
    ensures n / 0x100_0000 == n / 0x1_0000 / 0x100
  {
  }

  lemma Uint32InvertsPut(n: nat)
    ensures Uint32(PutUint32(n)) == n % FIELD_LIMIT
  {
    DividesTwice(n);
    assert n / FIELD_LIMIT == n / 0x100_0000 / 0x100;
  }

  /** Big-endian, whatever the reader does. */
  lemma PutUint32IsBigEndian(n: nat)
    ensures var b := PutUint32(n);
            n % FIELD_LIMIT == b[0] as nat * 0x100_0000 + b[1] as nat * 0x1_0000 + b[2] as nat * 0x100 + b[3] as nat
  {
    Uint32InvertsPut(n);
  }

  lemma PutInvertsUint32(b: Bytes)
    requires |b| == 4
    ensures PutUint32(Uint32(b)) == b
  {
    var n := Uint32(b);
    var n1, n2 := n / 0x100, n / 0x100 / 0x100;
    DividesOnce(n, b[0] as nat * 0x1_0000 + b[1] as nat * 0x100 + b[2] as nat, b[3] as nat);
    DividesOnce(n1, b[0] as nat * 0x100 + b[1] as nat, b[2] as nat);
    DividesOnce(n2, b[0] as nat, b[1] as nat);
    DividesTwice(n);
  }

  function LengthPrefixed(field: Bytes): Bytes {
    PutUint32(|field|) + field
  }

  /** Takes one field off the front of data: the field and what follows it. */
  function ReadLengthPrefixed(data: Bytes): (r: Option<(Bytes, Bytes)>)
    ensures r.Some? ==> 4 + |r.value.0| + |r.value.1| == |data| && |r.value.0| < FIELD_LIMIT
  {
    if |data| < 4 then None
    else
      var n := Uint32(data[..4]);
      if n > |data| - 4 then None else Some((data[4..][..n], data[4..][n..]))
  }

  lemma ReadTakesApart(data: Bytes)
    requires ReadLengthPrefixed(data).Some?
    ensures LengthPrefixed(ReadLengthPrefixed(data).value.0) + ReadLengthPrefixed(data).value.1 == data
  {
    var n := Uint32(data[..4]);
    PutInvertsUint32(data[..4]);
    assert data == data[..4] + data[4..][..n] + data[4..][n..];
  }

  lemma ReadAfterWrite(field: Bytes, rest: Bytes)
    requires |field| < FIELD_LIMIT
    ensures ReadLengthPrefixed(LengthPrefixed(field) + rest) == Some((field, rest))
  {
    Uint32InvertsPut(|field|);
    ReadAfterHeader(PutUint32(|field|), field, rest);
    assert LengthPrefixed(field) + rest == PutUint32(|field|) + (field + rest);
  }

  lemma ReadAfterHeader(head: Bytes, field: Bytes, rest: Bytes)
    requires |head| == 4 && Uint32(head) == |field|
    ensures ReadLengthPrefixed(head + (field + rest)) == Some((field, rest))
  {
    SplitsAfter(head, field + rest);
    SplitsAfter(field, rest);
  }

  lemma SplitsAfter(head: Bytes, tail: Bytes)
    ensures (head + tail)[..|head|] == head && (head + tail)[|head|..] == tail
  {
  }

  // ----- a list of fields -----

  /** What lengthPrefixedConcat computes. */
  function Concat(fields: seq<Bytes>): Bytes {
    if fields == [] then [] else LengthPrefixed(fields[0]) + Concat(fields[1..])
  }

  lemma {:induction false} ConcatSnoc(fields: seq<Bytes>, last: Bytes)
    ensures Concat(fields + [last]) == Concat(fields) + LengthPrefixed(last)
  {
    if fields == [] {
    } else {
      assert (fields + [last])[1..] == fields[1..] + [last];
      ConcatSnoc(fields[1..], last);
    }
  }

  method LengthPrefixedConcat(fields: seq<Bytes>) returns (out: Bytes)
    ensures out == Concat(fields)
  {
    out := [];
    for i := 0 to |fields|
      invariant out == Concat(fields[..i])
    {
      ConcatSnoc(fields[..i], fields[i]);
      assert fields[..i + 1] == fields[..i] + [fields[i]];
      out := out + PutUint32(|fields[i]|);
      out := out + fields[i];
    }
    assert fields[..|fields|] == fields;
  }

  /** An independent reader of the layout: fields until the data is used up. */
  function ParseFields(data: Bytes): Option<seq<Bytes>>
    decreases |data|
  {
    if data == [] then Some([])
    else
      match ReadLengthPrefixed(data)
      case None => None
      case Some((field, rest)) =>
        match ParseFields(rest)
        case None => None
        case Some(fields) => Some([field] + fields)
  }

  ghost predicate Encodable(fields: seq<Bytes>) {
    forall f :: f in fields ==> |f| < FIELD_LIMIT
  }

  lemma {:induction false} ParseInvertsConcat(fields: seq<Bytes>)
    requires Encodable(fields)
    ensures ParseFields(Concat(fields)) == Some(fields)
  {
    if fields == [] {
    } else {
      ParseInvertsConcat(fields[1..]);
      ReadAfterWrite(fields[0], Concat(fields[1..]));
      assert [fields[0]] + fields[1..] == fields;
    }
  }

  /** The reader accepts exactly the bytes the encoder can produce. */
  lemma {:induction false} ParseAcceptsOnlyConcat(data: Bytes)
    ensures ParseFields(data).Some? <==> exists fields :: Encodable(fields) && Concat(fields) == data
    ensures ParseFields(data).Some? ==> Concat(ParseFields(data).value) == data && Encodable(ParseFields(data).value)
    decreases |data|
  {
    if data == [] {
      assert Concat([]) == data && Encodable([]);
    } else {
      if ParseFields(data).Some? {
        ReadTakesApart(data);
        var rest := ReadLengthPrefixed(data).value.1;
        ParseAcceptsOnlyConcat(rest);
        var fields := ParseFields(data).value;
        assert fields[1..] == ParseFields(rest).value;
        assert Encodable(fields) && Concat(fields) == data;
      }
      forall fields | Encodable(fields) && Concat(fields) == data ensures ParseFields(data).Some? {
        ParseInvertsConcat(fields);
      }
    }
  }

  /**
   * Where the 2^32 bound comes from: n zero bytes written as one field of
   * 2^32 bytes wrap their length to 0 and read as empty fields.
   */
  function Zeros(n: nat): Bytes { seq(n, _ => 0 as byte) }

  function EmptyFields(n: nat): seq<Bytes> { seq(n, _ => []) }

  lemma {:induction false} EmptyFieldsAreZeros(n: nat)
    ensures Concat(EmptyFields(n)) == Zeros(4 * n)
  {
    if n == 0 {
    } else {
      assert EmptyFields(n)[1..] == EmptyFields(n - 1);
      EmptyFieldsAreZeros(n - 1);
    }
  }

  lemma LongFieldIsAmbiguous()
    ensures Concat([Zeros(FIELD_LIMIT)]) == Concat(EmptyFields(FIELD_LIMIT / 4 + 1))
  {
    EmptyFieldsAreZeros(FIELD_LIMIT / 4 + 1);
    var f := Zeros(FIELD_LIMIT);
    assert |f| == FIELD_LIMIT;
    assert PutUint32(|f|) == [0, 0, 0, 0];
    assert Concat([f]) == LengthPrefixed(f) + Concat([f][1..]);
    assert LengthPrefixed(f) == Zeros(FIELD_LIMIT + 4);
  }

  // ----- signing contexts -----

  /** A signing context's bytes: printable text, so never a NUL. */
  type Context = c: Bytes | 0 !in c witness []

  /** The bytes Ed25519 signs: the context, a NUL, the message. */
  function Contextualize(context: Context, message: Bytes): Bytes {
    context + [0] + message
  }

  lemma ContextualizeIsInjective(c1: Context, m1: Bytes, c2: Context, m2: Bytes)
    requires Contextualize(c1, m1) == Contextualize(c2, m2)
    ensures c1 == c2 && m1 == m2
  {
    var x := Contextualize(c1, m1);
    assert x[|c1|] == 0 && x[|c2|] == 0;
    assert forall i :: 0 <= i < |c1| ==> x[i] == c1[i];
    assert forall i :: 0 <= i < |c2| ==> x[i] == c2[i];
    assert |c1| == |c2|;
    assert c1 == x[..|c1|] && c2 == x[..|c2|];
    assert m1 == x[|c1| + 1..] && m2 == x[|c2| + 1..];
  }

  /** Signed bytes name one context and one list of fields. */
  lemma SignedBytesAreUnique(c: Context, fields: seq<Bytes>, d: Context, others: seq<Bytes>)
    requires Encodable(fields) && Encodable(others)
    ensures Contextualize(c, Concat(fields)) == Contextualize(d, Concat(others)) <==> c == d && fields == others
  {
    if Contextualize(c, Concat(fields)) == Contextualize(d, Concat(others)) {
      ContextualizeIsInjective(c, Concat(fields), d, Concat(others));
      ParseInvertsConcat(fields);
      ParseInvertsConcat(others);
    }
  }

  // ----- payloads -----

  function InviteCreationPayload(inviteId: Bytes, groupId: Bytes, inviterKey: Bytes, expiresAt: Bytes): Bytes {
    Concat([inviteId, groupId, inviterKey, expiresAt])
  }

  function InviteAcceptancePayload(inviteId: Bytes, ed25519: Bytes, x25519: Bytes): Bytes {
    Concat([inviteId, ed25519, x25519])
  }

  /** Which field stands where. */
  lemma InvitePayloadLayouts(inviteId: Bytes, groupId: Bytes, inviterKey: Bytes, expiresAt: Bytes, ed25519: Bytes, x25519: Bytes)
    requires Encodable([inviteId, groupId, inviterKey, expiresAt]) && Encodable([inviteId, ed25519, x25519])
    ensures ParseFields(InviteCreationPayload(inviteId, groupId, inviterKey, expiresAt))
            == Some([inviteId, groupId, inviterKey, expiresAt])
    ensures ParseFields(InviteAcceptancePayload(inviteId, ed25519, x25519)) == Some([inviteId, ed25519, x25519])
  {
    ParseInvertsConcat([inviteId, groupId, inviterKey, expiresAt]);
    ParseInvertsConcat([inviteId, ed25519, x25519]);
  }

  /** The two invite payloads share a context and still never coincide. */
  lemma InviteStepsNeverCoincide(context: Context,
                                 inviteId: Bytes, groupId: Bytes, inviterKey: Bytes, expiresAt: Bytes,
                                 otherId: Bytes, ed25519: Bytes, x25519: Bytes)
    requires Encodable([inviteId, groupId, inviterKey, expiresAt]) && Encodable([otherId, ed25519, x25519])
    ensures Contextualize(context, InviteCreationPayload(inviteId, groupId, inviterKey, expiresAt))
            != Contextualize(context, InviteAcceptancePayload(otherId, ed25519, x25519))
  {
    SignedBytesAreUnique(context, [inviteId, groupId, inviterKey, expiresAt], context, [otherId, ed25519, x25519]);
  }
}
