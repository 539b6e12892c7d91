/**
 * Sort keys: the order DynamoDB keeps strings in, decimal numbers, and the
 * zero padding that makes the two agree.
 */
module SortKeys {
  import opened Wrappers

  // ----- the order of strings -----

  /** Byte order of two sort keys. */
  predicate Before(a: string, b: string) {
    if b == "" then false
    else if a == "" then true
    else a[0] < b[0] || (a[0] == b[0] && Before(a[1..], b[1..]))
  }

  predicate AtOrBefore(a: string, b: string) {
    a == b || Before(a, b)
  }

  lemma {:induction false} BeforeIsTotal(a: string, b: string)
    ensures Before(a, b) || Before(b, a) || a == b
    ensures !(Before(a, b) && Before(b, a)) && !Before(a, a)
  {
    if a == "" || b == "" {
      if a != "" { BeforeIsTotal(a[1..], a[1..]); }
    } else {
      BeforeIsTotal(a[1..], b[1..]);
      BeforeIsTotal(a[1..], a[1..]);
      assert a == [a[0]] + a[1..] && b == [b[0]] + b[1..];
    }
  }

  lemma {:induction false} BeforeIsTransitive(a: string, b: string, c: string)
    requires Before(a, b) && Before(b, c)
    ensures Before(a, c)
  {
    if a != "" && a[0] == b[0] && b[0] == c[0] {
      BeforeIsTransitive(a[1..], b[1..], c[1..]);
    }
  }

  /** Strings that differ inside a common-length head are ordered by it. */
  lemma {:induction false} BeforeByHead(a: string, b: string, x: string, y: string)
    requires |a| == |b| && Before(a, b)
    ensures Before(a + x, b + y)
  {
    assert (a + x)[1..] == a[1..] + x && (b + y)[1..] == b[1..] + y;
    if a[0] == b[0] {
      BeforeByHead(a[1..], b[1..], x, y);
    }
  }

  /** A common head does not matter. */
  lemma {:induction false} BeforeAfterHead(p: string, x: string, y: string)
    ensures Before(p + x, p + y) <==> Before(x, y)
  {
    if p == "" {
      assert p + x == x && p + y == y;
    } else {
      assert (p + x)[1..] == p[1..] + x && (p + y)[1..] == p[1..] + y;
      BeforeAfterHead(p[1..], x, y);
    }
  }

  // ----- decimal numbers -----

  function Pow10(w: nat): (p: nat)
    ensures p >= 1
  {
    if w == 0 then 1 else 10 * Pow10(w - 1)
  }

  function DigitChar(d: nat): (c: char)
    requires d < 10
    ensures '0' <= c <= '9'
  {
    '0' + d as char
  }

  /** The w low decimal digits of n: what %0wd prints while n < 10^w. */
  function Digits(n: nat, w: nat): (s: string)
    ensures |s| == w
    ensures forall i :: 0 <= i < w ==> '0' <= s[i] <= '9'
  {
    if w == 0 then "" else Digits(n / 10, w - 1) + [DigitChar(n % 10)]
  }

  /** strconv.FormatInt for a number that is not negative. */
  function Decimal(n: nat): (s: string)
    ensures |s| >= 1
    ensures forall i :: 0 <= i < |s| ==> '0' <= s[i] <= '9'
  {
    if n < 10 then [DigitChar(n)] else Decimal(n / 10) + [DigitChar(n % 10)]
  }

  /** fmt's %0wd. */
  function Padded(n: nat, w: nat): string {
    if n < Pow10(w) then Digits(n, w) else Decimal(n)
  }

  function ParseNat(s: string): (r: Option<nat>)
    decreases |s|
  {
    if s == "" then None
    else
      var last := s[|s| - 1];
      if !('0' <= last <= '9') then None
      else if |s| == 1 then Some(last as nat - '0' as nat)
      else
        match ParseNat(s[..|s| - 1])
        case None => None
        case Some(n) => Some(10 * n + (last as nat - '0' as nat))
  }

  lemma ParseSnoc(s: string, d: nat)
    requires d < 10
    ensures s == "" ==> ParseNat(s + [DigitChar(d)]) == Some(d)
    ensures ParseNat(s).Some? ==> ParseNat(s + [DigitChar(d)]) == Some(10 * ParseNat(s).value + d)
  {
    var t := s + [DigitChar(d)];
    assert t[..|t| - 1] == s && t[|t| - 1] as nat == '0' as nat + d;
  }

  lemma {:induction false} ParseDigits(n: nat, w: nat)
    requires 1 <= w && n < Pow10(w)
    ensures ParseNat(Digits(n, w)) == Some(n)
  {
    if w > 1 {
      ParseDigits(n / 10, w - 1);
    }
    ParseSnoc(Digits(n / 10, w - 1), n % 10);
  }

  lemma {:induction false} ParseDecimal(n: nat)
    ensures ParseNat(Decimal(n)) == Some(n)
  {
    if n >= 10 {
      ParseDecimal(n / 10);
      ParseSnoc(Decimal(n / 10), n % 10);
    } else {
      ParseSnoc("", n);
    }
  }

  lemma ParsePadded(n: nat, w: nat)
    requires 1 <= w
    ensures ParseNat(Padded(n, w)) == Some(n)
  {
    if n < Pow10(w) { ParseDigits(n, w); } else { ParseDecimal(n); }
  }

  lemma {:induction false} DigitsKeepOrder(a: nat, b: nat, w: nat)
    requires a < b < Pow10(w)
    ensures Before(Digits(a, w), Digits(b, w))
  {
    if a / 10 == b / 10 {
      BeforeAfterHead(Digits(a / 10, w - 1), [DigitChar(a % 10)], [DigitChar(b % 10)]);
    } else {
      DigitsKeepOrder(a / 10, b / 10, w - 1);
      BeforeByHead(Digits(a / 10, w - 1), Digits(b / 10, w - 1), [DigitChar(a % 10)], [DigitChar(b % 10)]);
    }
  }

  // ----- GENKEY# -----

  const GENKEY_PREFIX := "GENKEY#"

  function GenKeySortKey(n: nat): string { GENKEY_PREFIX + Padded(n, 6) }

  function ParseGenKeySortKey(sk: string): Option<nat> {
    if GENKEY_PREFIX <= sk then ParseNat(sk[|GENKEY_PREFIX|..]) else None
  }

  lemma GenKeyRoundTrip(n: nat)
    ensures ParseGenKeySortKey(GenKeySortKey(n)) == Some(n)
  {
    ParsePadded(n, 6);
    assert GenKeySortKey(n)[|GENKEY_PREFIX|..] == Padded(n, 6);
  }

  const GENERATION_LIMIT: nat := 1_000_000

  lemma SixDigits()
    ensures Pow10(6) == GENERATION_LIMIT
  {
    assert Pow10(4) == 10_000;
  }

  /** Key order is generation order for every generation the padding covers. */
  lemma GenKeysKeepOrder(a: nat, b: nat)
    requires a < GENERATION_LIMIT && b < GENERATION_LIMIT
    ensures Before(GenKeySortKey(a), GenKeySortKey(b)) <==> a < b
  {
    SixDigits();
    BeforeAfterHead(GENKEY_PREFIX, Padded(a, 6), Padded(b, 6));
    if a < b { DigitsKeepOrder(a, b, 6); }
    if b < a { DigitsKeepOrder(b, a, 6); }
    BeforeIsTotal(Padded(a, 6), Padded(b, 6));
  }

  lemma {:induction false} PowersLeadWithOne(k: nat)
    ensures Decimal(Pow10(k))[0] == '1'
  {
    if k > 0 {
      PowersLeadWithOne(k - 1);
      assert Pow10(k) / 10 == Pow10(k - 1);
    }
  }

  lemma {:induction false} LastNumberLeadsWithNine(w: nat)
    requires w >= 1
    ensures Digits(Pow10(w) - 1, w)[0] == '9'
  {
    if w > 1 {
      LastNumberLeadsWithNine(w - 1);
      assert (Pow10(w) - 1) / 10 == Pow10(w - 1) - 1;
    } else {
      assert Digits(9, 1) == Digits(0, 0) + [DigitChar(9)];
    }
  }

  /** One generation further the seventh digit breaks it. */
  lemma GenKeyOrderBreaks()
    ensures Before(GenKeySortKey(GENERATION_LIMIT), GenKeySortKey(GENERATION_LIMIT - 1))
  {
    SixDigits();
    PowersLeadWithOne(6);
    LastNumberLeadsWithNine(6);
    BeforeAfterHead(GENKEY_PREFIX, Padded(GENERATION_LIMIT, 6), Padded(GENERATION_LIMIT - 1, 6));
  }
}
