/**
 * The textual building blocks of cache keys: identifiers as java.util.UUID
 * writes them, Java's decimal rendering of integers, and a few facts about
 * strings split at the ':' delimiter.
 */
module Text {
  import opened Wrappers

  predicate IsDigit(c: char) { '0' <= c <= '9' }

  predicate IsHexDigit(c: char) { IsDigit(c) || 'a' <= c <= 'f' }

  /** The text of a java.util.UUID as `UUID.toString()` writes it: 8-4-4-4-12 lower-case hex digits. */
  predicate IsUuidText(s: string) {
    |s| == 36 &&
    forall i :: 0 <= i < 36 ==>
      if i == 8 || i == 13 || i == 18 || i == 23 then s[i] == '-' else IsHexDigit(s[i])
  }

  /** Every identifier of the system (comment, application, user) is a UUID; the model keeps its text. */
  type Uuid = s: string | IsUuidText(s) witness "00000000-0000-0000-0000-000000000000"

  /** Java's `short` (the sentiment column) and `int` (page numbers and sizes). */
  type Short = x: int | -0x8000 <= x < 0x8000
  type Int32 = x: int | -0x8000_0000 <= x < 0x8000_0000

  /** A point in time (the `ZonedDateTime` stamps); clock reads are parameters of the model. */
  type Timestamp = int

  predicate ColonFree(s: string) { forall i :: 0 <= i < |s| ==> s[i] != ':' }

  predicate StartsWith(s: string, prefix: string) { |prefix| <= |s| && s[..|prefix|] == prefix }

  function DigitChar(d: int): (c: char)
    requires 0 <= d < 10
    ensures IsDigit(c) && c as int - '0' as int == d
  {
    ('0' as int + d) as char
  }

  /** Decimal digits of a natural number, most significant first, without leading zeros. */
  function NatText(n: nat): (s: string)
    ensures |s| >= 1 && (n >= 10 ==> |s| >= 2)
    ensures forall i :: 0 <= i < |s| ==> IsDigit(s[i])
    decreases n
  {
    if n < 10 then [DigitChar(n)] else NatText(n / 10) + [DigitChar(n % 10)]
  }

  /** `Integer.toString(n)`, which is what Java's string concatenation writes for an int. */
  function IntText(n: int): (s: string)
    ensures |s| >= 1 && (s[0] == '-' <==> n < 0)
    ensures s[0] == '-' || IsDigit(s[0])
    ensures forall i :: 0 < i < |s| ==> IsDigit(s[i])
  {
    if n < 0 then "-" + NatText(-n) else NatText(n)
  }

  /** What Java's string concatenation writes for a boxed `Integer` that may be null. */
  function OptIntText(n: Option<int>): (s: string)
    ensures n.None? ==> s == "null"
    ensures n.Some? ==> s == IntText(n.value)
  {
    match n
    case None => "null"
    case Some(v) => IntText(v)
  }

  lemma UuidIsColonFree(u: Uuid)
    ensures ColonFree(u) && '*' !in u && 'u' !in u
  {
    forall i | 0 <= i < |u| ensures u[i] != ':' && u[i] != '*' && u[i] != 'u' {
      assert i == 8 || i == 13 || i == 18 || i == 23 || IsHexDigit(u[i]);
    }
  }

  lemma IntTextIsColonFree(n: int)
    ensures ColonFree(IntText(n)) && '*' !in IntText(n) && IntText(n)[0] != 'u'
  {
    var s := IntText(n);
    forall i | 0 <= i < |s| ensures s[i] != ':' && s[i] != '*' {
      if i > 0 { assert IsDigit(s[i]); }
    }
  }

  lemma OptIntTextIsColonFree(n: Option<int>)
    ensures ColonFree(OptIntText(n)) && '*' !in OptIntText(n)
    ensures |OptIntText(n)| >= 1 && OptIntText(n)[0] != 'u'
  {
    if n.Some? { IntTextIsColonFree(n.value); }
  }

  /** Distinct naturals have distinct decimal texts. */
  lemma {:induction false} NatTextInjective(m: nat, n: nat)
    requires NatText(m) == NatText(n)
    ensures m == n
    decreases m
  {
    if m >= 10 && n >= 10 {
      var sm, sn := NatText(m), NatText(n);
      assert sm[|sm| - 1] == DigitChar(m % 10) && sn[|sn| - 1] == DigitChar(n % 10);
      assert sm[..|sm| - 1] == NatText(m / 10) && sn[..|sn| - 1] == NatText(n / 10);
      NatTextInjective(m / 10, n / 10);
    }
  }

  /** Distinct ints have distinct texts: the cache keys of distinct pages never coincide. */
  lemma IntTextInjective(m: int, n: int)
    requires IntText(m) == IntText(n)
    ensures m == n
  {
    if m < 0 {
      assert IntText(m)[1..] == NatText(-m) && IntText(n)[1..] == NatText(-n);
      NatTextInjective(-m, -n);
    } else {
      NatTextInjective(m, n);
    }
  }

  lemma OptIntTextInjective(m: Option<int>, n: Option<int>)
    requires OptIntText(m) == OptIntText(n)
    ensures m == n
  {
    if m.Some? && n.Some? {
      IntTextInjective(m.value, n.value);
    }
  }

  /** Two texts that agree, each split at its first ':', agree on both parts. */
  lemma SplitAtColon(x: string, y: string, x': string, y': string)
    requires ColonFree(x) && ColonFree(x')
    requires |y| > 0 && y[0] == ':' && |y'| > 0 && y'[0] == ':'
    requires x + y == x' + y'
    ensures x == x' && y == y'
  {
    var s := x + y;
    assert s[|x|] == ':' && s[|x'|] == ':';
    assert x == s[..|x|] == x';
    assert y == s[|x|..] == y';
  }

  /** The text of an `int` never coincides with the text of a UUID. */
  lemma IntTextIsNoUuid(n: int, u: Uuid)
    ensures IntText(n) != u
  {
    var s := IntText(n);
    if |s| == 36 {
      assert IsDigit(s[8]) && u[8] == '-';
    }
  }
}
