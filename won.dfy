/**
 * Currency rendering of the bot: `format_won(n)` is Python's `f"{n:,}₩"`,
 * the decimal digits of n grouped by commas every three digits from the
 * right, a leading '-' for a negative n, and the won sign at the end.
 */
module Won {
  import opened Wrappers

  const WON_SIGN: char := '₩'

  predicate IsDigit(c: char) { '0' <= c <= '9' }

  predicate AllDigits(s: string) { forall i :: 0 <= i < |s| ==> IsDigit(s[i]) }

  function DigitValue(c: char): (d: nat)
    requires IsDigit(c)
    ensures d < 10
  {
    (c as int) - ('0' as int)
  }

  function DigitChar(d: nat): (c: char)
    requires d < 10
    ensures IsDigit(c) && DigitValue(c) == d
  {
    (('0' as int) + d) as char
  }

  /** The decimal representation of n: most significant digit first, no leading zero. */
  function Decimal(n: nat): (s: string)
    ensures 1 <= |s| && AllDigits(s)
    ensures s[0] == '0' ==> n == 0
    decreases n
  {
    if n < 10 then [DigitChar(n)] else Decimal(n / 10) + [DigitChar(n % 10)]
  }

  /** The number a digit string denotes, read left to right. */
  function ValueOf(s: string): nat
    requires AllDigits(s)
  {
    if s == [] then 0 else 10 * ValueOf(s[..|s| - 1]) + DigitValue(s[|s| - 1])
  }

  /**
   * Comma grouping of Python's `,` format option, applied to a digit string:
   * one comma for every full three digits after the first digit.
   */
  function Grouped(ds: string): (g: string)
    ensures |g| >= |ds|
    ensures |ds| >= 1 ==> 3 * (|g| - |ds|) <= |ds| - 1 < 3 * (|g| - |ds|) + 3
    decreases |ds|
  {
    if |ds| <= 3 then ds else Grouped(ds[..|ds| - 3]) + "," + ds[|ds| - 3..]
  }

  /** `format_won(n)`: grouped decimal digits of |n|, '-' first when n < 0, then the won sign. */
  function FormatWon(n: int): (s: string)
    ensures |s| >= 2 && s[|s| - 1] == WON_SIGN
  {
    (if n < 0 then "-" else "") + Grouped(Decimal(if n < 0 then -n else n)) + [WON_SIGN]
  }

  /** The text with every comma deleted. */
  function RemoveCommas(s: string): (r: string)
    ensures |r| <= |s|
  {
    if s == [] then [] else (if s[0] == ',' then [] else [s[0]]) + RemoveCommas(s[1..])
  }

  /** The comma-separated groups of a text, left to right ("1,234" gives ["1", "234"]). */
  function SplitCommas(s: string): (gs: seq<string>)
    ensures |gs| >= 1
  {
    if s == [] then [[]]
    else
      var rest := SplitCommas(s[1..]);
      if s[0] == ',' then [[]] + rest else [[s[0]] + rest[0]] + rest[1..]
  }

  /** The groups joined back together. */
  function Concat(gs: seq<string>): string
  {
    if gs == [] then [] else Concat(gs[..|gs| - 1]) + gs[|gs| - 1]
  }

  /** Reads a rendered amount back: sign, digits with commas ignored, and the won sign. */
  function ParseWon(s: string): Option<int>
  {
    if |s| == 0 || s[|s| - 1] != WON_SIGN then None else ParseSigned(s[..|s| - 1])
  }

  function ParseSigned(body: string): Option<int>
  {
    if |body| > 0 && body[0] == '-' then
      match ParseUnsigned(body[1..])
      case Some(v) => Some(-(v as int))
      case None => None
    else
      match ParseUnsigned(body)
      case Some(v) => Some(v)
      case None => None
  }

  function ParseUnsigned(mag: string): Option<nat>
  {
    var ds := RemoveCommas(mag);
    if ds == [] || !AllDigits(ds) then None else Some(ValueOf(ds))
  }

  lemma {:induction false} DecimalValue(n: nat)
    ensures ValueOf(Decimal(n)) == n
    decreases n
  {
    if n >= 10 {
      DecimalValue(n / 10);
      var s := Decimal(n);
      assert s[..|s| - 1] == Decimal(n / 10);
    }
  }

  lemma {:induction false} RemoveCommasAppend(a: string, b: string)
    ensures RemoveCommas(a + b) == RemoveCommas(a) + RemoveCommas(b)
    decreases |a|
  {
    if a != [] {
      assert (a + b)[1..] == a[1..] + b;
      RemoveCommasAppend(a[1..], b);
    } else {
      assert a + b == b;
    }
  }

  lemma {:induction false} RemoveCommasNoComma(s: string)
    requires AllDigits(s)
    ensures RemoveCommas(s) == s
    decreases |s|
  {
    if s != [] {
      RemoveCommasNoComma(s[1..]);
    }
  }

  /** Grouping keeps the digits and starts and ends on a digit. */
  lemma {:induction false} GroupedDigits(ds: string)
    requires |ds| >= 1 && AllDigits(ds)
    ensures |Grouped(ds)| >= 1 && IsDigit(Grouped(ds)[0])
    ensures RemoveCommas(Grouped(ds)) == ds
    decreases |ds|
  {
    if |ds| <= 3 {
      RemoveCommasNoComma(ds);
    } else {
      var p, t := ds[..|ds| - 3], ds[|ds| - 3..];
      assert AllDigits(p) && AllDigits(t);
      var gp := Grouped(p);
      assert Grouped(ds) == gp + "," + t;
      GroupedDigits(p);
      assert RemoveCommas(",") == [];
      RemoveCommasAppend(gp + ",", t);
      RemoveCommasAppend(gp, ",");
      RemoveCommasNoComma(t);
      assert RemoveCommas(Grouped(ds)) == p + t;
      assert p + t == ds;
      assert Grouped(ds)[0] == gp[0];
    }
  }

  lemma {:induction false} SplitAppend(a: string, b: string)
    ensures SplitCommas(a + "," + b) == SplitCommas(a) + SplitCommas(b)
    decreases |a|
  {
    if a == [] {
      assert a + "," + b == [','] + b;
      assert ([','] + b)[1..] == b;
    } else {
      assert (a + "," + b)[1..] == a[1..] + "," + b;
      SplitAppend(a[1..], b);
    }
  }

  lemma {:induction false} SplitDigits(s: string)
    requires AllDigits(s)
    ensures SplitCommas(s) == [s]
    decreases |s|
  {
    if s != [] {
      SplitDigits(s[1..]);
      assert [s[0]] + s[1..] == s;
    }
  }

  lemma ConcatSnoc(gs: seq<string>, t: string)
    ensures Concat(gs + [t]) == Concat(gs) + t
  {
    assert (gs + [t])[..|gs|] == gs;
  }

  /**
   * The grouping Python produces: the first group has one to three digits,
   * every later group exactly three, and the groups together are the digits.
   */
  lemma {:induction false} GroupedShape(ds: string)
    requires |ds| >= 1 && AllDigits(ds)
    ensures var gs := SplitCommas(Grouped(ds));
      && 1 <= |gs[0]| <= 3
      && (forall i :: 1 <= i < |gs| ==> |gs[i]| == 3)
      && Concat(gs) == ds
    decreases |ds|
  {
    if |ds| <= 3 {
      SplitDigits(ds);
      assert Concat([ds]) == Concat([]) + ds;
    } else {
      var p, t := ds[..|ds| - 3], ds[|ds| - 3..];
      GroupedShape(p);
      SplitAppend(Grouped(p), t);
      SplitDigits(t);
      ConcatSnoc(SplitCommas(Grouped(p)), t);
      assert p + t == ds;
    }
  }

  /** The rendering of every amount, non-negative or not, reads back as that amount. */
  lemma FormatWonRoundTrip(n: int)
    ensures ParseWon(FormatWon(n)) == Some(n)
  {
    var m: nat := if n < 0 then -n else n;
    var g := Grouped(Decimal(m));
    ParseGrouped(m);
    if n < 0 {
      ParseNegative(g, m);
    } else {
      ParseNonNegative(g, m);
    }
  }

  /** The grouped digits of m read back as m, and start with a digit. */
  lemma ParseGrouped(m: nat)
    ensures var g := Grouped(Decimal(m)); ParseUnsigned(g) == Some(m) && g != [] && IsDigit(g[0])
  {
    GroupedDigits(Decimal(m));
    DecimalValue(m);
  }

  lemma ParseNegative(g: string, m: nat)
    requires ParseUnsigned(g) == Some(m)
    ensures ParseWon("-" + g + [WON_SIGN]) == Some(-(m as int))
  {
    var s := "-" + g + [WON_SIGN];
    assert s[..|s| - 1] == "-" + g;
    assert ("-" + g)[1..] == g;
  }

  lemma ParseNonNegative(g: string, m: nat)
    requires ParseUnsigned(g) == Some(m) && g != [] && IsDigit(g[0])
    ensures ParseWon("" + g + [WON_SIGN]) == Some(m)
  {
    var s := "" + g + [WON_SIGN];
    assert s[..|s| - 1] == g;
  }

  /**
   * For n >= 0 the rendering ends in the won sign, has no sign in front, and the
   * part before the won sign splits at its commas into groups of which the first
   * holds one to three digits and every later one exactly three; deleting the
   * commas leaves the decimal representation of n.
   */
  lemma FormatWonShape(n: nat)
    ensures var s := FormatWon(n);
      var gs := SplitCommas(s[..|s| - 1]);
      && s[|s| - 1] == WON_SIGN
      && IsDigit(s[0])
      && RemoveCommas(s[..|s| - 1]) == Decimal(n)
      && 1 <= |gs[0]| <= 3
      && (forall i :: 1 <= i < |gs| ==> |gs[i]| == 3)
      && Concat(gs) == Decimal(n)
  {
    var s := FormatWon(n);
    assert s[..|s| - 1] == Grouped(Decimal(n));
    GroupedDigits(Decimal(n));
    GroupedShape(Decimal(n));
  }

  /** The daily reward as the check-in reply shows it. */
  lemma FormatWonReward()
    ensures FormatWon(100000) == "100,000₩"
  {
    assert Decimal(1) == "1";
    assert Decimal(10) == "10";
    assert Decimal(100) == "100";
    assert Decimal(1000) == "1000";
    assert Decimal(10000) == "10000";
    assert Decimal(100000) == "100000";
    assert Grouped("100000") == "100,000";
  }

  /** A negative amount keeps its sign in front of the grouped digits. */
  lemma FormatWonNegative()
    ensures FormatWon(0) == "0₩"
    ensures FormatWon(-1234) == "-1,234₩"
  {
    assert Decimal(1) == "1";
    assert Decimal(12) == "12";
    assert Decimal(123) == "123";
    assert Decimal(1234) == "1234";
    assert Grouped("1234") == "1,234";
  }
}
