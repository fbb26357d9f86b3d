/** Optional values, for the parsers that invert the exporter's renderings. */
module Options {

  datatype Option<+T> = None | Some(value: T)
}

/** Decimal rendering of unsigned integers (what `std::to_string` and a
    stream's `operator<<` print for them), its inverse, and splitting a string
    at a separator character together with the join that undoes it. */
module Text {

  predicate IsDigit(c: char) {
    '0' <= c <= '9'
  }

  predicate AllDigits(s: string) {
    forall i :: 0 <= i < |s| ==> IsDigit(s[i])
  }

  /** The form `Decimal` produces: at least one digit, and no leading zero
      unless the number is zero itself. */
  predicate IsCanonicalDecimal(s: string) {
    1 <= |s| && AllDigits(s) && (s[0] == '0' ==> |s| == 1)
  }

  function DigitChar(d: nat): (c: char)
    requires d < 10
    ensures IsDigit(c)
  {
    ('0' as int + d) as char
  }

  function DigitValue(c: char): (d: nat)
    requires IsDigit(c)
    ensures d < 10 && DigitChar(d) == c
  {
    c as int - '0' as int
  }

  /** The base-ten digits of `n`, most significant first. */
  function Decimal(n: nat): (r: string)
    ensures IsCanonicalDecimal(r)
    ensures r[0] == '0' <==> n == 0
    decreases n
  {
    if n < 10 then [DigitChar(n)] else Decimal(n / 10) + [DigitChar(n % 10)]
  }

  /** The number a string of digits denotes. */
  function ParseDecimal(s: string): nat
    requires AllDigits(s)
  {
    if s == [] then 0 else ParseDecimal(s[..|s| - 1]) * 10 + DigitValue(s[|s| - 1])
  }

  lemma {:induction false} DecimalRoundTrip(n: nat)
    ensures ParseDecimal(Decimal(n)) == n
    decreases n
  {
    if n >= 10 {
      var r := Decimal(n);
      assert r[..|r| - 1] == Decimal(n / 10);
      DecimalRoundTrip(n / 10);
    }
  }

  lemma {:induction false} ParseDecimalPositive(s: string)
    requires 1 <= |s| && AllDigits(s) && s[0] != '0'
    ensures ParseDecimal(s) >= 1
  {
    if |s| > 1 {
      ParseDecimalPositive(s[..|s| - 1]);
    }
  }

  /** The other direction: every canonical digit string is the rendering of
      the number it denotes. */
  lemma {:induction false} ParseDecimalRoundTrip(s: string)
    requires IsCanonicalDecimal(s)
    ensures Decimal(ParseDecimal(s)) == s
    decreases |s|
  {
    var n := ParseDecimal(s);
    if |s| > 1 {
      var init, d := s[..|s| - 1], DigitValue(s[|s| - 1]);
      ParseDecimalPositive(init);
      ParseDecimalRoundTrip(init);
      var p := ParseDecimal(init);
      assert n == p * 10 + d;
      assert n / 10 == p && n % 10 == d;
      assert s == init + [s[|s| - 1]];
    }
  }

  /** A rendering of a number below 256 has at most three digits. */
  lemma ByteDecimalLength(n: nat)
    requires n < 256
    ensures |Decimal(n)| <= 3
  {
    if n >= 10 {
      assert |Decimal(n / 10)| <= 2 by {
        if n / 10 >= 10 {
          assert |Decimal(n / 10 / 10)| == 1;
        }
      }
    }
  }

  /** The index of the first occurrence of `c` in `s`, or `|s|` when there is none. */
  function IndexOf(s: string, c: char): (i: nat)
    ensures i <= |s|
    ensures i < |s| ==> s[i] == c
    ensures forall j :: 0 <= j < i ==> s[j] != c
  {
    if s == [] then 0
    else if s[0] == c then 0
    else 1 + IndexOf(s[1..], c)
  }

  lemma IndexOfFirst(a: string, c: char, b: string)
    requires c !in a
    ensures IndexOf(a + [c] + b, c) == |a|
  {
    var s := a + [c] + b;
    var i := IndexOf(s, c);
    assert s[|a|] == c;
    assert forall j :: 0 <= j < |a| ==> s[j] == a[j];
  }

  /** The pieces of `s` between occurrences of `sep`. */
  function Split(s: string, sep: char): (parts: seq<string>)
    ensures |parts| >= 1
    ensures forall k :: 0 <= k < |parts| ==> sep !in parts[k]
    decreases |s|
  {
    var i := IndexOf(s, sep);
    if i == |s| then [s] else [s[..i]] + Split(s[i + 1..], sep)
  }

  /** The pieces, with `sep` between each two neighbours. */
  function Join(parts: seq<string>, sep: char): string
    requires |parts| >= 1
  {
    if |parts| == 1 then parts[0] else parts[0] + [sep] + Join(parts[1..], sep)
  }

  /** A string with no separator is a single piece. */
  lemma SplitNoSep(s: string, sep: char)
    requires sep !in s
    ensures Split(s, sep) == [s]
  {
  }

  /** A leading piece without a separator comes off first. */
  lemma SplitCons(a: string, sep: char, b: string)
    requires sep !in a
    ensures Split(a + [sep] + b, sep) == [a] + Split(b, sep)
  {
    var s := a + [sep] + b;
    IndexOfFirst(a, sep, b);
    assert s[..|a|] == a;
    assert s[|a| + 1..] == b;
  }

  lemma {:induction false} SplitJoin(parts: seq<string>, sep: char)
    requires |parts| >= 1
    requires forall k :: 0 <= k < |parts| ==> sep !in parts[k]
    ensures Split(Join(parts, sep), sep) == parts
  {
    if |parts| == 1 {
      SplitNoSep(parts[0], sep);
    } else {
      SplitCons(parts[0], sep, Join(parts[1..], sep));
      SplitJoin(parts[1..], sep);
      assert parts == [parts[0]] + parts[1..];
    }
  }

  lemma {:induction false} JoinSplit(s: string, sep: char)
    ensures Join(Split(s, sep), sep) == s
    decreases |s|
  {
    var i := IndexOf(s, sep);
    if i < |s| {
      var head, tail := s[..i], s[i + 1..];
      assert s == head + [sep] + tail;
      SplitCons(head, sep, tail);
      JoinSplit(tail, sep);
      var parts := [head] + Split(tail, sep);
      assert parts[1..] == Split(tail, sep);
    } else {
      SplitNoSep(s, sep);
    }
  }
}
