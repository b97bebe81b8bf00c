/** The few pieces of Python string behaviour the program relies on:
    `str()` of an integer, `sep.join(parts)` and `s.split(sep)` with a
    one-character separator, together with the decoders that undo them. */
module Strings {
  import opened Outcome

  predicate IsDigit(c: char) {
    '0' <= c <= '9'
  }

  predicate AllDigits(s: string) {
    forall i :: 0 <= i < |s| ==> IsDigit(s[i])
  }

  function DigitChar(d: nat): (c: char)
    requires d < 10
    ensures IsDigit(c)
  {
    (d + '0' as int) as char
  }

  function DigitValue(c: char): nat
    requires IsDigit(c)
  {
    c as int - '0' as int
  }

  /** Python's `str(n)` for n >= 0: decimal digits without leading zeros. */
  function NatToString(n: nat): (s: string)
    ensures |s| > 0 && AllDigits(s)
    ensures s[0] == '0' <==> n == 0
    ensures n == 0 ==> s == "0"
    decreases n
  {
    if n < 10 then [DigitChar(n)] else NatToString(n / 10) + [DigitChar(n % 10)]
  }

  /** Python's `str(i)`: a minus sign for negatives, then the digits. */
  function IntToString(i: int): (s: string)
    ensures |s| > 0
    ensures s[0] == '-' <==> i < 0
    ensures forall k :: 0 < k < |s| ==> IsDigit(s[k])
    ensures IsDigit(s[0]) || s[0] == '-'
    ensures i < 0 ==> |s| > 1
    ensures s[if i < 0 then 1 else 0] == '0' <==> i == 0
  {
    if i < 0 then "-" + NatToString(-i) else NatToString(i)
  }

  /** The value of a string of decimal digits (the empty string reads as 0). */
  function DigitsValue(s: string): nat
    requires AllDigits(s)
  {
    if s == [] then 0 else DigitsValue(s[..|s| - 1]) * 10 + DigitValue(s[|s| - 1])
  }

  /** Reads back what `IntToString` writes: an optional '-' and at least one digit. */
  function ParseDecimal(s: string): Option<int> {
    if |s| > 1 && s[0] == '-' && AllDigits(s[1..]) then Some(0 - DigitsValue(s[1..]) as int)
    else if |s| > 0 && AllDigits(s) then Some(DigitsValue(s))
    else None
  }

  lemma {:induction false} NatToStringRoundTrip(n: nat)
    ensures DigitsValue(NatToString(n)) == n
    decreases n
  {
    if n >= 10 {
      NatToStringRoundTrip(n / 10);
      var s := NatToString(n);
      assert s[..|s| - 1] == NatToString(n / 10);
    }
  }

  /** `str()` of an integer loses nothing: the decoder gives the integer back. */
  lemma IntToStringRoundTrip(i: int)
    ensures ParseDecimal(IntToString(i)) == Some(i)
  {
    if i < 0 {
      NatToStringRoundTrip(-i);
      assert IntToString(i)[1..] == NatToString(-i);
    } else {
      NatToStringRoundTrip(i);
    }
  }

  /** Python's `sep.join(parts)` for a one-character separator. */
  function Join(parts: seq<string>, sep: char): string
    decreases |parts|
  {
    if |parts| == 0 then ""
    else if |parts| == 1 then parts[0]
    else parts[0] + [sep] + Join(parts[1..], sep)
  }

  /** Python's `s.split(sep)` for a one-character separator: the pieces
      between the separators, of which there is always at least one. */
  function Split(s: string, sep: char): (parts: seq<string>)
    ensures |parts| > 0
    ensures forall i :: 0 <= i < |parts| ==> sep !in parts[i]
    decreases |s|
  {
    if |s| == 0 then [""]
    else
      var rest := Split(s[1..], sep);
      if s[0] == sep then [""] + rest
      else [[s[0]] + rest[0]] + rest[1..]
  }

  lemma JoinCons(a: string, parts: seq<string>, sep: char)
    requires |parts| > 0
    ensures Join([a] + parts, sep) == a + [sep] + Join(parts, sep)
  {
    assert ([a] + parts)[1..] == parts;
  }

  /** Joining the pieces of a split restores the string. */
  lemma {:induction false} JoinSplit(s: string, sep: char)
    ensures Join(Split(s, sep), sep) == s
    decreases |s|
  {
    if |s| > 0 {
      JoinSplit(s[1..], sep);
      var rest := Split(s[1..], sep);
      if s[0] == sep {
        JoinCons("", rest, sep);
        assert s == [sep] + s[1..];
      } else if |rest| == 1 {
        assert s == [s[0]] + s[1..];
      } else {
        JoinCons([s[0]] + rest[0], rest[1..], sep);
        JoinCons(rest[0], rest[1..], sep);
        assert rest == [rest[0]] + rest[1..];
        assert s == [s[0]] + s[1..];
      }
    }
  }

  lemma {:induction false} SplitWithoutSeparator(a: string, sep: char)
    requires sep !in a
    ensures Split(a, sep) == [a]
    decreases |a|
  {
    if |a| > 0 {
      SplitWithoutSeparator(a[1..], sep);
      assert a == [a[0]] + a[1..];
    }
  }

  lemma {:induction false} SplitAtFirst(a: string, b: string, sep: char)
    requires sep !in a
    ensures Split(a + [sep] + b, sep) == [a] + Split(b, sep)
    decreases |a|
  {
    var s := a + [sep] + b;
    if |a| == 0 {
      assert s[1..] == b;
    } else {
      assert s[1..] == a[1..] + [sep] + b;
      SplitAtFirst(a[1..], b, sep);
      assert [a[0]] + a[1..] == a;
    }
  }

  /** Splitting a join gives the pieces back, provided none of them holds
      the separator. */
  lemma {:induction false} SplitJoin(parts: seq<string>, sep: char)
    requires |parts| > 0
    requires forall i :: 0 <= i < |parts| ==> sep !in parts[i]
    ensures Split(Join(parts, sep), sep) == parts
    decreases |parts|
  {
    if |parts| == 1 {
      SplitWithoutSeparator(parts[0], sep);
    } else {
      SplitJoin(parts[1..], sep);
      SplitAtFirst(parts[0], Join(parts[1..], sep), sep);
      assert parts == [parts[0]] + parts[1..];
    }
  }

  /** Python's `','.join(map(str, xs))` for a list of integers. */
  function IntsToText(xs: seq<int>): string {
    Join(seq(|xs|, i requires 0 <= i < |xs| => IntToString(xs[i])), ',')
  }

  function ParseAll(parts: seq<string>): Option<seq<int>>
    decreases |parts|
  {
    if |parts| == 0 then Some([])
    else
      var x :- ParseDecimal(parts[0]);
      var xs :- ParseAll(parts[1..]);
      Some([x] + xs)
  }

  /** Reads back a comma-separated list of integers. */
  function ParseInts(text: string): Option<seq<int>> {
    ParseAll(Split(text, ','))
  }

  lemma {:induction false} ParseAllRoundTrip(xs: seq<int>)
    ensures ParseAll(seq(|xs|, i requires 0 <= i < |xs| => IntToString(xs[i]))) == Some(xs)
    decreases |xs|
  {
    var texts := seq(|xs|, i requires 0 <= i < |xs| => IntToString(xs[i]));
    if |xs| > 0 {
      IntToStringRoundTrip(xs[0]);
      ParseAllRoundTrip(xs[1..]);
      assert texts[1..] == seq(|xs[1..]|, i requires 0 <= i < |xs[1..]| => IntToString(xs[1..][i]));
      assert [xs[0]] + xs[1..] == xs;
    }
  }

  /** A non-empty comma-joined integer list decodes to the same list. */
  lemma IntsRoundTrip(xs: seq<int>)
    requires |xs| > 0
    ensures ParseInts(IntsToText(xs)) == Some(xs)
  {
    var texts := seq(|xs|, i requires 0 <= i < |xs| => IntToString(xs[i]));
    forall i | 0 <= i < |texts|
      ensures ',' !in texts[i]
    {
      var t := IntToString(xs[i]);
      assert forall k :: 0 <= k < |t| ==> t[k] != ',';
    }
    SplitJoin(texts, ',');
    ParseAllRoundTrip(xs);
  }
}
