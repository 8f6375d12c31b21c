/** Joining and splitting text at a one-character separator. */
module Text {

  /** `joinToString` with a one-character separator. */
  function Join(parts: seq<string>, sep: char): string
    requires |parts| >= 1
  {
    if |parts| == 1 then parts[0] else parts[0] + [sep] + Join(parts[1..], sep)
  }

  /** Splitting at every separator: the inverse of `Join` on separator-free parts. */
  function Split(s: string, sep: char): (r: seq<string>)
    ensures |r| >= 1
  {
    if s == [] then [[]]
    else if s[0] == sep then [[]] + Split(s[1..], sep)
    else var t := Split(s[1..], sep); [[s[0]] + t[0]] + t[1..]
  }

  lemma {:induction false} SplitWord(w: string, sep: char)
    requires sep !in w
    ensures Split(w, sep) == [w]
  {
    if w != [] {
      SplitWord(w[1..], sep);
      assert [w[0]] + w[1..] == w;
    }
  }

  lemma {:induction false} SplitAtSeparator(w: string, sep: char, rest: string)
    requires sep !in w
    ensures Split(w + [sep] + rest, sep) == [w] + Split(rest, sep)
  {
    if w == [] {
      assert w + [sep] + rest == [sep] + rest;
      assert ([sep] + rest)[1..] == rest;
    } else {
      var s := w + [sep] + rest;
      assert s[0] == w[0] && s[1..] == w[1..] + [sep] + rest;
      SplitAtSeparator(w[1..], sep, rest);
      assert [w[0]] + w[1..] == w;
    }
  }

  lemma {:induction false} SplitJoin(parts: seq<string>, sep: char)
    requires |parts| >= 1
    requires forall i :: 0 <= i < |parts| ==> sep !in parts[i]
    ensures Split(Join(parts, sep), sep) == parts
  {
    if |parts| == 1 {
      SplitWord(parts[0], sep);
    } else {
      SplitJoin(parts[1..], sep);
      SplitAtSeparator(parts[0], sep, Join(parts[1..], sep));
    }
  }

  /** Decimal text of a natural number, as string templates print it. */
  function NatToDecimal(n: nat): (r: string)
    ensures |r| >= 1 && forall i :: 0 <= i < |r| ==> '0' <= r[i] <= '9'
  {
    (if n < 10 then [] else NatToDecimal(n / 10)) + [('0' as int + n % 10) as char]
  }

  /** The number a string of decimal digits denotes, most significant first. */
  function DecimalValue(s: string): nat
    requires forall i :: 0 <= i < |s| ==> '0' <= s[i] <= '9'
  {
    if s == [] then 0 else 10 * DecimalValue(s[..|s| - 1]) + (s[|s| - 1] as int - '0' as int)
  }

  /** The digits denote `n`, with no leading zero except for `0` itself. */
  lemma {:induction false} NatToDecimalDenotes(n: nat)
    ensures DecimalValue(NatToDecimal(n)) == n
    ensures NatToDecimal(n)[0] == '0' ==> n == 0
  {
    var r := NatToDecimal(n);
    var p := if n < 10 then [] else NatToDecimal(n / 10);
    assert r == p + [('0' as int + n % 10) as char];
    assert r[..|r| - 1] == p;
    if n >= 10 {
      NatToDecimalDenotes(n / 10);
      assert r[0] == p[0];
    }
  }

  /** Decimal text of an integer, with a leading `-` when negative. */
  function IntToDecimal(i: int): string {
    if i < 0 then "-" + NatToDecimal(-i) else NatToDecimal(i)
  }
}
