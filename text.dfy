/** String helpers used by the code generator: indentation, joining and decimal rendering. */
module Text {

  function Spaces(n: nat): (r: string)
    ensures |r| == n && forall i :: 0 <= i < n ==> r[i] == ' '
  {
    seq(n, _ => ' ')
  }

  /** CodeGenUtility.Indent for a non-negative level: four spaces per level before the text. */
  function Indent(s: string, level: nat): (r: string)
    ensures level == 0 ==> r == s
    ensures |r| == 4 * level + |s| && r[4 * level..] == s
    ensures forall i :: 0 <= i < 4 * level ==> r[i] == ' '
  {
    if level == 0 then s else Spaces(4 * level) + s
  }

  /** string.Join(sep, parts). */
  function Join(sep: string, parts: seq<string>): (r: string)
    ensures |parts| == 0 ==> r == ""
    ensures |parts| == 1 ==> r == parts[0]
    ensures |parts| > 1 ==> r == parts[0] + sep + Join(sep, parts[1..])
  {
    if |parts| == 0 then "" else if |parts| == 1 then parts[0] else parts[0] + sep + Join(sep, parts[1..])
  }

  /** Concatenation of all parts, in order. */
  function Concat(parts: seq<string>): (r: string)
    ensures |parts| > 0 ==> r == parts[0] + Concat(parts[1..])
  {
    if |parts| == 0 then "" else parts[0] + Concat(parts[1..])
  }

  lemma {:induction false} ConcatNoChar(parts: seq<string>, c: char)
    requires forall i :: 0 <= i < |parts| ==> c !in parts[i]
    ensures c !in Concat(parts)
  {
    if |parts| > 0 {
      ConcatNoChar(parts[1..], c);
    }
  }

  lemma {:induction false} JoinNoChar(sep: string, parts: seq<string>, c: char)
    requires c !in sep
    requires forall i :: 0 <= i < |parts| ==> c !in parts[i]
    ensures c !in Join(sep, parts)
  {
    if |parts| > 1 {
      JoinNoChar(sep, parts[1..], c);
    }
  }

  function DigitChar(d: nat): (c: char)
    requires d < 10
    ensures '0' <= c <= '9'
  {
    "0123456789"[d]
  }

  /** The decimal rendering of a natural number (C# int/uint ToString() on non-negative values). */
  function NatToString(n: nat): (r: string)
    ensures |r| >= 1
    ensures forall i :: 0 <= i < |r| ==> '0' <= r[i] <= '9'
    ensures r[|r| - 1] == DigitChar(n % 10)
    ensures n < 10 <==> |r| == 1
  {
    if n < 10 then [DigitChar(n)] else NatToString(n / 10) + [DigitChar(n % 10)]
  }

  lemma DigitCharInjective(a: nat, b: nat)
    requires a < 10 && b < 10 && DigitChar(a) == DigitChar(b)
    ensures a == b
  {
  }

  /** Distinct numbers have distinct decimal renderings. */
  lemma {:induction false} NatToStringInjective(a: nat, b: nat)
    requires NatToString(a) == NatToString(b)
    ensures a == b
  {
    DigitCharInjective(a % 10, b % 10);
    if a >= 10 {
      var ta, tb := NatToString(a / 10), NatToString(b / 10);
      assert NatToString(a) == ta + [DigitChar(a % 10)];
      assert NatToString(b) == tb + [DigitChar(b % 10)];
      assert ta == NatToString(a)[..|NatToString(a)| - 1];
      assert tb == NatToString(b)[..|NatToString(b)| - 1];
      NatToStringInjective(a / 10, b / 10);
    }
  }
}
