/**
 * Composite formatting as string.Format performs it on the function templates of the shader
 * library (Editor/CodeGen/InstructionCompiler.cs:194): "{n}" is replaced by argument n, "{{" and "}}"
 * stand for single braces, and anything else involving a brace is a FormatException.
 */
module Formatting {
  import opened Outcomes
  import opened Text

  predicate IsDigit(c: char) {
    '0' <= c <= '9'
  }

  predicate NoBraces(s: string) {
    forall i :: 0 <= i < |s| ==> s[i] != '{' && s[i] != '}'
  }

  /** The length of the run of decimal digits at the start of s. */
  function DigitRun(s: string): (n: nat)
    ensures n <= |s|
    ensures forall i :: 0 <= i < n ==> IsDigit(s[i])
    ensures n < |s| ==> !IsDigit(s[n])
  {
    if |s| == 0 || !IsDigit(s[0]) then 0 else 1 + DigitRun(s[1..])
  }

  /** The value of a run of decimal digits, leading zeros allowed. */
  function DigitsValue(s: string): nat
    requires forall i :: 0 <= i < |s| ==> IsDigit(s[i])
  {
    if |s| == 0 then 0
    else
      assert IsDigit(s[|s| - 1]);
      DigitsValue(s[..|s| - 1]) * 10 + (s[|s| - 1] as int - '0' as int)
  }

  /** Puts text in front of a successful result. */
  function Prefix(s: string, r: Result<string, Exception>): Result<string, Exception> {
    match r
    case Success(v) => Success(s + v)
    case Failure(e) => Failure(e)
  }

  function Format(template: string, args: seq<string>): (r: Result<string, Exception>)
    ensures r.Failure? ==> r.error == FormatException
    ensures NoBraces(template) ==> r == Success(template)
    decreases |template|
  {
    if |template| == 0 then Success("")
    else if template[0] == '{' then
      if |template| > 1 && template[1] == '{' then Prefix("{", Format(template[2..], args))
      else
        var d := DigitRun(template[1..]);
        if d == 0 || 1 + d >= |template| || template[1 + d] != '}' then Failure(FormatException)
        else
          var n := DigitsValue(template[1..1 + d]);
          if n >= |args| then Failure(FormatException)
          else Prefix(args[n], Format(template[2 + d..], args))
    else if template[0] == '}' then
      if |template| > 1 && template[1] == '}' then Prefix("}", Format(template[2..], args))
      else Failure(FormatException)
    else
      assert NoBraces(template) ==> NoBraces(template[1..]);
      var r := Prefix([template[0]], Format(template[1..], args));
      assert NoBraces(template) ==> [template[0]] + template[1..] == template;
      r
  }

  /** The inverse of formatting a literal: every brace doubled. */
  function Escape(s: string): (r: string)
    ensures |r| >= |s|
  {
    if |s| == 0 then ""
    else if s[0] == '{' || s[0] == '}' then [s[0], s[0]] + Escape(s[1..])
    else [s[0]] + Escape(s[1..])
  }

  lemma PrefixPrefix(a: string, b: string, r: Result<string, Exception>)
    ensures Prefix(a, Prefix(b, r)) == Prefix(a + b, r)
  {
    if r.Success? {
      assert a + (b + r.value) == (a + b) + r.value;
    }
  }

  /** A character other than a brace stands for itself. */
  lemma FormatLiteralChar(c: char, rest: string, args: seq<string>)
    requires c != '{' && c != '}'
    ensures Format([c] + rest, args) == Prefix([c], Format(rest, args))
  {
    assert ([c] + rest)[1..] == rest;
  }

  /** A doubled brace stands for one brace. */
  lemma FormatDoubledBrace(c: char, rest: string, args: seq<string>)
    requires c == '{' || c == '}'
    ensures Format([c, c] + rest, args) == Prefix([c], Format(rest, args))
  {
    assert ([c, c] + rest)[2..] == rest;
  }

  /** An escaped literal is reproduced verbatim, whatever follows it. */
  lemma {:induction false} FormatEscaped(s: string, rest: string, args: seq<string>)
    ensures Format(Escape(s) + rest, args) == Prefix(s, Format(rest, args))
    decreases |s|
  {
    if |s| == 0 {
      assert Escape(s) + rest == rest;
      assert Prefix("", Format(rest, args)) == Format(rest, args) by {
        if Format(rest, args).Success? { assert "" + Format(rest, args).value == Format(rest, args).value; }
      }
    } else {
      FormatEscaped(s[1..], rest, args);
      PrefixPrefix([s[0]], s[1..], Format(rest, args));
      assert [s[0]] + s[1..] == s;
      if s[0] == '{' || s[0] == '}' {
        assert Escape(s) + rest == [s[0], s[0]] + (Escape(s[1..]) + rest);
        FormatDoubledBrace(s[0], Escape(s[1..]) + rest, args);
      } else {
        assert Escape(s) + rest == [s[0]] + (Escape(s[1..]) + rest);
        FormatLiteralChar(s[0], Escape(s[1..]) + rest, args);
      }
    }
  }

  /** Formatting undoes escaping: Format(Escape(s)) == s. */
  lemma FormatEscapeRoundTrip(s: string, args: seq<string>)
    ensures Format(Escape(s), args) == Success(s)
  {
    FormatEscaped(s, "", args);
    assert Escape(s) + "" == Escape(s);
    assert s + "" == s;
  }

  lemma DigitCharValue(d: nat)
    requires d < 10
    ensures DigitChar(d) as int - '0' as int == d
  {
    assert "0123456789"[0] == '0' && "0123456789"[1] == '1' && "0123456789"[2] == '2';
    assert "0123456789"[3] == '3' && "0123456789"[4] == '4' && "0123456789"[5] == '5';
    assert "0123456789"[6] == '6' && "0123456789"[7] == '7' && "0123456789"[8] == '8';
    assert "0123456789"[9] == '9';
  }

  /** Parsing the decimal text of n gives n back. */
  lemma {:induction false} DigitsValueOfNatToString(n: nat)
    ensures forall i :: 0 <= i < |NatToString(n)| ==> IsDigit(NatToString(n)[i])
    ensures DigitsValue(NatToString(n)) == n
  {
    var s := NatToString(n);
    DigitCharValue(n % 10);
    if n < 10 {
      assert s == [DigitChar(n)];
      assert s[..0] == [];
    } else {
      DigitsValueOfNatToString(n / 10);
      assert s == NatToString(n / 10) + [DigitChar(n % 10)];
      assert s[..|s| - 1] == NatToString(n / 10);
    }
  }

  lemma {:induction false} DigitRunStops(ds: string, rest: string)
    requires forall i :: 0 <= i < |ds| ==> IsDigit(ds[i])
    requires |rest| > 0 && !IsDigit(rest[0])
    ensures DigitRun(ds + rest) == |ds|
    decreases |ds|
  {
    if |ds| > 0 {
      assert (ds + rest)[1..] == ds[1..] + rest;
      DigitRunStops(ds[1..], rest);
    } else {
      assert ds + rest == rest;
    }
  }

  /** "{i}" is argument i, and an index past the arguments is a FormatException. */
  lemma FormatPlaceholder(i: nat, rest: string, args: seq<string>)
    ensures Format("{" + NatToString(i) + "}" + rest, args)
         == if i < |args| then Prefix(args[i], Format(rest, args)) else Failure(FormatException)
  {
    var ds := NatToString(i);
    var t := "{" + ds + "}" + rest;
    BracedNumber(i, rest);
    DigitsValueOfNatToString(i);
    FormatDigitsInBraces(t, |ds|, args);
  }

  /** "{i}" followed by rest: a brace, the digits of i, the closing brace, then rest. */
  lemma BracedNumber(i: nat, rest: string)
    ensures var ds := NatToString(i); var t := "{" + ds + "}" + rest;
      && 0 < |ds| && 1 + |ds| < |t| && t[0] == '{' && t[1 + |ds|] == '}'
      && DigitRun(t[1..]) == |ds| && t[1..1 + |ds|] == ds && t[2 + |ds|..] == rest
  {
    DigitsValueOfNatToString(i);
    BracedDigits(NatToString(i), rest);
  }

  /** A run of digits in braces, followed by rest. */
  lemma BracedDigits(ds: string, rest: string)
    requires 0 < |ds| && forall i :: 0 <= i < |ds| ==> IsDigit(ds[i])
    ensures var t := "{" + ds + "}" + rest;
      && 1 + |ds| < |t| && t[0] == '{' && t[1 + |ds|] == '}'
      && DigitRun(t[1..]) == |ds| && t[1..1 + |ds|] == ds && t[2 + |ds|..] == rest
  {
    var t := "{" + ds + "}" + rest;
    assert t[1..] == ds + ("}" + rest);
    DigitRunStops(ds, "}" + rest);
    assert t[1 + |ds|] == '}';
    assert t[1..1 + |ds|] == ds;
    assert t[2 + |ds|..] == rest;
  }

  /** A brace, a run of d > 0 digits and a closing brace are the argument the digits number. */
  lemma FormatDigitsInBraces(t: string, d: nat, args: seq<string>)
    requires 0 < d && 1 + d < |t| && t[0] == '{' && DigitRun(t[1..]) == d && t[1 + d] == '}'
    ensures forall j :: 1 <= j < 1 + d ==> IsDigit(t[j])
    ensures Format(t, args)
         == if DigitsValue(t[1..1 + d]) < |args| then Prefix(args[DigitsValue(t[1..1 + d])], Format(t[2 + d..], args))
            else Failure(FormatException)
  {
    assert t[1..][0] == t[1];
    assert forall j :: 1 <= j < 1 + d ==> t[j] == t[1..][j - 1];
  }

  /** Text without braces stands for itself in front of whatever follows. */
  lemma {:induction false} FormatLiteral(s: string, rest: string, args: seq<string>)
    requires NoBraces(s)
    ensures Format(s + rest, args) == Prefix(s, Format(rest, args))
    decreases |s|
  {
    if |s| == 0 {
      assert s + rest == rest;
      if Format(rest, args).Success? {
        assert s + Format(rest, args).value == Format(rest, args).value;
      }
    } else {
      FormatLiteral(s[1..], rest, args);
      assert s + rest == [s[0]] + (s[1..] + rest);
      FormatLiteralChar(s[0], s[1..] + rest, args);
      PrefixPrefix([s[0]], s[1..], Format(rest, args));
      assert [s[0]] + s[1..] == s;
    }
  }

  /** Text without braces joined to text without braces has none. */
  lemma NoBracesJoin(a: string, b: string)
    requires NoBraces(a) && NoBraces(b)
    ensures NoBraces(a + b)
  {
  }

  /** A template of literal pieces with the placeholder "{holes[k]}" between pieces k and k + 1. */
  function Template(pieces: seq<string>, holes: seq<nat>): string
    requires |pieces| == |holes| + 1
    decreases |holes|
  {
    if |holes| == 0 then pieces[0]
    else pieces[0] + ("{" + NatToString(holes[0]) + "}" + Template(pieces[1..], holes[1..]))
  }

  /** The same pieces with each placeholder replaced by its argument. */
  function Filled(pieces: seq<string>, holes: seq<nat>, args: seq<string>): string
    requires |pieces| == |holes| + 1
    requires forall k :: 0 <= k < |holes| ==> holes[k] < |args|
    decreases |holes|
  {
    if |holes| == 0 then pieces[0]
    else pieces[0] + args[holes[0]] + Filled(pieces[1..], holes[1..], args)
  }

  /**
   * A template whose pieces have no braces and whose placeholders all name an argument formats
   * without error, to the pieces with the arguments filled in.
   */
  lemma {:induction false} TemplateFormats(pieces: seq<string>, holes: seq<nat>, args: seq<string>)
    requires |pieces| == |holes| + 1
    requires forall k :: 0 <= k < |pieces| ==> NoBraces(pieces[k])
    requires forall k :: 0 <= k < |holes| ==> holes[k] < |args|
    ensures Format(Template(pieces, holes), args) == Success(Filled(pieces, holes, args))
    decreases |holes|
  {
    if |holes| == 0 {
      assert NoBraces(pieces[0]);
    } else {
      var rest := Template(pieces[1..], holes[1..]);
      TemplateFormats(pieces[1..], holes[1..], args);
      FormatPlaceholder(holes[0], rest, args);
      FormatLiteral(pieces[0], "{" + NatToString(holes[0]) + "}" + rest, args);
      assert pieces[0] + args[holes[0]] + Filled(pieces[1..], holes[1..], args)
          == pieces[0] + (args[holes[0]] + Filled(pieces[1..], holes[1..], args));
    }
  }
}
