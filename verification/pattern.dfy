/** The fragment of Ruby regular expressions the plugin's two report patterns
    use: a pattern anchored at the start of a line (`^`), not at its end,
    built from literal text, digit runs `(\d+)` and decimal numbers
    `(\d+\.\d+)`, each number captured. The matcher is written by hand and
    proved to agree with the regular-expression reading of the pattern. */
module Pattern {
  import opened Outcome
  import opened Decimal

  /** One element of a pattern: literal text, a captured `\d+`, or a
      captured `\d+\.\d+`. */
  datatype Token = Lit(text: string) | Digits | Float

  /** Text `\d+\.\d+` matches: digits, one point, digits. */
  predicate IsFloatText(s: string) {
    exists i :: 0 < i < |s| - 1 && s[i] == '.' && IsDigitRun(s[..i]) && IsDigitRun(s[i + 1..])
  }

  /** The text a capture of this kind may hold. */
  predicate CaptureFits(t: Token, c: string) {
    match t
    case Lit(_) => false
    case Digits => IsDigitRun(c)
    case Float => IsFloatText(c)
  }

  /** Number of capture groups in `p`. */
  function CaptureCount(p: seq<Token>): nat {
    if |p| == 0 then 0
    else (if p[0].Lit? then 0 else 1) + CaptureCount(p[1..])
  }

  /** `caps` is a possible list of captures for `p`: one per group, in order,
      each of its group's shape. */
  predicate Fits(p: seq<Token>, caps: seq<string>) {
    if |p| == 0 then caps == []
    else if p[0].Lit? then Fits(p[1..], caps)
    else |caps| > 0 && CaptureFits(p[0], caps[0]) && Fits(p[1..], caps[1..])
  }

  /** The text `p` matches when its groups capture `caps`. */
  function Render(p: seq<Token>, caps: seq<string>): string
    requires Fits(p, caps)
  {
    if |p| == 0 then ""
    else if p[0].Lit? then p[0].text + Render(p[1..], caps)
    else caps[0] + Render(p[1..], caps[1..])
  }

  /** A pattern on which greedy matching cannot go wrong: every group is
      followed by literal text that starts with a non-digit, so a group's
      digits end exactly where the next literal begins. */
  predicate WellFormed(p: seq<Token>) {
    if |p| == 0 then true
    else if p[0].Lit? then WellFormed(p[1..])
    else
      && |p| > 1 && p[1].Lit? && |p[1].text| > 0 && !IsDigit(p[1].text[0])
      && WellFormed(p[1..])
  }

  /** Captures that fit a pattern are one per group. */
  lemma {:induction false} FitsCount(p: seq<Token>, caps: seq<string>)
    ensures Fits(p, caps) ==> |caps| == CaptureCount(p)
  {
    if |p| > 0 {
      if p[0].Lit? {
        FitsCount(p[1..], caps);
      } else if |caps| > 0 {
        FitsCount(p[1..], caps[1..]);
      }
    }
  }

  /** A capture group followed by literal text, at the front of a pattern:
      it takes the first capture and spells it out before the literal. */
  lemma GroupCons(t: Token, lit: string, rest: seq<Token>, c: string, caps: seq<string>)
    requires !t.Lit?
    ensures Fits([t, Lit(lit)] + rest, [c] + caps) <==> CaptureFits(t, c) && Fits(rest, caps)
    ensures Fits([t, Lit(lit)] + rest, [c] + caps) ==>
      Render([t, Lit(lit)] + rest, [c] + caps) == c + lit + Render(rest, caps)
    ensures CaptureCount([t, Lit(lit)] + rest) == 1 + CaptureCount(rest)
  {
    var p := [t, Lit(lit)] + rest;
    assert p[1..] == [Lit(lit)] + rest;
    assert p[1..][1..] == rest;
    assert ([c] + caps)[1..] == caps;
  }

  /** A pattern of four groups of one kind, each followed by its literal. */
  function FourGroups(t: Token, l0: string, l1: string, l2: string, l3: string): seq<Token> {
    [t, Lit(l0)] + ([t, Lit(l1)] + ([t, Lit(l2)] + ([t, Lit(l3)] + [])))
  }

  /** Text that may follow a capture group. */
  predicate Separates(lit: string) {
    |lit| > 0 && !IsDigit(lit[0])
  }

  lemma GroupWellFormed(t: Token, lit: string, rest: seq<Token>)
    requires !t.Lit? && Separates(lit)
    ensures WellFormed([t, Lit(lit)] + rest) <==> WellFormed(rest)
  {
    var p := [t, Lit(lit)] + rest;
    assert p[1..] == [Lit(lit)] + rest;
    assert p[1..][1..] == rest;
  }

  /** Four groups hold four captures; with separating literals the pattern
      is well formed. */
  lemma FourGroupsCount(t: Token, l0: string, l1: string, l2: string, l3: string)
    requires !t.Lit?
    ensures CaptureCount(FourGroups(t, l0, l1, l2, l3)) == 4
    ensures Separates(l0) && Separates(l1) && Separates(l2) && Separates(l3) ==>
      WellFormed(FourGroups(t, l0, l1, l2, l3))
  {
    var r3: seq<Token> := [t, Lit(l3)] + [];
    var r2 := [t, Lit(l2)] + r3;
    var r1 := [t, Lit(l1)] + r2;
    GroupCons(t, l3, [], "", []);
    GroupCons(t, l2, r3, "", []);
    GroupCons(t, l1, r2, "", []);
    GroupCons(t, l0, r1, "", []);
    if Separates(l0) && Separates(l1) && Separates(l2) && Separates(l3) {
      GroupWellFormed(t, l3, []);
      GroupWellFormed(t, l2, r3);
      GroupWellFormed(t, l1, r2);
      GroupWellFormed(t, l0, r1);
    }
  }

  /** Four groups take four captures of their kind and spell them out, each
      before its literal. */
  lemma FourGroupsShape(t: Token, l0: string, l1: string, l2: string, l3: string, caps: seq<string>)
    requires !t.Lit?
    ensures var p := FourGroups(t, l0, l1, l2, l3);
      && (Fits(p, caps) <==>
           |caps| == 4 && CaptureFits(t, caps[0]) && CaptureFits(t, caps[1])
           && CaptureFits(t, caps[2]) && CaptureFits(t, caps[3]))
      && (Fits(p, caps) ==> Render(p, caps) == caps[0] + l0 + caps[1] + l1 + caps[2] + l2 + caps[3] + l3)
  {
    FourGroupsCount(t, l0, l1, l2, l3);
    FitsCount(FourGroups(t, l0, l1, l2, l3), caps);
    if |caps| == 4 {
      FourGroupsFour(t, l0, l1, l2, l3, caps[0], caps[1], caps[2], caps[3]);
      assert caps == [caps[0]] + ([caps[1]] + ([caps[2]] + ([caps[3]] + [])));
    }
  }

  lemma FourGroupsFour(t: Token, l0: string, l1: string, l2: string, l3: string,
                       c0: string, c1: string, c2: string, c3: string)
    requires !t.Lit?
    ensures var p := FourGroups(t, l0, l1, l2, l3);
      var caps := [c0] + ([c1] + ([c2] + ([c3] + [])));
      && (Fits(p, caps) <==> CaptureFits(t, c0) && CaptureFits(t, c1) && CaptureFits(t, c2) && CaptureFits(t, c3))
      && (Fits(p, caps) ==> Render(p, caps) == c0 + l0 + c1 + l1 + c2 + l2 + c3 + l3)
  {
    var r3: seq<Token> := [t, Lit(l3)] + [];
    var r2 := [t, Lit(l2)] + r3;
    var r1 := [t, Lit(l1)] + r2;
    var k3: seq<string> := [c3] + [];
    var k2 := [c2] + k3;
    var k1 := [c1] + k2;
    GroupCons(t, l3, [], c3, []);
    GroupCons(t, l2, r3, c2, k3);
    GroupCons(t, l1, r2, c1, k2);
    GroupCons(t, l0, r1, c0, k1);
    assert c0 + l0 + (c1 + l1 + (c2 + l2 + (c3 + l3 + ""))) == c0 + l0 + c1 + l1 + c2 + l2 + c3 + l3;
  }

  /** A literal at the front of a pattern takes no capture and is spelled out first. */
  lemma LiteralCons(lit: string, rest: seq<Token>, caps: seq<string>)
    ensures CaptureCount([Lit(lit)] + rest) == CaptureCount(rest)
    ensures WellFormed([Lit(lit)] + rest) <==> WellFormed(rest)
    ensures Fits([Lit(lit)] + rest, caps) <==> Fits(rest, caps)
    ensures Fits(rest, caps) ==> Render([Lit(lit)] + rest, caps) == lit + Render(rest, caps)
  {
    assert ([Lit(lit)] + rest)[1..] == rest;
  }

  /** Length of the longest run of digits at the start of `s`. */
  function DigitSpan(s: string): (n: nat)
    ensures n <= |s|
    ensures AllDigits(s[..n])
    ensures n == |s| || !IsDigit(s[n])
  {
    if |s| > 0 && IsDigit(s[0]) then 1 + DigitSpan(s[1..]) else 0
  }

  /** Length of the `\d+\.\d+` at the start of `s`, each digit run taken as
      long as it goes; 0 when `s` does not start with one. */
  function FloatSpan(s: string): (n: nat)
    ensures n <= |s|
    ensures n > 0 ==> IsFloatText(s[..n]) && (n == |s| || !IsDigit(s[n]))
  {
    var a := DigitSpan(s);
    if a == 0 || a == |s| || s[a] != '.' then 0
    else
      var b := DigitSpan(s[a + 1..]);
      if b == 0 then 0
      else
        assert s[..a + 1 + b][..a] == s[..a];
        assert s[..a + 1 + b][a + 1..] == s[a + 1..][..b];
        a + 1 + b
  }

  function Prepend(c: string, r: Option<seq<string>>): Option<seq<string>> {
    match r
    case Some(caps) => Some([c] + caps)
    case None => None
  }

  /** Matches `p` against the start of `s` and returns the captures in order,
      or `None` when the pattern does not match there. */
  function Match(p: seq<Token>, s: string): (r: Option<seq<string>>)
    ensures r.Some? ==> |r.value| == CaptureCount(p)
  {
    if |p| == 0 then Some([])
    else if p[0].Lit? then
      var t := p[0].text;
      if t <= s then Match(p[1..], s[|t|..]) else None
    else
      var n := CaptureSpan(p[0], s);
      if n == 0 then None else Prepend(s[..n], Match(p[1..], s[n..]))
  }

  /** Length of the text a capture group takes at the start of `s`. */
  function CaptureSpan(t: Token, s: string): (n: nat)
    requires !t.Lit?
    ensures n <= |s|
    ensures n > 0 ==> CaptureFits(t, s[..n])
  {
    if t.Digits? then DigitSpan(s) else FloatSpan(s)
  }

  /** A capture followed by a non-digit is exactly what `CaptureSpan` measures. */
  lemma CaptureSpanOf(t: Token, c: string, rest: string)
    requires !t.Lit? && CaptureFits(t, c)
    requires |rest| == 0 || !IsDigit(rest[0])
    ensures CaptureSpan(t, c + rest) == |c|
  {
    if t.Digits? {
      DigitSpanOf(c, rest);
    } else {
      FloatSpanOf(c, rest);
    }
  }

  /** A digit run followed by a non-digit is exactly what `DigitSpan` measures. */
  lemma {:induction false} DigitSpanOf(d: string, rest: string)
    requires AllDigits(d)
    requires |rest| == 0 || !IsDigit(rest[0])
    ensures DigitSpan(d + rest) == |d|
  {
    if |d| > 0 {
      assert (d + rest)[1..] == d[1..] + rest;
      DigitSpanOf(d[1..], rest);
    } else {
      assert d + rest == rest;
    }
  }

  /** A decimal number followed by a non-digit is exactly what `FloatSpan` measures. */
  lemma FloatSpanOf(f: string, rest: string)
    requires IsFloatText(f)
    requires |rest| == 0 || !IsDigit(rest[0])
    ensures FloatSpan(f + rest) == |f|
  {
    var i :| 0 < i < |f| - 1 && f[i] == '.' && IsDigitRun(f[..i]) && IsDigitRun(f[i + 1..]);
    IntegerPartSpan(f, rest, i);
    FractionPartSpan(f, rest, i);
    FloatSpanFromParts(f + rest, i, |f| - i - 1);
  }

  lemma IntegerPartSpan(f: string, rest: string, i: nat)
    requires 0 < i < |f| && f[i] == '.' && AllDigits(f[..i])
    ensures DigitSpan(f + rest) == i && (f + rest)[i] == '.'
  {
    var point := f[i..] + rest;
    assert point[0] == '.';
    assert f + rest == f[..i] + point;
    DigitSpanOf(f[..i], point);
  }

  lemma FractionPartSpan(f: string, rest: string, i: nat)
    requires i < |f| && AllDigits(f[i + 1..])
    requires |rest| == 0 || !IsDigit(rest[0])
    ensures DigitSpan((f + rest)[i + 1..]) == |f| - i - 1
  {
    assert (f + rest)[i + 1..] == f[i + 1..] + rest;
    DigitSpanOf(f[i + 1..], rest);
  }

  lemma FloatSpanFromParts(s: string, a: nat, b: nat)
    requires 0 < a < |s| && s[a] == '.' && DigitSpan(s) == a
    requires 0 < b && DigitSpan(s[a + 1..]) == b
    ensures FloatSpan(s) == a + 1 + b
  {
  }

  /** `DigitSpanOf` restated for a digit run that is a prefix of `s`, the
      form in which the callers hold it. */
  lemma DigitsAt(d: string, s: string)
    requires AllDigits(d) && d <= s
    requires |s| == |d| || !IsDigit(s[|d|])
    ensures DigitSpan(s) == |d|
  {
    assert s == d + s[|d|..];
    DigitSpanOf(d, s[|d|..]);
  }

  /** `FloatSpanOf` restated for a decimal number that is a prefix of `s`,
      the form in which the callers hold it. */
  lemma FloatAt(f: string, s: string)
    requires IsFloatText(f) && f <= s
    requires |s| == |f| || !IsDigit(s[|f|])
    ensures FloatSpan(s) == |f|
  {
    assert s == f + s[|f|..];
    FloatSpanOf(f, s[|f|..]);
  }

  /** Whatever the matcher returns is a correct set of captures, and the text
      they spell out is where the line begins. */
  lemma {:induction false} MatchSound(p: seq<Token>, s: string)
    requires Match(p, s).Some?
    ensures Fits(p, Match(p, s).value)
    ensures Render(p, Match(p, s).value) <= s
  {
    if |p| > 0 {
      if p[0].Lit? {
        var t := p[0].text;
        MatchSound(p[1..], s[|t|..]);
        LiteralStep(p, s);
      } else {
        var n := CaptureSpan(p[0], s);
        MatchSound(p[1..], s[n..]);
        CaptureSoundStep(p, s);
      }
    }
  }

  lemma LiteralStep(p: seq<Token>, s: string)
    requires |p| > 0 && p[0].Lit? && Match(p, s).Some?
    requires var t := p[0].text;
      && Fits(p[1..], Match(p[1..], s[|t|..]).value)
      && Render(p[1..], Match(p[1..], s[|t|..]).value) <= s[|t|..]
    ensures Fits(p, Match(p, s).value)
    ensures Render(p, Match(p, s).value) <= s
  {
    var t := p[0].text;
    assert s == t + s[|t|..];
  }

  lemma CaptureSoundStep(p: seq<Token>, s: string)
    requires |p| > 0 && !p[0].Lit? && Match(p, s).Some?
    requires var n := CaptureSpan(p[0], s);
      && Fits(p[1..], Match(p[1..], s[n..]).value)
      && Render(p[1..], Match(p[1..], s[n..]).value) <= s[n..]
    ensures Fits(p, Match(p, s).value)
    ensures Render(p, Match(p, s).value) <= s
  {
    var n := CaptureSpan(p[0], s);
    var tail := Match(p[1..], s[n..]).value;
    CaptureStep(p, s[..n], tail, s[n..]);
    SliceJoin(s, n);
  }

  /** A string is its two slices at `n`; a separate proof step so that the
      solver does not meet it inside a larger proof. */
  lemma SliceJoin(s: string, n: nat)
    requires n <= |s|
    ensures s[..n] + s[n..] == s
  {
  }

  /** Putting a fitting capture in front of fitting captures of the rest. */
  lemma CaptureStep(p: seq<Token>, c: string, tail: seq<string>, r: string)
    requires |p| > 0 && !p[0].Lit? && CaptureFits(p[0], c)
    requires Fits(p[1..], tail) && Render(p[1..], tail) <= r
    ensures Fits(p, [c] + tail) && Render(p, [c] + tail) <= c + r
  {
    assert ([c] + tail)[1..] == tail;
  }

  /** On a well-formed pattern, any captures that spell out a prefix of the
      line are the ones the matcher finds: the match is unique. */
  lemma {:induction false} MatchComplete(p: seq<Token>, s: string, caps: seq<string>)
    requires WellFormed(p)
    requires Fits(p, caps)
    requires Render(p, caps) <= s
    ensures Match(p, s) == Some(caps)
  {
    if |p| > 0 {
      if p[0].Lit? {
        var t := p[0].text;
        LiteralCompleteStep(p, s, caps);
        MatchComplete(p[1..], s[|t|..], caps);
      } else {
        var c := caps[0];
        CaptureCompleteStep(p, s, caps);
        MatchComplete(p[1..], s[|c|..], caps[1..]);
        PrependFirst(caps);
      }
    }
  }

  lemma PrependFirst(caps: seq<string>)
    requires |caps| > 0
    ensures Prepend(caps[0], Some(caps[1..])) == Some(caps)
  {
    assert [caps[0]] + caps[1..] == caps;
  }

  lemma LiteralCompleteStep(p: seq<Token>, s: string, caps: seq<string>)
    requires WellFormed(p) && |p| > 0 && p[0].Lit? && Fits(p, caps) && Render(p, caps) <= s
    ensures WellFormed(p[1..])
    ensures var t := p[0].text;
      && t <= s
      && Fits(p[1..], caps) && Render(p[1..], caps) <= s[|t|..]
      && Match(p, s) == Match(p[1..], s[|t|..])
  {
    var t := p[0].text;
    PrefixSplit(t, Render(p[1..], caps), s);
  }

  lemma CaptureCompleteStep(p: seq<Token>, s: string, caps: seq<string>)
    requires WellFormed(p) && |p| > 0 && !p[0].Lit? && Fits(p, caps) && Render(p, caps) <= s
    ensures WellFormed(p[1..]) && |caps| > 0 && |caps[0]| <= |s|
    ensures Fits(p[1..], caps[1..]) && Render(p[1..], caps[1..]) <= s[|caps[0]|..]
    ensures Match(p, s) == Prepend(caps[0], Match(p[1..], s[|caps[0]|..]))
  {
    var c := caps[0];
    var tail := Render(p[1..], caps[1..]);
    CaptureAfter(p, caps);
    PrefixSplit(c, tail, s);
    var rest := s[|c|..];
    assert rest[0] == tail[0];
    CaptureSpanOf(p[0], c, rest);
  }

  /** A prefix made of two parts: the first is a prefix, and the second is a
      prefix of what follows it. */
  lemma PrefixSplit(a: string, b: string, s: string)
    requires a + b <= s
    ensures a <= s && s == a + s[|a|..] && b <= s[|a|..]
    ensures s[..|a|] == a && (|b| > 0 ==> s[|a|..][0] == b[0])
  {
    assert s[..|a|] == (a + b)[..|a|] == a;
    assert s[|a|..][..|b|] == (a + b)[|a|..] == b;
  }

  /** In a well-formed pattern the text after a capture starts with a non-digit. */
  lemma CaptureAfter(p: seq<Token>, caps: seq<string>)
    requires WellFormed(p) && Fits(p, caps)
    requires |p| > 0 && !p[0].Lit?
    ensures var rest := Render(p[1..], caps[1..]);
      |rest| > 0 && !IsDigit(rest[0])
  {
    var t := p[1].text;
    assert Render(p[1..], caps[1..]) == t + Render(p[2..], caps[1..]);
  }

  /** The matcher succeeds with `caps` exactly when `caps` are captures of
      the right shapes whose spelled-out text begins the line. */
  lemma MatchIff(p: seq<Token>, s: string, caps: seq<string>)
    requires WellFormed(p)
    ensures Match(p, s) == Some(caps) <==> Fits(p, caps) && Render(p, caps) <= s
  {
    if Match(p, s) == Some(caps) {
      MatchSound(p, s);
    }
    if Fits(p, caps) && Render(p, caps) <= s {
      MatchComplete(p, s, caps);
    }
  }
}
