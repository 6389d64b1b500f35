/**
 * The system-version handling of `read_system_version`
 * (armer_panda/PandaConnector.py): the reply text has its surrounding `"`
 * stripped, is cut at the first two-character sequence backslash-n, and the
 * first piece is compared against 4.2.0, the firmware from which a control
 * token is required.
 *
 * Only numeric dotted versions (`4.2.0`, `3.10`) are parsed; release
 * segments are compared as PEP 440 does, padding the shorter with zeros.
 */
module Version {
  import opened Options

  // ---------------------------------------------------------------------------
  // `str.strip('"')`

  predicate AllQuotes(s: string) {
    forall i :: 0 <= i < |s| ==> s[i] == '"'
  }

  /** Neither the first nor the last character is a `"`. */
  predicate NoEdgeQuote(s: string) {
    |s| == 0 || (s[0] != '"' && s[|s| - 1] != '"')
  }

  function TrimLeadingQuotes(s: string): (r: string)
    ensures |r| <= |s|
    ensures r == s[|s| - |r|..] && AllQuotes(s[..|s| - |r|])
    ensures |r| == 0 || r[0] != '"'
  {
    if |s| > 0 && s[0] == '"' then
      var r := TrimLeadingQuotes(s[1..]);
      assert s[1..][|s| - 1 - |r|..] == s[|s| - |r|..];
      assert s[..|s| - |r|] == [s[0]] + s[1..][..|s| - 1 - |r|];
      r
    else s
  }

  function TrimTrailingQuotes(s: string): (r: string)
    ensures |r| <= |s|
    ensures r == s[..|r|] && AllQuotes(s[|r|..])
    ensures |r| == 0 || r[|r| - 1] != '"'
  {
    if |s| > 0 && s[|s| - 1] == '"' then
      var r := TrimTrailingQuotes(s[..|s| - 1]);
      assert s[..|s| - 1][..|r|] == s[..|r|];
      assert s[|r|..] == s[..|s| - 1][|r|..] + [s[|s| - 1]];
      r
    else s
  }

  /**
   * `s.strip('"')`: what is left once every leading and every trailing `"`
   * is removed. The result is an infix of `s` cut out between two runs of
   * quotes.
   */
  function StripQuotes(s: string): (r: string)
    ensures |r| <= |s|
    ensures NoEdgeQuote(r)
    ensures exists i :: 0 <= i <= |s| - |r| && r == s[i..][..|r|] && AllQuotes(s[..i]) && AllQuotes(s[i..][|r|..])
  {
    var t := TrimLeadingQuotes(s);
    var r := TrimTrailingQuotes(t);
    assert s[|s| - |t|..] == t;
    r
  }

  lemma {:induction false} TrimLeadingOfPadded(q: string, r: string)
    requires AllQuotes(q)
    requires |r| == 0 || r[0] != '"'
    ensures TrimLeadingQuotes(q + r) == r
    decreases |q|
  {
    if |q| > 0 {
      assert (q + r)[1..] == q[1..] + r;
      TrimLeadingOfPadded(q[1..], r);
    } else {
      assert q + r == r;
    }
  }

  lemma {:induction false} TrimTrailingOfPadded(r: string, q: string)
    requires AllQuotes(q)
    requires |r| == 0 || r[|r| - 1] != '"'
    ensures TrimTrailingQuotes(r + q) == r
    decreases |q|
  {
    if |q| > 0 {
      assert (r + q)[..|r + q| - 1] == r + q[..|q| - 1];
      TrimTrailingOfPadded(r, q[..|q| - 1]);
    } else {
      assert r + q == r;
    }
  }

  /** Wrapping a text without edge quotes in any runs of `"` and stripping gives it back. */
  lemma StripQuotesOfPadded(q1: string, r: string, q2: string)
    requires AllQuotes(q1) && AllQuotes(q2)
    requires NoEdgeQuote(r)
    ensures StripQuotes(q1 + r + q2) == r
  {
    if |r| == 0 {
      assert q1 + r + q2 == q1 + q2;
      assert AllQuotes(q1 + q2);
      TrimLeadingOfPadded(q1 + q2, "");
      assert q1 + q2 + "" == q1 + q2;
    } else {
      assert q1 + r + q2 == q1 + (r + q2);
      TrimLeadingOfPadded(q1, r + q2);
      TrimTrailingOfPadded(r, q2);
    }
  }

  // ---------------------------------------------------------------------------
  // `.split('\\n')[0]`: the Python literal '\\n' is the two characters `\` `n`

  /** The separator `\n` (backslash, letter n) starts at index `i` of `s`. */
  predicate SeparatorAt(s: string, i: int) {
    0 <= i && i + 1 < |s| && s[i] == '\\' && s[i + 1] == 'n'
  }

  /** The first piece of `s.split('\\n')`. */
  function FirstLine(s: string): (r: string)
    ensures |r| <= |s| && r == s[..|r|]
    ensures forall i :: 0 <= i < |r| ==> !SeparatorAt(s, i)
    ensures r == s || SeparatorAt(s, |r|)
  {
    if |s| < 2 then s
    else if s[0] == '\\' && s[1] == 'n' then ""
    else
      var r := [s[0]] + FirstLine(s[1..]);
      assert forall i :: 1 <= i < |s| ==> (SeparatorAt(s, i) <==> SeparatorAt(s[1..], i - 1));
      r
  }

  /** A line without the separator, followed by the separator and anything, is cut back to that line. */
  lemma FirstLineOfJoined(line: string, rest: string)
    requires forall i :: 0 <= i < |line| ==> !SeparatorAt(line, i)
    ensures FirstLine(line) == line
    ensures FirstLine(line + "\\n" + rest) == line
  {
    var s := line + "\\n" + rest;
    var r := FirstLine(s);
    assert SeparatorAt(s, |line|);
    forall i | 0 <= i < |line| && i + 1 < |line|
      ensures !SeparatorAt(s, i)
    {
      assert !SeparatorAt(line, i);
    }
    if |line| > 0 {
      assert s[|line|] == '\\';
      assert !SeparatorAt(s, |line| - 1);
    }
    assert |r| >= |line|;
  }

  // ---------------------------------------------------------------------------
  // Numeric dotted versions

  predicate IsDigit(ch: char) {
    '0' <= ch <= '9'
  }

  /** A non-empty run of decimal digits. */
  predicate IsNumeral(s: string) {
    |s| > 0 && forall i :: 0 <= i < |s| ==> IsDigit(s[i])
  }

  function DigitValue(ch: char): nat {
    if IsDigit(ch) then ch as int - '0' as int else 0
  }

  /** The value of a decimal numeral, most significant digit first. */
  function NumeralValue(s: string): nat {
    if |s| == 0 then 0 else NumeralValue(s[..|s| - 1]) * 10 + DigitValue(s[|s| - 1])
  }

  function DigitChar(d: nat): (ch: char)
    requires d < 10
    ensures IsDigit(ch) && DigitValue(ch) == d
  {
    ('0' as int + d) as char
  }

  /** The decimal numeral of `n`, without leading zeros. */
  function NatToString(n: nat): (s: string)
    ensures IsNumeral(s)
    ensures NumeralValue(s) == n
  {
    if n < 10 then
      var s := [DigitChar(n)];
      assert s[..0] == [];
      s
    else
      var p := NatToString(n / 10);
      var s := p + [DigitChar(n % 10)];
      assert s[..|s| - 1] == p;
      s
  }

  /** Index of the first `.` in `s`, or `|s|` when there is none. */
  function FirstDot(s: string): (k: nat)
    ensures k <= |s|
    ensures forall i :: 0 <= i < k ==> s[i] != '.'
    ensures k < |s| ==> s[k] == '.'
  {
    if |s| == 0 || s[0] == '.' then 0 else 1 + FirstDot(s[1..])
  }

  predicate NoDot(s: string) {
    forall i :: 0 <= i < |s| ==> s[i] != '.'
  }

  /** The pieces joined back with `.` separators. */
  function Join(parts: seq<string>): string
    requires |parts| >= 1
  {
    if |parts| == 1 then parts[0] else parts[0] + "." + Join(parts[1..])
  }

  /** `s.split('.')`: the pieces hold no dot and join back to `s`. */
  function SplitOnDot(s: string): (parts: seq<string>)
    ensures |parts| >= 1
    ensures forall i :: 0 <= i < |parts| ==> NoDot(parts[i])
    ensures Join(parts) == s
    decreases |s|
  {
    var k := FirstDot(s);
    if k == |s| then
      assert s[..k] == s;
      [s]
    else
      var rest := SplitOnDot(s[k + 1..]);
      var parts := [s[..k]] + rest;
      assert parts[1..] == rest;
      assert s == s[..k] + "." + s[k + 1..];
      parts
  }

  lemma {:induction false} SplitJoin(parts: seq<string>)
    requires |parts| >= 1
    requires forall i :: 0 <= i < |parts| ==> NoDot(parts[i])
    ensures SplitOnDot(Join(parts)) == parts
    decreases |parts|
  {
    var s := Join(parts);
    if |parts| == 1 {
      assert FirstDot(s) == |s|;
    } else {
      var tail := Join(parts[1..]);
      assert s == parts[0] + "." + tail;
      var k := FirstDot(s);
      assert s[|parts[0]|] == '.';
      assert k == |parts[0]|;
      assert s[..k] == parts[0];
      assert s[k + 1..] == tail;
      SplitJoin(parts[1..]);
      assert SplitOnDot(s) == [parts[0]] + parts[1..];
    }
  }

  /** Numeric values of all pieces, or None when some piece is not a numeral. */
  function Numerals(parts: seq<string>): (r: Option<seq<nat>>)
    ensures r.Some? <==> forall i :: 0 <= i < |parts| ==> IsNumeral(parts[i])
    ensures r.Some? ==> |r.value| == |parts| && forall i :: 0 <= i < |parts| ==> r.value[i] == NumeralValue(parts[i])
  {
    if |parts| == 0 then Some([])
    else if !IsNumeral(parts[0]) then None
    else match Numerals(parts[1..])
      case None => None
      case Some(rest) => Some([NumeralValue(parts[0])] + rest)
  }

  /** `version.parse` restricted to numeric dotted versions; None where it would raise. */
  function ParseVersion(v: string): (r: Option<seq<nat>>)
    ensures r.Some? <==> forall p :: p in SplitOnDot(v) ==> IsNumeral(p)
    ensures r.Some? ==>
              && |r.value| == |SplitOnDot(v)|
              && forall i :: 0 <= i < |r.value| ==> r.value[i] == NumeralValue(SplitOnDot(v)[i])
  {
    Numerals(SplitOnDot(v))
  }

  /** The decimal numerals of a release tuple, segment by segment. */
  function Decimals(v: seq<nat>): (parts: seq<string>)
    ensures |parts| == |v|
    ensures forall i :: 0 <= i < |v| ==> parts[i] == NatToString(v[i])
  {
    if |v| == 0 then [] else [NatToString(v[0])] + Decimals(v[1..])
  }

  /** The dotted decimal text of a release tuple. */
  function FormatVersion(v: seq<nat>): (s: string)
    requires |v| >= 1
  {
    Join(Decimals(v))
  }

  /** Parsing the dotted decimal text of a release tuple gives the tuple back. */
  lemma ParseFormat(v: seq<nat>)
    requires |v| >= 1
    ensures ParseVersion(FormatVersion(v)) == Some(v)
  {
    var parts := Decimals(v);
    forall i | 0 <= i < |parts|
      ensures NoDot(parts[i])
    {
      assert IsNumeral(parts[i]);
    }
    SplitJoin(parts);
    var r := Numerals(parts);
    assert r.Some?;
    assert r.value == v;
  }

  // ---------------------------------------------------------------------------
  // Comparison

  function Head(v: seq<nat>): nat {
    if |v| == 0 then 0 else v[0]
  }

  function Tail(v: seq<nat>): seq<nat> {
    if |v| == 0 then [] else v[1..]
  }

  /** Release comparison `a >= b`, segment by segment, missing segments reading as 0. */
  predicate AtLeast(a: seq<nat>, b: seq<nat>)
    decreases |a| + |b|
  {
    if |a| == 0 && |b| == 0 then true
    else if Head(a) != Head(b) then Head(a) > Head(b)
    else AtLeast(Tail(a), Tail(b))
  }

  /** The first firmware version that enforces single point of control. */
  const Threshold: seq<nat> := [4, 2, 0]

  predicate NeedsControlToken(v: seq<nat>) {
    AtLeast(v, Threshold)
  }

  /** Everything is at least a run of zeros. */
  lemma {:induction false} AtLeastZeros(a: seq<nat>, z: seq<nat>)
    requires forall i :: 0 <= i < |z| ==> z[i] == 0
    ensures AtLeast(a, z)
    decreases |a| + |z|
  {
    if |a| == 0 && |z| == 0 {
    } else if Head(a) != Head(z) {
    } else {
      AtLeastZeros(Tail(a), Tail(z));
    }
  }

  /** The threshold test by major and minor numbers: 4.2 and every later release need a token. */
  lemma NeedsControlTokenByMajorMinor(v: seq<nat>)
    ensures NeedsControlToken(v) <==> Head(v) > 4 || (Head(v) == 4 && Head(Tail(v)) >= 2)
  {
    var t := Tail(v);
    assert Head(Threshold) == 4 && Tail(Threshold) == [2, 0];
    assert Head([2, 0]) == 2 && Tail([2, 0]) == [0];
    assert NeedsControlToken(v) == if Head(v) != 4 then Head(v) > 4 else AtLeast(t, [2, 0]);
    assert AtLeast(t, [2, 0]) == if Head(t) != 2 then Head(t) > 2 else AtLeast(Tail(t), [0]);
    AtLeastZeros(Tail(t), [0]);
  }

  lemma {:induction false} AtLeastTotal(a: seq<nat>, b: seq<nat>)
    ensures AtLeast(a, b) || AtLeast(b, a)
    decreases |a| + |b|
  {
    if |a| == 0 && |b| == 0 {
    } else if Head(a) != Head(b) {
    } else {
      AtLeastTotal(Tail(a), Tail(b));
    }
  }

  lemma {:induction false} AtLeastTransitive(a: seq<nat>, b: seq<nat>, c: seq<nat>)
    requires AtLeast(a, b) && AtLeast(b, c)
    ensures AtLeast(a, c)
    decreases |a| + |b| + |c|
  {
    if |a| == 0 && |b| == 0 && |c| == 0 {
    } else if Head(a) != Head(b) || Head(b) != Head(c) {
      if |a| == 0 && |c| == 0 {
        AtLeastZeros([], b);
      }
    } else {
      if |a| == 0 && |b| == 0 {
      } else if |b| == 0 && |c| == 0 {
      } else {
        AtLeastTransitive(Tail(a), Tail(b), Tail(c));
      }
    }
  }

  /** A later firmware than one needing a token needs one too. */
  lemma NeedsControlTokenUpward(a: seq<nat>, b: seq<nat>)
    requires NeedsControlToken(a) && AtLeast(b, a)
    ensures NeedsControlToken(b)
  {
    AtLeastTransitive(b, a, Threshold);
  }

  // ---------------------------------------------------------------------------
  // The whole extraction

  /** `resp.text.strip('"').split('\\n')[0]` */
  function ExtractVersion(text: string): (r: string)
    ensures |r| <= |StripQuotes(text)| && r == StripQuotes(text)[..|r|]
    ensures forall i :: 0 <= i < |r| ==> !SeparatorAt(StripQuotes(text), i)
    ensures r == StripQuotes(text) || SeparatorAt(StripQuotes(text), |r|)
  {
    FirstLine(StripQuotes(text))
  }

  /** The text of a three-segment single-digit release. */
  lemma FormatSingleDigits(a: nat, b: nat, c: nat)
    requires a < 10 && b < 10 && c < 10
    ensures FormatVersion([a, b, c]) == [DigitChar(a), '.', DigitChar(b), '.', DigitChar(c)]
  {
    var v := [a, b, c];
    assert v[1..] == [b, c] && v[1..][1..] == [c];
    assert Decimals(v) == [[DigitChar(a)], [DigitChar(b)], [DigitChar(c)]];
    var parts := Decimals(v);
    assert parts[1..] == [[DigitChar(b)], [DigitChar(c)]];
    assert parts[1..][1..] == [[DigitChar(c)]];
    assert Join(parts[1..][1..]) == [DigitChar(c)];
    assert Join(parts[1..]) == [DigitChar(b)] + "." + [DigitChar(c)];
    assert Join(parts) == [DigitChar(a)] + "." + ([DigitChar(b)] + "." + [DigitChar(c)]);
  }

  /** Parsing a three-segment single-digit release. */
  lemma ParseSingleDigits(a: nat, b: nat, c: nat)
    requires a < 10 && b < 10 && c < 10
    ensures ParseVersion([DigitChar(a), '.', DigitChar(b), '.', DigitChar(c)]) == Some([a, b, c])
  {
    FormatSingleDigits(a, b, c);
    ParseFormat([a, b, c]);
  }

  /** The boundary cases around 4.2.0. */
  lemma ThresholdExamples()
    ensures ParseVersion("4.2.0") == Some([4, 2, 0]) && NeedsControlToken([4, 2, 0])
    ensures ParseVersion("4.1.9") == Some([4, 1, 9]) && !NeedsControlToken([4, 1, 9])
    ensures ParseVersion("4.2.1") == Some([4, 2, 1]) && NeedsControlToken([4, 2, 1])
    ensures ParseVersion("3.0.0") == Some([3, 0, 0]) && !NeedsControlToken([3, 0, 0])
    ensures NeedsControlToken([4, 2]) && NeedsControlToken([4, 3, 1]) && NeedsControlToken([5])
  {
    ParseSingleDigits(4, 2, 0);
    ParseSingleDigits(4, 1, 9);
    ParseSingleDigits(4, 2, 1);
    ParseSingleDigits(3, 0, 0);
    NeedsControlTokenByMajorMinor([4, 2, 0]);
    NeedsControlTokenByMajorMinor([4, 1, 9]);
    NeedsControlTokenByMajorMinor([4, 2, 1]);
    NeedsControlTokenByMajorMinor([3, 0, 0]);
    NeedsControlTokenByMajorMinor([4, 2]);
    NeedsControlTokenByMajorMinor([4, 3, 1]);
    NeedsControlTokenByMajorMinor([5]);
  }
}
