/** Duration strings such as `250ms`, `4.5s` and `1h02m03s`: the pattern they follow, the parser, and the two
    printers (report and client) with the error they introduce. */
module Durations {
  import opened Options
  import opened Rounding

  // ---- Digits

  predicate IsDigit(c: char) { '0' <= c <= '9' }

  ghost predicate Digits(s: string) {
    s != "" && forall i :: 0 <= i < |s| ==> IsDigit(s[i])
  }

  function DigitValue(c: char): int
    requires IsDigit(c)
  {
    c as int - '0' as int
  }

  /** The number a digit string stands for; other characters count as zero and never occur. */
  function Number(s: string): nat {
    if s == "" then 0 else 10 * Number(s[..|s| - 1]) + if IsDigit(s[|s| - 1]) then DigitValue(s[|s| - 1]) else 0
  }

  function Pow10(n: nat): (r: nat)
    ensures r > 0
  {
    if n == 0 then 1 else 10 * Pow10(n - 1)
  }

  function DigitChar(d: nat): (c: char)
    requires d < 10
    ensures IsDigit(c) && DigitValue(c) == d
  {
    ('0' as int + d) as char
  }

  /** Decimal notation without leading zeros. */
  function Decimal(n: nat): (s: string)
    ensures Digits(s)
  {
    if n < 10 then [DigitChar(n)] else Decimal(n / 10) + [DigitChar(n % 10)]
  }

  /** At least two digits. */
  function Padded(n: nat): (s: string)
    ensures Digits(s)
  {
    if n < 10 then "0" + Decimal(n) else Decimal(n)
  }

  lemma {:induction false} DecimalIsNumber(n: nat)
    ensures Number(Decimal(n)) == n
    decreases n
  {
    if n < 10 {
      assert Decimal(n)[..0] == "";
    } else {
      DecimalIsNumber(n / 10);
      assert Decimal(n)[..|Decimal(n)| - 1] == Decimal(n / 10);
    }
  }

  lemma PaddedIsNumber(n: nat)
    ensures Number(Padded(n)) == n
  {
    DecimalIsNumber(n);
    if n < 10 {
      var s := Padded(n);
      assert s == ['0', DigitChar(n)];
      assert s[..1] == ['0'] && ['0'][..0] == "";
      assert Number(['0']) == 0;
    }
  }

  // ---- The pattern

  /** The groups of a match: hours, minutes, seconds with an optional fraction, milliseconds. */
  datatype Parts = Parts(h: Option<string>, m: Option<string>, s: Option<(string, Option<string>)>, ms: Option<string>)

  ghost predicate WellFormed(p: Parts) {
    && (p.h.Some? ==> Digits(p.h.value)) && (p.m.Some? ==> Digits(p.m.value)) && (p.ms.Some? ==> Digits(p.ms.value))
    && (p.s.Some? ==> Digits(p.s.value.0) && (p.s.value.1.Some? ==> Digits(p.s.value.1.value)))
  }

  function Tail4(p: Parts): string { if p.ms.Some? then p.ms.value + "ms" else "" }

  function SecondsText(s: (string, Option<string>)): string {
    s.0 + (if s.1.Some? then "." + s.1.value else "") + "s"
  }

  function Tail3(p: Parts): string { (if p.s.Some? then SecondsText(p.s.value) else "") + Tail4(p) }

  function Tail2(p: Parts): string { (if p.m.Some? then p.m.value + "m" else "") + Tail3(p) }

  /** The text made of these groups. */
  function Text(p: Parts): string { (if p.h.Some? then p.h.value + "h" else "") + Tail2(p) }

  /** The text matches the pattern with these groups. The look-ahead asks that what follows the minutes does not
      begin with `s`. */
  ghost predicate Matches(text: string, p: Parts) {
    WellFormed(p) && text == Text(p) && (p.m.Some? && Tail3(p) != "" ==> Tail3(p)[0] != 's')
  }

  /** The look-ahead excludes nothing: the groups alone already determine where the minutes end. */
  lemma LookaheadIsFree(p: Parts)
    requires WellFormed(p)
    ensures Matches(Text(p), p)
  {
  }

  // ---- The parser

  function DigitRun(s: string): (n: nat)
    ensures n <= |s| && (forall i :: 0 <= i < n ==> IsDigit(s[i])) && (n < |s| ==> !IsDigit(s[n]))
  {
    if s == "" || !IsDigit(s[0]) then 0
    else
      var n := DigitRun(s[1..]);
      assert forall i :: 0 < i <= n && i < |s| ==> s[i] == s[1..][i - 1];
      1 + n
  }

  /** An optional group of digits with its unit: the digits, and what is left. */
  function Group(s: string, unit: string): (Option<string>, string) {
    var n := DigitRun(s);
    if n > 0 && unit <= s[n..] then (Some(s[..n]), s[n + |unit|..]) else (None, s)
  }

  function MinutesGroup(s: string): (Option<string>, string) {
    var n := DigitRun(s);
    if n > 0 && "m" <= s[n..] && !("s" <= s[n + 1..]) then (Some(s[..n]), s[n + 1..]) else (None, s)
  }

  function SecondsGroup(s: string): (Option<(string, Option<string>)>, string) {
    var n := DigitRun(s);
    if n == 0 then (None, s)
    else if "s" <= s[n..] then (Some((s[..n], None)), s[n + 1..])
    else if "." <= s[n..] then
      var k := DigitRun(s[n + 1..]);
      if k > 0 && "s" <= s[n + 1..][k..] then (Some((s[..n], Some(s[n + 1..][..k]))), s[n + 1..][k + 1..]) else (None, s)
    else (None, s)
  }

  function ParseParts(text: string): Option<Parts> {
    var (h, afterHours) := Group(text, "h");
    var (m, afterMinutes) := MinutesGroup(afterHours);
    var (s, afterSeconds) := SecondsGroup(afterMinutes);
    var (ms, rest) := Group(afterSeconds, "ms");
    if rest == "" then Some(Parts(h, m, s, ms)) else None
  }

  /** A fraction as a number below one. */
  function Fraction(s: string): real { Number(s) as real / Pow10(|s|) as real }

  /** The duration in seconds. */
  function Seconds(p: Parts): real {
    (if p.h.Some? then Number(p.h.value) as real * 3600.0 else 0.0)
    + (if p.m.Some? then Number(p.m.value) as real * 60.0 else 0.0)
    + (if p.s.Some? then Number(p.s.value.0) as real + (if p.s.value.1.Some? then Fraction(p.s.value.1.value) else 0.0) else 0.0)
    + (if p.ms.Some? then Number(p.ms.value) as real / 1000.0 else 0.0)
  }

  /** The white space of ASCII: tabs, line ends and separators, and the blank. */
  predicate IsSpace(c: char) { c as int in {9, 10, 11, 12, 13, 28, 29, 30, 31, 32} }

  function TrimStart(s: string): string { if s != "" && IsSpace(s[0]) then TrimStart(s[1..]) else s }

  function TrimEnd(s: string): string { if s != "" && IsSpace(s[|s| - 1]) then TrimEnd(s[..|s| - 1]) else s }

  function Trim(s: string): string { TrimEnd(TrimStart(s)) }

  /** Seconds, or nothing when the text is not a duration. */
  function Parse(text: string): Option<real> {
    var trimmed := Trim(text);
    if trimmed == "" then None
    else
      match ParseParts(trimmed)
      case None => None
      case Some(p) => if p == Parts(None, None, None, None) then None else Some(Seconds(p))
  }

  lemma {:induction false} TrimStartIs(s: string)
    ensures var n := |s| - |TrimStart(s)|;
            n >= 0 && TrimStart(s) == s[n..] && forall k :: 0 <= k < n ==> IsSpace(s[k])
    ensures TrimStart(s) == "" || !IsSpace(TrimStart(s)[0])
    decreases |s|
  {
    hide IsSpace;
    if s != "" && IsSpace(s[0]) {
      var rest := s[1..];
      TrimStartIs(rest);
      var n := |rest| - |TrimStart(rest)|;
      assert rest[n..] == s[n + 1..];
      assert forall k :: 0 < k < n + 1 ==> s[k] == rest[k - 1];
    }
  }

  lemma {:induction false} TrimEndIs(s: string)
    ensures var n := |TrimEnd(s)|;
            n <= |s| && TrimEnd(s) == s[..n] && forall k :: n <= k < |s| ==> IsSpace(s[k])
    ensures TrimEnd(s) == "" || !IsSpace(TrimEnd(s)[|TrimEnd(s)| - 1])
    decreases |s|
  {
    hide IsSpace;
    if s != "" && IsSpace(s[|s| - 1]) {
      var shorter := s[..|s| - 1];
      TrimEndIs(shorter);
      assert shorter[..|TrimEnd(shorter)|] == s[..|TrimEnd(shorter)|];
      assert forall k :: 0 <= k < |shorter| ==> s[k] == shorter[k];
    }
  }

  /** What is parsed is the stretch of the text between white space at both ends: it neither begins nor ends with any. */
  lemma TrimIs(s: string)
    ensures var a := |s| - |TrimStart(s)|;
            var b := a + |Trim(s)|;
            && 0 <= a <= b <= |s| && Trim(s) == s[a..b]
            && (forall k :: 0 <= k < a || b <= k < |s| ==> IsSpace(s[k]))
            && (a < b ==> !IsSpace(s[a]) && !IsSpace(s[b - 1]))
  {
    hide IsSpace, TrimStart, TrimEnd;
    TrimStartIs(s);
    var t, a := TrimStart(s), |s| - |TrimStart(s)|;
    TrimEndIs(t);
    var b := a + |TrimEnd(t)|;
    assert forall k :: 0 <= k < |t| ==> t[k] == s[a + k];
    assert forall k :: a <= k < |s| ==> s[k] == t[k - a];
    assert t[..b - a] == s[a..b];
  }

  // ---- The parser finds exactly the matches

  lemma {:induction false} DigitRunOf(d: string, rest: string)
    requires (forall i :: 0 <= i < |d| ==> IsDigit(d[i])) && (rest == "" || !IsDigit(rest[0]))
    ensures DigitRun(d + rest) == |d|
    decreases |d|
  {
    if d != "" {
      assert (d + rest)[1..] == d[1..] + rest;
      DigitRunOf(d[1..], rest);
    } else {
      assert d + rest == rest;
    }
  }

  lemma GroupTaken(d: string, unit: string, rest: string)
    requires Digits(d) && unit != "" && !IsDigit(unit[0])
    ensures Group(d + unit + rest, unit) == (Some(d), rest)
  {
    var s := d + unit + rest;
    assert s == d + (unit + rest);
    DigitRunOf(d, unit + rest);
    assert s[|d|..] == unit + rest;
  }

  /** The first unit letter of a text that begins with digits: the text, its digits, and what follows them. */
  ghost predicate Begins(t: string, after: string) {
    DigitRun(t) > 0 && t[DigitRun(t)..] == after
  }

  lemma DigitsBegin(d: string, after: string)
    requires Digits(d) && after != "" && !IsDigit(after[0])
    ensures DigitRun(d + after) == |d| && Begins(d + after, after) && (d + after)[..|d|] == d
  {
    DigitRunOf(d, after);
  }

  /** What the last two tails look like behind their first digits. */
  lemma Tail4Begins(p: Parts)
    requires WellFormed(p)
    ensures Tail4(p) == "" || Begins(Tail4(p), "ms")
  {
    if p.ms.Some? {
      DigitsBegin(p.ms.value, "ms");
    }
  }

  function SecondsBehind(s: (string, Option<string>)): string {
    (if s.1.Some? then "." + s.1.value else "") + "s"
  }

  lemma Tail3Begins(p: Parts)
    requires WellFormed(p)
    ensures p.s.Some? ==> Begins(Tail3(p), SecondsBehind(p.s.value) + Tail4(p)) && DigitRun(Tail3(p)) == |p.s.value.0|
                          && Tail3(p)[..|p.s.value.0|] == p.s.value.0
    ensures p.s.None? ==> Tail3(p) == Tail4(p)
  {
    if p.s.Some? {
      var behind := SecondsBehind(p.s.value) + Tail4(p);
      assert Tail3(p) == p.s.value.0 + behind;
      DigitsBegin(p.s.value.0, behind);
    }
  }

  lemma Tail2Begins(p: Parts)
    requires WellFormed(p)
    ensures p.m.Some? ==> Begins(Tail2(p), "m" + Tail3(p)) && DigitRun(Tail2(p)) == |p.m.value| && Tail2(p)[..|p.m.value|] == p.m.value
    ensures p.m.None? ==> Tail2(p) == Tail3(p)
  {
    if p.m.Some? {
      assert Tail2(p) == p.m.value + ("m" + Tail3(p));
      DigitsBegin(p.m.value, "m" + Tail3(p));
    }
  }

  lemma FractionGroup(whole: string, fraction: string, rest: string)
    requires Digits(whole) && Digits(fraction)
    ensures SecondsGroup(whole + ("." + (fraction + ("s" + rest)))) == (Some((whole, Some(fraction))), rest)
  {
    var last := "s" + rest;
    var inner := fraction + last;
    var t, n := whole + ("." + inner), |whole|;
    DigitsBegin(whole, "." + inner);
    DigitsBegin(fraction, last);
    hide DigitRun, Digits;
    assert t[n..][0] == '.' && t[n + 1..] == inner;
    assert inner[|fraction|..] == last && last[0] == 's' && inner[|fraction| + 1..] == rest;
  }

  lemma FractionTaken(p: Parts)
    requires WellFormed(p) && p.s.Some? && p.s.value.1.Some?
    ensures SecondsGroup(Tail3(p)) == (p.s, Tail4(p))
  {
    var whole, fraction := p.s.value.0, p.s.value.1.value;
    FractionGroup(whole, fraction, Tail4(p));
    hide SecondsGroup, Tail4, Digits, DigitRun;
    Regroup(whole, ".", fraction, "s", Tail4(p));
  }

  lemma PlainTaken(p: Parts)
    requires WellFormed(p) && p.s.Some? && p.s.value.1.None?
    ensures SecondsGroup(Tail3(p)) == (p.s, Tail4(p))
  {
    var d, rest := p.s.value.0, Tail4(p);
    assert Tail3(p) == d + ("s" + rest);
    DigitsBegin(d, "s" + rest);
    var t := Tail3(p);
    hide Tail3, Tail4, DigitRun;
    assert t[|d| + 1..] == t[|d|..][1..] == rest;
  }

  lemma SecondsTaken(p: Parts)
    requires WellFormed(p)
    ensures SecondsGroup(Tail3(p)) == (p.s, Tail4(p))
  {
    if p.s.Some? && p.s.value.1.Some? {
      FractionTaken(p);
    } else if p.s.Some? {
      PlainTaken(p);
    } else {
      NoSeconds(p);
    }
  }

  lemma NoSeconds(p: Parts)
    requires WellFormed(p) && p.s.None?
    ensures SecondsGroup(Tail3(p)) == (p.s, Tail4(p))
  {
    Tail3Begins(p);
    Tail4Begins(p);
    var t := Tail3(p);
    hide Tail3, Tail4;
    if t != "" {
      assert t[DigitRun(t)..][0] == 'm';
    }
  }

  lemma MinutesTaken(p: Parts)
    requires WellFormed(p)
    ensures MinutesGroup(Tail2(p)) == (p.m, Tail3(p))
  {
    Tail2Begins(p);
    Tail3Begins(p);
    Tail4Begins(p);
    var t := Tail2(p);
    if p.m.Some? {
      var n := |p.m.value|;
      Tail3Starts(p);
      hide Tail2, Tail3, Tail4, DigitRun;
      assert t[n..] == "m" + Tail3(p);
      assert t[n + 1..] == t[n..][1..] == Tail3(p);
    } else if t != "" {
      hide Tail2, Tail3, Tail4;
      if p.s.Some? {
        assert t[DigitRun(t)..][0] == '.' || t[DigitRun(t)..][0] == 's';
      } else {
        assert t[DigitRun(t)..] == "ms";
        assert t[DigitRun(t) + 1..] == t[DigitRun(t)..][1..] == "s";
      }
    }
  }

  /** A tail begins with a digit, so no `s` follows the minutes. */
  lemma Tail3Starts(p: Parts)
    requires WellFormed(p)
    ensures Tail3(p) != "" ==> IsDigit(Tail3(p)[0])
  {
    Tail3Begins(p);
    Tail4Begins(p);
    hide Tail3, Tail4;
  }

  /** No hours begin a text without them. */
  lemma NoHours(p: Parts)
    requires WellFormed(p)
    ensures var t := Tail2(p); t == "" || (DigitRun(t) > 0 && DigitRun(t) < |t| && t[DigitRun(t)] != 'h')
  {
    Tail2Begins(p);
    Tail3Begins(p);
    Tail4Begins(p);
    var t := Tail2(p);
    hide Tail2, Tail3, Tail4;
    if t != "" {
      var after := t[DigitRun(t)..];
      assert after != "" && after[0] == t[DigitRun(t)];
    }
  }

  lemma HoursTaken(p: Parts)
    requires WellFormed(p)
    ensures Group(Text(p), "h") == (p.h, Tail2(p))
  {
    NoHours(p);
    if p.h.Some? {
      GroupTaken(p.h.value, "h", Tail2(p));
    } else {
      assert Text(p) == Tail2(p);
    }
  }

  /** Every text made of groups is parsed into just those groups. */
  lemma ParseFinds(p: Parts)
    requires WellFormed(p)
    ensures ParseParts(Text(p)) == Some(p)
  {
    HoursTaken(p);
    MinutesTaken(p);
    SecondsTaken(p);
    MillisTaken(p);
    hide Group, MinutesGroup, SecondsGroup, Text, Tail2, Tail3, Tail4;
  }

  lemma MillisTaken(p: Parts)
    requires WellFormed(p)
    ensures Group(Tail4(p), "ms") == (p.ms, "")
  {
    if p.ms.Some? {
      assert Tail4(p) == p.ms.value + "ms" + "";
      GroupTaken(p.ms.value, "ms", "");
    } else {
      EmptyGroup();
    }
  }

  lemma EmptyGroup()
    ensures Group("", "ms") == (None, "")
  {
  }

  lemma GroupFound(s: string, unit: string)
    requires unit != ""
    ensures var (g, rest) := Group(s, unit);
            (g.Some? ==> Digits(g.value) && s == g.value + unit + rest) && (g.None? ==> rest == s)
  {
    var n := DigitRun(s);
    if n > 0 && unit <= s[n..] {
      assert s == s[..n] + unit + s[n + |unit|..];
    }
  }

  lemma MinutesFound(s: string)
    ensures var (g, rest) := MinutesGroup(s);
            (g.Some? ==> Digits(g.value) && s == g.value + "m" + rest) && (g.None? ==> rest == s)
  {
    var n := DigitRun(s);
    if MinutesGroup(s).0.Some? {
      assert s == s[..n] + "m" + s[n + 1..];
    }
  }

  lemma SecondsFound(s: string)
    ensures var (g, rest) := SecondsGroup(s);
            (g.Some? ==> Digits(g.value.0) && (g.value.1.Some? ==> Digits(g.value.1.value)) && s == SecondsText(g.value) + rest)
            && (g.None? ==> rest == s)
  {
    var n := DigitRun(s);
    if SecondsGroup(s).0.Some? {
      if "s" <= s[n..] {
        assert s == s[..n] + "s" + s[n + 1..];
      } else {
        FractionFound(s);
      }
    }
  }

  lemma FractionFound(s: string)
    requires var n := DigitRun(s); n > 0 && !("s" <= s[n..]) && SecondsGroup(s).0.Some?
    ensures var (g, rest) := SecondsGroup(s);
            Digits(g.value.0) && g.value.1.Some? && Digits(g.value.1.value) && s == SecondsText(g.value) + rest
  {
    hide DigitRun, Digits;
    var n := DigitRun(s);
    var t := s[n + 1..];
    var k := DigitRun(t);
    var whole, fraction, rest := s[..n], t[..k], t[k + 1..];
    assert SecondsGroup(s) == (Some((whole, Some(fraction))), rest);
    hide SecondsGroup;
    DigitsFound(s);
    DigitsFound(t);
    CutAt(s, n);
    CutAt(t, k);
    Regroup(whole, ".", fraction, "s", rest);
  }

  lemma DigitsFound(s: string)
    ensures DigitRun(s) > 0 ==> Digits(s[..DigitRun(s)])
  {
  }

  lemma CutAt(s: string, n: nat)
    requires n < |s|
    ensures s == s[..n] + ([s[n]] + s[n + 1..])
  {
  }

  lemma Regroup(a: string, b: string, c: string, d: string, e: string)
    ensures (a + (b + c) + d) + e == a + (b + (c + (d + e)))
  {
  }

  /** Main result: the parser accepts exactly the texts of the pattern, each with its only possible groups. */
  lemma ParsesExactly(text: string, p: Parts)
    ensures ParseParts(text) == Some(p) <==> Matches(text, p)
  {
    if ParseParts(text) == Some(p) {
      ParseSound(text, p);
    }
    if Matches(text, p) {
      ParseFinds(p);
    }
  }

  lemma ParseSound(text: string, p: Parts)
    requires ParseParts(text) == Some(p)
    ensures Matches(text, p)
  {
    GroupFound(text, "h");
    var afterHours := Group(text, "h").1;
    MinutesFound(afterHours);
    var afterMinutes := MinutesGroup(afterHours).1;
    SecondsFound(afterMinutes);
    var afterSeconds := SecondsGroup(afterMinutes).1;
    GroupFound(afterSeconds, "ms");
    hide Group, MinutesGroup, SecondsGroup, SecondsText, DigitRun, Digits;
    Assembled(p, text, afterHours, afterMinutes, afterSeconds);
    hide Text, Tail2, Tail3, Tail4;
    LookaheadIsFree(p);
  }

  lemma Assembled(p: Parts, text: string, afterHours: string, afterMinutes: string, afterSeconds: string)
    requires afterSeconds == if p.ms.Some? then p.ms.value + "ms" + "" else ""
    requires afterMinutes == (if p.s.Some? then SecondsText(p.s.value) + afterSeconds else afterSeconds)
    requires afterHours == (if p.m.Some? then p.m.value + "m" + afterMinutes else afterMinutes)
    requires text == (if p.h.Some? then p.h.value + "h" + afterHours else afterHours)
    ensures text == Text(p)
  {
    hide SecondsText;
    assert Tail4(p) == afterSeconds;
    assert Tail3(p) == afterMinutes;
    assert Tail2(p) == afterHours;
  }

  // ---- The printers

  /** The nearest whole number; at a tie either neighbour, as binary rounding of the input has it. */
  function Nearest(x: real, up: bool): int {
    var f := x.Floor;
    if x - f as real < 0.5 then f
    else if x - f as real > 0.5 then f + 1
    else if up then f + 1 else f
  }

  /** Tenths of a second, the fraction left out when it is zero. */
  function TenthsParts(k: nat): Parts {
    Parts(None, None, Some((Decimal(k / 10), if k % 10 == 0 then None else Some(Decimal(k % 10)))), None)
  }

  /** The printer of the reports. `up` decides ties of the one-decimal rounding. */
  function FormatParts(x: real, up: bool): Parts
    requires x >= 0.0
  {
    if x < 1.0 then
      NearestBounds(x * 1000.0);
      Parts(None, None, None, Some(Decimal(RoundEven(x * 1000.0))))
    else if x < 60.0 then
      TenthsBounds(x, up);
      TenthsParts(Nearest(x * 10.0, up))
    else
      var minutes := (x / 60.0).Floor;
      var rem := x - 60.0 * minutes as real;
      MinuteBounds(x);
      NearestBounds(rem);
      if minutes < 60 then Parts(None, Some(Decimal(minutes)), Some((Padded(RoundEven(rem)), None)), None)
      else Parts(Some(Decimal(minutes / 60)), Some(Padded(minutes % 60)), Some((Padded(RoundEven(rem)), None)), None)
  }

  function FormatDuration(x: real, up: bool): string {
    if x < 0.0 then "-" + Text(FormatParts(-x, up)) else Text(FormatParts(x, up))
  }

  lemma NearestBounds(x: real)
    requires x >= 0.0
    ensures RoundEven(x) >= 0 && -0.5 <= x - RoundEven(x) as real <= 0.5
  {
  }

  lemma TenthsBounds(x: real, up: bool)
    requires x >= 0.0
    ensures var k := Nearest(x * 10.0, up); k >= 0 && -0.05 <= x - k as real / 10.0 <= 0.05
  {
    var y := x * 10.0;
    assert y.Floor >= 0;
  }

  lemma MinuteBounds(x: real)
    requires x >= 60.0
    ensures (x / 60.0).Floor >= 1 && 0.0 <= x - 60.0 * (x / 60.0).Floor as real < 60.0
  {
  }

  /** The printer of the client. */
  function ClientParts(x: real, up: bool): Parts
    requires x >= 0.0
  {
    if 0.0 < x < 1.0 then Parts(None, None, None, Some(Decimal((x * 1000.0 + 0.5).Floor)))
    else
      TenthsBounds(x, up);
      var k := Nearest(x * 10.0, up);
      if k < 600 then TenthsParts(k)
      else
        var minutes, rest := k / 600, (k % 600 + 5) / 10;
        if rest == 0 then Parts(None, Some(Decimal(minutes)), None, None)
        else Parts(None, Some(Decimal(minutes)), Some((Decimal(rest), None)), None)
  }

  function ToDurationString(x: real, up: bool): string {
    if x < 0.0 then "0s" else Text(ClientParts(x, up))
  }

  // ---- Round trips

  lemma TenthsSeconds(k: nat)
    ensures WellFormed(TenthsParts(k)) && Seconds(TenthsParts(k)) == k as real / 10.0
  {
    DecimalIsNumber(k / 10);
    DecimalIsNumber(k % 10);
    assert k == 10 * (k / 10) + k % 10;
    if k % 10 != 0 {
      assert |Decimal(k % 10)| == 1;
      assert Pow10(1) == 10 * Pow10(0);
      assert Fraction(Decimal(k % 10)) == (k % 10) as real / 10.0;
    }
  }

  /** The bound on what printing loses, by the size of the duration. */
  function Loss(x: real): real {
    if x < 1.0 then 0.0005 else if x < 60.0 then 0.05 else 0.5
  }

  lemma FormatLoses(x: real, up: bool)
    requires x >= 0.0
    ensures var p := FormatParts(x, up);
            && WellFormed(p) && p != Parts(None, None, None, None)
            && -Loss(x) <= Seconds(p) - x <= Loss(x)
            && (x < 1.0 && OnGrid(x) ==> Seconds(p) == x)
  {
    if x < 1.0 {
      NearestBounds(x * 1000.0);
      DecimalIsNumber(RoundEven(x * 1000.0));
    } else if x < 60.0 {
      TenthsBounds(x, up);
      TenthsSeconds(Nearest(x * 10.0, up));
    } else {
      var minutes := (x / 60.0).Floor;
      var rem := x - 60.0 * minutes as real;
      MinuteBounds(x);
      NearestBounds(rem);
      DecimalIsNumber(minutes);
      DecimalIsNumber(minutes / 60);
      PaddedIsNumber(minutes % 60);
      PaddedIsNumber(RoundEven(rem));
      assert minutes == 60 * (minutes / 60) + minutes % 60;
    }
  }

  lemma {:induction false} TrimNothing(s: string)
    requires s != "" && !IsSpace(s[0]) && !IsSpace(s[|s| - 1])
    ensures Trim(s) == s
  {
  }

  /** The text of groups begins with a digit and ends with a letter, so trimming leaves it alone. */
  lemma TextIsTrimmed(p: Parts)
    requires WellFormed(p) && p != Parts(None, None, None, None)
    ensures Text(p) != "" && IsDigit(Text(p)[0]) && Trim(Text(p)) == Text(p)
  {
    TailEnds(p);
    TrimNothing(Text(p));
  }

  lemma TailEnds(p: Parts)
    requires WellFormed(p) && p != Parts(None, None, None, None)
    ensures Text(p) != "" && IsDigit(Text(p)[0]) && !IsSpace(Text(p)[|Text(p)| - 1])
  {
    assert Tail4(p) != "" ==> Tail4(p)[|Tail4(p)| - 1] == 's' && IsDigit(Tail4(p)[0]);
    assert Tail3(p) != "" ==> Tail3(p)[|Tail3(p)| - 1] == 's' && IsDigit(Tail3(p)[0]);
    assert Tail2(p) != "" ==> !IsSpace(Tail2(p)[|Tail2(p)| - 1]) && IsDigit(Tail2(p)[0]);
  }

  lemma ParseText(p: Parts)
    requires WellFormed(p) && p != Parts(None, None, None, None)
    ensures Parse(Text(p)) == Some(Seconds(p))
  {
    TextIsTrimmed(p);
    ParseFinds(p);
  }

  /** Main result: what the report printer prints is parsed back, to the same duration below a second (for whole
      milliseconds), within 0.05 s below a minute and within 0.5 s beyond - the carries to `60s` included. */
  lemma FormatRoundTrip(x: real, up: bool)
    requires x >= 0.0
    ensures var back := Parse(FormatDuration(x, up));
            back.Some? && -Loss(x) <= back.value - x <= Loss(x) && (x < 1.0 && OnGrid(x) ==> back.value == x)
  {
    FormatLoses(x, up);
    ParseText(FormatParts(x, up));
    hide Parse, FormatParts, Text, Seconds;
  }

  /** A negative duration is printed with a sign, which the parser rejects. */
  lemma NegativeIsNotParsed(x: real, up: bool)
    requires x < 0.0
    ensures Parse(FormatDuration(x, up)) == None
  {
    FormatLoses(-x, up);
    var p := FormatParts(-x, up);
    TailEnds(p);
    var text := "-" + Text(p);
    TrimNothing(text);
    forall q
      ensures !Matches(text, q)
    {
      if Matches(text, q) {
        if q != Parts(None, None, None, None) {
          TailEnds(q);
        }
      }
    }
    if ParseParts(text).Some? {
      ParsesExactly(text, ParseParts(text).value);
    }
  }

  /** The client's loss: as the report's below a minute, 0.55 s beyond. */
  function ClientLoss(x: real): real { if x < 60.0 then Loss(x) else 0.55 }

  lemma ClientLoses(x: real, up: bool)
    requires x >= 0.0
    ensures var p := ClientParts(x, up);
            && WellFormed(p) && p != Parts(None, None, None, None)
            && -ClientLoss(x) <= Seconds(p) - x <= ClientLoss(x)
            && (x < 1.0 && OnGrid(x) ==> Seconds(p) == x)
  {
    TenthsBounds(x, up);
    if x == 0.0 {
      assert (0.0 as real).Floor == 0;
      TenthsSeconds(0);
    } else if x < 1.0 {
      ClientMillis(x, up);
    } else if Nearest(x * 10.0, up) < 600 {
      TenthsSeconds(Nearest(x * 10.0, up));
    } else {
      ClientMinutes(x, up);
    }
  }

  lemma ClientMillis(x: real, up: bool)
    requires 0.0 < x < 1.0
    ensures var p := ClientParts(x, up);
            WellFormed(p) && p != Parts(None, None, None, None) && -0.0005 <= Seconds(p) - x <= 0.0005 && (OnGrid(x) ==> Seconds(p) == x)
  {
    var y := x * 1000.0;
    var n := (y + 0.5).Floor;
    DecimalIsNumber(n);
    assert y - 0.5 <= n as real <= y + 0.5;
    if OnGrid(x) {
      assert n == y.Floor;
    }
    hide Number, Decimal;
    assert Seconds(ClientParts(x, up)) == n as real / 1000.0;
  }

  lemma ClientMinutes(x: real, up: bool)
    requires x >= 1.0 && Nearest(x * 10.0, up) >= 600
    ensures var p := ClientParts(x, up);
            WellFormed(p) && p != Parts(None, None, None, None) && -ClientLoss(x) <= Seconds(p) - x <= ClientLoss(x)
  {
    hide Number, Decimal, Seconds;
    TenthsBounds(x, up);
    var k := Nearest(x * 10.0, up);
    var minutes, rest := k / 600, (k % 600 + 5) / 10;
    WholeMinutes(minutes, rest);
    TenthsInMinutes(k);
    if x < 60.0 {
      assert k == 600;
    }
    hide Nearest;
    LossesAdd(x, k as real / 10.0, (60 * minutes + rest) as real);
  }

  lemma LossesAdd(x: real, tenths: real, printed: real)
    requires -0.05 <= x - tenths <= 0.05 && -0.5 <= printed - tenths <= 0.5
    ensures -0.55 <= printed - x <= 0.55
  {
  }

  lemma WholeMinutes(minutes: nat, rest: nat)
    ensures var p := Parts(None, Some(Decimal(minutes)), if rest == 0 then None else Some((Decimal(rest), None)), None);
            WellFormed(p) && Seconds(p) == (60 * minutes + rest) as real
  {
    DecimalIsNumber(minutes);
    DecimalIsNumber(rest);
    hide Number, Decimal;
  }

  lemma TenthsInMinutes(k: nat)
    ensures var minutes, rest := k / 600, (k % 600 + 5) / 10;
            -0.5 <= (60 * minutes + rest) as real - k as real / 10.0 <= 0.5
  {
    var minutes, over := k / 600, k % 600;
    var rest := (over + 5) / 10;
    assert k == 600 * minutes + over;
    assert 10 * rest <= over + 5 < 10 * rest + 10;
  }

  /** Main result for the client's printer. */
  lemma ClientRoundTrip(x: real, up: bool)
    requires x >= 0.0
    ensures var back := Parse(ToDurationString(x, up));
            && back.Some? && -ClientLoss(x) <= back.value - x <= ClientLoss(x)
            && (x < 1.0 && OnGrid(x) ==> back.value == x)
  {
    ClientLoses(x, up);
    ParseText(ClientParts(x, up));
    hide Parse, ClientParts, Text, Seconds;
  }

  /** The bound is reached: 60.45 s may be printed as 1m1s. */
  lemma ClientBoundIsReached()
    ensures Parse(ToDurationString(60.45, true)) == Some(61.0)
  {
    assert (60.45 * 10.0) == 604.5 && (604.5 as real).Floor == 604;
    assert Nearest(60.45 * 10.0, true) == 605;
    var p := ClientParts(60.45, true);
    assert p == Parts(None, Some(Decimal(1)), Some((Decimal(1), None)), None);
    ClientLoses(60.45, true);
    ParseText(p);
    DecimalIsNumber(1);
  }
}
