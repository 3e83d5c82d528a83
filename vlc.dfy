/** The VLC launcher: the command `VLC.play` runs is the executable, the caller's
    arguments, the flags derived from the playtag's options in a fixed order, and the
    file last. Arguments are kept as a datatype rather than formatted strings. */
module Vlc {
  import opened Common

  /** What `Tag.parse_tag_to_options` returns: option name to value. */
  type Options = map<string, string>

  datatype Arg =
    | Program(path: string)
    | Passthrough(arg: string)
    | Gain(factor: real)            // --gain=<dB / 20>
    | StartTime(seconds: int)       // --start-time=<n>
    | StopTime(seconds: int)        // --stop-time=<n>
    | AudioDesync(milliseconds: int) // --audio-desync=<n>
    | AspectRatio(ratio: string)    // --aspect-ratio=<ratio>
    | HFlip                         // --video-filter=transform{type=hflip}
    | Media(path: string)

  predicate IsDigit(c: char)
  {
    '0' <= c <= '9'
  }

  predicate AllDigits(s: string)
  {
    forall i :: 0 <= i < |s| ==> IsDigit(s[i])
  }

  /** The regular-expression class `\s`. */
  predicate IsSpace(c: char)
  {
    c == ' ' || c == '\t' || c == '\n' || c == '\U{000B}' || c == '\U{000C}' || c == '\r'
  }

  /** A match of `[+-]?\d+(?:\.\d+)?`: sign, integer digits, fraction digits. */
  datatype Decimal = Decimal(sign: string, whole: string, fraction: string)

  predicate ValidDecimal(d: Decimal)
  {
    (d.sign == "" || d.sign == "+" || d.sign == "-") && |d.whole| > 0 && AllDigits(d.whole) && AllDigits(d.fraction)
  }

  /** The text a decimal was matched from. */
  function DecimalText(d: Decimal): string
  {
    d.sign + d.whole + (if d.fraction == "" then "" else "." + d.fraction)
  }

  function DigitValue(c: char): nat
    requires IsDigit(c)
  {
    (c as int - '0' as int) as nat
  }

  function DigitsValue(s: string): nat
    requires AllDigits(s)
  {
    if s == [] then 0 else DigitsValue(s[..|s| - 1]) * 10 + DigitValue(s[|s| - 1])
  }

  /** The value of the digits after a decimal point: `0.d1d2…`. */
  function FractionValue(s: string): (r: real)
    requires AllDigits(s)
    ensures 0.0 <= r <= 1.0
  {
    if s == [] then 0.0 else (DigitValue(s[0]) as real + FractionValue(s[1..])) / 10.0
  }

  /** `to_f` of the matched text, as an exact real. */
  function DecimalValue(d: Decimal): real
    requires ValidDecimal(d)
  {
    var magnitude := DigitsValue(d.whole) as real + FractionValue(d.fraction);
    if d.sign == "-" then -magnitude else magnitude
  }

  /** A decimal count of seconds in milliseconds. */
  function Milliseconds(d: Decimal): real
    requires ValidDecimal(d)
  {
    DecimalValue(d) * 1000.0
  }

  /** `to_i` on a number: truncation toward zero. */
  function Truncate(x: real): (r: int)
    ensures x >= 0.0 ==> r as real <= x < r as real + 1.0
    ensures x < 0.0 ==> r as real - 1.0 < x <= r as real
  {
    if x >= 0.0 then x.Floor else -((-x).Floor)
  }

  /** The end of the run of digits starting at `i`. */
  function DigitsEnd(s: string, i: nat): (j: nat)
    requires i <= |s|
    ensures i <= j <= |s| && AllDigits(s[i..j]) && (j < |s| ==> !IsDigit(s[j]))
    decreases |s| - i
  {
    if i < |s| && IsDigit(s[i]) then
      var j := DigitsEnd(s, i + 1);
      assert s[i..j] == [s[i]] + s[i + 1..j];
      j
    else i
  }

  /** The end of the run of `\s` characters starting at `i`. */
  function SpacesEnd(s: string, i: nat): (j: nat)
    requires i <= |s|
    ensures i <= j <= |s|
    decreases |s| - i
  {
    if i < |s| && IsSpace(s[i]) then SpacesEnd(s, i + 1) else i
  }

  /** The match of `[+-]?\d+(?:\.\d+)?` starting at `i`, and where it ends. The
      quantifiers are greedy; no backtracking can change the match, because whatever
      may follow a quantified run cannot continue it. */
  function DecimalAt(s: string, i: nat): (r: Option<(Decimal, nat)>)
    requires i <= |s|
    ensures r.Some? ==> ValidDecimal(r.value.0) && i < r.value.1 <= |s|
  {
    var signEnd := if i < |s| && (s[i] == '+' || s[i] == '-') then i + 1 else i;
    var wholeEnd := DigitsEnd(s, signEnd);
    if wholeEnd == signEnd then None
    else if wholeEnd + 1 < |s| && s[wholeEnd] == '.' && IsDigit(s[wholeEnd + 1]) then
      Some((Decimal(s[i..signEnd], s[signEnd..wholeEnd], s[wholeEnd + 1..DigitsEnd(s, wholeEnd + 1)]), DigitsEnd(s, wholeEnd + 1)))
    else
      Some((Decimal(s[i..signEnd], s[signEnd..wholeEnd], ""), wholeEnd))
  }

  lemma SliceSplit(s: string, i: nat, j: nat, k: nat)
    requires i <= j <= k <= |s|
    ensures s[i..k] == s[i..j] + s[j..k]
  {
  }

  /** What `DecimalAt` captures is the text it spans. */
  lemma DecimalAtSpans(s: string, i: nat)
    requires i <= |s| && DecimalAt(s, i).Some?
    ensures s[i..DecimalAt(s, i).value.1] == DecimalText(DecimalAt(s, i).value.0)
  {
    var signEnd: nat := if i < |s| && (s[i] == '+' || s[i] == '-') then i + 1 else i;
    var wholeEnd: nat := DigitsEnd(s, signEnd);
    SliceSplit(s, i, signEnd, wholeEnd);
    if wholeEnd + 1 < |s| && s[wholeEnd] == '.' && IsDigit(s[wholeEnd + 1]) {
      var end: nat := DigitsEnd(s, wholeEnd + 1);
      var d := Decimal(s[i..signEnd], s[signEnd..wholeEnd], s[wholeEnd + 1..end]);
      assert DecimalAt(s, i) == Some((d, end));
      SliceSplit(s, i, wholeEnd, end);
      SliceSplit(s, wholeEnd, wholeEnd + 1, end);
      assert s[wholeEnd..wholeEnd + 1] == ".";
      assert s[i..end] == (d.sign + d.whole) + ("." + d.fraction);
    } else {
      var d := Decimal(s[i..signEnd], s[signEnd..wholeEnd], "");
      assert DecimalAt(s, i) == Some((d, wholeEnd));
      assert s[i..wholeEnd] == d.sign + d.whole + "";
    }
  }

  /** A digit run followed by a non-digit is exactly what `DigitsEnd` scans. */
  lemma {:induction false} DigitsEndOf(s: string, i: nat, j: nat)
    requires i <= j <= |s| && AllDigits(s[i..j]) && (j < |s| ==> !IsDigit(s[j]))
    ensures DigitsEnd(s, i) == j
    decreases j - i
  {
    if i < j {
      assert IsDigit(s[i..j][0]);
      assert s[i + 1..j] == s[i..j][1..];
      DigitsEndOf(s, i + 1, j);
    }
  }

  /** Whenever the text from `i` to `end` is a decimal (an optional sign up to
      `signEnd`, digits up to `wholeEnd`, then possibly `.` and digits) that the next
      character cannot extend, `DecimalAt` matches exactly that decimal. */
  lemma DecimalAtFinds(s: string, i: nat, signEnd: nat, wholeEnd: nat, end: nat)
    requires i <= signEnd <= i + 1 && signEnd < wholeEnd <= end <= |s|
    requires signEnd == i + 1 ==> s[i] == '+' || s[i] == '-'
    requires AllDigits(s[signEnd..wholeEnd])
    requires end == wholeEnd || (wholeEnd + 1 < end && s[wholeEnd] == '.' && AllDigits(s[wholeEnd + 1..end]))
    requires end < |s| ==> !IsDigit(s[end]) && s[end] != '.'
    ensures DecimalAt(s, i) ==
              Some((Decimal(s[i..signEnd], s[signEnd..wholeEnd], if end == wholeEnd then "" else s[wholeEnd + 1..end]), end))
  {
    assert IsDigit(s[signEnd..wholeEnd][0]);
    DigitsEndOf(s, signEnd, wholeEnd);
    if end != wholeEnd {
      assert IsDigit(s[wholeEnd + 1..end][0]);
      DigitsEndOf(s, wholeEnd + 1, end);
    }
  }

  /** The text at `k` is `dB`. */
  predicate DbAt(s: string, k: nat)
  {
    k + 2 <= |s| && s[k] == 'd' && s[k + 1] == 'B'
  }

  /** A match of `([+-]?\d+(?:\.\d+)?)\s*dB` starting at `i`: the captured decimal. */
  function GainAt(s: string, i: nat): (r: Option<Decimal>)
    requires i <= |s|
    ensures r.Some? ==> ValidDecimal(r.value)
  {
    var m := DecimalAt(s, i);
    if m.Some? && DbAt(s, SpacesEnd(s, m.value.1)) then Some(m.value.0) else None
  }

  /** A run of `\s` characters followed by anything else is exactly what `SpacesEnd`
      scans. */
  lemma {:induction false} SpacesEndOf(s: string, i: nat, j: nat)
    requires i <= j <= |s| && (forall k :: i <= k < j ==> IsSpace(s[k])) && (j < |s| ==> !IsSpace(s[j]))
    ensures SpacesEnd(s, i) == j
    decreases j - i
  {
    if i < j {
      SpacesEndOf(s, i + 1, j);
    }
  }

  /** When the pattern matches at `i` (a decimal up to `end`, spaces up to `k`,
      then `dB`), `GainAt` captures that decimal. `GainAtSpans` is the converse. */
  lemma GainAtFinds(s: string, i: nat, signEnd: nat, wholeEnd: nat, end: nat, k: nat)
    requires i <= signEnd <= i + 1 && signEnd < wholeEnd <= end <= k && k + 2 <= |s|
    requires signEnd == i + 1 ==> s[i] == '+' || s[i] == '-'
    requires AllDigits(s[signEnd..wholeEnd])
    requires end == wholeEnd || (wholeEnd + 1 < end && s[wholeEnd] == '.' && AllDigits(s[wholeEnd + 1..end]))
    requires forall j :: end <= j < k ==> IsSpace(s[j])
    requires DbAt(s, k)
    ensures GainAt(s, i) ==
              Some(Decimal(s[i..signEnd], s[signEnd..wholeEnd], if end == wholeEnd then "" else s[wholeEnd + 1..end]))
  {
    assert end < |s| ==> !IsDigit(s[end]) && s[end] != '.' by {
      if end < k {
        assert IsSpace(s[end]);
      }
    }
    DecimalAtFinds(s, i, signEnd, wholeEnd, end);
    SpacesEndOf(s, end, k);
  }

  /** Every character `SpacesEnd` skips is a `\s`. */
  lemma {:induction false} SpacesEndSpans(s: string, i: nat)
    requires i <= |s|
    ensures forall k :: i <= k < SpacesEnd(s, i) ==> IsSpace(s[k])
    decreases |s| - i
  {
    if i < |s| && IsSpace(s[i]) {
      SpacesEndSpans(s, i + 1);
    }
  }

  /** Whatever `GainAt` captures is a match of the pattern at `i`: the decimal's
      text, then only `\s` characters, then `dB`. */
  lemma GainAtSpans(s: string, i: nat)
    requires i <= |s| && GainAt(s, i).Some?
    ensures exists end: nat, k: nat :: i < end <= k && k + 2 <= |s| && s[i..end] == DecimalText(GainAt(s, i).value)
                                      && (forall j :: end <= j < k ==> IsSpace(s[j])) && s[k] == 'd' && s[k + 1] == 'B'
  {
    var end := DecimalAt(s, i).value.1;
    var k := SpacesEnd(s, end);
    DecimalAtSpans(s, i);
    SpacesEndSpans(s, end);
    assert s[i..end] == DecimalText(GainAt(s, i).value);
  }

  /** The leftmost position in `i..n` where `matches` holds: how `=~` picks the
      match it reports. */
  function Leftmost(i: nat, n: nat, matches: nat -> bool): (r: Option<nat>)
    requires i <= n
    ensures r.None? <==> forall p :: i <= p <= n ==> !matches(p)
    ensures r.Some? ==> i <= r.value <= n && matches(r.value) && forall q :: i <= q < r.value ==> !matches(q)
    decreases n - i
  {
    if matches(i) then Some(i)
    else if i == n then None
    else Leftmost(i + 1, n, matches)
  }

  /** `=~` with the gain pattern: the position of the leftmost match at or after `i`. */
  function FirstGain(s: string, i: nat): (r: Option<nat>)
    requires i <= |s|
    ensures r.None? <==> forall p :: i <= p <= |s| ==> GainAt(s, p).None?
    ensures r.Some? ==> i <= r.value <= |s| && GainAt(s, r.value).Some?
                        && forall q :: i <= q < r.value ==> GainAt(s, q).None?
  {
    var matches := (p: nat) => p <= |s| && GainAt(s, p).Some?;
    assert forall p: nat :: matches(p) == (p <= |s| && GainAt(s, p).Some?);
    Leftmost(i, |s|, matches)
  }

  /** `=~` with `([+-]?\d+(?:\.\d+)?)`: the position of the leftmost decimal at or
      after `i`. */
  function FirstDecimal(s: string, i: nat): (r: Option<nat>)
    requires i <= |s|
    ensures r.None? <==> forall p :: i <= p <= |s| ==> DecimalAt(s, p).None?
    ensures r.Some? ==> i <= r.value <= |s| && DecimalAt(s, r.value).Some?
                        && forall q :: i <= q < r.value ==> DecimalAt(s, q).None?
  {
    var matches := (p: nat) => p <= |s| && DecimalAt(s, p).Some?;
    assert forall p: nat :: matches(p) == (p <= |s| && DecimalAt(s, p).Some?);
    Leftmost(i, |s|, matches)
  }

  /** `=~` with the gain pattern, then `last_match(1)`: the decimal the leftmost
      match captures. */
  function LeftmostGain(s: string): (r: Option<Decimal>)
    ensures r.Some? ==> ValidDecimal(r.value)
  {
    var p := FirstGain(s, 0);
    if p.Some? then GainAt(s, p.value) else None
  }

  /** `=~` with the decimal pattern, then `last_match(1)`. */
  function LeftmostDecimal(s: string): (r: Option<Decimal>)
    ensures r.Some? ==> ValidDecimal(r.value)
  {
    var p := FirstDecimal(s, 0);
    if p.Some? then Some(DecimalAt(s, p.value).value.0) else None
  }

  /** A match with none before it is the one `=~` reports. */
  lemma FirstGainIs(s: string, p: nat)
    requires p <= |s| && GainAt(s, p).Some? && forall q :: 0 <= q < p ==> GainAt(s, q).None?
    ensures FirstGain(s, 0) == Some(p)
  {
  }

  lemma FirstDecimalIs(s: string, p: nat)
    requires p <= |s| && DecimalAt(s, p).Some? && forall q :: 0 <= q < p ==> DecimalAt(s, q).None?
    ensures FirstDecimal(s, 0) == Some(p)
  {
  }

  /** `\d+:?\d*:?\d*`: a digit, then digits and at most two colons. */
  predicate IsClock(x: string)
  {
    |x| > 0 && IsDigit(x[0]) && (forall i :: 0 <= i < |x| ==> IsDigit(x[i]) || x[i] == ':')
    && ColonCount(x) <= 2
  }

  function ColonCount(x: string): nat
  {
    if x == [] then 0 else ColonCount(x[..|x| - 1]) + (if x[|x| - 1] == ':' then 1 else 0)
  }

  /** The whole text matches `\d+:?\d*:?\d*(?:\.\d+)?`. */
  predicate IsTimeText(s: string)
  {
    IsClock(s) || exists k | 0 < k < |s| - 1 :: s[k] == '.' && IsClock(s[..k]) && AllDigits(s[k + 1..])
  }

  /** The time pattern never matches a `-`, so a dash in the option decides the shape. */
  lemma TimeTextHasNoDash(s: string)
    requires IsTimeText(s)
    ensures forall i :: 0 <= i < |s| ==> s[i] != '-'
  {
    if !IsClock(s) {
      var k :| 0 < k < |s| - 1 && s[k] == '.' && IsClock(s[..k]) && AllDigits(s[k + 1..]);
      forall i | 0 <= i < |s|
        ensures s[i] != '-'
      {
        if i < k {
          assert s[i] == s[..k][i];
        } else if i > k {
          assert s[i] == s[k + 1..][i - k - 1];
        }
      }
    }
  }

  /** The three shapes of `t`, tried in the source's order. */
  datatype TimeRange = StartStop(start: string, stop: string) | StartOnly(start: string) | StopOnly(stop: string) | NoRange

  /** The index of the first `-`. */
  function DashIndex(t: string, i: nat): (r: Option<nat>)
    requires i <= |t|
    ensures r.None? ==> forall j :: i <= j < |t| ==> t[j] != '-'
    ensures r.Some? ==> i <= r.value < |t| && t[r.value] == '-' && forall j :: i <= j < r.value ==> t[j] != '-'
    decreases |t| - i
  {
    if i == |t| then None else if t[i] == '-' then Some(i) else DashIndex(t, i + 1)
  }

  /** The `case opts['t']` match: `^(T)-(T)$`, then `^(T)-?$`, then `^-(T)$`. */
  function ParseRange(t: string): TimeRange
  {
    match DashIndex(t, 0)
    case None => if IsTimeText(t) then StartOnly(t) else NoRange
    case Some(k) =>
      if IsTimeText(t[..k]) && IsTimeText(t[k + 1..]) then StartStop(t[..k], t[k + 1..])
      else if k == |t| - 1 && IsTimeText(t[..k]) then StartOnly(t[..k])
      else if k == 0 && IsTimeText(t[1..]) then StopOnly(t[1..])
      else NoRange
  }

  /** `t` is read as a start and a stop exactly when it is `a-b` with both bounds
      times. */
  lemma ParseRangeStartStop(t: string, a: string, b: string)
    ensures ParseRange(t) == StartStop(a, b) <==> t == a + "-" + b && IsTimeText(a) && IsTimeText(b)
  {
    if t == a + "-" + b && IsTimeText(a) && IsTimeText(b) {
      TimeTextHasNoDash(a);
      assert t[|a|] == '-';
      assert forall j :: 0 <= j < |a| ==> t[j] == a[j];
      assert DashIndex(t, 0) == Some(|a|);
      assert t[..|a|] == a && t[|a| + 1..] == b;
    }
  }

  /** `t` is read as a start only exactly when it is `a` or `a-` with `a` a time. */
  lemma ParseRangeStartOnly(t: string, a: string)
    ensures ParseRange(t) == StartOnly(a) <==> IsTimeText(a) && (t == a || t == a + "-")
  {
    if IsTimeText(a) && (t == a || t == a + "-") {
      TimeTextHasNoDash(a);
      if t == a {
        assert DashIndex(t, 0).None?;
      } else {
        assert t[|a|] == '-';
        assert forall j :: 0 <= j < |a| ==> t[j] == a[j];
        assert DashIndex(t, 0) == Some(|a|);
        assert t[..|a|] == a && t[|a| + 1..] == "";
      }
    }
    if ParseRange(t) == StartOnly(a) && DashIndex(t, 0).Some? {
      var k := DashIndex(t, 0).value;
      assert t == t[..k] + "-";
    }
  }

  /** `t` is read as a stop only exactly when it is `-b` with `b` a time. */
  lemma ParseRangeStopOnly(t: string, b: string)
    ensures ParseRange(t) == StopOnly(b) <==> IsTimeText(b) && t == "-" + b
  {
    if IsTimeText(b) && t == "-" + b {
      assert DashIndex(t, 0) == Some(0);
      assert t[1..] == b;
      assert !IsTimeText(t[..0]);
    }
    if ParseRange(t) == StopOnly(b) {
      assert t == [t[0]] + t[1..];
    }
  }

  /** `t` matches none of the three shapes exactly when it is not a time and no dash
      in it splits it into a start-stop, start-only or stop-only form. */
  lemma ParseRangeNoRange(t: string)
    ensures ParseRange(t) == NoRange <==>
              !IsTimeText(t)
              && forall k :: 0 <= k < |t| && t[k] == '-' ==>
                   !(IsTimeText(t[..k]) && IsTimeText(t[k + 1..]))
                   && !(k == |t| - 1 && IsTimeText(t[..k]))
                   && !(k == 0 && IsTimeText(t[1..]))
  {
    if ParseRange(t) == NoRange {
      match DashIndex(t, 0)
      case None =>
      case Some(d) =>
        if IsTimeText(t) {
          TimeTextHasNoDash(t);
        }
        forall k | 0 <= k < |t| && t[k] == '-'
          ensures !(IsTimeText(t[..k]) && IsTimeText(t[k + 1..]))
          ensures !(k == |t| - 1 && IsTimeText(t[..k]))
          ensures !(k == 0 && IsTimeText(t[1..]))
        {
          if k != d {
            assert d < k && t[..k][d] == '-';
            if IsTimeText(t[..k]) {
              TimeTextHasNoDash(t[..k]);
            }
          }
        }
    }
  }

  /** `--start-time` / `--stop-time`, present only when `parse_time` gave a value. */
  function StartFlag(time: Option<real>): seq<Arg>
  {
    if time.Some? then [StartTime(Truncate(time.value))] else []
  }

  function StopFlag(time: Option<real>): seq<Arg>
  {
    if time.Some? then [StopTime(Truncate(time.value))] else []
  }

  /** The timing flags of the `t` option. */
  function TimeFlags(t: string, parseTime: string -> Option<real>): (r: seq<Arg>)
    ensures Ordered(r) && RanksWithin(r, 2, 3)
  {
    match ParseRange(t)
    case StartStop(a, b) => StartFlag(parseTime(a)) + StopFlag(parseTime(b))
    case StartOnly(a) => StartFlag(parseTime(a))
    case StopOnly(b) => StopFlag(parseTime(b))
    case NoRange => []
  }

  /** `a-b`: a start flag and a stop flag, each present when `parse_time` gives a
      value, in that order. */
  lemma TimeFlagsStartStop(t: string, a: string, b: string, parseTime: string -> Option<real>)
    requires t == a + "-" + b && IsTimeText(a) && IsTimeText(b)
    ensures TimeFlags(t, parseTime) == StartFlag(parseTime(a)) + StopFlag(parseTime(b))
  {
    ParseRangeStartStop(t, a, b);
  }

  /** `a` or `a-`: a start flag only. */
  lemma TimeFlagsStartOnly(t: string, a: string, parseTime: string -> Option<real>)
    requires IsTimeText(a) && (t == a || t == a + "-")
    ensures TimeFlags(t, parseTime) == StartFlag(parseTime(a))
  {
    ParseRangeStartOnly(t, a);
  }

  /** `-b`: a stop flag only. */
  lemma TimeFlagsStopOnly(t: string, b: string, parseTime: string -> Option<real>)
    requires IsTimeText(b) && t == "-" + b
    ensures TimeFlags(t, parseTime) == StopFlag(parseTime(b))
  {
    ParseRangeStopOnly(t, b);
  }

  /** Any other text: no timing flag. */
  lemma TimeFlagsNoMatch(t: string, parseTime: string -> Option<real>)
    requires !IsTimeText(t)
    requires forall k :: 0 <= k < |t| && t[k] == '-' ==>
               !(IsTimeText(t[..k]) && IsTimeText(t[k + 1..]))
               && !(k == |t| - 1 && IsTimeText(t[..k]))
               && !(k == 0 && IsTimeText(t[1..]))
    ensures TimeFlags(t, parseTime) == []
  {
    ParseRangeNoRange(t);
  }

  /** A present bound is `parse_time`'s value truncated toward zero. */
  lemma TimeFlagValues(time: Option<real>)
    ensures |StartFlag(time)| == |StopFlag(time)| == if time.Some? then 1 else 0
    ensures time.Some? ==> StartFlag(time)[0].seconds == StopFlag(time)[0].seconds == Truncate(time.value)
  {
  }

  /** The flags of a run are in the fixed order, each kind at most once. */
  predicate Ordered(flags: seq<Arg>)
  {
    forall i, j :: 0 <= i < j < |flags| ==> Rank(flags[i]) < Rank(flags[j])
  }

  /** Every flag of a run has a rank in `lo..hi`. */
  predicate RanksWithin(flags: seq<Arg>, lo: nat, hi: nat)
  {
    forall i :: 0 <= i < |flags| ==> lo <= Rank(flags[i]) <= hi
  }

  /** `--gain`: the first decimal before `dB` in `vol`, over 20. */
  function GainFlags(opts: Options): (r: seq<Arg>)
    ensures |r| <= 1 && RanksWithin(r, 1, 1)
  {
    if "vol" in opts && LeftmostGain(opts["vol"]).Some? then
      [Gain(DecimalValue(LeftmostGain(opts["vol"]).value) / 20.0)]
    else []
  }

  /** A gain flag is emitted exactly when `vol` holds a match of the gain pattern
      somewhere. */
  lemma GainFlagsPresent(opts: Options)
    ensures |GainFlags(opts)| == 1 <==> "vol" in opts && exists p :: 0 <= p <= |opts["vol"]| && GainAt(opts["vol"], p).Some?
  {
    if "vol" in opts && FirstGain(opts["vol"], 0).Some? {
      assert GainAt(opts["vol"], FirstGain(opts["vol"], 0).value).Some?;
    }
  }

  /** The gain flag carries the decibels of the leftmost match, over 20. */
  lemma GainFlagsLeftmost(opts: Options, p: nat)
    requires "vol" in opts && p <= |opts["vol"]| && GainAt(opts["vol"], p).Some?
    requires forall q :: 0 <= q < p ==> GainAt(opts["vol"], q).None?
    ensures GainFlags(opts) == [Gain(DecimalValue(GainAt(opts["vol"], p).value) / 20.0)]
  {
    FirstGainIs(opts["vol"], p);
  }

  /** The timing flags of `t`, when it is there. */
  function TimeOptionFlags(opts: Options, parseTime: string -> Option<real>): (r: seq<Arg>)
    ensures Ordered(r) && RanksWithin(r, 2, 3)
  {
    if "t" in opts then TimeFlags(opts["t"], parseTime) else []
  }

  /** `--audio-desync`: the first decimal in `av-delay`, in milliseconds, truncated. */
  function DesyncFlags(opts: Options): (r: seq<Arg>)
    ensures |r| <= 1 && RanksWithin(r, 4, 4)
  {
    if "av-delay" in opts && LeftmostDecimal(opts["av-delay"]).Some? then
      [AudioDesync(Truncate(Milliseconds(LeftmostDecimal(opts["av-delay"]).value)))]
    else []
  }

  /** An audio-desync flag is emitted exactly when `av-delay` holds a decimal
      somewhere. */
  lemma DesyncFlagsPresent(opts: Options)
    ensures |DesyncFlags(opts)| == 1 <==>
              "av-delay" in opts && exists p :: 0 <= p <= |opts["av-delay"]| && DecimalAt(opts["av-delay"], p).Some?
  {
    if "av-delay" in opts && FirstDecimal(opts["av-delay"], 0).Some? {
      assert DecimalAt(opts["av-delay"], FirstDecimal(opts["av-delay"], 0).value).Some?;
    }
  }

  /** The audio-desync flag carries the leftmost decimal in milliseconds, truncated
      toward zero. */
  lemma DesyncFlagsLeftmost(opts: Options, p: nat)
    requires "av-delay" in opts && p <= |opts["av-delay"]| && DecimalAt(opts["av-delay"], p).Some?
    requires forall q :: 0 <= q < p ==> DecimalAt(opts["av-delay"], q).None?
    ensures DesyncFlags(opts) == [AudioDesync(Truncate(Milliseconds(DecimalAt(opts["av-delay"], p).value.0)))]
  {
    FirstDecimalIs(opts["av-delay"], p);
  }

  /** `--aspect-ratio`, verbatim. */
  function AspectFlags(opts: Options): (r: seq<Arg>)
    ensures |r| <= 1 && RanksWithin(r, 5, 5)
    ensures |r| == 1 <==> "aspect-ratio" in opts
    ensures |r| == 1 ==> r[0] == AspectRatio(opts["aspect-ratio"])
  {
    if "aspect-ratio" in opts then [AspectRatio(opts["aspect-ratio"])] else []
  }

  /** The hflip filter, once, when `mirror` is set. */
  function MirrorFlags(opts: Options): (r: seq<Arg>)
    ensures |r| <= 1 && RanksWithin(r, 6, 6)
    ensures |r| == 1 <==> "mirror" in opts
    ensures |r| == 1 ==> r[0] == HFlip
  {
    if "mirror" in opts then [HFlip] else []
  }

  /** The flags derived from the options, in the source's order. */
  function DerivedFlags(opts: Options, parseTime: string -> Option<real>): seq<Arg>
  {
    GainFlags(opts) + TimeOptionFlags(opts, parseTime) + DesyncFlags(opts) + AspectFlags(opts) + MirrorFlags(opts)
  }

  /** The caller's arguments, passed through. */
  function Passthroughs(args: seq<string>): (r: seq<Arg>)
    ensures |r| == |args| && forall i :: 0 <= i < |args| ==> r[i] == Passthrough(args[i])
  {
    seq(|args|, i requires 0 <= i < |args| => Passthrough(args[i]))
  }

  /** The flags a tag contributes: none without a tag or with an empty one. */
  function TagFlags(tag: Option<string>, parseOptions: string -> Options, parseTime: string -> Option<real>): seq<Arg>
  {
    if tag.Some? && tag.value != "" then DerivedFlags(parseOptions(tag.value), parseTime) else []
  }

  /** The command `play` runs. */
  function Command(exe: string, vlcArgs: seq<string>, flags: seq<Arg>, file: string): seq<Arg>
  {
    [Program(exe)] + Passthroughs(vlcArgs) + flags + [Media(file)]
  }

  /** The position of each derived flag in the fixed order. */
  function Rank(a: Arg): nat
  {
    match a
    case Gain(_) => 1
    case StartTime(_) => 2
    case StopTime(_) => 3
    case AudioDesync(_) => 4
    case AspectRatio(_) => 5
    case HFlip => 6
    case _ => 0
  }

  /** Two ordered runs whose ranks do not overlap make an ordered run. */
  lemma {:induction false} OrderedAppend(a: seq<Arg>, b: seq<Arg>, lo: nat, mid: nat, hi: nat)
    requires lo <= mid <= hi
    requires Ordered(a) && Ordered(b) && RanksWithin(a, lo, mid) && RanksWithin(b, mid + 1, hi)
    ensures Ordered(a + b) && RanksWithin(a + b, lo, hi)
  {
    forall i, j | 0 <= i < j < |a + b|
      ensures Rank((a + b)[i]) < Rank((a + b)[j])
    {
      if j < |a| {
        assert (a + b)[i] == a[i] && (a + b)[j] == a[j];
      } else if i >= |a| {
        assert (a + b)[i] == b[i - |a|] && (a + b)[j] == b[j - |a|];
      } else {
        assert (a + b)[i] == a[i] && (a + b)[j] == b[j - |a|];
      }
    }
    forall i | 0 <= i < |a + b|
      ensures lo <= Rank((a + b)[i]) <= hi
    {
      if i < |a| {
        assert (a + b)[i] == a[i];
      } else {
        assert (a + b)[i] == b[i - |a|];
      }
    }
  }

  /** Derived flags come in the fixed order gain, start, stop, audio-desync,
      aspect-ratio, hflip, each at most once, and are never a program, a passed-through
      argument or a file. */
  lemma DerivedFlagsOrdered(opts: Options, parseTime: string -> Option<real>)
    ensures Ordered(DerivedFlags(opts, parseTime)) && RanksWithin(DerivedFlags(opts, parseTime), 1, 6)
  {
    var g := GainFlags(opts);
    var t := TimeOptionFlags(opts, parseTime);
    var d := DesyncFlags(opts);
    var a := AspectFlags(opts);
    var m := MirrorFlags(opts);
    OrderedAppend(g, t, 1, 1, 3);
    OrderedAppend(g + t, d, 1, 3, 4);
    OrderedAppend(g + t + d, a, 1, 4, 5);
    OrderedAppend(g + t + d + a, m, 1, 5, 6);
  }

  /** A flag whose rank lies outside a run's ranks is not in the run. */
  lemma RankExcludes(flags: seq<Arg>, lo: nat, hi: nat, x: Arg)
    requires RanksWithin(flags, lo, hi) && !(lo <= Rank(x) <= hi)
    ensures x !in flags
  {
  }

  /** The hflip filter is among the derived flags exactly when `mirror` is set. */
  lemma DerivedFlagsMirror(opts: Options, parseTime: string -> Option<real>)
    ensures HFlip in DerivedFlags(opts, parseTime) <==> "mirror" in opts
  {
    var g := GainFlags(opts);
    var t := TimeOptionFlags(opts, parseTime);
    var d := DesyncFlags(opts);
    var a := AspectFlags(opts);
    var m := MirrorFlags(opts);
    OrderedAppend(g, t, 1, 1, 3);
    OrderedAppend(g + t, d, 1, 3, 4);
    OrderedAppend(g + t + d, a, 1, 4, 5);
    RankExcludes(g + t + d + a, 1, 5, HFlip);
    assert DerivedFlags(opts, parseTime) == (g + t + d + a) + m;
  }

  /** An aspect ratio is among the derived flags exactly when `aspect-ratio` is set,
      and it is that option's value. */
  lemma DerivedFlagsAspect(opts: Options, parseTime: string -> Option<real>, ratio: string)
    ensures AspectRatio(ratio) in DerivedFlags(opts, parseTime) <==>
              "aspect-ratio" in opts && ratio == opts["aspect-ratio"]
  {
    var g := GainFlags(opts);
    var t := TimeOptionFlags(opts, parseTime);
    var d := DesyncFlags(opts);
    var a := AspectFlags(opts);
    var m := MirrorFlags(opts);
    OrderedAppend(g, t, 1, 1, 3);
    OrderedAppend(g + t, d, 1, 3, 4);
    RankExcludes(g + t + d, 1, 4, AspectRatio(ratio));
    RankExcludes(m, 6, 6, AspectRatio(ratio));
    assert DerivedFlags(opts, parseTime) == (g + t + d) + a + m;
  }

  /** The shape of every command: the executable first, then the caller's arguments
      in order, then the tag's flags, the file last. */
  lemma CommandShape(exe: string, vlcArgs: seq<string>, flags: seq<Arg>, file: string)
    ensures var c := Command(exe, vlcArgs, flags, file);
            |c| == |vlcArgs| + |flags| + 2 && c[0] == Program(exe) && c[|c| - 1] == Media(file)
            && (forall i :: 0 <= i < |vlcArgs| ==> c[1 + i] == Passthrough(vlcArgs[i]))
            && c[1 + |vlcArgs|..|c| - 1] == flags
  {
    var c := Command(exe, vlcArgs, flags, file);
    var head := [Program(exe)] + Passthroughs(vlcArgs);
    assert c == head + flags + [Media(file)];
    forall i | 0 <= i < |vlcArgs|
      ensures c[1 + i] == Passthrough(vlcArgs[i])
    {
      assert c[1 + i] == head[1 + i];
    }
    assert c[|head|..|c| - 1] == flags;
  }

  /** Only a non-empty tag contributes flags, and those come in the fixed order. */
  lemma TagFlagsOrdered(tag: Option<string>, parseOptions: string -> Options, parseTime: string -> Option<real>)
    ensures tag.None? || tag.value == "" ==> TagFlags(tag, parseOptions, parseTime) == []
    ensures Ordered(TagFlags(tag, parseOptions, parseTime)) && RanksWithin(TagFlags(tag, parseOptions, parseTime), 1, 6)
  {
    if tag.Some? && tag.value != "" {
      DerivedFlagsOrdered(parseOptions(tag.value), parseTime);
    }
  }

  /** `play`: nothing runs for a missing file or when no VLC executable is found;
      otherwise the command is `Command` with the tag `Tag.read` returned. */
  datatype Launch = NotLaunched | Launched(command: seq<Arg>)

  /** The `vol` step: append the gain flag to `command`. */
  method AppendGainFlag(command: seq<Arg>, opts: Options) returns (extended: seq<Arg>)
    ensures extended == command + GainFlags(opts)
  {
    extended := command;
    if "vol" in opts {
      var m := LeftmostGain(opts["vol"]);
      if m.Some? {
        var dbValue := DecimalValue(m.value);
        extended := extended + [Gain(dbValue / 20.0)];
      }
    }
  }

  /** The `av-delay` step: append the audio-desync flag to `command`. */
  method AppendDesyncFlag(command: seq<Arg>, opts: Options) returns (extended: seq<Arg>)
    ensures extended == command + DesyncFlags(opts)
  {
    extended := command;
    if "av-delay" in opts {
      var m := LeftmostDecimal(opts["av-delay"]);
      if m.Some? {
        var delayMs := Milliseconds(m.value);
        extended := extended + [AudioDesync(Truncate(delayMs))];
      }
    }
  }

  /** The `case opts['t']` step: append the timing flags of `t` to `command`. */
  method AppendTimeFlags(command: seq<Arg>, t: string, parseTime: string -> Option<real>) returns (extended: seq<Arg>)
    ensures extended == command + TimeFlags(t, parseTime)
  {
    extended := command;
    match ParseRange(t) {
      case StartStop(a, b) =>
        var startTime := parseTime(a);
        var stopTime := parseTime(b);
        if startTime.Some? {
          extended := extended + [StartTime(Truncate(startTime.value))];
        }
        if stopTime.Some? {
          extended := extended + [StopTime(Truncate(stopTime.value))];
        }
      case StartOnly(a) =>
        var startTime := parseTime(a);
        if startTime.Some? {
          extended := extended + [StartTime(Truncate(startTime.value))];
        }
      case StopOnly(b) =>
        var stopTime := parseTime(b);
        if stopTime.Some? {
          extended := extended + [StopTime(Truncate(stopTime.value))];
        }
      case NoRange =>
    }
  }

  lemma AppendFive(c: seq<Arg>, g: seq<Arg>, t: seq<Arg>, d: seq<Arg>, a: seq<Arg>, m: seq<Arg>)
    ensures c + (g + t + d + a + m) == c + g + t + d + a + m
  {
  }

  /** The body of `if tag && !tag.empty?`: append the option-derived flags in the
      source's order. */
  method AppendDerivedFlags(command: seq<Arg>, opts: Options, parseTime: string -> Option<real>) returns (extended: seq<Arg>)
    ensures extended == command + DerivedFlags(opts, parseTime)
  {
    ghost var g, t, d, a, m := GainFlags(opts), TimeOptionFlags(opts, parseTime), DesyncFlags(opts), AspectFlags(opts), MirrorFlags(opts);
    extended := AppendGainFlag(command, opts);
    if "t" in opts {
      extended := AppendTimeFlags(extended, opts["t"], parseTime);
    }
    assert extended == command + g + t;
    extended := AppendDesyncFlag(extended, opts);
    if "aspect-ratio" in opts {
      extended := extended + [AspectRatio(opts["aspect-ratio"])];
    }
    assert extended == command + g + t + d + a;
    if "mirror" in opts {
      extended := extended + [HFlip];
    }
    assert extended == command + g + t + d + a + m;
    assert DerivedFlags(opts, parseTime) == g + t + d + a + m;
    AppendFive(command, g, t, d, a, m);
  }

  /** `VLC.play`, building `command` step by step as the source does. */
  method Play(fileExists: bool, vlcExe: Option<string>, tag: Option<string>, file: string, vlcArgs: seq<string>,
              parseOptions: string -> Options, parseTime: string -> Option<real>) returns (r: Launch)
    ensures !fileExists || vlcExe.None? ==> r == NotLaunched
    ensures fileExists && vlcExe.Some? ==>
              r == Launched(Command(vlcExe.value, vlcArgs, TagFlags(tag, parseOptions, parseTime), file))
  {
    if !fileExists {
      return NotLaunched;
    }
    if vlcExe.None? {
      return NotLaunched;
    }
    var command := [Program(vlcExe.value)];
    command := command + Passthroughs(vlcArgs);
    if tag.Some? && tag.value != "" {
      var opts := parseOptions(tag.value);
      command := AppendDerivedFlags(command, opts, parseTime);
    }
    command := command + [Media(file)];
    return Launched(command);
  }
}
