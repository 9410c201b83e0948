/** The reader of ffmpeg's "-progress" output: each line is stripped and
    sorted into a progress sample in seconds (from "out_time_ms=" or
    "out_time=" lines), a line to ignore (blank lines, "progress=" lines and
    values that do not parse), or a line for the log. Number parsing follows
    the integer and float syntax of the source's language for ASCII input. */
module ProgressParser {
  import opened Wrappers
  import opened NaturalSort

  /** The characters a strip removes. */
  predicate IsSpace(c: char) {
    || c == ' ' || '\t' <= c <= '\r' || '\U{1C}' <= c <= '\U{1F}'
    || c == '\U{85}' || c == '\U{A0}' || c == '\U{1680}' || '\U{2000}' <= c <= '\U{200A}'
    || c == '\U{2028}' || c == '\U{2029}' || c == '\U{202F}' || c == '\U{205F}' || c == '\U{3000}'
  }

  function StripLeft(s: string): (r: string)
    ensures |r| <= |s| && r == s[|s| - |r|..]
    ensures r != [] ==> !IsSpace(r[0])
    ensures forall i :: 0 <= i < |s| - |r| ==> IsSpace(s[i])
  {
    if s != [] && IsSpace(s[0]) then StripLeft(s[1..]) else s
  }

  function StripRight(s: string): (r: string)
    ensures |r| <= |s| && r == s[..|r|]
    ensures r != [] ==> !IsSpace(r[|r| - 1])
    ensures forall i :: |r| <= i < |s| ==> IsSpace(s[i])
  {
    if s != [] && IsSpace(s[|s| - 1]) then StripRight(s[..|s| - 1]) else s
  }

  /** Leading and trailing white space removed. */
  function Strip(s: string): string {
    StripRight(StripLeft(s))
  }

  /** A stripped string has no white space at either end, and so strips to
      itself: the strip is idempotent. */
  lemma StripIdempotent(s: string)
    ensures var t := Strip(s);
            && (t != [] ==> !IsSpace(t[0]) && !IsSpace(t[|t| - 1]))
            && Strip(t) == t
  {
    var l := StripLeft(s);
    var t := StripRight(l);
    if t != [] {
      assert t[0] == l[0];
    }
  }

  function StartsWith(s: string, prefix: string): bool {
    |prefix| <= |s| && s[..|prefix|] == prefix
  }

  /** Index of the first c in s, or |s|. */
  function FirstIndex(s: string, c: char): (i: nat)
    ensures i <= |s| && c !in s[..i]
    ensures i < |s| ==> s[i] == c
  {
    if s == [] || s[0] == c then 0 else 1 + FirstIndex(s[1..], c)
  }

  /** Splitting at every c; one more part than there are c's. */
  function SplitOn(s: string, c: char): (parts: seq<string>)
    ensures |parts| >= 1
    decreases |s|
  {
    var i := FirstIndex(s, c);
    if i == |s| then [s] else [s[..i]] + SplitOn(s[i + 1..], c)
  }

  /** No two underscores in a row. */
  predicate SingleUnderscores(s: string) {
    |s| < 2 || (!(s[0] == '_' && s[1] == '_') && SingleUnderscores(s[1..]))
  }

  lemma {:induction false} DigitsSingleUnderscores(s: string)
    requires AllDigits(s)
    ensures SingleUnderscores(s)
    decreases |s|
  {
    if |s| >= 2 {
      DigitsSingleUnderscores(s[1..]);
    }
  }

  /** Digits with single underscores between them, as in "1_000". */
  predicate DigitGroups(s: string) {
    && |s| > 0 && IsDigit(s[0]) && IsDigit(s[|s| - 1])
    && (forall i :: 0 <= i < |s| ==> IsDigit(s[i]) || s[i] == '_')
    && SingleUnderscores(s)
  }

  /** A non-empty digit run is a digit group. */
  lemma DigitsAreGroups(s: string)
    requires s != [] && AllDigits(s)
    ensures DigitGroups(s) && GroupsValue(s) == DigitsValue(s)
  {
    DigitsSingleUnderscores(s);
  }

  function DropUnderscores(s: string): (r: string)
    requires forall i :: 0 <= i < |s| ==> IsDigit(s[i]) || s[i] == '_'
    ensures AllDigits(r)
    ensures AllDigits(s) ==> r == s
  {
    if s == [] then []
    else (if s[0] == '_' then [] else [s[0]]) + DropUnderscores(s[1..])
  }

  function GroupsValue(s: string): nat
    requires DigitGroups(s)
  {
    DigitsValue(DropUnderscores(s))
  }

  /** An optional sign in front of the rest. */
  function SignOf(t: string): (bool, string) {
    if |t| > 0 && (t[0] == '+' || t[0] == '-') then (t[0] == '-', t[1..]) else (false, t)
  }

  /** Conversion of text to an integer: white space around an optionally
      signed run of digit groups; None where the conversion raises. */
  function ParseInt(s: string): Option<int> {
    var (neg, body) := SignOf(Strip(s));
    if DigitGroups(body) then Some(if neg then -(GroupsValue(body) as int) else GroupsValue(body)) else None
  }

  function Pow10(n: nat): (p: nat)
    ensures p >= 1
  {
    if n == 0 then 1 else 10 * Pow10(n - 1)
  }

  /** The value of digits after a decimal point. */
  function FractionValue(b: string): real
    requires DigitGroups(b)
  {
    (GroupsValue(b) as real) / (Pow10(|DropUnderscores(b)|) as real)
  }

  /** The value of an unsigned decimal with digits before and/or after the
      point. */
  function DecimalParts(a: string, b: string): Option<real> {
    if (a == [] || DigitGroups(a)) && (b == [] || DigitGroups(b)) && !(a == [] && b == []) then
      Some((if a == [] then 0.0 else GroupsValue(a) as real) + (if b == [] then 0.0 else FractionValue(b)))
    else None
  }

  function ParseDecimal(body: string): Option<real> {
    var i := FirstIndex(body, '.');
    if i == |body| then (if DigitGroups(body) then Some(GroupsValue(body) as real) else None)
    else DecimalParts(body[..i], body[i + 1..])
  }

  function Negated(neg: bool, v: Option<real>): Option<real> {
    match v
    case Some(x) => Some(if neg then -x else x)
    case None => None
  }

  /** Conversion of text to a float for plain decimal notation: white space
      around an optionally signed number with digits before and/or after a
      decimal point. */
  function ParseFloat(s: string): Option<real> {
    var signed := SignOf(Strip(s));
    Negated(signed.0, ParseDecimal(signed.1))
  }

  /** What one output line amounts to. */
  datatype Event = Skip | Progress(seconds: real) | Log(text: string)

  /** The value of a key=value line: everything after its first '='. */
  function ValueOf(line: string): string {
    var i := FirstIndex(line, '=');
    if i < |line| then line[i + 1..] else []
  }

  /** The keys the reader knows. */
  const MsKey: string := "out_time_ms="
  const TimeKey: string := "out_time="
  const ProgressKey: string := "progress="

  /** Sort one line of the progress output. */
  function ClassifyLine(raw: string): Event {
    ClassifyStripped(Strip(raw))
  }

  /** Sort a stripped line by its key. */
  function ClassifyStripped(line: string): Event {
    if line == [] then Skip
    else if StartsWith(line, MsKey) then MsEvent(ValueOf(line))
    else if StartsWith(line, TimeKey) then TimeEvent(ValueOf(line))
    else if StartsWith(line, ProgressKey) then Skip
    else Log(line)
  }

  /** The value of an "out_time_ms=" line: microseconds. */
  function MsEvent(value: string): Event {
    match ParseInt(Strip(value))
    case Some(us) => Progress((us as real) / 1000000.0)
    case None => Skip
  }

  /** The value of an "out_time=" line: hours, minutes and seconds. */
  function TimeEvent(value: string): Event {
    TimeFields(SplitOn(Strip(value), ':'))
  }

  /** Three colon-separated fields: integer hours, integer minutes and float
      seconds. */
  function TimeFields(parts: seq<string>): Event {
    if |parts| != 3 then Skip else Clock(ParseInt(parts[0]), ParseInt(parts[1]), ParseFloat(parts[2]))
  }

  /** A time of day in seconds, if all three fields parsed. */
  function Clock(h: Option<int>, m: Option<int>, sec: Option<real>): Event {
    if h.Some? && m.Some? && sec.Some? then Progress(((h.value * 3600 + m.value * 60) as real) + sec.value)
    else Skip
  }

  /** A line goes to the log exactly when, stripped, it is non-empty and is
      none of the three keys the reader knows; it is logged stripped. */
  lemma LogIff(raw: string)
    ensures ClassifyLine(raw).Log? <==>
              && Strip(raw) != []
              && !StartsWith(Strip(raw), "out_time_ms=")
              && !StartsWith(Strip(raw), "out_time=")
              && !StartsWith(Strip(raw), "progress=")
    ensures ClassifyLine(raw).Log? ==> ClassifyLine(raw).text == Strip(raw)
  {
  }

  /** Blank lines and "progress=" lines are ignored; a progress sample comes
      only from an "out_time_ms=" or "out_time=" line. */
  lemma IgnoredAndProgress(raw: string)
    ensures Strip(raw) == [] ==> ClassifyLine(raw) == Skip
    ensures StartsWith(Strip(raw), ProgressKey) ==> ClassifyLine(raw) == Skip
    ensures ClassifyLine(raw).Progress? ==> StartsWith(Strip(raw), MsKey) || StartsWith(Strip(raw), TimeKey)
  {
    var line := Strip(raw);
    if StartsWith(line, ProgressKey) {
      assert line[0] == 'p';
      assert !StartsWith(line, MsKey) && !StartsWith(line, TimeKey) by {
        assert MsKey[0] == 'o' && TimeKey[0] == 'o';
      }
    }
  }

  /** A line with a known time key is never logged: a value that does not
      parse (no integer after "out_time_ms=", not three fields after
      "out_time=", or three fields of which the hours or minutes are not an
      integer or the seconds not a number) is dropped silently. */
  lemma MalformedDropped(raw: string)
    ensures StartsWith(Strip(raw), MsKey) || StartsWith(Strip(raw), TimeKey) ==> !ClassifyLine(raw).Log?
    ensures StartsWith(Strip(raw), MsKey) && ParseInt(Strip(ValueOf(Strip(raw)))).None? ==>
              ClassifyLine(raw) == Skip
    ensures StartsWith(Strip(raw), TimeKey) && !StartsWith(Strip(raw), MsKey)
            && |SplitOn(Strip(ValueOf(Strip(raw))), ':')| != 3 ==>
              ClassifyLine(raw) == Skip
    ensures var line := Strip(raw);
            var parts := SplitOn(Strip(ValueOf(line)), ':');
            StartsWith(line, TimeKey) && !StartsWith(line, MsKey) && |parts| == 3
            && (ParseInt(parts[0]).None? || ParseInt(parts[1]).None? || ParseFloat(parts[2]).None?) ==>
              ClassifyLine(raw) == Skip
  {
    BadTimeFieldsDropped(raw);
  }

  /** An "out_time=" value of three fields is dropped when any field fails to
      parse, since one conversion covers all three. */
  lemma BadTimeFieldsDropped(raw: string)
    ensures var line := Strip(raw);
            var parts := SplitOn(Strip(ValueOf(line)), ':');
            StartsWith(line, TimeKey) && !StartsWith(line, MsKey) && |parts| == 3
            && (ParseInt(parts[0]).None? || ParseInt(parts[1]).None? || ParseFloat(parts[2]).None?) ==>
              ClassifyLine(raw) == Skip
  {
    var line := Strip(raw);
    var parts := SplitOn(Strip(ValueOf(line)), ':');
    if StartsWith(line, TimeKey) && !StartsWith(line, MsKey) && |parts| == 3 {
      assert line != [];
      assert ClassifyLine(raw) == TimeFields(parts);
      assert TimeFields(parts) == Clock(ParseInt(parts[0]), ParseInt(parts[1]), ParseFloat(parts[2]));
    }
  }

  /** After a known key, the value is what follows the key. */
  lemma ValueAfterKey(line: string, key: string)
    requires |key| > 0 && key[|key| - 1] == '=' && '=' !in key[..|key| - 1]
    requires StartsWith(line, key)
    ensures ValueOf(line) == line[|key|..]
  {
    assert line[..|key|] == key;
    assert line[|key| - 1] == '=';
  }

  /** A string with no white space at its ends strips to itself. */
  lemma StripUnchanged(s: string)
    requires s != [] && !IsSpace(s[0]) && !IsSpace(s[|s| - 1])
    ensures Strip(s) == s
  {
    assert StripLeft(s) == s;
  }

  /** A digit run strips to itself and parses as its value. */
  lemma ParseIntDigits(d: string)
    requires d != [] && AllDigits(d)
    ensures Strip(d) == d && ParseInt(d) == Some(DigitsValue(d) as int)
  {
    assert d[0] != '+' && d[0] != '-';
    StripUnchanged(d);
    DigitsAreGroups(d);
  }

  /** A line with no white space at its ends is classified as it is. */
  lemma ClassifyUnstripped(line: string)
    requires Strip(line) == line
    ensures ClassifyLine(line) == ClassifyStripped(line)
  {
  }

  /** An "out_time_ms=" line is classified by its value. */
  lemma MsLine(line: string)
    requires line != [] && StartsWith(line, MsKey)
    ensures ClassifyStripped(line) == MsEvent(ValueOf(line))
  {
  }

  /** An "out_time=" line is classified by its value. */
  lemma TimeLine(line: string)
    requires line != [] && !StartsWith(line, MsKey) && StartsWith(line, TimeKey)
    ensures ClassifyStripped(line) == TimeEvent(ValueOf(line))
  {
  }

  /** A key followed by a value that ends in a non-space: the whole line is
      stripped already and its value is what follows the key. */
  lemma KeyedValue(key: string, v: string)
    requires |key| > 0 && key[|key| - 1] == '=' && '=' !in key[..|key| - 1] && !IsSpace(key[0])
    requires v != [] && !IsSpace(v[|v| - 1])
    ensures var line := key + v;
            Strip(line) == line && StartsWith(line, key) && ValueOf(line) == v
  {
    var line := key + v;
    assert line[0] == key[0] && line[|line| - 1] == v[|v| - 1];
    StripUnchanged(line);
    assert line[..|key|] == key;
    ValueAfterKey(line, key);
    assert line[|key|..] == v;
  }

  /** A stripped "out_time_ms=" line reports its value. */
  lemma ClassifyMsLine(line: string, value: string)
    requires Strip(line) == line && line != [] && StartsWith(line, MsKey) && ValueOf(line) == value
    ensures ClassifyLine(line) == MsEvent(value)
  {
    ClassifyUnstripped(line);
    MsLine(line);
  }

  /** A value that parses as an integer is that many microseconds. */
  lemma MsEventOf(value: string, us: int)
    requires Strip(value) == value && ParseInt(value) == Some(us)
    ensures MsEvent(value) == Progress((us as real) / 1000000.0)
  {
  }

  /** An "out_time_ms=" line whose value parses as an integer reports that
      many microseconds, in seconds. */
  lemma OutTimeMs(value: string, us: int)
    requires value != [] && !IsSpace(value[|value| - 1]) && Strip(value) == value
    requires ParseInt(value) == Some(us)
    ensures ClassifyLine(MsKey + value) == Progress((us as real) / 1000000.0)
  {
    KeyedValue(MsKey, value);
    ClassifyMsLine(MsKey + value, value);
    MsEventOf(value, us);
  }

  lemma FirstIndexAfter(x: string, c: char, rest: string)
    requires c !in x
    ensures FirstIndex(x + [c] + rest, c) == |x|
    decreases |x|
  {
    if x != [] {
      assert (x + [c] + rest)[1..] == x[1..] + [c] + rest;
      FirstIndexAfter(x[1..], c, rest);
    }
  }

  /** Splitting three fields joined by c gives the fields back, as long as
      none of them holds c. */
  lemma SplitOnThree(x: string, y: string, z: string, c: char)
    requires c !in x && c !in y && c !in z
    ensures SplitOn(x + [c] + y + [c] + z, c) == [x, y, z]
  {
    var s := x + [c] + y + [c] + z;
    var yz := y + [c] + z;
    assert s == x + [c] + yz;
    FirstIndexAfter(x, c, yz);
    assert s[..|x|] == x && s[|x| + 1..] == yz;
    FirstIndexAfter(y, c, z);
    assert yz[..|y|] == y && yz[|y| + 1..] == z;
    assert FirstIndex(z, c) == |z|;
    assert SplitOn(z, c) == [z];
    assert SplitOn(yz, c) == [y] + SplitOn(z, c);
    assert SplitOn(s, c) == [x] + SplitOn(yz, c);
  }

  /** Digits, a point and digits split at the point. */
  lemma DecimalSplit(a: string, b: string)
    requires a != [] && AllDigits(a) && b != [] && AllDigits(b)
    ensures ParseDecimal(a + "." + b) == DecimalParts(a, b)
  {
    var s := a + "." + b;
    assert '.' !in a;
    FirstIndexAfter(a, '.', b);
    assert s[..|a|] == a && s[|a| + 1..] == b;
  }

  /** Digits on both sides of the point: the whole part plus the fraction. */
  lemma DecimalPartsDigits(a: string, b: string)
    requires a != [] && AllDigits(a) && b != [] && AllDigits(b)
    ensures DecimalParts(a, b) == Some((DigitsValue(a) as real) + (DigitsValue(b) as real) / (Pow10(|b|) as real))
  {
    DigitsAreGroups(a);
    DigitsAreGroups(b);
  }

  /** An unsigned number with no white space at its ends is read as a
      decimal as it stands. */
  lemma UnsignedFloat(s: string)
    requires s != [] && !IsSpace(s[0]) && !IsSpace(s[|s| - 1]) && s[0] != '+' && s[0] != '-'
    ensures ParseFloat(s) == ParseDecimal(s)
  {
    StripUnchanged(s);
    assert SignOf(s) == (false, s);
  }

  /** Digits, a point and digits carry no sign and no white space. */
  lemma DecimalUnsigned(a: string, b: string)
    requires a != [] && AllDigits(a) && b != [] && AllDigits(b)
    ensures ParseFloat(a + "." + b) == ParseDecimal(a + "." + b)
  {
    var s := a + "." + b;
    assert s[0] == a[0] && s[|s| - 1] == b[|b| - 1];
    UnsignedFloat(s);
  }

  /** A decimal number with digits on both sides of the point parses as its
      value. */
  lemma ParseFloatDecimal(a: string, b: string)
    requires a != [] && AllDigits(a) && b != [] && AllDigits(b)
    ensures ParseFloat(a + "." + b) == Some((DigitsValue(a) as real) + (DigitsValue(b) as real) / (Pow10(|b|) as real))
  {
    DecimalUnsigned(a, b);
    DecimalSplit(a, b);
    DecimalPartsDigits(a, b);
  }

  /** A value that splits into three fields reports hours, minutes and
      seconds. */
  lemma TimeEventOf(value: string, hs: string, ms: string, secs: string)
    requires Strip(value) == value && SplitOn(value, ':') == [hs, ms, secs]
    ensures TimeEvent(value) == Clock(ParseInt(hs), ParseInt(ms), ParseFloat(secs))
  {
  }

  /** A stripped "out_time=" line reports its value. */
  lemma ClassifyTimeLine(line: string, value: string)
    requires Strip(line) == line && line != [] && StartsWith(line, TimeKey) && ValueOf(line) == value
    requires !StartsWith(line, MsKey)
    ensures ClassifyLine(line) == TimeEvent(value)
  {
    ClassifyUnstripped(line);
    TimeLine(line);
  }

  /** A value h:m:s whose fields hold no colon, with no white space at its
      ends, is read as the fields h, m and s. */
  lemma ClockSplit(hs: string, ms: string, ss: string)
    requires ':' !in hs && ':' !in ms && ':' !in ss
    requires hs != [] && !IsSpace(hs[0]) && ss != [] && !IsSpace(ss[|ss| - 1])
    ensures TimeEvent(hs + ":" + ms + ":" + ss) == Clock(ParseInt(hs), ParseInt(ms), ParseFloat(ss))
  {
    var v := hs + ":" + ms + ":" + ss;
    assert v[0] == hs[0] && v[|v| - 1] == ss[|ss| - 1];
    StripUnchanged(v);
    assert v == hs + [':'] + ms + [':'] + ss;
    SplitOnThree(hs, ms, ss, ':');
    TimeEventOf(v, hs, ms, ss);
  }

  /** Three parsed fields give hours times 3600 plus minutes times 60 plus
      the seconds. */
  lemma ClockOf(oh: Option<int>, om: Option<int>, os: Option<real>, h: int, m: int, sec: real)
    requires oh == Some(h) && om == Some(m) && os == Some(sec)
    ensures Clock(oh, om, os) == Progress(((h * 3600 + m * 60) as real) + sec)
  {
  }

  /** "out_time=" followed by a value that ends in a non-space: stripped
      already, not an "out_time_ms=" line, and valued by what follows the
      key. */
  lemma TimeKeyed(v: string)
    requires v != [] && !IsSpace(v[|v| - 1])
    ensures var line := TimeKey + v;
            && Strip(line) == line && line != [] && StartsWith(line, TimeKey)
            && !StartsWith(line, MsKey) && ValueOf(line) == v
  {
    var line := TimeKey + v;
    KeyedValue(TimeKey, v);
    assert !StartsWith(line, MsKey) by {
      assert line[8] == '=';
    }
  }

  /** A stripped "out_time=" line with the value h:m:s. */
  lemma TimeKeyLine(hs: string, ms: string, ss: string)
    requires ss != [] && !IsSpace(ss[|ss| - 1])
    ensures ClassifyLine(TimeKey + hs + ":" + ms + ":" + ss) == TimeEvent(hs + ":" + ms + ":" + ss)
  {
    var v := hs + ":" + ms + ":" + ss;
    assert TimeKey + hs + ":" + ms + ":" + ss == TimeKey + v;
    assert v[|v| - 1] == ss[|ss| - 1];
    TimeKeyed(v);
    ClassifyTimeLine(TimeKey + v, v);
  }

  /** An "out_time=" line whose three fields parse reports hours times 3600
      plus minutes times 60 plus the seconds. */
  lemma OutTimeFields(hs: string, ms: string, ss: string, h: int, m: int, sec: real)
    requires ':' !in hs && ':' !in ms && ':' !in ss
    requires hs != [] && !IsSpace(hs[0]) && ss != [] && !IsSpace(ss[|ss| - 1])
    requires ParseInt(hs) == Some(h) && ParseInt(ms) == Some(m) && ParseFloat(ss) == Some(sec)
    ensures ClassifyLine(TimeKey + hs + ":" + ms + ":" + ss) == Progress(((h * 3600 + m * 60) as real) + sec)
  {
    TimeKeyLine(hs, ms, ss);
    ClockSplit(hs, ms, ss);
    ClockOf(ParseInt(hs), ParseInt(ms), ParseFloat(ss), h, m, sec);
  }

  /** The events a run of lines produces, ignored lines left out, in order. */
  function Dispatch(lines: seq<string>): (events: seq<Event>)
    ensures |events| <= |lines|
    ensures forall k :: 0 <= k < |events| ==> !events[k].Skip?
  {
    if lines == [] then []
    else
      var e := ClassifyLine(lines[|lines| - 1]);
      Dispatch(lines[..|lines| - 1]) + (if e.Skip? then [] else [e])
  }

  /** Lines are handled one at a time, so the output read in two pieces is
      the output of the whole. */
  lemma {:induction false} DispatchAppend(a: seq<string>, b: seq<string>)
    ensures Dispatch(a + b) == Dispatch(a) + Dispatch(b)
    decreases |b|
  {
    if b == [] {
      assert a + b == a;
    } else {
      var init := b[..|b| - 1];
      assert (a + b)[..|a + b| - 1] == a + init;
      assert (a + b)[|a + b| - 1] == b[|b| - 1];
      DispatchAppend(a, init);
    }
  }

  /** The reading loop: classify every line and pass on what is not
      ignored. */
  method ReadProgress(lines: seq<string>) returns (events: seq<Event>)
    ensures events == Dispatch(lines)
  {
    events := [];
    var i := 0;
    while i < |lines|
      invariant 0 <= i <= |lines|
      invariant events == Dispatch(lines[..i])
    {
      assert lines[..i + 1][..i] == lines[..i];
      var e := ClassifyLine(lines[i]);
      if !e.Skip? {
        events := events + [e];
      }
      i := i + 1;
    }
    assert lines[..i] == lines;
  }
}
