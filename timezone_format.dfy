/** The string side of the timezone interceptor (content/modules/interceptors/timezone.js):
    the `+HHMM` offset text, the zone abbreviation table, the first-match rewrite of
    `Date.prototype.toString` output, and the option and locale rewrites, all as functions of
    the timezone profile. */
module TimezoneFormat {
  import opened JsValues

  /** The timezone part of the session profile: an IANA zone name, the offset in minutes that
      `getTimezoneOffset` reports, and a locale tag. */
  datatype TimezoneProfile = TimezoneProfile(name: string, offset: int, locale: string)

  // ---------------------------------------------------------------- decimal digits

  predicate IsDigit(c: char) { '0' <= c <= '9' }

  predicate AllDigits(s: string) { forall i | 0 <= i < |s| :: IsDigit(s[i]) }

  function DigitValue(c: char): int
    requires IsDigit(c)
  {
    c as int - '0' as int
  }

  function Digit(d: nat): (c: char)
    requires d < 10
    ensures IsDigit(c) && DigitValue(c) == d
  {
    ('0' as int + d) as char
  }

  /** The number a string of decimal digits denotes, leading zeros allowed. */
  function DecimalValue(s: string): nat
    requires AllDigits(s)
  {
    if s == [] then 0 else DecimalValue(s[..|s| - 1]) * 10 + DigitValue(s[|s| - 1])
  }

  /** `n.toString()` for a non-negative integer: its decimal digits, without leading zeros;
      one digit below 10, at most two below 100. */
  function Decimal(n: nat): (s: string)
    ensures AllDigits(s) && |s| >= 1
    ensures |s| == 1 <==> n < 10
    ensures |s| <= 2 <==> n < 100
    ensures DecimalValue(s) == n
  {
    if n < 10 then [Digit(n)]
    else
      var s := Decimal(n / 10) + [Digit(n % 10)];
      assert s[..|s| - 1] == Decimal(n / 10);
      s
  }

  function Zeros(n: nat): (z: string)
    ensures |z| == n && AllDigits(z)
  {
    seq(n, _ => '0')
  }

  /** `s.padStart(n, '0')`: zeros put in front until the string is n long. */
  function PadStart(s: string, n: nat): (r: string)
    ensures |r| == if |s| >= n then |s| else n
    ensures AllDigits(s) ==> AllDigits(r)
  {
    if |s| >= n then s else Zeros(n - |s|) + s
  }

  /** Zeros in front do not change the number a digit string denotes. */
  lemma {:induction false} LeadingZeros(k: nat, s: string)
    requires AllDigits(s)
    ensures DecimalValue(Zeros(k) + s) == DecimalValue(s)
  {
    if s == [] {
      assert Zeros(k) + s == Zeros(k);
      if k > 0 {
        assert Zeros(k)[..k - 1] == Zeros(k - 1);
        LeadingZeros(k - 1, []);
        assert Zeros(k - 1) + [] == Zeros(k - 1);
      }
    } else {
      var t := Zeros(k) + s;
      assert t[..|t| - 1] == Zeros(k) + s[..|s| - 1];
      LeadingZeros(k, s[..|s| - 1]);
    }
  }

  /** Padding keeps the number. */
  lemma {:induction false} PadStartValue(s: string, n: nat)
    requires AllDigits(s)
    ensures DecimalValue(PadStart(s, n)) == DecimalValue(s)
  {
    if |s| < n {
      LeadingZeros(n - |s|, s);
    }
  }

  // ---------------------------------------------------------------- getGMTOffset

  function Magnitude(v: int): nat { if v < 0 then -v else v }

  /** `getGMTOffset()`: `'+'` for an offset at or below zero and `'-'` above, then the hours
      and the minutes of the offset's magnitude, each padded to two digits. Five characters
      exactly when the magnitude is under 100 hours. */
  function GmtOffset(offset: int): (r: string)
    ensures |r| >= 5 && (r[0] == '+' <==> offset <= 0) && (r[0] == '-' <==> offset > 0)
    ensures AllDigits(r[1..])
    ensures |r| == 5 <==> Magnitude(offset) < 6000
  {
    var m := Magnitude(offset);
    var hours, minutes := PadStart(Decimal(m / 60), 2), PadStart(Decimal(m % 60), 2);
    var r := [if offset <= 0 then '+' else '-'] + hours + minutes;
    assert r[1..] == hours + minutes;
    r
  }

  /** The hours field of the text is |offset| div 60 and the last two digits are
      |offset| mod 60, whatever the offset. */
  lemma GmtOffsetFields(offset: int)
    ensures var r := GmtOffset(offset);
      AllDigits(r[1..|r| - 2]) && AllDigits(r[|r| - 2..]) &&
      DecimalValue(r[1..|r| - 2]) == Magnitude(offset) / 60 &&
      DecimalValue(r[|r| - 2..]) == Magnitude(offset) % 60
  {
    var m := Magnitude(offset);
    var hours, minutes := PadStart(Decimal(m / 60), 2), PadStart(Decimal(m % 60), 2);
    var r := GmtOffset(offset);
    assert r == [r[0]] + hours + minutes;
    assert r[1..|r| - 2] == hours && r[|r| - 2..] == minutes;
    PadStartValue(Decimal(m / 60), 2);
    PadStartValue(Decimal(m % 60), 2);
  }

  /** Reading `+HHMM` / `-HHMM` back as a `getTimezoneOffset` value: `+` is ahead of UTC, so a
      negative offset. */
  function ParseGmtOffset(s: string): (o: Option<int>)
    ensures o.Some? <==> |s| == 5 && (s[0] == '+' || s[0] == '-') && AllDigits(s[1..])
  {
    if |s| == 5 && (s[0] == '+' || s[0] == '-') && AllDigits(s[1..]) then
      assert AllDigits(s[1..3]) && AllDigits(s[3..]);
      var minutes := DecimalValue(s[1..3]) * 60 + DecimalValue(s[3..]);
      Some(if s[0] == '+' then -minutes else minutes)
    else None
  }

  /** For any offset under 100 hours, the text is five characters and reads back as the same
      offset: the text and `getTimezoneOffset` agree. */
  lemma GmtOffsetRoundTrip(offset: int)
    requires Magnitude(offset) < 6000
    ensures |GmtOffset(offset)| == 5
    ensures ParseGmtOffset(GmtOffset(offset)) == Some(offset)
  {
    GmtOffsetFields(offset);
    var r := GmtOffset(offset);
    assert r[1..|r| - 2] == r[1..3] && r[|r| - 2..] == r[3..];
  }

  /** -300 is written `+0500`, 0 `+0000` and 330 `-0530`. */
  lemma GmtOffsetExamples()
    ensures GmtOffset(-300) == "+0500" && GmtOffset(0) == "+0000" && GmtOffset(330) == "-0530"
  {
  }

  // ---------------------------------------------------------------- getTimezoneAbbreviation

  /** The abbreviation table of `getTimezoneAbbreviation`. */
  const Abbreviations: map<string, string> := map[
    "America/New_York" := "EST",
    "America/Chicago" := "CST",
    "America/Denver" := "MST",
    "America/Los_Angeles" := "PST",
    "America/Phoenix" := "MST",
    "Europe/London" := "GMT",
    "Europe/Paris" := "CET",
    "Europe/Berlin" := "CET",
    "Europe/Moscow" := "MSK",
    "Asia/Tokyo" := "JST",
    "Asia/Shanghai" := "CST",
    "Asia/Kolkata" := "IST",
    "Australia/Sydney" := "AEDT"]

  /** An abbreviation the rewrite can put between parentheses: not empty, no `)`. */
  predicate Parenthesisable(a: string) { a != [] && forall i | 0 <= i < |a| :: a[i] != ')' }

  /** `getTimezoneAbbreviation()`: the table entry of the zone, `'GMT'` for an unlisted zone;
      always an abbreviation that fits between parentheses. */
  function Abbreviation(name: string): (a: string)
    ensures name in Abbreviations ==> a == Abbreviations[name]
    ensures name !in Abbreviations ==> a == "GMT"
    ensures Parenthesisable(a)
  {
    if name in Abbreviations then Abbreviations[name] else "GMT"
  }

  // ---------------------------------------------------------------- options and locales

  /** `options.timeZone = name` unless the caller's `timeZone` is truthy: the caller's zone is
      never overridden, and every other field is kept. */
  function WithTimeZone(props: map<string, Value>, name: string): (r: map<string, Value>)
    ensures Get(r, "timeZone") == if Truthy(Get(props, "timeZone")) then Get(props, "timeZone") else Str(name)
    ensures forall k | k != "timeZone" :: (k in r <==> k in props) && (k in props ==> r[k] == props[k])
  {
    if Truthy(Get(props, "timeZone")) then props else props["timeZone" := Str(name)]
  }

  /** Injecting twice is injecting once. */
  lemma WithTimeZoneIdempotent(props: map<string, Value>, name: string)
    ensures WithTimeZone(WithTimeZone(props, name), name) == WithTimeZone(props, name)
  {
  }

  /** The fields the patched `resolvedOptions` overwrites: `timeZone` always becomes the
      profile's zone; `locale` becomes the profile's locale when it is falsy or exactly
      `'en-US'`, and is kept otherwise; every other field is kept. */
  function Resolved(props: map<string, Value>, profile: TimezoneProfile): (r: map<string, Value>)
    ensures Get(r, "timeZone") == Str(profile.name)
    ensures var l := Get(props, "locale");
      Get(r, "locale") == if !Truthy(l) || l == Str("en-US") then Str(profile.locale) else l
    ensures forall k | k != "timeZone" && k != "locale" ::
      (k in r <==> k in props) && (k in props ==> r[k] == props[k])
  {
    var p := props["timeZone" := Str(profile.name)];
    var l := Get(p, "locale");
    if !Truthy(l) || l == Str("en-US") then p["locale" := Str(profile.locale)] else p
  }

  /** Resolving already resolved options changes nothing. */
  lemma ResolvedIdempotent(props: map<string, Value>, profile: TimezoneProfile)
    ensures Resolved(Resolved(props, profile), profile) == Resolved(props, profile)
  {
  }

  /** The list the patched `supportedLocalesOf` returns: the native list, with the profile's
      locale pushed once at the end when it was requested in an array and the native list
      lacks it. */
  function WithLocale(result: seq<Value>, requested: Value, locale: string): (r: seq<Value>)
    ensures |result| <= |r| <= |result| + 1 && r[..|result|] == result
    ensures |r| == |result| + 1 <==>
      requested.Arr? && Str(locale) in requested.elems && Str(locale) !in result
    ensures |r| == |result| + 1 ==> r[|result|] == Str(locale)
  {
    if requested.Arr? && Str(locale) in requested.elems && Str(locale) !in result then
      result + [Str(locale)]
    else result
  }

  /** The locale never ends up listed more often than it was, or once: a locale already listed
      is not pushed again, and asking twice pushes nothing more. */
  lemma WithLocaleOnce(result: seq<Value>, requested: Value, locale: string)
    ensures var r := WithLocale(result, requested, locale);
      multiset(r)[Str(locale)] == if |r| == |result| + 1 then 1 else multiset(result)[Str(locale)]
    ensures WithLocale(WithLocale(result, requested, locale), requested, locale)
      == WithLocale(result, requested, locale)
  {
    var r := WithLocale(result, requested, locale);
    if |r| == |result| + 1 {
      assert r == result + [Str(locale)];
      assert multiset(result)[Str(locale)] == 0;
    }
  }

  // ---------------------------------------------------------------- the toString rewrite

  /** The fixed head `GMT[+-]\d{4} \(` of the pattern starts at k. */
  predicate HeadAt(s: string, k: nat)
  {
    k + 10 <= |s| &&
    s[k] == 'G' && s[k + 1] == 'M' && s[k + 2] == 'T' && (s[k + 3] == '+' || s[k + 3] == '-') &&
    IsDigit(s[k + 4]) && IsDigit(s[k + 5]) && IsDigit(s[k + 6]) && IsDigit(s[k + 7]) &&
    s[k + 8] == ' ' && s[k + 9] == '('
  }

  /** The first `)` at or after j. */
  function CloseFrom(s: string, j: nat): (c: Option<nat>)
    ensures c.Some? ==> j <= c.value < |s| && s[c.value] == ')'
    ensures c.Some? ==> forall m | j <= m < c.value :: s[m] != ')'
    ensures c.None? ==> forall m | j <= m < |s| :: s[m] != ')'
    decreases |s| - j
  {
    if j >= |s| then None else if s[j] == ')' then Some(j) else CloseFrom(s, j + 1)
  }

  /** Where the match of `GMT[+-]\d{4} \([^)]+\)` starting at k ends (one past its `)`), if
      the pattern matches there: the greedy `[^)]+` runs to the first `)` and needs at least
      one character before it. The pattern matches at k exactly when the head is there and a
      `)` follows it after at least one other character. */
  function MatchAt(s: string, k: nat): (e: Option<nat>)
    ensures e.Some? ==> HeadAt(s, k) && k + 12 <= e.value <= |s| && s[e.value - 1] == ')'
    ensures e.Some? ==> forall m | k + 10 <= m < e.value - 1 :: s[m] != ')'
    ensures HeadAt(s, k) && k + 10 < |s| && s[k + 10] != ')' && (exists c | k + 10 < c < |s| :: s[c] == ')') ==> e.Some?
  {
    if HeadAt(s, k) && k + 10 < |s| && s[k + 10] != ')' then
      match CloseFrom(s, k + 10)
      case Some(c) => Some(c + 1)
      case None => None
    else None
  }

  /** The leftmost match at or after `from`, as (start, end). */
  function FirstMatch(s: string, from: nat): (m: Option<(nat, nat)>)
    ensures m.Some? ==> from <= m.value.0 && MatchAt(s, m.value.0) == Some(m.value.1)
    ensures m.Some? ==> forall k | from <= k < m.value.0 :: MatchAt(s, k).None?
    ensures m.None? ==> forall k | from <= k :: MatchAt(s, k).None?
    decreases |s| - from
  {
    if from >= |s| then None
    else match MatchAt(s, from)
      case Some(e) => Some((from, e))
      case None => FirstMatch(s, from + 1)
  }

  /** `s.replace(/GMT[+-]\d{4} \([^)]+\)/, repl)`: the leftmost match replaced, everything
      else kept; no match, no change. */
  function ReplaceFirst(s: string, repl: string): (r: string)
    ensures (forall k :: MatchAt(s, k).None?) ==> r == s
    ensures forall i: nat, e: nat | MatchAt(s, i) == Some(e) && (forall k: nat | k < i :: MatchAt(s, k).None?) ::
      r == s[..i] + repl + s[e..]
  {
    match FirstMatch(s, 0)
    case None => s
    case Some((i, e)) => s[..i] + repl + s[e..]
  }

  /** The replacement text `GMT${gmtOffset} (${tzAbbr})`: `GMT`, the sign (`+` for an offset
      at or below zero), the digits, and the abbreviation in parentheses. */
  function Stamp(profile: TimezoneProfile): (r: string)
    ensures |r| >= 11 && r[..3] == "GMT" && (r[3] == '+' <==> profile.offset <= 0) && r[|r| - 1] == ')'
    ensures Magnitude(profile.offset) < 6000 ==> |r| == |Abbreviation(profile.name)| + 11
  {
    "GMT" + GmtOffset(profile.offset) + " (" + Abbreviation(profile.name) + ")"
  }

  /** The patched `toString` / `toTimeString`: the native text with its first
      `GMT±HHMM (zone)` replaced by the profile's. */
  function RewriteDateString(native: string, profile: TimezoneProfile): (r: string)
    ensures (forall k :: MatchAt(native, k).None?) ==> r == native
    ensures forall i: nat, e: nat | MatchAt(native, i) == Some(e) && (forall k: nat | k < i :: MatchAt(native, k).None?) ::
      r == native[..i] + Stamp(profile) + native[e..]
  {
    ReplaceFirst(native, Stamp(profile))
  }

  /** A match with none before it is the one `FirstMatch` finds. */
  lemma LeftmostIs(s: string, i: nat, e: nat)
    requires MatchAt(s, i) == Some(e)
    requires forall k: nat | k < i :: MatchAt(s, k).None?
    ensures FirstMatch(s, 0) == Some((i, e))
  {
  }

  /** The first `)` found in a copy of r placed at i in t is the copy of r's. */
  lemma {:induction false} CloseFromShift(t: string, r: string, i: nat, j: nat)
    requires i + |r| <= |t| && t[i..i + |r|] == r
    requires CloseFrom(r, j).Some?
    ensures CloseFrom(t, i + j) == Some(i + CloseFrom(r, j).value)
    decreases |r| - j
  {
    assert t[i + j] == r[j];
    if r[j] != ')' {
      CloseFromShift(t, r, i, j + 1);
    }
  }

  /** A `)` at or after b is found from any a <= b too. */
  lemma {:induction false} CloseFromEarlier(s: string, a: nat, b: nat)
    requires a <= b && CloseFrom(s, b).Some?
    ensures CloseFrom(s, a).Some?
    decreases b - a
  {
    if a < b && s[a] != ')' {
      CloseFromEarlier(s, a + 1, b);
    }
  }

  /** A string that is one whole match still matches, at its place, inside a longer text. */
  lemma MatchShift(t: string, r: string, i: nat)
    requires i + |r| <= |t| && t[i..i + |r|] == r
    requires MatchAt(r, 0) == Some(|r|)
    ensures MatchAt(t, i) == Some(i + |r|)
  {
    assert forall m | 0 <= m < |r| :: t[i + m] == r[m];
    assert HeadAt(t, i) && t[i + 10] != ')';
    CloseFromShift(t, r, i, 10);
  }

  /** No match can start less than ten characters before another: the head's second to tenth
      characters are never a `G`. So a text that agrees with s before i, and like s has a
      match at i, has a match before i only where s has one. */
  lemma MatchBefore(s: string, t: string, i: nat, k: nat)
    requires k < i <= |s| && i <= |t| && s[..i] == t[..i]
    requires MatchAt(s, i).Some? && MatchAt(t, i).Some?
    requires MatchAt(t, k).Some?
    ensures MatchAt(s, k).Some?
  {
    assert t[i] == 'G';
    assert k + 10 <= i;
    assert forall m | k <= m < i :: s[m] == t[m] by {
      forall m | k <= m < i ensures s[m] == t[m] {
        assert s[..i][m] == t[..i][m];
      }
    }
    assert HeadAt(s, k);
    assert s[k + 10] != ')';
    CloseFromEarlier(s, k + 10, i + 10);
  }

  /** `GMT<g> (<a>)` is one whole match of the pattern when g is a sign and four digits and a
      fits between parentheses. */
  lemma StampShapeMatches(g: string, a: string)
    requires |g| == 5 && (g[0] == '+' || g[0] == '-') && AllDigits(g[1..])
    requires Parenthesisable(a)
    ensures var r := "GMT" + g + " (" + a + ")"; MatchAt(r, 0) == Some(|r|)
  {
    var r := "GMT" + g + " (" + a + ")";
    assert r[3..8] == g && r[10..|r| - 1] == a;
    assert forall m | 1 <= m < 5 :: IsDigit(g[m]) by {
      forall m | 1 <= m < 5 ensures IsDigit(g[m]) { assert g[1..][m - 1] == g[m]; }
    }
    assert HeadAt(r, 0) && r[10] != ')';
    assert r[|r| - 1] == ')';
    assert forall m | 10 <= m < |r| - 1 :: r[m] != ')' by {
      forall m | 10 <= m < |r| - 1 ensures r[m] != ')' { assert r[m] == a[m - 10]; }
    }
  }

  /** The profile's stamp is one whole match of the pattern when the offset is under 100
      hours. */
  lemma StampMatches(profile: TimezoneProfile)
    requires Magnitude(profile.offset) < 6000
    ensures MatchAt(Stamp(profile), 0) == Some(|Stamp(profile)|)
  {
    StampShapeMatches(GmtOffset(profile.offset), Abbreviation(profile.name));
  }

  /** Replacing the first match by a text that is itself one whole match is idempotent. */
  lemma ReplaceFirstIdempotent(s: string, repl: string)
    requires MatchAt(repl, 0) == Some(|repl|)
    ensures ReplaceFirst(ReplaceFirst(s, repl), repl) == ReplaceFirst(s, repl)
  {
    var t := ReplaceFirst(s, repl);
    var m := FirstMatch(s, 0);
    if m.Some? {
      var i, e := m.value.0, m.value.1;
      assert t == s[..i] + repl + s[e..];
      assert t[i..i + |repl|] == repl;
      MatchShift(t, repl, i);
      assert s[..i] == t[..i];
      forall k: nat | k < i ensures MatchAt(t, k).None? {
        if MatchAt(t, k).Some? {
          MatchBefore(s, t, i, k);
        }
      }
      LeftmostIs(t, i, i + |repl|);
      assert t[..i] + repl + t[i + |repl|..] == t;
    }
  }

  /** Rewriting an already rewritten date string changes nothing, for any offset under 100
      hours. */
  lemma RewriteIdempotent(native: string, profile: TimezoneProfile)
    requires Magnitude(profile.offset) < 6000
    ensures RewriteDateString(RewriteDateString(native, profile), profile) == RewriteDateString(native, profile)
  {
    StampMatches(profile);
    ReplaceFirstIdempotent(native, Stamp(profile));
  }

  /** New York's stamp for an offset of -300. */
  lemma NewYorkStamp()
    ensures Stamp(TimezoneProfile("America/New_York", -300, "en-US")) == "GMT+0500 (EST)"
  {
    GmtOffsetExamples();
  }

  /** A date string of the usual shape, rewritten for New York at -300: its time is kept and
      `GMT+0200 (CEST)` becomes `GMT+0500 (EST)`. */
  lemma RewriteExample(s: string, p: TimezoneProfile)
    requires s == "10:00:00 GMT+0200 (CEST)" && p == TimezoneProfile("America/New_York", -300, "en-US")
    ensures RewriteDateString(s, p) == s[..9] + "GMT+0500 (EST)"
  {
    NewYorkStamp();
    ExampleMatch(s);
    LeftmostIs(s, 9, |s|);
    assert s[|s|..] == [];
  }

  lemma ExampleMatch(s: string)
    requires s == "10:00:00 GMT+0200 (CEST)"
    ensures MatchAt(s, 9) == Some(|s|)
    ensures forall k: nat | k < 9 :: MatchAt(s, k).None?
  {
    assert HeadAt(s, 9) && s[19] != ')';
    assert s[|s| - 1] == ')';
    assert forall m | 19 <= m < |s| - 1 :: s[m] != ')';
    forall k: nat | k < 9 ensures MatchAt(s, k).None? {
      assert s[k] != 'G';
    }
  }
}
