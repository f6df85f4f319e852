/**
 * The loose lesson-duration strings ("1h 30min", "45min", "2h") and the two
 * ways the pages render a minute total back into text.
 *
 * The pages read a duration with the regular expressions `(\d+)h` and
 * `(\d+)min` and `parseInt` the captured digits. A JavaScript regular
 * expression search tries start positions from left to right; at a start
 * position `\d+` first takes the whole digit run and only then gives digits
 * back. Since both suffixes begin with a letter, giving digits back never
 * helps, so a start position matches exactly when it holds a digit and the
 * digit run from there is followed by the suffix.
 */
module Duration {
  import opened Text
  import opened Wrappers

  /** End of the run of digits that starts at `i`. */
  function RunEnd(s: string, i: nat): (j: nat)
    requires i <= |s|
    ensures i <= j <= |s|
    ensures forall k :: i <= k < j ==> IsDigit(s[k])
    ensures j == |s| || !IsDigit(s[j])
    decreases |s| - i
  {
    if i < |s| && IsDigit(s[i]) then RunEnd(s, i + 1) else i
  }

  /** The suffixes the pages search for. */
  predicate GoodSuffix(suffix: string) {
    |suffix| > 0 && !IsDigit(suffix[0])
  }

  /** `(\d+)suffix` matches `s[p..q] + suffix` at start position `p`. */
  ghost predicate MatchAt(s: string, suffix: string, p: int, q: int) {
    && 0 <= p < q <= |s|
    && (forall k :: p <= k < q ==> IsDigit(s[k]))
    && StartsWith(s[q..], suffix)
  }

  /** `p` is the leftmost start position with a match, and the match ends at `q`. */
  ghost predicate LeftmostMatch(s: string, suffix: string, p: int, q: int) {
    MatchAt(s, suffix, p, q) && forall p', q' :: 0 <= p' < p && MatchAt(s, suffix, p', q') ==> false
  }

  /** The regex search from start position `p` onwards, returning the captured number. */
  function SearchFrom(s: string, suffix: string, p: nat): Option<nat>
    requires p <= |s|
    decreases |s| - p
  {
    if p == |s| then None
    else if IsDigit(s[p]) && StartsWith(s[RunEnd(s, p)..], suffix) then
      var q := RunEnd(s, p);
      assert AllDigits(s[p..q]);
      Some(DigitsValue(s[p..q]))
    else SearchFrom(s, suffix, p + 1)
  }

  /** `s.match(/(\d+)suffix/)` followed by `parseInt` of the group, `None` when there is no match. */
  function NumberBefore(s: string, suffix: string): Option<nat> {
    SearchFrom(s, suffix, 0)
  }

  /** Minutes of a duration string: the hour number times 60 plus the minute number, each 0 when absent. */
  function ParseMinutes(s: string): nat {
    60 * NumberBefore(s, "h").GetOr(0) + NumberBefore(s, "min").GetOr(0)
  }

  /** The minute total as Course.tsx renders it: "Hh Mmin", "Hh" when M = 0, "Mmin" when H = 0. */
  function FormatCourse(m: nat): string {
    var h := m / 60;
    var mins := m % 60;
    if h > 0 then
      if mins > 0 then NatToString(h) + "h " + NatToString(mins) + "min" else NatToString(h) + "h"
    else NatToString(mins) + "min"
  }

  /** The minute total as MyProfile.tsx renders it: "Hh Mmin" when M > 0, else "Hh" (so 0 is "0h"). */
  function FormatProfile(m: nat): string {
    var h := m / 60;
    var mins := m % 60;
    if mins > 0 then NatToString(h) + "h " + NatToString(mins) + "min" else NatToString(h) + "h"
  }

  // ---------------------------------------------------------------------------
  // The search agrees with the regular expression's leftmost-match semantics.

  lemma MatchEndsAtRunEnd(s: string, suffix: string, p: int, q: int)
    requires GoodSuffix(suffix)
    requires MatchAt(s, suffix, p, q)
    ensures q == RunEnd(s, p)
  {
    assert s[q..][0] == suffix[0];
    RunEndOfRun(s, p, q);
  }

  lemma MatchAtRunEnd(s: string, suffix: string, p: nat)
    requires p < |s| && IsDigit(s[p]) && StartsWith(s[RunEnd(s, p)..], suffix)
    ensures MatchAt(s, suffix, p, RunEnd(s, p))
  {
  }

  lemma {:induction false} SearchFromSound(s: string, suffix: string, p: nat)
    requires GoodSuffix(suffix)
    requires p <= |s|
    ensures SearchFrom(s, suffix, p).None? ==>
      forall p', q' :: p <= p' && MatchAt(s, suffix, p', q') ==> false
    ensures SearchFrom(s, suffix, p).Some? ==>
      exists p', q' :: p <= p' && MatchAt(s, suffix, p', q') && AllDigits(s[p'..q'])
        && SearchFrom(s, suffix, p).value == DigitsValue(s[p'..q'])
        && forall p'', q'' :: p <= p'' < p' && MatchAt(s, suffix, p'', q'') ==> false
    decreases |s| - p
  {
    if p == |s| {
    } else if IsDigit(s[p]) && StartsWith(s[RunEnd(s, p)..], suffix) {
      MatchAtRunEnd(s, suffix, p);
      var q := RunEnd(s, p);
      assert AllDigits(s[p..q]);
      assert MatchAt(s, suffix, p, q);
    } else {
      SearchFromSound(s, suffix, p + 1);
      forall q' | MatchAt(s, suffix, p, q')
        ensures false
      {
        MatchEndsAtRunEnd(s, suffix, p, q');
      }
    }
  }

  /** `NumberBefore` returns the number captured by the leftmost match, and `None` exactly when nothing matches. */
  lemma NumberBeforeIsLeftmostMatch(s: string, suffix: string)
    requires GoodSuffix(suffix)
    ensures NumberBefore(s, suffix).None? <==> forall p, q :: !MatchAt(s, suffix, p, q)
    ensures NumberBefore(s, suffix).Some? ==>
      exists p, q :: LeftmostMatch(s, suffix, p, q) && AllDigits(s[p..q])
        && NumberBefore(s, suffix).value == DigitsValue(s[p..q])
  {
    SearchFromSound(s, suffix, 0);
    if NumberBefore(s, suffix).Some? {
      var p, q :| 0 <= p && MatchAt(s, suffix, p, q) && AllDigits(s[p..q])
        && NumberBefore(s, suffix).value == DigitsValue(s[p..q])
        && forall p'', q'' :: 0 <= p'' < p && MatchAt(s, suffix, p'', q'') ==> false;
      assert LeftmostMatch(s, suffix, p, q);
    }
  }

  // ---------------------------------------------------------------------------
  // Reading rendered durations back.

  /** The search only looks at what lies after the start position. */
  lemma {:induction false} SearchFromShift(a: string, b: string, suffix: string, k: nat)
    requires k <= |b|
    ensures SearchFrom(a + b, suffix, |a| + k) == SearchFrom(b, suffix, k)
    decreases |b| - k
  {
    var s := a + b;
    if k < |b| {
      RunEndShift(a, b, k);
      assert s[|a| + k] == b[k];
      assert s[RunEnd(s, |a| + k)..] == b[RunEnd(b, k)..];
      if IsDigit(b[k]) && StartsWith(b[RunEnd(b, k)..], suffix) {
        assert s[|a| + k..RunEnd(s, |a| + k)] == b[k..RunEnd(b, k)];
      } else {
        SearchFromShift(a, b, suffix, k + 1);
      }
    }
  }

  lemma {:induction false} RunEndShift(a: string, b: string, k: nat)
    requires k <= |b|
    ensures RunEnd(a + b, |a| + k) == |a| + RunEnd(b, k)
    decreases |b| - k
  {
    var s := a + b;
    if k < |b| {
      assert s[|a| + k] == b[k];
      if IsDigit(b[k]) {
        RunEndShift(a, b, k + 1);
      }
    }
  }

  /** Positions inside a digit run that is not followed by the suffix never start a match. */
  lemma {:induction false} SearchSkipsRun(s: string, suffix: string, p: nat, j: nat)
    requires p <= j <= |s|
    requires forall k :: p <= k < j ==> IsDigit(s[k])
    requires j == |s| || !IsDigit(s[j])
    requires !StartsWith(s[j..], suffix)
    ensures SearchFrom(s, suffix, p) == SearchFrom(s, suffix, j)
    decreases j - p
  {
    if p < j {
      assert RunEnd(s, p) == j by { RunEndOfRun(s, p, j); }
      SearchSkipsRun(s, suffix, p + 1, j);
    }
  }

  lemma {:induction false} RunEndOfRun(s: string, p: nat, j: nat)
    requires p <= j <= |s|
    requires forall k :: p <= k < j ==> IsDigit(s[k])
    requires j == |s| || !IsDigit(s[j])
    ensures RunEnd(s, p) == j
    decreases j - p
  {
    if p < j {
      RunEndOfRun(s, p + 1, j);
    }
  }

  /**
   * A number written in front of `rest` (which does not continue the digits)
   * is captured when `rest` starts with the suffix; otherwise the search
   * resumes after it.
   */
  lemma NumberThenRest(d: nat, rest: string, suffix: string)
    requires |rest| == 0 || !IsDigit(rest[0])
    ensures var s := NatToString(d) + rest;
      SearchFrom(s, suffix, 0) ==
        if StartsWith(rest, suffix) then Some(d) else SearchFrom(s, suffix, |NatToString(d)|)
  {
    var ds := NatToString(d);
    var s := ds + rest;
    assert forall k :: 0 <= k < |ds| ==> s[k] == ds[k];
    RunEndOfRun(s, 0, |ds|);
    assert s[|ds|..] == rest;
    assert s[0..|ds|] == ds;
    NatToStringRoundTrip(d);
    if !StartsWith(rest, suffix) {
      SearchSkipsRun(s, suffix, 0, |ds|);
    }
  }

  /** A string with no digit has no match. */
  lemma {:induction false} NoDigitsNoMatch(s: string, suffix: string, p: nat)
    requires p <= |s|
    requires forall k :: p <= k < |s| ==> !IsDigit(s[k])
    ensures SearchFrom(s, suffix, p) == None
    decreases |s| - p
  {
    if p < |s| {
      NoDigitsNoMatch(s, suffix, p + 1);
    }
  }

  lemma SearchInLetters(lead: string, d: nat, tail: string, suffix: string)
    requires forall k :: 0 <= k < |lead| ==> !IsDigit(lead[k])
    requires |tail| == 0 || !IsDigit(tail[0])
    ensures SearchFrom(lead + NatToString(d) + tail, suffix, 0) ==
      SearchFrom(NatToString(d) + tail, suffix, 0)
  {
    var rest := NatToString(d) + tail;
    assert lead + NatToString(d) + tail == lead + rest;
    SearchFromShift(lead, rest, suffix, 0);
    SkipLetters(lead + rest, suffix, 0, |lead|);
  }

  lemma {:induction false} SkipLetters(s: string, suffix: string, p: nat, j: nat)
    requires p <= j <= |s|
    requires forall k :: p <= k < j ==> !IsDigit(s[k])
    ensures SearchFrom(s, suffix, p) == SearchFrom(s, suffix, j)
    decreases j - p
  {
    if p < j {
      SkipLetters(s, suffix, p + 1, j);
    }
  }

  lemma HoursOfHoursThenMinutes(h: nat, m: nat)
    ensures NumberBefore(NatToString(h) + ("h " + NatToString(m) + "min"), "h") == Some(h)
  {
    var rest := "h " + NatToString(m) + "min";
    NumberThenRest(h, rest, "h");
    assert StartsWith(rest, "h");
  }

  lemma MinutesOfHoursThenMinutes(h: nat, m: nat)
    ensures NumberBefore(NatToString(h) + ("h " + NatToString(m) + "min"), "min") == Some(m)
  {
    var hs, ms := NatToString(h), NatToString(m);
    var rest := "h " + ms + "min";
    var s := hs + rest;
    assert !StartsWith(rest, "min") by { assert rest[1] == ' '; }
    calc {
      NumberBefore(s, "min");
      { NumberThenRest(h, rest, "min"); }
      SearchFrom(s, "min", |hs|);
      { SearchFromShift(hs, rest, "min", 0); }
      SearchFrom(rest, "min", 0);
      { SearchInLetters("h ", m, "min", "min"); }
      SearchFrom(ms + "min", "min", 0);
      { NumberThenRest(m, "min", "min"); }
      Some(m);
    }
  }

  /** "Hh Mmin" reads back as 60·H + M, for any H and M. */
  lemma HoursThenMinutes(h: nat, m: nat)
    ensures ParseMinutes(NatToString(h) + "h " + NatToString(m) + "min") == 60 * h + m
  {
    var s := NatToString(h) + "h " + NatToString(m) + "min";
    assert s == NatToString(h) + ("h " + NatToString(m) + "min");
    HoursOfHoursThenMinutes(h, m);
    MinutesOfHoursThenMinutes(h, m);
  }

  lemma MinutesOfMinutesThenHours(h: nat, m: nat)
    ensures NumberBefore(NatToString(m) + ("min " + NatToString(h) + "h"), "min") == Some(m)
  {
    var rest := "min " + NatToString(h) + "h";
    NumberThenRest(m, rest, "min");
    assert StartsWith(rest, "min");
  }

  lemma HoursOfMinutesThenHours(h: nat, m: nat)
    ensures NumberBefore(NatToString(m) + ("min " + NatToString(h) + "h"), "h") == Some(h)
  {
    var hs, ms := NatToString(h), NatToString(m);
    var rest := "min " + hs + "h";
    var s := ms + rest;
    assert !StartsWith(rest, "h") by { assert rest[0] == 'm'; }
    calc {
      NumberBefore(s, "h");
      { NumberThenRest(m, rest, "h"); }
      SearchFrom(s, "h", |ms|);
      { SearchFromShift(ms, rest, "h", 0); }
      SearchFrom(rest, "h", 0);
      { SearchInLetters("min ", h, "h", "h"); }
      SearchFrom(hs + "h", "h", 0);
      { NumberThenRest(h, "h", "h"); }
      Some(h);
    }
  }

  /** "Mmin Hh" reads back as 60·H + M too: the order of the two parts does not matter. */
  lemma MinutesThenHours(h: nat, m: nat)
    ensures ParseMinutes(NatToString(m) + "min " + NatToString(h) + "h") == 60 * h + m
  {
    var s := NatToString(m) + "min " + NatToString(h) + "h";
    assert s == NatToString(m) + ("min " + NatToString(h) + "h");
    MinutesOfMinutesThenHours(h, m);
    HoursOfMinutesThenHours(h, m);
  }

  /** "Hh" reads back as 60·H. */
  lemma HoursOnly(h: nat)
    ensures ParseMinutes(NatToString(h) + "h") == 60 * h
  {
    var hs := NatToString(h);
    NumberThenRest(h, "h", "h");
    NumberThenRest(h, "h", "min");
    assert !StartsWith("h", "min");
    NoDigitsNoMatch(hs + "h", "min", |hs|);
  }

  /** "Mmin" reads back as M. */
  lemma MinutesOnly(m: nat)
    ensures ParseMinutes(NatToString(m) + "min") == m
  {
    var ms := NatToString(m);
    NumberThenRest(m, "min", "min");
    NumberThenRest(m, "min", "h");
    assert !StartsWith("min", "h");
    NoDigitsNoMatch(ms + "min", "h", |ms|);
  }

  /** A string without digits is a zero duration. */
  lemma NoDigitsIsZero(s: string)
    requires forall k :: 0 <= k < |s| ==> !IsDigit(s[k])
    ensures ParseMinutes(s) == 0
  {
    NoDigitsNoMatch(s, "h", 0);
    NoDigitsNoMatch(s, "min", 0);
  }

  /** Course.tsx's rendering reads back as the minute total it rendered. */
  lemma FormatCourseRoundTrip(m: nat)
    ensures ParseMinutes(FormatCourse(m)) == m
  {
    var h := m / 60;
    var mins := m % 60;
    if h > 0 {
      if mins > 0 { HoursThenMinutes(h, mins); } else { HoursOnly(h); }
    } else {
      MinutesOnly(mins);
    }
  }

  /** MyProfile.tsx's rendering reads back as the minute total it rendered. */
  lemma FormatProfileRoundTrip(m: nat)
    ensures ParseMinutes(FormatProfile(m)) == m
  {
    var h := m / 60;
    var mins := m % 60;
    if mins > 0 { HoursThenMinutes(h, mins); } else { HoursOnly(h); }
  }
}
