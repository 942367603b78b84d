/** `parseWhen` (src/index.js): a user's time expression to an absolute deadline in
  * epoch milliseconds. The clock (`Date.now()`) is the parameter `now`; the
  * library date parser (`Date.parse`) is the parameter `dateParse`, whose `None`
  * stands for `NaN`. */
module TimeParser {
  import opened Wrappers
  import opened Text

  /** The unit alternatives of the duration pattern
    * `^(\d+)\s*(s|sec|secs|second|seconds|m|min|...|d|day|days)$`. */
  const Units: set<string> := {
    "s", "sec", "secs", "second", "seconds",
    "m", "min", "mins", "minute", "minutes",
    "h", "hr", "hrs", "hour", "hours",
    "d", "day", "days"
  }

  /** The `multipliers` table: milliseconds per unit. */
  const Multipliers: map<string, int> := map[
    "s" := 1000, "sec" := 1000, "secs" := 1000, "second" := 1000, "seconds" := 1000,
    "m" := 60_000, "min" := 60_000, "mins" := 60_000, "minute" := 60_000, "minutes" := 60_000,
    "h" := 3_600_000, "hr" := 3_600_000, "hrs" := 3_600_000, "hour" := 3_600_000, "hours" := 3_600_000,
    "d" := 86_400_000, "day" := 86_400_000, "days" := 86_400_000
  ]

  /** A match of the duration pattern: the `(\d+)` group, the `\s*` run and the unit group. */
  datatype DurationMatch = DurationMatch(digits: string, spaces: string, unit: string)

  ghost predicate WellFormed(m: DurationMatch) {
    |m.digits| > 0 && AllDigits(m.digits) && AllSpaces(m.spaces) && m.unit in Units
  }

  /** Length of the longest prefix of `s` made of digits. */
  function DigitRun(s: string): (n: nat)
    ensures n <= |s|
  {
    if |s| > 0 && IsDigit(s[0]) then 1 + DigitRun(s[1..]) else 0
  }

  /** Length of the longest prefix of `s` made of white space. */
  function SpaceRun(s: string): (n: nat)
    ensures n <= |s|
  {
    if |s| > 0 && IsSpace(s[0]) then 1 + SpaceRun(s[1..]) else 0
  }

  /** `DigitRun` is the greedy `\d+`: all digits up to it, and no digit right after. */
  lemma {:induction false} DigitRunMaximal(s: string)
    ensures forall k :: 0 <= k < DigitRun(s) ==> IsDigit(s[k])
    ensures DigitRun(s) < |s| ==> !IsDigit(s[DigitRun(s)])
  {
    if |s| > 0 && IsDigit(s[0]) {
      DigitRunMaximal(s[1..]);
    }
  }

  /** `SpaceRun` is the greedy `\s*`. */
  lemma {:induction false} SpaceRunMaximal(s: string)
    ensures forall k :: 0 <= k < SpaceRun(s) ==> IsSpace(s[k])
    ensures SpaceRun(s) < |s| ==> !IsSpace(s[SpaceRun(s)])
  {
    if |s| > 0 && IsSpace(s[0]) {
      SpaceRunMaximal(s[1..]);
    }
  }

  /** Matches the whole of `w` against the duration pattern. The digit group and
    * the white-space run are taken greedily: no unit begins with a digit or with
    * white space, so backtracking could not find any other split. */
  function MatchDuration(w: string): (r: Option<DurationMatch>) {
    var i := DigitRun(w);
    var j := i + SpaceRun(w[i..]);
    if i > 0 && w[j..] in Units then Some(DurationMatch(w[..i], w[i..j], w[j..])) else None
  }

  /** What the matcher returns is a match of the pattern that spells `w`. */
  lemma MatchDurationSound(w: string, m: DurationMatch)
    requires MatchDuration(w) == Some(m)
    ensures WellFormed(m)
    ensures w == m.digits + m.spaces + m.unit
  {
    var i := DigitRun(w);
    var rest := w[i..];
    var j := i + SpaceRun(rest);
    assert m == DurationMatch(w[..i], w[i..j], w[j..]);
    DigitPrefix(w);
    SpacePrefix(rest);
    assert w[i..j] == rest[..SpaceRun(rest)];
    SplitThree(w, i, j);
  }

  /** The greedy digit run is a run of digits. */
  lemma DigitPrefix(s: string)
    ensures AllDigits(s[..DigitRun(s)])
  {
    DigitRunMaximal(s);
    forall k | 0 <= k < DigitRun(s) ensures IsDigit(s[..DigitRun(s)][k]) {
      assert s[..DigitRun(s)][k] == s[k];
    }
  }

  /** The greedy white-space run is a run of white space. */
  lemma SpacePrefix(s: string)
    ensures AllSpaces(s[..SpaceRun(s)])
  {
    SpaceRunMaximal(s);
    forall k | 0 <= k < SpaceRun(s) ensures IsSpace(s[..SpaceRun(s)][k]) {
      assert s[..SpaceRun(s)][k] == s[k];
    }
  }

  /** Cutting a string at two points and gluing the pieces gives it back. */
  lemma SplitThree(w: string, i: nat, j: nat)
    requires i <= j <= |w|
    ensures w == w[..i] + w[i..j] + w[j..]
  {
    assert w[..j] == w[..i] + w[i..j];
    assert w == w[..j] + w[j..];
  }

  /** The bare-number pattern `^(\d+)$`. */
  predicate IsBareNumber(w: string) {
    |w| > 0 && AllDigits(w)
  }

  /** `parseWhen(whenRaw)`; `whenRaw` is `None` when the option was absent or not a string. */
  function ParseWhen(whenRaw: Option<string>, now: int, dateParse: string -> Option<int>): (r: Option<int>) {
    if whenRaw.None? || whenRaw.value == "" then None
    else
      var when := Lower(Trim(whenRaw.value));
      match MatchDuration(when)
      case Some(dur) =>
        var n := Decimal(dur.digits);
        if dur.unit !in Multipliers || Multipliers[dur.unit] == 0 then None
        else Some(now + n * Multipliers[dur.unit])
      case None =>
        if IsBareNumber(when) then Some(now + Decimal(when) * 1000)
        else dateParse(whenRaw.value)
  }

  // ---------------------------------------------------------------------------
  // Properties

  /** Every unit is a non-empty word of lower-case ASCII letters with a positive
    * multiplier: the table covers the pattern, so `parseWhen`'s `!mult` branch
    * is dead. */
  lemma UnitsCovered(u: string)
    requires u in Units
    ensures u in Multipliers && Multipliers[u] > 0
    ensures |u| > 0 && forall k :: 0 <= k < |u| ==> 'a' <= u[k] <= 'z'
  {
  }

  /** The longest digit prefix is exactly `d` when `d` is all digits and what follows is not a digit. */
  lemma {:induction false} DigitRunOf(d: string, rest: string)
    requires AllDigits(d)
    requires |rest| > 0 ==> !IsDigit(rest[0])
    ensures DigitRun(d + rest) == |d|
  {
    if |d| > 0 {
      assert (d + rest)[1..] == d[1..] + rest;
      DigitRunOf(d[1..], rest);
    } else {
      assert d + rest == rest;
    }
  }

  lemma {:induction false} SpaceRunOf(sp: string, rest: string)
    requires AllSpaces(sp)
    requires |rest| > 0 ==> !IsSpace(rest[0])
    ensures SpaceRun(sp + rest) == |sp|
  {
    if |sp| > 0 {
      assert (sp + rest)[1..] == sp[1..] + rest;
      SpaceRunOf(sp[1..], rest);
    } else {
      assert sp + rest == rest;
    }
  }

  /** The matcher finds every match of the duration pattern, and it is the only one:
    * with the soundness clause of `MatchDuration`, `MatchDuration(w) == Some(m)`
    * holds exactly when `m` is a well-formed split of `w`. */
  lemma MatchDurationComplete(d: string, sp: string, u: string)
    requires WellFormed(DurationMatch(d, sp, u))
    ensures MatchDuration(d + sp + u) == Some(DurationMatch(d, sp, u))
  {
    UnitsCovered(u);
    var w := d + sp + u;
    assert w == d + (sp + u);
    DigitRunOf(d, sp + u);
    var i := |d|;
    assert w[i..] == sp + u;
    SpaceRunOf(sp, u);
    var j := i + |sp|;
    assert w[..i] == d;
    assert w[i..j] == sp;
    assert w[j..] == u;
  }

  /** A string of digits alone never matches the duration pattern, so the two
    * relative forms are disjoint and their order does not matter. */
  lemma BareNumberIsNotDuration(w: string)
    requires IsBareNumber(w)
    ensures MatchDuration(w).None?
  {
    if MatchDuration(w).Some? {
      var m := MatchDuration(w).value;
      MatchDurationSound(w, m);
      UnitsCovered(m.unit);
      assert false;
    }
  }

  /** A null, non-string or empty input parses to nothing. */
  lemma ParseRejectsEmpty(whenRaw: Option<string>, now: int, dateParse: string -> Option<int>)
    requires whenRaw.None? || whenRaw == Some("")
    ensures ParseWhen(whenRaw, now, dateParse).None?
  {
  }

  /** `"<n><white space><unit>"`, after trimming and lower-casing, yields `now + n * multiplier`. */
  lemma ParseDuration(raw: string, d: string, sp: string, u: string, n: nat, now: int, dateParse: string -> Option<int>)
    requires WellFormed(DurationMatch(d, sp, u)) && Decimal(d) == n
    requires Lower(Trim(raw)) == d + sp + u
    ensures ParseWhen(Some(raw), now, dateParse) == Some(now + n * Multipliers[u])
  {
    MatchDurationComplete(d, sp, u);
    UnitsCovered(u);
  }

  /** A bare number of seconds `"<n>"` yields `now + n * 1000`. */
  lemma ParseBareNumber(raw: string, now: int, dateParse: string -> Option<int>)
    requires IsBareNumber(Lower(Trim(raw)))
    ensures ParseWhen(Some(raw), now, dateParse) == Some(now + Decimal(Lower(Trim(raw))) * 1000)
  {
    BareNumberIsNotDuration(Lower(Trim(raw)));
  }

  /** Anything that is neither a duration nor a bare number is left to the date parser,
    * which is given the untrimmed input. */
  lemma ParseFallsBackToDate(raw: string, now: int, dateParse: string -> Option<int>)
    requires raw != ""
    requires MatchDuration(Lower(Trim(raw))).None? && !IsBareNumber(Lower(Trim(raw)))
    ensures ParseWhen(Some(raw), now, dateParse) == dateParse(raw)
  {
  }

  /** A numeral followed by a lower-case word is left as it is by trimming and lower-casing. */
  lemma NumeralWordNormal(d: string, u: string)
    requires |d| > 0 && AllDigits(d)
    requires forall k :: 0 <= k < |u| ==> 'a' <= u[k] <= 'z'
    ensures Lower(Trim(d + u)) == d + u
  {
    var w := d + u;
    assert w[0] == d[0];
    assert w[|w| - 1] == if |u| > 0 then u[|u| - 1] else d[|d| - 1];
    TrimUnpadded(w);
    assert forall k :: 0 <= k < |w| ==> w[k] == if k < |d| then d[k] else u[k - |d|];
    LowerUnchanged(w);
  }

  lemma DigitsUnitNormal(d: string, u: string)
    requires |d| > 0 && AllDigits(d) && u in Units
    ensures Lower(Trim(d + u)) == d + "" + u
  {
    UnitsCovered(u);
    NumeralWordNormal(d, u);
    assert d + u == d + "" + u;
  }

  /** A numeral glued to a unit, with no padding, is a duration. */
  lemma ParseDigitsUnit(d: string, n: nat, u: string, now: int, dateParse: string -> Option<int>)
    requires |d| > 0 && AllDigits(d) && Decimal(d) == n && u in Units
    ensures ParseWhen(Some(d + u), now, dateParse) == Some(now + n * Multipliers[u])
  {
    DigitsUnitNormal(d, u);
    ParseDuration(d + u, d, "", u, n, now, dateParse);
  }

  /** For every number `n` and every unit: `ParseWhen("<n><unit>") == now + n * multiplier`. */
  lemma ParseNumeralWithUnit(n: nat, u: string, now: int, dateParse: string -> Option<int>)
    requires u in Units
    ensures ParseWhen(Some(ShowNat(n) + u), now, dateParse) == Some(now + n * Multipliers[u])
  {
    DecimalShowNat(n);
    ParseDigitsUnit(ShowNat(n), n, u, now, dateParse);
  }

  /** For every number `n`: `ParseWhen("<n>") == now + n * 1000`. */
  lemma ParseNumeral(n: nat, now: int, dateParse: string -> Option<int>)
    ensures ParseWhen(Some(ShowNat(n)), now, dateParse) == Some(now + n * 1000)
  {
    DecimalShowNat(n);
    NumeralWordNormal(ShowNat(n), "");
    assert ShowNat(n) + "" == ShowNat(n);
    ParseBareNumber(ShowNat(n), now, dateParse);
  }
}
