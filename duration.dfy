/**
 * The duration argument of the /remind command (src/bot.py, handle_remind):
 * the digits-then-word-character pattern as a left-to-right scanner, the unit table,
 * and the accumulation loop with its two rejections.
 */
module Durations {
  import opened Wrappers
  import opened Text

  /** One (number, unit) pair found by the pattern. */
  datatype Match = Match(number: string, unit: char)

  datatype DurationError = UnknownUnit(unit: char) | ZeroDuration

  /** Length of the run of digits at the start of s. */
  function DigitRun(s: string): (q: nat)
    ensures q <= |s|
    ensures forall k :: 0 <= k < q ==> IsDigit(s[k])
    ensures q == |s| || !IsDigit(s[q])
  {
    if s != [] && IsDigit(s[0]) then 1 + DigitRun(s[1..]) else 0
  }

  /**
   * Every non-overlapping digits-then-word-character match, left to right. At a
   * digit the greedy digit class takes the whole run; if no word character
   * follows, it gives back its last digit, which the word class then matches
   * (so "123" yields ("12", "3")). A lone digit not followed by a word
   * character, and every non-digit, is skipped.
   */
  function FindAll(s: string): (ms: seq<Match>)
    ensures forall i :: 0 <= i < |ms| ==> |ms[i].number| >= 1 && AllDigits(ms[i].number) && IsWordChar(ms[i].unit)
    decreases |s|
  {
    if s == [] then []
    else if !IsDigit(s[0]) then FindAll(s[1..])
    else
      var q := DigitRun(s);
      if q < |s| && IsWordChar(s[q]) then [Match(s[..q], s[q])] + FindAll(s[q + 1..])
      else if q >= 2 then [Match(s[..q - 1], s[q - 1])] + FindAll(s[q..])
      else FindAll(s[1..])
  }

  /** The unit table: seconds, minutes, hours, days and 30.4-day months. */
  function UnitSeconds(u: char): (secs: Option<nat>)
    ensures secs.Some? ==> IsAsciiLetter(u) && secs.value > 0
  {
    match u
    case 's' => Some(1)
    case 'm' => Some(60)
    case 'h' => Some(3600)
    case 'd' => Some(86400)
    case 'M' => Some(2628000)
    case _ => None
  }

  predicate Known(m: Match) { AllDigits(m.number) && UnitSeconds(m.unit).Some? }

  /** The seconds one match stands for: its number times the value of its unit. */
  function Amount(m: Match): nat
    requires Known(m)
  {
    DecimalValue(m.number) * UnitSeconds(m.unit).value
  }

  /** The sum of the amounts of all matches: zero exactly when every amount is zero. */
  function Total(ms: seq<Match>): (t: nat)
    requires forall i :: 0 <= i < |ms| ==> Known(ms[i])
    ensures t == 0 <==> forall i :: 0 <= i < |ms| ==> Amount(ms[i]) == 0
  {
    if ms == [] then 0 else Total(ms[..|ms| - 1]) + Amount(ms[|ms| - 1])
  }

  /** Position of the first match whose unit is not in the table. */
  function FirstUnknown(ms: seq<Match>): (k: Option<nat>)
    ensures k.Some? ==> k.value < |ms| && UnitSeconds(ms[k.value].unit).None?
    ensures k.Some? ==> forall j :: 0 <= j < k.value ==> UnitSeconds(ms[j].unit).Some?
    ensures k.None? ==> forall j :: 0 <= j < |ms| ==> UnitSeconds(ms[j].unit).Some?
  {
    if ms == [] then None
    else if UnitSeconds(ms[0].unit).None? then Some(0)
    else match FirstUnknown(ms[1..])
      case None => None
      case Some(k) => Some(k + 1)
  }

  /**
   * What handle_remind makes of its (stripped) duration argument: the first
   * unknown unit rejects it, a zero total rejects it, otherwise the total.
   */
  function DurationOf(arg: string): (d: Result<nat, DurationError>)
    ensures d.Ok? ==> d.value > 0
    ensures d.Err? && d.error.UnknownUnit? ==> IsWordChar(d.error.unit) && UnitSeconds(d.error.unit).None?
  {
    Assess(FindAll(arg))
  }

  /** The verdict on the matches the scanner found: the first unknown unit, a zero total, or the total. */
  function Assess(ms: seq<Match>): (d: Result<nat, DurationError>)
    requires forall i :: 0 <= i < |ms| ==> AllDigits(ms[i].number)
    ensures d.Ok? ==> d.value > 0
    ensures d.Err? && d.error.UnknownUnit? ==> UnitSeconds(d.error.unit).None?
    ensures d.Err? && d.error.UnknownUnit? ==> exists k :: 0 <= k < |ms| && ms[k].unit == d.error.unit
  {
    match FirstUnknown(ms)
    case Some(k) => Err(UnknownUnit(ms[k].unit))
    case None => if Total(ms) == 0 then Err(ZeroDuration) else Ok(Total(ms))
  }

  /** A zero-duration rejection means every pair found has a known unit and a zero amount. */
  lemma ZeroDurationMeans(arg: string)
    requires DurationOf(arg) == Err(ZeroDuration)
    ensures forall i :: 0 <= i < |FindAll(arg)| ==> Known(FindAll(arg)[i]) && Amount(FindAll(arg)[i]) == 0
  {
  }

  /** handle_remind's parse of its duration argument: find the matches, then add them up. */
  method ParseDuration(arg: string) returns (r: Result<nat, DurationError>)
    ensures r == DurationOf(arg)
  {
    var matches := FindAll(arg);
    r := Accumulate(matches);
  }

  /** The accumulation loop of handle_remind, with its early return on an unknown unit. */
  method Accumulate(matches: seq<Match>) returns (r: Result<nat, DurationError>)
    requires forall i :: 0 <= i < |matches| ==> AllDigits(matches[i].number)
    ensures r == Assess(matches)
  {
    var total := 0;
    var i := 0;
    while i < |matches|
      invariant 0 <= i <= |matches|
      invariant forall j :: 0 <= j < i ==> UnitSeconds(matches[j].unit).Some?
      invariant total == Total(matches[..i])
    {
      var m := matches[i];
      var number := DecimalValue(m.number);
      var unit := UnitSeconds(m.unit);
      match unit {
        case Some(secs) =>
          assert matches[..i + 1][..i] == matches[..i];
          total := total + number * secs;
        case None =>
          assert FirstUnknown(matches) == Some(i) by {
            FirstUnknownIs(matches, i);
          }
          return Err(UnknownUnit(m.unit));
      }
      i := i + 1;
    }
    assert matches[..i] == matches;
    if total == 0 {
      return Err(ZeroDuration);
    }
    return Ok(total);
  }

  /** The first unknown unit is the one at k when every unit before k is known. */
  lemma {:induction false} FirstUnknownIs(ms: seq<Match>, k: nat)
    requires k < |ms| && UnitSeconds(ms[k].unit).None?
    requires forall j :: 0 <= j < k ==> UnitSeconds(ms[j].unit).Some?
    ensures FirstUnknown(ms) == Some(k)
  {
    if k > 0 {
      FirstUnknownIs(ms[1..], k - 1);
    }
  }

  // ---------------------------------------------------------------------------
  // Canonical duration texts: "<n><unit><n><unit>..." with units from the table

  datatype Part = Part(amount: nat, unit: char)

  predicate KnownParts(ps: seq<Part>) { forall i :: 0 <= i < |ps| ==> UnitSeconds(ps[i].unit).Some? }

  predicate LetterUnits(ps: seq<Part>) { forall i :: 0 <= i < |ps| ==> IsAsciiLetter(ps[i].unit) }

  /** The text a user types for a list of amounts and units, e.g. "1h30m". */
  function Render(ps: seq<Part>): string
  {
    if ps == [] then "" else Decimal(ps[0].amount) + [ps[0].unit] + Render(ps[1..])
  }

  /** The seconds a list of parts stands for, each amount weighted by its unit. */
  function PartsTotal(ps: seq<Part>): nat
    requires KnownParts(ps)
  {
    if ps == [] then 0 else ps[0].amount * UnitSeconds(ps[0].unit).value + PartsTotal(ps[1..])
  }

  lemma {:induction false} DigitRunBeforeLetter(ds: string, u: char, rest: string)
    requires AllDigits(ds) && IsAsciiLetter(u)
    ensures DigitRun(ds + [u] + rest) == |ds|
  {
    if ds != [] {
      DigitRunBeforeLetter(ds[1..], u, rest);
      assert (ds + [u] + rest)[1..] == ds[1..] + [u] + rest;
    }
  }

  /** A digit run followed by a letter is the first match, and scanning resumes after the letter. */
  lemma LeadingPair(ds: string, u: char, rest: string)
    requires |ds| >= 1 && AllDigits(ds) && IsAsciiLetter(u)
    ensures FindAll(ds + [u] + rest) == [Match(ds, u)] + FindAll(rest)
  {
    var s := ds + [u] + rest;
    DigitRunBeforeLetter(ds, u, rest);
    assert s[..|ds|] == ds;
    assert s[|ds| + 1..] == rest;
    assert IsDigit(s[0]);
  }

  /** The scanner reads a rendered text back as exactly its parts, in order. */
  lemma {:induction false} FindAllRendered(ps: seq<Part>)
    requires LetterUnits(ps)
    ensures |FindAll(Render(ps))| == |ps|
    ensures forall i :: 0 <= i < |ps| ==> FindAll(Render(ps))[i] == Match(Decimal(ps[i].amount), ps[i].unit)
  {
    if ps != [] {
      LeadingPair(Decimal(ps[0].amount), ps[0].unit, Render(ps[1..]));
      FindAllRendered(ps[1..]);
    }
  }

  /** Total over the scanned rendering equals the sum of the parts. */
  lemma {:induction false} TotalRendered(ps: seq<Part>)
    requires KnownParts(ps)
    ensures forall i :: 0 <= i < |FindAll(Render(ps))| ==> Known(FindAll(Render(ps))[i])
    ensures Total(FindAll(Render(ps))) == PartsTotal(ps)
  {
    FindAllRendered(ps);
    var ms := FindAll(Render(ps));
    TotalOfParts(ps, ms);
  }

  lemma {:induction false} TotalOfParts(ps: seq<Part>, ms: seq<Match>)
    requires KnownParts(ps) && |ms| == |ps|
    requires forall i :: 0 <= i < |ps| ==> ms[i] == Match(Decimal(ps[i].amount), ps[i].unit)
    ensures forall i :: 0 <= i < |ms| ==> Known(ms[i])
    ensures Total(ms) == PartsTotal(ps)
  {
    if ps != [] {
      var n := |ps| - 1;
      TotalOfParts(ps[..n], ms[..n]);
      DecimalRoundTrip(ps[n].amount);
      PartsTotalSnoc(ps);
    }
  }

  lemma {:induction false} PartsTotalSnoc(ps: seq<Part>)
    requires KnownParts(ps) && ps != []
    ensures PartsTotal(ps) == PartsTotal(ps[..|ps| - 1]) + ps[|ps| - 1].amount * UnitSeconds(ps[|ps| - 1].unit).value
  {
    if |ps| > 1 {
      PartsTotalSnoc(ps[1..]);
      assert ps[1..][..|ps| - 2] == ps[..|ps| - 1][1..];
    }
  }

  /**
   * A canonical duration text is accepted exactly when its parts do not sum
   * to zero, and then its duration is that sum.
   */
  lemma DurationOfRendered(ps: seq<Part>)
    requires KnownParts(ps)
    ensures PartsTotal(ps) == 0 ==> DurationOf(Render(ps)) == Err(ZeroDuration)
    ensures PartsTotal(ps) > 0 ==> DurationOf(Render(ps)) == Ok(PartsTotal(ps))
  {
    TotalRendered(ps);
    FindAllRendered(ps);
    var ms := FindAll(Render(ps));
    assert FirstUnknown(ms) == None;
  }

  /**
   * A rendered text whose k-th unit is the first one outside the table is
   * rejected naming that unit, whatever valid pairs come before it.
   */
  lemma RenderedUnknownUnit(ps: seq<Part>, k: nat)
    requires LetterUnits(ps)
    requires k < |ps| && UnitSeconds(ps[k].unit).None?
    requires forall j :: 0 <= j < k ==> UnitSeconds(ps[j].unit).Some?
    ensures DurationOf(Render(ps)) == Err(UnknownUnit(ps[k].unit))
  {
    FindAllRendered(ps);
    FirstUnknownIs(FindAll(Render(ps)), k);
  }

  /** One hour and thirty minutes, written in any form the scanner reads as these parts, is 5400 seconds. */
  lemma HoursMinutesParts()
    ensures DurationOf(Render([Part(1, 'h'), Part(30, 'm')])) == Ok(5400)
  {
    var ps := [Part(1, 'h'), Part(30, 'm')];
    assert PartsTotal(ps) == 5400;
    DurationOfRendered(ps);
  }

  /** "1h30m" gives 5400 seconds. */
  lemma ExampleHoursMinutes()
    ensures DurationOf("1h30m") == Ok(5400)
  {
    var ps := [Part(1, 'h'), Part(30, 'm')];
    assert Decimal(30) == "30";
    assert Render(ps) == "1h30m" by {
      assert ps[1..] == [Part(30, 'm')];
      assert Render(ps[1..]) == "30m";
    }
    HoursMinutesParts();
  }

  /** A character that cannot start a number is skipped by the scanner. */
  lemma SkipNonDigit(c: char, s: string)
    requires !IsDigit(c)
    ensures FindAll([c] + s) == FindAll(s)
  {
    assert ([c] + s)[1..] == s;
  }

  /** The same pairs with a separator between each two of them, as in "1h-30m". */
  function RenderSeparated(ps: seq<Part>, sep: char): string
  {
    if ps == [] then ""
    else Decimal(ps[0].amount) + [ps[0].unit] + (if |ps| == 1 then "" else [sep] + RenderSeparated(ps[1..], sep))
  }

  /** Separators that cannot start a number do not change what the scanner finds. */
  lemma {:induction false} SeparatedMatches(ps: seq<Part>, sep: char)
    requires LetterUnits(ps) && !IsDigit(sep)
    ensures FindAll(RenderSeparated(ps, sep)) == FindAll(Render(ps))
  {
    if |ps| == 1 {
      assert ps[1..] == [];
      assert RenderSeparated(ps, sep) == Render(ps);
    } else if |ps| > 1 {
      var ds, u := Decimal(ps[0].amount), ps[0].unit;
      var rest := RenderSeparated(ps[1..], sep);
      assert RenderSeparated(ps, sep) == ds + [u] + ([sep] + rest);
      LeadingPair(ds, u, [sep] + rest);
      SkipNonDigit(sep, rest);
      LeadingPair(ds, u, Render(ps[1..]));
      SeparatedMatches(ps[1..], sep);
    }
  }

  /** The duration depends on the argument only through the matches the scanner finds. */
  lemma SameMatchesSameDuration(a: string, b: string)
    requires FindAll(a) == FindAll(b)
    ensures DurationOf(a) == DurationOf(b)
  {
  }

  /**
   * One separator between each two pairs changes neither the matches nor the
   * duration, so "1h-30m" means the same as "1h30m".
   */
  lemma SeparatorsSkipped(ps: seq<Part>, sep: char)
    requires LetterUnits(ps) && !IsDigit(sep)
    ensures FindAll(RenderSeparated(ps, sep)) == FindAll(Render(ps))
    ensures DurationOf(RenderSeparated(ps, sep)) == DurationOf(Render(ps))
  {
    SeparatedMatches(ps, sep);
    SameMatchesSameDuration(RenderSeparated(ps, sep), Render(ps));
  }

  /** "1h-30m" gives 5400 seconds, the same as "1h30m". */
  lemma ExampleSeparated()
    ensures DurationOf("1h-30m") == Ok(5400)
  {
    var ps := [Part(1, 'h'), Part(30, 'm')];
    assert Decimal(30) == "30";
    assert RenderSeparated(ps, '-') == "1h-30m" by {
      assert ps[1..] == [Part(30, 'm')];
      assert RenderSeparated(ps[1..], '-') == "30m" + "";
    }
    SeparatorsSkipped(ps, '-');
    HoursMinutesParts();
  }

  /** "1h5x" is rejected naming 'x' although "1h" before it is valid. */
  lemma ExampleUnknownAfterValid()
    ensures DurationOf("1h5x") == Err(UnknownUnit('x'))
  {
    var ps := [Part(1, 'h'), Part(5, 'x')];
    assert Render(ps) == "1h5x" by {
      assert ps[1..] == [Part(5, 'x')];
      assert Render(ps[1..]) == "5x";
    }
    RenderedUnknownUnit(ps, 1);
  }

  /** "2d" gives 172800 seconds. */
  lemma ExampleDays()
    ensures DurationOf("2d") == Ok(172800)
  {
    var ps := [Part(2, 'd')];
    assert Render(ps) == "2d" by {
      assert ps[1..] == [];
    }
    assert PartsTotal(ps) == 172800;
    DurationOfRendered(ps);
  }

  /** "10x" is rejected naming 'x'. */
  lemma ExampleUnknownUnit()
    ensures DurationOf("10x") == Err(UnknownUnit('x'))
  {
    var ps := [Part(10, 'x')];
    assert Decimal(10) == "10";
    assert Render(ps) == "10x" by {
      assert ps[1..] == [];
    }
    RenderedUnknownUnit(ps, 0);
  }

  /**
   * Backtracking: in "123" the digit run gives back its last digit, which the
   * word-character class takes as the unit '3'; '_' is a word character too.
   */
  lemma ExampleBacktrackedDigit()
    ensures DurationOf("123") == Err(UnknownUnit('3'))
  {
  }

  lemma ExampleUnderscoreUnit()
    ensures DurationOf("5_") == Err(UnknownUnit('_'))
  {
  }

  /** A zero amount is rejected as a zero duration. */
  lemma ExampleZeroAmount()
    ensures DurationOf("0s") == Err(ZeroDuration)
  {
    var ps := [Part(0, 's')];
    assert Render(ps) == "0s" by {
      assert ps[1..] == [];
    }
    assert PartsTotal(ps) == 0;
    DurationOfRendered(ps);
  }

  /** An argument in which the pattern finds no pair at all is rejected as a zero duration. */
  lemma NoPairsRejected(arg: string)
    requires FindAll(arg) == []
    ensures DurationOf(arg) == Err(ZeroDuration)
  {
  }

  /** Without a digit there is no pair, so such an argument ("abc", "") is rejected as a zero duration. */
  lemma {:induction false} NoDigitsRejected(arg: string)
    requires forall i :: 0 <= i < |arg| ==> !IsDigit(arg[i])
    ensures FindAll(arg) == []
    ensures DurationOf(arg) == Err(ZeroDuration)
  {
    if arg != [] {
      NoDigitsRejected(arg[1..]);
    }
  }

  /** A lone digit is not a pair either: "5" is rejected as a zero duration. */
  lemma ExampleLoneDigit()
    ensures DurationOf("5") == Err(ZeroDuration)
  {
    NoPairsRejected("5");
  }
}
