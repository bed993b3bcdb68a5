/** What migration 0003 makes of the retention an install had (migrations/0003_grafana_and_logs_layout.py:64-95):
    the toggle as the CMS reads it, and the horizon in days. */
module Retention {
  import opened Wrappers
  import opened Text
  import opened EnvValues
  import opened Scenarios
  import opened EnvFile
  import Settings
  import M3 = Migration0003

  /** None: the days cannot be read. */
  datatype Reading = Reading(on: bool, days: Option<int>)

  /** The old release: days as an integer, 90 by default. */
  function Old(v: Vals): Reading
  {
    Reading(
      M3.CmsReadsAsOn(Get(v, M3.OLD_ENABLED, "")),
      if IsSet(v, M3.OLD_DAYS) then PyInt(v[M3.OLD_DAYS]) else Some(90))
  }

  /** The new release: a number of days or weeks with its unit, 30 days by default. */
  function New(v: Vals): Reading
  {
    Reading(M3.CmsReadsAsOn(Get(v, M3.ENABLED, "")), Settings.HorizonDays(Get(v, M3.RETENTION, "30d")))
  }

  /** Days written as a plain number: digits without a leading zero. */
  predicate Plain(days: string) { days != "" && AllDigits(days) && days[0] != '0' }

  lemma HorizonOfDays(days: string)
    ensures Settings.IsHorizon(days + "d") <==> Plain(days)
    ensures Plain(days) ==> Settings.HorizonDays(days + "d") == Some(DecimalValue(days))
  {
    var text := days + "d";
    assert text[..|text| - 1] == days && Settings.HorizonText(text) == text;
  }

  /** A horizon is a plain number and its unit, a week being seven days; `$` lets one line feed pass. */
  lemma HorizonIff(value: string, n: int)
    ensures Settings.HorizonDays(value) == Some(n) <==>
      exists digits, end ::
        && Plain(digits) && end in {"", "\n"}
        && ((value == digits + "d" + end && n == DecimalValue(digits))
            || (value == digits + "w" + end && n == 7 * DecimalValue(digits)))
  {
    if Settings.HorizonDays(value) == Some(n) {
      HorizonParts(value);
    }
    if digits, end :| Plain(digits) && end in {"", "\n"}
                      && ((value == digits + "d" + end && n == DecimalValue(digits))
                          || (value == digits + "w" + end && n == 7 * DecimalValue(digits))) {
      PartsHorizon(digits, "d", end);
      PartsHorizon(digits, "w", end);
    }
  }

  lemma HorizonParts(value: string)
    requires Settings.HorizonDays(value).Some?
    ensures exists digits, end ::
      && Plain(digits) && end in {"", "\n"}
      && ((value == digits + "d" + end && Settings.HorizonDays(value).value == DecimalValue(digits))
          || (value == digits + "w" + end && Settings.HorizonDays(value).value == 7 * DecimalValue(digits)))
  {
    hide DecimalValue;
    var text := Settings.HorizonText(value);
    var digits, end := text[..|text| - 1], if text == value then "" else "\n";
    assert text == digits + [text[|text| - 1]] && value == text + end && Plain(digits);
    assert text[|text| - 1] == 'd' || text[|text| - 1] == 'w';
  }

  lemma PartsHorizon(digits: string, unit: string, end: string)
    requires Plain(digits) && unit in {"d", "w"} && end in {"", "\n"}
    ensures Settings.HorizonDays(digits + unit + end)
      == Some(if unit == "w" then 7 * DecimalValue(digits) else DecimalValue(digits))
  {
    hide DecimalValue;
    var text := digits + unit;
    var value := text + end;
    assert text[|text| - 1] == unit[0] && text[..|text| - 1] == digits && text[0] == digits[0];
    assert end == "" ==> value == text;
    assert end == "\n" ==> value[|value| - 1] == '\n' && value[..|value| - 1] == text;
    assert Settings.HorizonText(value) == text;
  }

  /** The toggle is on for every number but 0 and for the words of django-environ, in any case and with white space
      around them, and for nothing else. */
  lemma ToggleReads(left: string, sign: string, n: nat, right: string)
    requires Blank(left) && Blank(right) && sign in {"", "+", "-"}
    ensures M3.CmsReadsAsOn(left + (sign + Decimal(n)) + right) <==> n != 0
  {
    PyIntReads(left, sign, n, right);
    hide PyInt, Decimal, Lower, Strip;
  }

  lemma WordIsNoNumber(raw: string, word: string)
    requires Strip(raw) == word != "" && !IsDigit(word[0]) && word[0] !in "+-"
    ensures PyInt(raw) == None
  {
    hide Strip, DecimalValue;
    assert SignOf(word) == "" && word[0..] == word;
  }

  lemma WordIsNotOne(word: string)
    requires word != "" && !IsDigit(word[0])
    ensures Lower(word) != "1"
  {
    assert Lower(word)[0] == LowerChar(word[0]) != '1';
  }

  /** The words of django-environ beside "1". */
  predicate TrueWord(word: string) { word in {"true", "on", "ok", "y", "yes"} }

  lemma TrueStringsAre(word: string)
    ensures word in M3.CMS_TRUE_STRINGS <==> TrueWord(word) || word == "1"
  {}

  lemma WordToggleReads(left: string, word: string, right: string)
    requires Blank(left) && Blank(right) && word != "" && Stripped(word)
    requires !IsDigit(word[0]) && word[0] !in "+-"
    ensures M3.CmsReadsAsOn(left + word + right) <==> TrueWord(Lower(word))
  {
    hide Strip, PyInt, Lower, Blank, Stripped, M3.CMS_TRUE_STRINGS, TrueWord;
    StripPadded(left, word, right);
    WordIsNoNumber(left + word + right, word);
    WordIsNotOne(word);
    TrueStringsAre(Lower(word));
  }

  lemma PlainDaysRead(raw: string)
    requires Plain(Strip(raw))
    ensures PyInt(raw) == Some(DecimalValue(Strip(raw)))
  {
    hide Strip, DecimalValue;
    assert IsDigit(Strip(raw)[0]);
  }

  lemma HorizonOfTens(c: char)
    requires IsDigit(c) && c != '0'
    ensures Settings.HorizonDays([c, '0'] + "d") == Some(10 * DigitValue(c))
  {
    DigitsOf(c);
    AppendDigit([c], DigitValue(c), '0');
    assert [c] + ['0'] == [c, '0'];
    HorizonOfDays([c, '0']);
  }

  lemma DefaultHorizons()
    ensures Settings.HorizonDays("30d") == Some(30) && Settings.HorizonDays("90d") == Some(90)
  {
    HorizonOfTens('3');
    HorizonOfTens('9');
    hide Settings.HorizonDays;
    assert ['3', '0'] + "d" == "30d" && ['9', '0'] + "d" == "90d";
  }

  /** The horizon carried over can be read, and is the old one. */
  predicate HorizonKept(was: Reading, is_: Reading) { is_.days.Some? && is_.days == was.days }

  /** With none of the new names set, the toggle means what it meant; the horizon does exactly when the days were
      written as a plain number, or were not written and retention is on. */
  lemma MeaningKeptIff(before: seq<Line>)
    requires !IsSet(Read(before), M3.ENABLED) && !IsSet(Read(before), M3.RETENTION)
    ensures var v := Read(before);
      var was, is_ := Old(v), New(M3.Migrate(before).values);
      && is_.on == was.on
      && (HorizonKept(was, is_) <==> if IsSet(v, M3.OLD_DAYS) then Plain(Strip(v[M3.OLD_DAYS])) else was.on)
      && (is_.days.None? <==> IsSet(v, M3.OLD_DAYS) && !Plain(Strip(v[M3.OLD_DAYS])))
  {
    hide Read, M3.After, M3.StepEdits, M3.CmsReadsAsOn, Strip, M3.OLD_ENABLED, M3.ENABLED, M3.OLD_DAYS, M3.RETENTION;
    hide M3.STEPS, PyInt, Settings.HorizonDays, DecimalValue, Plain;
    var v := Read(before);
    M3.StepsRead(M3.Load(before), M3.STEPS);
    M3.RetentionAfterAll(v);
    DefaultHorizons();
    if IsSet(v, M3.OLD_DAYS) {
      var days := Strip(v[M3.OLD_DAYS]);
      HorizonOfDays(days);
      UnreadableHorizon(days);
      if Plain(days) { PlainDaysRead(v[M3.OLD_DAYS]); }
    }
  }

  lemma UnreadableHorizon(days: string)
    ensures !Plain(days) ==> Settings.HorizonDays(days + "d").None?
  {
    HorizonOfDays(days);
  }

  /** The rule on the horizon looks at what the new release reads, its default included. */
  lemma ReportedIff(env: Vals, s: Scenario)
    ensures Settings.LogFault(Settings.Issue(Settings.LOG_RETENTION, Settings.Malformed), env, s)
      <==> !Settings.IsHorizon(Get(env, Settings.LOG_RETENTION, "30d"))
  {
    ThirtyIsHorizon();
    RetentionIsNoBackend();
    hide Settings.IsHorizon, Scenario.Has, Settings.LOG_RETENTION, Settings.LOG_BACKEND, Settings.LOG_URL;
  }

  /** Days that were written otherwise become a horizon that the next check reports, and plain ones never do. */
  lemma ReportedAfterwardsIff(before: seq<Line>, s: Scenario)
    requires !IsSet(Read(before), M3.RETENTION) && IsSet(Read(before), M3.OLD_DAYS)
    ensures Settings.LogFault(Settings.Issue(Settings.LOG_RETENTION, Settings.Malformed), M3.Migrate(before).values, s)
      <==> !Plain(Strip(Read(before)[M3.OLD_DAYS]))
  {
    assert Settings.LOG_RETENTION == M3.RETENTION;
    hide Read, M3.AfterAll, Strip, M3.OLD_ENABLED, M3.ENABLED, M3.OLD_DAYS, M3.RETENTION, M3.CmsReadsAsOn;
    hide M3.STEPS, Settings.IsHorizon, Plain, Settings.LOG_RETENTION, Settings.LogFault;
    M3.StepsRead(M3.Load(before), M3.STEPS);
    M3.RetentionAfterAll(Read(before));
    HorizonOfDays(Strip(Read(before)[M3.OLD_DAYS]));
    ReportedIff(M3.Migrate(before).values, s);
  }

  lemma ThirtyIsHorizon()
    ensures Settings.IsHorizon("30d")
  {
    DefaultHorizons();
  }

  lemma RetentionIsNoBackend()
    ensures Settings.LOG_RETENTION != Settings.LOG_BACKEND && Settings.LOG_RETENTION != Settings.LOG_URL
  {}

  const PADDED := [
    Assignment("", M3.OLD_ENABLED, false, "True"), Assignment("", M3.OLD_DAYS, false, "030")]

  lemma PaddedReads()
    ensures Read(PADDED) == map[M3.OLD_ENABLED := "True", M3.OLD_DAYS := "030"]
    ensures !IsSet(Read(PADDED), M3.ENABLED) && !IsSet(Read(PADDED), M3.RETENTION)
    ensures IsSet(Read(PADDED), M3.OLD_DAYS) && Read(PADDED)[M3.OLD_DAYS] == "030"
  {
    M3.KeysDistinct();
    hide M3.OLD_ENABLED, M3.ENABLED, M3.OLD_DAYS, M3.RETENTION;
    var rest := PADDED[1..];
    assert rest == [Assignment("", M3.OLD_DAYS, false, "030")] && rest[1..] == [] && Read(rest[1..]) == map[];
    assert Read(rest) == map[M3.OLD_DAYS := "030"];
    assert Read(PADDED) == map[M3.OLD_ENABLED := "True"] + map[M3.OLD_DAYS := "030"];
  }

  lemma PaddedIsThirty()
    ensures PyInt("030") == Some(30) && Strip("030") == "030" && !Plain("030")
  {
    assert ['0'] + ['3'] + ['0'] == "030" && "030"[0] == '0' && Stripped("030");
    hide PyInt, Strip, Reads, DecimalValue;
    DigitsOf('0');
    AppendDigit(['0'], 0, '3');
    AppendDigit(['0'] + ['3'], 3, '0');
    DigitsRead("030", 30);
    StripIdentity("030");
  }

  /** Retention on and 30 days, written 030: the old release read 30, the migration writes 030d, and the new release
      reads nothing in it and reports it. */
  lemma PaddedDaysAreLost(s: Scenario)
    ensures Old(Read(PADDED)).days == Some(30) && New(M3.Migrate(PADDED).values).days == None
    ensures Settings.LogFault(Settings.Issue(Settings.LOG_RETENTION, Settings.Malformed), M3.Migrate(PADDED).values, s)
  {
    PaddedReads();
    PaddedIsThirty();
    hide PADDED, Plain, PyInt, Strip, M3.Migrate, Settings.LogFault, Settings.HorizonDays, Read;
    hide M3.OLD_ENABLED, M3.ENABLED, M3.OLD_DAYS, M3.RETENTION;
    MeaningKeptIff(PADDED);
    ReportedAfterwardsIff(PADDED, s);
  }
}
