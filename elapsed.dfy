/** `formatElapsed` of cmd/ralphex/main.go: a duration written as `Ns`, `NmNs` or
    `NhNmNs`, and the reading of such a text back into seconds. */
module Elapsed {
  import opened Wrappers
  import opened Decimal

  const NanosPerSecond: nat := 1_000_000_000

  /** `int(d.Seconds())` for a `time.Duration` of `d` nanoseconds: the whole seconds,
      truncated toward zero. */
  function WholeSeconds(d: int): (s: int)
    ensures d >= 0 ==> 0 <= s && s * NanosPerSecond <= d < (s + 1) * NanosPerSecond
    ensures d < 0 ==> s <= 0 && -s * NanosPerSecond <= -d < (-s + 1) * NanosPerSecond
  {
    if d >= 0 then d / NanosPerSecond else -((-d) / NanosPerSecond)
  }

  /** The text for a number of whole seconds. Past the first branch `seconds` is at
      least 60, so Dafny's `/` and `%` agree with Go's there. */
  function FormatSeconds(seconds: int): (r: string)
    ensures |r| >= 2 && r[|r| - 1] == 's'
    ensures r[0] == '-' <==> seconds < 0
  {
    if seconds < 60 then FormatInt(seconds) + "s"
    else
      var minutes := seconds / 60;
      var secs := seconds % 60;
      if minutes < 60 then FormatInt(minutes) + "m" + FormatInt(secs) + "s"
      else
        var hours := minutes / 60;
        var mins := minutes % 60;
        FormatInt(hours) + "h" + FormatInt(mins) + "m" + FormatInt(secs) + "s"
  }

  /** One `<amount><unit>` field of an elapsed-time text. */
  datatype Field = Field(amount: nat, unit: char)

  /** Splits a text of the form `<digits><unit><digits><unit>...` into its fields;
      `None` when it is not of that form. */
  function Fields(s: string): Option<seq<Field>>
    decreases |s|
  {
    if s == [] then Some([])
    else
      var k := DigitRun(s);
      if k == 0 || k == |s| then None
      else
        match Fields(s[k + 1..])
        case None => None
        case Some(rest) => Some([Field(Value(s[..k]), s[k])] + rest)
  }

  function Units(fs: seq<Field>): string {
    if fs == [] then [] else [fs[0].unit] + Units(fs[1..])
  }

  function UnitSeconds(u: char): nat {
    if u == 'h' then 3600 else if u == 'm' then 60 else 1
  }

  /** The number of seconds a list of fields adds up to. */
  function Total(fs: seq<Field>): nat {
    if fs == [] then 0 else fs[0].amount * UnitSeconds(fs[0].unit) + Total(fs[1..])
  }

  /** Reads an elapsed-time text back into seconds: the inverse of `FormatSeconds`. */
  function ParseSeconds(s: string): Option<nat> {
    match Fields(s)
    case None => None
    case Some(fs) => if Units(fs) == "s" || Units(fs) == "ms" || Units(fs) == "hms" then Some(Total(fs)) else None
  }

  /** Reading a printed number followed by a unit letter. */
  lemma FieldsOfPrinted(n: nat, u: char, t: string, rest: seq<Field>)
    requires !IsDigit(u)
    requires Fields(t) == Some(rest)
    ensures Fields(FormatNat(n) + [u] + t) == Some([Field(n, u)] + rest)
  {
    var d := FormatNat(n);
    var s := d + [u] + t;
    assert s == d + ([u] + t);
    DigitRunOfDigits(d, [u] + t);
    assert s[..|d|] == d;
    assert s[|d| + 1..] == t;
    ValueOfFormatNat(n);
  }

  lemma FieldsOfSecondsForm(secs: nat)
    ensures Fields(FormatNat(secs) + "s") == Some([Field(secs, 's')])
  {
    assert Fields([]) == Some([]);
    FieldsOfPrinted(secs, 's', [], []);
    assert FormatNat(secs) + "s" == FormatNat(secs) + ['s'] + [];
    assert [Field(secs, 's')] + [] == [Field(secs, 's')];
  }

  lemma FieldsOfMinutesForm(mins: nat, secs: nat)
    ensures Fields(FormatNat(mins) + ['m'] + (FormatNat(secs) + "s")) == Some([Field(mins, 'm')] + [Field(secs, 's')])
  {
    FieldsOfSecondsForm(secs);
    FieldsOfPrinted(mins, 'm', FormatNat(secs) + "s", [Field(secs, 's')]);
  }

  lemma FieldsOfHoursForm(hours: nat, mins: nat, secs: nat)
    ensures Fields(FormatNat(hours) + ['h'] + (FormatNat(mins) + ['m'] + (FormatNat(secs) + "s")))
         == Some([Field(hours, 'h')] + ([Field(mins, 'm')] + [Field(secs, 's')]))
  {
    FieldsOfMinutesForm(mins, secs);
    FieldsOfPrinted(hours, 'h', FormatNat(mins) + ['m'] + (FormatNat(secs) + "s"), [Field(mins, 'm')] + [Field(secs, 's')]);
  }

  /** Every field other than the hour field is below 60. */
  predicate SubHourFieldsBelow60(fs: seq<Field>) {
    forall i :: 0 <= i < |fs| && fs[i].unit != 'h' ==> fs[i].amount < 60
  }

  lemma MinutesFormFacts(mins: nat, secs: nat)
    requires mins < 60 && secs < 60
    ensures var fs := [Field(mins, 'm')] + [Field(secs, 's')];
      Units(fs) == "ms" && Total(fs) == mins * 60 + secs && SubHourFieldsBelow60(fs)
  {
    var fs := [Field(mins, 'm')] + [Field(secs, 's')];
    assert fs[1..] == [Field(secs, 's')];
    assert Units([Field(secs, 's')]) == "s";
    assert Total([Field(secs, 's')]) == secs;
  }

  lemma HoursFormFacts(hours: nat, mins: nat, secs: nat)
    requires mins < 60 && secs < 60
    ensures var fs := [Field(hours, 'h')] + ([Field(mins, 'm')] + [Field(secs, 's')]);
      Units(fs) == "hms" && Total(fs) == hours * 3600 + mins * 60 + secs && SubHourFieldsBelow60(fs)
  {
    var fs := [Field(hours, 'h')] + ([Field(mins, 'm')] + [Field(secs, 's')]);
    MinutesFormFacts(mins, secs);
    assert fs[1..] == [Field(mins, 'm')] + [Field(secs, 's')];
  }

  /** What the fields of the text for `seconds` look like: `s` below a minute, `m`+`s`
      below an hour, `h`+`m`+`s` otherwise; the leading field of a multi-unit form is
      non-zero, the minute and second fields are below 60, and the fields add up to
      `seconds`. */
  predicate DescribesSeconds(seconds: nat, fs: seq<Field>) {
    && |fs| >= 1
    && Units(fs) == (if seconds < 60 then "s" else if seconds < 3600 then "ms" else "hms")
    && (seconds >= 60 ==> fs[0].amount > 0)
    && SubHourFieldsBelow60(fs)
    && Total(fs) == seconds
  }

  lemma SecondsFormFields(seconds: nat)
    requires seconds < 60
    ensures Fields(FormatSeconds(seconds)) == Some([Field(seconds, 's')])
    ensures DescribesSeconds(seconds, [Field(seconds, 's')])
  {
    FieldsOfSecondsForm(seconds);
    assert Units([Field(seconds, 's')]) == "s";
  }

  lemma MinutesFormFields(seconds: nat)
    requires 60 <= seconds < 3600
    ensures var fs := [Field(seconds / 60, 'm')] + [Field(seconds % 60, 's')];
      Fields(FormatSeconds(seconds)) == Some(fs) && DescribesSeconds(seconds, fs)
  {
    var minutes, secs := seconds / 60, seconds % 60;
    assert FormatSeconds(seconds) == FormatNat(minutes) + ['m'] + (FormatNat(secs) + "s");
    FieldsOfMinutesForm(minutes, secs);
    MinutesFormFacts(minutes, secs);
  }

  lemma HoursFormFields(seconds: nat)
    requires 3600 <= seconds
    ensures var fs := [Field(seconds / 60 / 60, 'h')] + ([Field(seconds / 60 % 60, 'm')] + [Field(seconds % 60, 's')]);
      Fields(FormatSeconds(seconds)) == Some(fs) && DescribesSeconds(seconds, fs)
  {
    var minutes, secs := seconds / 60, seconds % 60;
    var hours, mins := minutes / 60, minutes % 60;
    assert seconds == minutes * 60 + secs;
    assert minutes == hours * 60 + mins;
    assert FormatSeconds(seconds) == FormatNat(hours) + ['h'] + (FormatNat(mins) + ['m'] + (FormatNat(secs) + "s"));
    FieldsOfHoursForm(hours, mins, secs);
    HoursFormFacts(hours, mins, secs);
  }

  /** The form of the text follows the magnitude of `seconds`, as `DescribesSeconds`
      states. */
  lemma FormatSecondsFields(seconds: nat)
    ensures Fields(FormatSeconds(seconds)).Some?
    ensures DescribesSeconds(seconds, Fields(FormatSeconds(seconds)).value)
  {
    if seconds < 60 {
      SecondsFormFields(seconds);
    } else if seconds < 3600 {
      MinutesFormFields(seconds);
    } else {
      HoursFormFields(seconds);
    }
  }

  /** Reading back the text gives the seconds it was printed from. */
  lemma ParseFormatSeconds(seconds: nat)
    ensures ParseSeconds(FormatSeconds(seconds)) == Some(seconds)
  {
    FormatSecondsFields(seconds);
  }

  /** Different numbers of whole seconds are printed differently. */
  lemma FormatSecondsInjective(a: nat, b: nat)
    requires FormatSeconds(a) == FormatSeconds(b)
    ensures a == b
  {
    ParseFormatSeconds(a);
    ParseFormatSeconds(b);
  }

  /** `formatElapsed(d)` for a duration of `d` nanoseconds. For a non-negative duration
      the text reads back as its whole seconds. */
  function FormatElapsed(d: int): (r: string)
    ensures d >= 0 ==> ParseSeconds(r) == Some(WholeSeconds(d))
    ensures |r| >= 2 && (r[0] == '-' <==> -d >= NanosPerSecond)
  {
    var seconds := WholeSeconds(d);
    if seconds >= 0 then ParseFormatSeconds(seconds); FormatSeconds(seconds)
    else FormatSeconds(seconds)
  }

  /** The text uses only digits, the minus sign and the unit letters. */
  lemma FormatElapsedAlphabet(d: int)
    ensures forall c :: c in FormatElapsed(d) ==> IsDigit(c) || c in "-hms"
  {
    var seconds := WholeSeconds(d);
    if seconds >= 60 {
      var minutes := seconds / 60;
      if minutes >= 60 {
        var hours, mins, secs := minutes / 60, minutes % 60, seconds % 60;
        assert FormatSeconds(seconds) == FormatInt(hours) + "h" + FormatInt(mins) + "m" + FormatInt(secs) + "s";
      }
    }
  }
}
