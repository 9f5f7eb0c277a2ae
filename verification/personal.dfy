/** The personal dashboard's handlers (src/components/personal-dashboard.tsx): setting one of the
    five text fields and toggling one day of the daily-progress grid. */
module Personal {
  import opened Optional
  import opened Types

  /** The five free-text fields, i.e. the keys of `PersonalData` other than `tasks` and `dailyProgress`. */
  datatype TextField = Quran | Tafsir | Arabic | Spanish | MattersOfHeart

  /** `data[field]` for a text field. */
  function TextOf(p: PersonalData, f: TextField): string {
    match f
    case Quran => p.quran
    case Tafsir => p.tafsir
    case Arabic => p.arabic
    case Spanish => p.spanish
    case MattersOfHeart => p.mattersOfHeart
  }

  /** `handleFieldUpdate`: sets the named text field; every other field, the tasks and the day
      map are kept. */
  function FieldUpdate(p: PersonalData, f: TextField, v: string): (r: PersonalData)
    ensures TextOf(r, f) == v
    ensures forall g :: g != f ==> TextOf(r, g) == TextOf(p, g)
    ensures r.tasks == p.tasks && r.dailyProgress == p.dailyProgress
  {
    match f
    case Quran => p.(quran := v)
    case Tafsir => p.(tafsir := v)
    case Arabic => p.(arabic := v)
    case Spanish => p.(spanish := v)
    case MattersOfHeart => p.(mattersOfHeart := v)
  }

  /** Writing back a field's own value changes nothing, and of two writes to one field only the
      second is kept. */
  lemma FieldUpdateLaws(p: PersonalData, f: TextField, v: string, w: string)
    ensures FieldUpdate(p, f, TextOf(p, f)) == p
    ensures FieldUpdate(FieldUpdate(p, f, v), f, w) == FieldUpdate(p, f, w)
  {
  }

  /** A day of the grid, the only days that can be toggled. */
  type Day = d: int | 1 <= d <= 31 witness 1

  /** The day numbers the grid shows: `Array.from({ length: 31 }, (_, i) => i + 1)`. Each is a
      `Day`, and every `Day` is shown, once, in increasing order. */
  function GridDays(): (days: seq<Day>)
    ensures |days| == 31
    ensures forall d: Day :: d in days
    ensures forall i, j :: 0 <= i < j < |days| ==> days[i] < days[j]
  {
    var days: seq<Day> := seq(31, (i: int) requires 0 <= i < 31 => (i + 1) as Day);
    assert forall d: Day :: d in days by {
      forall d: Day ensures d in days {
        assert days[d - 1] == d;
      }
    }
    days
  }

  /** The decimal digit for `n`. */
  function Digit(n: int): char
    requires 0 <= n <= 9
  {
    ('0' as int + n) as char
  }

  /** `day.toString()`: the key a day is stored under, the day written in decimal without a
      leading zero. */
  function DayKey(d: Day): (s: string)
    ensures |s| == if d < 10 then 1 else 2
    ensures forall k :: 0 <= k < |s| ==> '0' <= s[k] <= '9'
    ensures s[0] != '0'
    ensures |s| == 1 ==> s[0] as int - '0' as int == d
    ensures |s| == 2 ==> 10 * (s[0] as int - '0' as int) + (s[1] as int - '0' as int) == d
  {
    if d < 10 then [Digit(d)] else [Digit(d / 10), Digit(d % 10)]
  }

  /** The value of a decimal digit character, if it is one. */
  function DigitValue(c: char): Option<int> {
    if '0' <= c <= '9' then Some(c as int - '0' as int) else None
  }

  /** Reads a key of the day map back as a day of the grid, if it is the key of one. */
  function ParseDayKey(s: string): (r: Option<Day>)
    ensures r.Some? ==> DayKey(r.value) == s
  {
    if |s| == 1 && DigitValue(s[0]).Some? && DigitValue(s[0]).value >= 1 then
      Some(DigitValue(s[0]).value)
    else if |s| == 2 && s[0] != '0' && DigitValue(s[0]).Some? && DigitValue(s[1]).Some?
            && 10 * DigitValue(s[0]).value + DigitValue(s[1]).value <= 31 then
      Some(10 * DigitValue(s[0]).value + DigitValue(s[1]).value)
    else None
  }

  /** Every day's key reads back as that day, so distinct days have distinct keys. */
  lemma DayKeyRoundTrip(d: Day)
    ensures ParseDayKey(DayKey(d)) == Some(d)
  {
  }

  /** Distinct days are stored under distinct keys. */
  lemma DayKeyInjective(d: Day, e: Day)
    requires d != e
    ensures DayKey(d) != DayKey(e)
  {
  }

  /** `data.dailyProgress[day.toString()] || false`: an absent key reads as not done. */
  function IsDone(p: PersonalData, d: Day): (b: bool)
    ensures DayKey(d) !in p.dailyProgress ==> !b
    ensures DayKey(d) in p.dailyProgress ==> b == p.dailyProgress[DayKey(d)]
  {
    DayKey(d) in p.dailyProgress && p.dailyProgress[DayKey(d)]
  }

  /** The grid cell's click handler: stores the negation of the day's current reading under its key.
      Every other key, the tasks and the text fields are kept. */
  function DayToggle(p: PersonalData, d: Day): (r: PersonalData)
    ensures IsDone(r, d) == !IsDone(p, d)
    ensures DayKey(d) in r.dailyProgress
    ensures r.dailyProgress.Keys == p.dailyProgress.Keys + {DayKey(d)}
    ensures forall k :: k in p.dailyProgress && k != DayKey(d) ==> r.dailyProgress[k] == p.dailyProgress[k]
    ensures forall e: Day :: e != d ==> IsDone(r, e) == IsDone(p, e)
    ensures r.tasks == p.tasks && forall f :: TextOf(r, f) == TextOf(p, f)
  {
    var r := p.(dailyProgress := p.dailyProgress[DayKey(d) := !IsDone(p, d)]);
    assert forall e: Day :: e != d ==> DayKey(e) != DayKey(d) by {
      forall e: Day | e != d ensures DayKey(e) != DayKey(d) {
        DayKeyInjective(e, d);
      }
    }
    r
  }

  /** Toggling a day twice reads the same as never toggling it; yet if the day had no entry,
      it has one afterwards (mapped to false), so the map differs from the original. */
  lemma DayToggleTwice(p: PersonalData, d: Day)
    ensures IsDone(DayToggle(DayToggle(p, d), d), d) == IsDone(p, d)
    ensures DayKey(d) !in p.dailyProgress ==>
      && DayToggle(DayToggle(p, d), d).dailyProgress[DayKey(d)] == false
      && DayToggle(DayToggle(p, d), d) != p
  {
  }

  /** A day that was never toggled and a day explicitly marked false read the same. */
  lemma AbsentReadsAsFalse(p: PersonalData, d: Day)
    requires DayKey(d) !in p.dailyProgress
    ensures !IsDone(p, d)
    ensures IsDone(p.(dailyProgress := p.dailyProgress[DayKey(d) := false]), d) == IsDone(p, d)
  {
  }
}
