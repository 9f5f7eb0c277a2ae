/** The record types of the dashboard's state (src/lib/types.ts). */
module Types {
  import opened Optional

  /** The three difficulty levels a task may carry. */
  datatype Difficulty = Easy | Medium | Hard

  /** A to-do item; `difficulty` is the one optional field. */
  datatype Task = Task(id: string, name: string, completed: bool, difficulty: Option<Difficulty>)

  /** The personal half of the dashboard: five free-text progress fields, a task list and a
      per-day completion map keyed by the day number written in decimal. A key that is absent
      and a key mapped to `false` are distinct states of the map. */
  datatype PersonalData = PersonalData(
    quran: string,
    tafsir: string,
    arabic: string,
    spanish: string,
    mattersOfHeart: string,
    tasks: seq<Task>,
    dailyProgress: map<string, bool>)

  /** The newsletter business unit: three metrics and a task list. */
  datatype BestFlightAlerts = BestFlightAlerts(
    emailsSent: int,
    subscribers: int,
    targetSubscribers: int,
    tasks: seq<Task>)

  /** The web-agency business unit: four metrics and a task list. */
  datatype WebTailors = WebTailors(
    clients: int,
    targetClients: int,
    revenue: int,
    websitesCreated: int,
    tasks: seq<Task>)

  /** Exactly two business units, each with its own fixed set of metrics. */
  datatype BusinessData = BusinessData(bestFlightAlerts: BestFlightAlerts, webTailors: WebTailors)

  /** The whole persisted state. */
  datatype DashboardData = DashboardData(
    currentMonth: string,
    dayCounter: int,
    personal: PersonalData,
    business: BusinessData)

  /** Names one of the two business units (the `business` argument of every business handler). */
  datatype Unit = BestFlightAlertsUnit | WebTailorsUnit {
    /** The unit that is not this one */
    function Other(): Unit {
      if BestFlightAlertsUnit? then WebTailorsUnit else BestFlightAlertsUnit
    }
  }

  /** The string a difficulty is written as: the value of its `<option>` and the suffix of its `tag-` class. */
  function Label(d: Difficulty): string {
    match d
    case Easy => "easy"
    case Medium => "medium"
    case Hard => "hard"
  }

  /** Reads the value of the difficulty `<select>` back as a difficulty; no other string is one. */
  function ParseDifficulty(s: string): (r: Option<Difficulty>)
    ensures r.Some? ==> Label(r.value) == s
    ensures r.None? ==> s != "easy" && s != "medium" && s != "hard"
  {
    if s == "easy" then Some(Easy)
    else if s == "medium" then Some(Medium)
    else if s == "hard" then Some(Hard)
    else None
  }

  /** Every difficulty survives being written out and read back, so the three labels are distinct. */
  lemma DifficultyRoundTrip(d: Difficulty)
    ensures ParseDifficulty(Label(d)) == Some(d)
  {
  }
}
