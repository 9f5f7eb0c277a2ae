/** The start state and the monthly reset (src/lib/storage.ts). Reading and writing the saved
    blob is left to the page model; here both operations are pure. */
module Storage {
  import opened Optional
  import opened Types
  import opened Tasks
  import Business

  /** Every task list of the dashboard has unique identifiers. */
  predicate WellFormed(d: DashboardData) {
    UniqueIds(d.personal.tasks) && Business.WellFormed(d.business)
  }

  /** A new uncompleted task. */
  function NewTask(id: string, name: string, d: Difficulty): Task {
    Task(id, name, false, Some(d))
  }

  /** `getInitialData`: the state of a first run. The month label and the six identifiers the
      source draws from the clock and from `crypto.randomUUID()` are parameters. */
  function InitialData(month: string, ids: seq<string>): (d: DashboardData)
    requires |ids| == 6
    ensures d.currentMonth == month && d.dayCounter == 1
    ensures d.personal == PersonalData("", "", "", "", "", [], map[])
    ensures d.business.bestFlightAlerts.emailsSent == 0 && d.business.bestFlightAlerts.subscribers == 0
    ensures d.business.bestFlightAlerts.targetSubscribers == 1000
    ensures d.business.webTailors.clients == 0 && d.business.webTailors.targetClients == 5
    ensures d.business.webTailors.revenue == 0 && d.business.webTailors.websitesCreated == 0
    ensures |d.business.bestFlightAlerts.tasks| == 3 && |d.business.webTailors.tasks| == 3
    ensures CompletedCount(d.business.bestFlightAlerts.tasks) == 0
    ensures CompletedCount(d.business.webTailors.tasks) == 0
    ensures forall k :: 0 <= k < 3 ==> d.business.bestFlightAlerts.tasks[k].id == ids[k]
    ensures forall k :: 0 <= k < 3 ==> d.business.webTailors.tasks[k].id == ids[k + 3]
  {
    DashboardData(
      month,
      1,
      PersonalData("", "", "", "", "", [], map[]),
      BusinessData(
        BestFlightAlerts(0, 0, 1000, [
          NewTask(ids[0], "Create newsletter template", Medium),
          NewTask(ids[1], "Send weekly newsletter", Easy),
          NewTask(ids[2], "Grow subscriber list", Hard)]),
        WebTailors(0, 5, 0, 0, [
          NewTask(ids[3], "Finish client website", Medium),
          NewTask(ids[4], "Follow up with leads", Easy),
          NewTask(ids[5], "Create portfolio showcase", Hard)])))
  }

  /** `resetMonthlyData` without its load and save: starts a new month labelled `newMonth`.
      Completions, the day map and the flow metrics are cleared; the cumulative and target
      metrics, the text fields, the task lists themselves and the day counter carry over. */
  function ResetMonthly(d: DashboardData, newMonth: string): (r: DashboardData)
    ensures r.currentMonth == newMonth && r.dayCounter == d.dayCounter
    ensures r.personal == d.personal.(tasks := r.personal.tasks, dailyProgress := map[])
    ensures IsClearedCopy(r.personal.tasks, d.personal.tasks)
    ensures IsClearedCopy(r.business.bestFlightAlerts.tasks, d.business.bestFlightAlerts.tasks)
    ensures IsClearedCopy(r.business.webTailors.tasks, d.business.webTailors.tasks)
    ensures r.business.bestFlightAlerts.emailsSent == 0
    ensures r.business.bestFlightAlerts.subscribers == d.business.bestFlightAlerts.subscribers
    ensures r.business.bestFlightAlerts.targetSubscribers == d.business.bestFlightAlerts.targetSubscribers
    ensures r.business.webTailors.clients == 0 && r.business.webTailors.revenue == 0
    ensures r.business.webTailors.websitesCreated == 0
    ensures r.business.webTailors.targetClients == d.business.webTailors.targetClients
  {
    var p := d.personal;
    var bfa := d.business.bestFlightAlerts;
    var wt := d.business.webTailors;
    d.(
      currentMonth := newMonth,
      personal := p.(dailyProgress := map[], tasks := ClearCompleted(p.tasks)),
      business := BusinessData(
        bfa.(emailsSent := 0, tasks := ClearCompleted(bfa.tasks)),
        wt.(clients := 0, revenue := 0, websitesCreated := 0, tasks := ClearCompleted(wt.tasks))))
  }

  /** The outcome of a reset does not depend on whether the state had already been reset:
      resetting twice, with any labels, is resetting once with the second label. In
      particular a reset with a fixed label is idempotent. */
  lemma ResetAbsorbs(d: DashboardData, m1: string, m2: string)
    ensures ResetMonthly(ResetMonthly(d, m1), m2) == ResetMonthly(d, m2)
  {
  }

  /** A reset with a fixed label is idempotent. */
  lemma ResetIdempotent(d: DashboardData, m: string)
    ensures ResetMonthly(ResetMonthly(d, m), m) == ResetMonthly(d, m)
  {
  }

  /** A first-run state is already a reset state: resetting it in the same month changes nothing. */
  lemma InitialIsResetFixpoint(month: string, ids: seq<string>)
    requires |ids| == 6
    ensures ResetMonthly(InitialData(month, ids), month) == InitialData(month, ids)
  {
  }

  /** Distinct fresh identifiers give a well-formed first-run state. */
  lemma InitialWellFormed(month: string, ids: seq<string>)
    requires |ids| == 6
    requires forall i, j :: 0 <= i < j < 6 ==> ids[i] != ids[j]
    ensures WellFormed(InitialData(month, ids))
  {
  }

  /** A reset keeps a well-formed state well-formed, and leaves no task completed. */
  lemma ResetWellFormed(d: DashboardData, m: string)
    requires WellFormed(d)
    ensures WellFormed(ResetMonthly(d, m))
    ensures CompletedCount(ResetMonthly(d, m).personal.tasks) == 0
    ensures CompletedCount(ResetMonthly(d, m).business.bestFlightAlerts.tasks) == 0
    ensures CompletedCount(ResetMonthly(d, m).business.webTailors.tasks) == 0
  {
  }
}
