/** The home page (src/app/page.tsx) together with the saved blob it writes through: the page
    holds the loaded state (absent while loading), and every change is saved. The reset reads
    the saved blob, not the page's state, so the model keeps both. */
module Page {
  import opened Optional
  import opened Types
  import Storage

  /** The page's `dashboardData` (None while loading) and the blob saved under the storage key
      (None when nothing was ever saved). */
  datatype Home = Home(data: Option<DashboardData>, saved: Option<DashboardData>)

  /** What a load returns and what is saved afterwards. */
  datatype Loaded = Loaded(data: DashboardData, saved: DashboardData)

  /** The page shows what is saved whenever it shows anything. */
  predicate Synced(h: Home) {
    h.data.Some? ==> h.saved == h.data
  }

  /** `loadDashboardData`: the saved state, or a first-run state that is saved at once. The
      label and identifiers of that first-run state are parameters. */
  function Load(saved: Option<DashboardData>, month: string, ids: seq<string>): (l: Loaded)
    requires |ids| == 6
    ensures l.saved == l.data
    ensures saved.Some? ==> l.data == saved.value
    ensures saved.None? ==> l.data == Storage.InitialData(month, ids)
    ensures saved.None? ==> l.data.dayCounter == 1 && l.data.currentMonth == month
  {
    match saved
    case Some(d) => Loaded(d, d)
    case None => var d := Storage.InitialData(month, ids); Loaded(d, d)
  }

  /** The mount effect: loads, shows the result, and stops loading. */
  function Mount(saved: Option<DashboardData>, month: string, ids: seq<string>): (h: Home)
    requires |ids| == 6
    ensures Synced(h) && h.data.Some?
    ensures saved.Some? ==> h.data == saved
    ensures h.data == Some(Load(saved, month, ids).data)
    ensures saved.None? ==> h.saved == Some(Storage.InitialData(month, ids))
  {
    var l := Load(saved, month, ids);
    Home(Some(l.data), Some(l.saved))
  }

  /** `handleDataUpdate`: shows and saves the new state. */
  function DataUpdate(h: Home, d: DashboardData): (r: Home)
    ensures r.data == Some(d) && Synced(r)
  {
    Home(Some(d), Some(d))
  }

  /** `handleDayIncrement`: nothing happens while no state is loaded; otherwise the day counter
      goes up by one, every other field is kept, and the result is saved. */
  function DayIncrement(h: Home): (r: Home)
    ensures h.data.None? ==> r == h
    ensures h.data.Some? ==>
      && r.data.Some?
      && r.data.value.dayCounter == h.data.value.dayCounter + 1
      && r.data.value.currentMonth == h.data.value.currentMonth
      && r.data.value.personal == h.data.value.personal
      && r.data.value.business == h.data.value.business
    ensures Synced(h) ==> Synced(r)
  {
    match h.data
    case None => h
    case Some(d) => DataUpdate(h, d.(dayCounter := d.dayCounter + 1))
  }

  /** `handleResetMonth`: loads the saved state (or a first-run one), resets it into the month
      `month`, saves it and shows it. The day counter of the loaded state survives. */
  function ResetMonth(h: Home, month: string, ids: seq<string>): (r: Home)
    requires |ids| == 6
    ensures Synced(r) && r.data.Some?
    ensures r.data.value.currentMonth == month
    ensures r.data.value == Storage.ResetMonthly(Load(h.saved, month, ids).data, month)
    ensures h.saved.Some? ==> r.data.value.dayCounter == h.saved.value.dayCounter
  {
    var current := Load(h.saved, month, ids).data;
    DataUpdate(h, Storage.ResetMonthly(current, month))
  }

  /** While the page is in step with the saved blob, resetting acts on exactly what the page shows,
      so the day counter the user sees survives the reset. */
  lemma ResetActsOnShownState(h: Home, month: string, ids: seq<string>)
    requires |ids| == 6
    requires Synced(h) && h.data.Some?
    ensures ResetMonth(h, month, ids).data == Some(Storage.ResetMonthly(h.data.value, month))
    ensures ResetMonth(h, month, ids).data.value.dayCounter == h.data.value.dayCounter
  {
  }

  /** Starting from a freshly mounted page, incrementing the day and then resetting the month keeps
      the incremented counter. */
  lemma IncrementSurvivesReset(saved: Option<DashboardData>, month: string, next: string, ids: seq<string>)
    requires |ids| == 6
    ensures
      var h := Mount(saved, month, ids);
      ResetMonth(DayIncrement(h), next, ids).data.value.dayCounter == h.data.value.dayCounter + 1
  {
  }
}
