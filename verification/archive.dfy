/** The monthly archive view (src/components/monthly-archive.tsx): a card per archived month
    showing completed/total task counts, a click that selects or deselects a month, and an
    empty-state panel when nothing is archived. */
module Archive {
  import opened Optional
  import opened Types
  import opened Tasks
  import Storage

  /** One archived month: its label and the personal and business data it held. */
  datatype MonthEntry = MonthEntry(month: string, personal: PersonalData, business: BusinessData)

  /** The counts a month's card shows. */
  datatype Summary = Summary(personalCompleted: nat, personalTotal: nat, businessCompleted: nat, businessTotal: nat)

  /** The counts of one month's card. */
  function Summarize(e: MonthEntry): (s: Summary)
    ensures s.personalTotal == |e.personal.tasks|
    ensures s.businessTotal == |e.business.bestFlightAlerts.tasks| + |e.business.webTailors.tasks|
    ensures s.personalCompleted == CompletedCount(e.personal.tasks)
    ensures s.businessCompleted == CompletedCount(e.business.bestFlightAlerts.tasks) + CompletedCount(e.business.webTailors.tasks)
    ensures s.personalCompleted <= s.personalTotal
    ensures s.businessCompleted <= s.businessTotal
    ensures s.personalCompleted == s.personalTotal <==> forall k :: 0 <= k < |e.personal.tasks| ==> e.personal.tasks[k].completed
    ensures s.businessCompleted == 0 <==>
      && (forall k :: 0 <= k < |e.business.bestFlightAlerts.tasks| ==> !e.business.bestFlightAlerts.tasks[k].completed)
      && (forall k :: 0 <= k < |e.business.webTailors.tasks| ==> !e.business.webTailors.tasks[k].completed)
  {
    Summary(
      CompletedCount(e.personal.tasks),
      |e.personal.tasks|,
      CompletedCount(e.business.bestFlightAlerts.tasks) + CompletedCount(e.business.webTailors.tasks),
      |e.business.bestFlightAlerts.tasks| + |e.business.webTailors.tasks|)
  }

  /** What the archive renders: the empty-state panel, or one card summary per month key. */
  datatype View = EmptyState | Cards(summaries: map<string, Summary>)

  /** The view of an archive keyed by month. */
  function Render(archive: map<string, MonthEntry>): (v: View)
    ensures v.EmptyState? <==> |archive| == 0
    ensures v.Cards? ==> v.summaries.Keys == archive.Keys
    ensures v.Cards? ==> forall key :: key in archive ==> v.summaries[key] == Summarize(archive[key])
  {
    if |archive| == 0 then EmptyState
    else Cards(map key | key in archive :: Summarize(archive[key]))
  }

  /** Archiving a month (adding it, or replacing an earlier entry under the same key) always
      leaves cards to show, and adds the month's key to the cards' keys. */
  lemma RenderAfterArchiving(archive: map<string, MonthEntry>, key: string, e: MonthEntry)
    ensures Render(archive[key := e]).Cards?
    ensures Render(archive[key := e]).summaries.Keys == archive.Keys + {key}
  {
    assert key in archive[key := e];
  }

  /** The archived month's card summarises the entry just stored. */
  lemma ArchivedMonthCard(archive: map<string, MonthEntry>, key: string, e: MonthEntry)
    ensures Render(archive[key := e]).Cards?
    ensures Render(archive[key := e]).summaries[key] == Summarize(e)
  {
    assert key in archive[key := e] && archive[key := e][key] == e;
  }

  /** Archiving a month leaves every other month's card as it was. */
  lemma ArchivingKeepsOtherCards(archive: map<string, MonthEntry>, key: string, e: MonthEntry, other: string)
    requires other in archive && other != key
    ensures Render(archive[key := e]).summaries[other] == Render(archive).summaries[other]
  {
    assert other in archive[key := e] && archive[key := e][other] == archive[other];
  }

  /** The card click handler: clicking the selected month clears the selection, clicking any
      other month selects it. */
  function Select(selected: Option<string>, clicked: string): (r: Option<string>)
    ensures r.None? <==> selected == Some(clicked)
    ensures r.Some? ==> r.value == clicked
  {
    if selected == Some(clicked) then None else Some(clicked)
  }

  /** Clicks on cards keep the selection among the archive's keys, and a second click on the
      same card always undoes the first one's effect on whether anything is selected. */
  lemma SelectionStaysInArchive(archive: map<string, MonthEntry>, selected: Option<string>, clicked: string)
    requires selected.Some? ==> selected.value in archive
    requires clicked in archive
    ensures Select(selected, clicked).Some? ==> Select(selected, clicked).value in archive
    ensures Select(Select(selected, clicked), clicked).Some? <==> Select(selected, clicked).None?
  {
  }

  /** A month captured right after a reset shows no completed task and the same totals as before
      the reset. */
  lemma ResetMonthSummary(d: DashboardData, m: string)
    ensures
      var r := Storage.ResetMonthly(d, m);
      var s := Summarize(MonthEntry(m, r.personal, r.business));
      && s.personalCompleted == 0 && s.businessCompleted == 0
      && s.personalTotal == |d.personal.tasks|
      && s.businessTotal == |d.business.bestFlightAlerts.tasks| + |d.business.webTailors.tasks|
  {
  }
}
