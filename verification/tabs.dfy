/** The top-level handlers of the tab container (src/components/dashboard-tabs.tsx): each
    replaces one part of `DashboardData` with the value a child component hands up. */
module Tabs {
  import opened Types

  /** `handlePersonalUpdate`: replaces only the personal sub-record. */
  function PersonalUpdate(d: DashboardData, p: PersonalData): (r: DashboardData)
    ensures r.personal == p
    ensures r.business == d.business && r.currentMonth == d.currentMonth && r.dayCounter == d.dayCounter
  {
    d.(personal := p)
  }

  /** `handleBusinessUpdate`: replaces only the business sub-record. */
  function BusinessUpdate(d: DashboardData, b: BusinessData): (r: DashboardData)
    ensures r.business == b
    ensures r.personal == d.personal && r.currentMonth == d.currentMonth && r.dayCounter == d.dayCounter
  {
    d.(business := b)
  }

  /** `handleMonthUpdate`: replaces only the month label. */
  function MonthUpdate(d: DashboardData, month: string): (r: DashboardData)
    ensures r.currentMonth == month
    ensures r.personal == d.personal && r.business == d.business && r.dayCounter == d.dayCounter
  {
    d.(currentMonth := month)
  }

  /** The three updates touch disjoint parts of the state: applied in either order they give the
      same result, and handing up a part unchanged changes nothing. */
  lemma UpdatesIndependent(d: DashboardData, p: PersonalData, b: BusinessData, m: string)
    ensures PersonalUpdate(BusinessUpdate(d, b), p) == BusinessUpdate(PersonalUpdate(d, p), b)
    ensures PersonalUpdate(MonthUpdate(d, m), p) == MonthUpdate(PersonalUpdate(d, p), m)
    ensures BusinessUpdate(MonthUpdate(d, m), b) == MonthUpdate(BusinessUpdate(d, b), m)
    ensures PersonalUpdate(d, d.personal) == d && BusinessUpdate(d, d.business) == d
    ensures MonthUpdate(d, d.currentMonth) == d
  {
  }
}
