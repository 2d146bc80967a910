/** The analytics dashboard (`app/components/analytics.tsx`): every event is
    classified by its date against today, counted per calendar month and in
    total, and the visitors are counted by how they registered. A month button
    narrows the charts to one month and lists that month's events.

    Today's "YYYY-MM-DD" is a parameter. The selected month is `None` for
    "전체" (null) and `Some(m)` for the month buttons. */
module Analytics {
  import opened Wrappers
  import opened Text
  import opened Seqs
  import opened Domain
  import EventSelection

  const MonthNames := ["1월", "2월", "3월", "4월", "5월", "6월", "7월", "8월", "9월", "10월", "11월", "12월"]

  /** The dashboard's own status words: "upcoming", "inProgress", "completed". */
  datatype Status = Upcoming | InProgress | Completed

  /** The dashboard's `getEventStatus`. */
  function StatusOf(e: EventInfo, today: string): Status {
    if e.isClosed then Completed
    else if e.eventDate == today then InProgress
    else if LexLess(today, e.eventDate) then Upcoming
    else Completed
  }

  /** The dashboard classifies every event exactly as the event list's badge
      does; a closed event is always completed. */
  lemma StatusAgreesWithBadge(e: EventInfo, today: string)
    ensures var badge := EventSelection.GetEventStatus(e, today).status;
      && (StatusOf(e, today) == Upcoming <==> badge == EventSelection.Upcoming)
      && (StatusOf(e, today) == InProgress <==> badge == EventSelection.InProgress)
      && (StatusOf(e, today) == Completed <==> badge == EventSelection.Completed)
    ensures e.isClosed ==> StatusOf(e, today) == Completed
  {
  }

  function HasStatus(today: string, s: Status): EventInfo -> bool {
    e => StatusOf(e, today) == s
  }

  function NotStatus(today: string, s: Status): EventInfo -> bool {
    e => StatusOf(e, today) != s
  }

  function Everything<T>(): T -> bool {
    _ => true
  }

  /** The three status counts of a list of events add up to its length. */
  lemma StatusesAddUp(es: seq<EventInfo>, today: string)
    ensures |Filter(es, HasStatus(today, Upcoming))| + |Filter(es, HasStatus(today, InProgress))|
          + |Filter(es, HasStatus(today, Completed))| == |es|
  {
    CountSplit(es, Everything(), HasStatus(today, Upcoming), NotStatus(today, Upcoming));
    CountSplit(es, NotStatus(today, Upcoming), HasStatus(today, InProgress), HasStatus(today, Completed));
    FilterAll(es, Everything());
  }

  // ---------------------------------------------------------------- months

  /** `Number.parseInt(event.eventDate.split("-")[1], 10)`: None is NaN,
      which is also what a date without "-" gives (`parseInt(undefined)`). */
  function EventMonth(e: EventInfo): Option<int> {
    var parts := Split(e.eventDate, '-');
    if |parts| >= 2 then ParseInt(parts[1]) else None
  }

  /** A date written by the calendar's `formatDate` is read back in its
      month, counted from 1. */
  lemma MonthOfFormattedDate(e: EventInfo, year: nat, month: nat, day: nat)
    requires e.eventDate == EventSelection.FormatDate(year, month, day)
    ensures EventMonth(e) == Some(month + 1)
  {
    EventSelection.FormatDateFields(year, month, day);
    ParseIntPad2(month + 1, "");
    assert Pad2(month + 1) + "" == Pad2(month + 1);
  }

  function InMonth(m: int): EventInfo -> bool {
    e => EventMonth(e) == Some(m)
  }

  /** `selectedMonth ? ... : true`: a month of 0 would be falsy like null. */
  predicate Filtering(selected: Option<int>) {
    selected.Some? && selected.value != 0
  }

  function PassesSelection(selected: Option<int>): EventInfo -> bool {
    e => !Filtering(selected) || EventMonth(e) == Some(selected.value)
  }

  /** `monthEvents`: the events passing the month filter, then those of the
      chart's month. */
  function MonthEvents(events: seq<EventInfo>, selected: Option<int>, month: int): seq<EventInfo> {
    Filter(Filter(events, PassesSelection(selected)), InMonth(month))
  }

  /** An event is in a month's bar exactly when it is dated in that month
      and the filter, if any, is that month. */
  lemma MonthEventsIff(events: seq<EventInfo>, selected: Option<int>, month: int, e: EventInfo)
    ensures e in MonthEvents(events, selected, month) <==>
      e in events && EventMonth(e) == Some(month) && (!Filtering(selected) || selected.value == month)
  {
    var s := Filter(events, PassesSelection(selected));
    var r := Filter(s, InMonth(month));
    if e in r {
      var i :| 0 <= i < |r| && r[i] == e;
      var j :| 0 <= j < |s| && s[j] == e;
    }
    if e in events && EventMonth(e) == Some(month) && (!Filtering(selected) || selected.value == month) {
      var i :| 0 <= i < |events| && events[i] == e;
      assert PassesSelection(selected)(e);
      var j :| 0 <= j < |s| && s[j] == e;
    }
  }

  /** With a month selected, every other month's bar is empty. */
  lemma OtherMonthsEmpty(events: seq<EventInfo>, m: int, month: int)
    requires m != 0 && month != m
    ensures MonthEvents(events, Some(m), month) == []
  {
    var s := Filter(events, PassesSelection(Some(m)));
    forall x | x in s ensures !InMonth(month)(x) {
      var j :| 0 <= j < |s| && s[j] == x;
    }
    FilterNone(s, InMonth(month));
  }

  /** Without a filter, a month's bar is every event dated in that month, in
      list order. */
  lemma UnfilteredMonth(events: seq<EventInfo>, month: int)
    ensures MonthEvents(events, None, month) == Filter(events, InMonth(month))
  {
    FilterAll(events, PassesSelection(None));
  }

  // ---------------------------------------------------------------- monthly data

  datatype MonthData = MonthData(
    month: int, monthName: string, total: nat, upcoming: nat, inProgress: nat, completed: nat)

  function MonthEntry(events: seq<EventInfo>, selected: Option<int>, today: string, index: nat): MonthData
    requires index < 12
  {
    var es := MonthEvents(events, selected, index + 1);
    MonthData(index + 1, MonthNames[index], |es|,
      |Filter(es, HasStatus(today, Upcoming))|,
      |Filter(es, HasStatus(today, InProgress))|,
      |Filter(es, HasStatus(today, Completed))|)
  }

  /** `monthlyData`: one entry per month, January first. */
  function MonthlyData(events: seq<EventInfo>, selected: Option<int>, today: string): (r: seq<MonthData>)
    ensures |r| == 12
    ensures forall i :: 0 <= i < 12 ==> r[i].month == i + 1 && r[i].monthName == MonthNames[i]
  {
    seq(12, i requires 0 <= i < 12 => MonthEntry(events, selected, today, i))
  }

  /** In every month the three status counts add up to the month's total,
      which counts the month's events. */
  lemma MonthCountsAddUp(events: seq<EventInfo>, selected: Option<int>, today: string, i: nat)
    requires i < 12
    ensures var d := MonthlyData(events, selected, today)[i];
      && d.total == |MonthEvents(events, selected, i + 1)|
      && d.upcoming + d.inProgress + d.completed == d.total
  {
    StatusesAddUp(MonthEvents(events, selected, i + 1), today);
  }

  /** With month m selected, every other month's total is 0; without a
      filter, month i + 1 counts every event dated in it. */
  lemma MonthTotals(events: seq<EventInfo>, selected: Option<int>, today: string, i: nat)
    requires i < 12
    ensures Filtering(selected) && i + 1 != selected.value ==> MonthlyData(events, selected, today)[i].total == 0
    ensures selected.None? ==> MonthlyData(events, selected, today)[i].total == |Filter(events, InMonth(i + 1))|
  {
    if Filtering(selected) && i + 1 != selected.value {
      OtherMonthsEmpty(events, selected.value, i + 1);
    }
    if selected.None? {
      UnfilteredMonth(events, i + 1);
    }
  }

  // ---------------------------------------------------------------- totals

  datatype TotalStats = TotalStats(totalEvents: nat, upcomingEvents: nat, inProgressEvents: nat, completedEvents: nat)

  function TotalStatsOf(events: seq<EventInfo>, today: string): (t: TotalStats)
    ensures t.totalEvents == |events|
  {
    TotalStats(|events|,
      |Filter(events, HasStatus(today, Upcoming))|,
      |Filter(events, HasStatus(today, InProgress))|,
      |Filter(events, HasStatus(today, Completed))|)
  }

  /** Every event falls in exactly one status card. */
  lemma TotalStatsAddUp(events: seq<EventInfo>, today: string)
    ensures var t := TotalStatsOf(events, today);
      t.upcomingEvents + t.inProgressEvents + t.completedEvents == t.totalEvents
  {
    StatusesAddUp(events, today);
  }

  datatype VisitorStats = VisitorStats(totalVisitors: nat, preRegistered: nat, checkedIn: nat, onSiteRegistered: nat)

  function VisitorStatsOf(vs: seq<Visitor>): (s: VisitorStats)
    ensures s.totalVisitors == |vs|
  {
    VisitorStats(|vs|, |Filter(vs, IsPreRegistered)|, |Filter(vs, IsPreRegisteredCheckedIn)|, |Filter(vs, IsOnSite)|)
  }

  /** Every visitor is either pre-registered or registered on site, and the
      checked-in count counts pre-registered visitors only. */
  lemma VisitorStatsConsistent(vs: seq<Visitor>)
    ensures var s := VisitorStatsOf(vs);
      s.preRegistered + s.onSiteRegistered == s.totalVisitors && s.checkedIn <= s.preRegistered
  {
    CountSplit(vs, Everything(), IsPreRegistered, IsOnSite);
    FilterAll(vs, Everything());
    CountMono(vs, IsPreRegisteredCheckedIn, IsPreRegistered);
  }

  // ---------------------------------------------------------------- event list

  /** `filteredEvents`: the selected month's events, or none without a
      selection. */
  function FilteredEvents(events: seq<EventInfo>, selected: Option<int>): seq<EventInfo> {
    if Filtering(selected) then Filter(events, InMonth(selected.value)) else []
  }

  /** The list is empty without a selection; with month m it holds exactly
      the events dated in m, the same events as m's bar. */
  lemma FilteredEventsIff(events: seq<EventInfo>, selected: Option<int>, e: EventInfo)
    ensures !Filtering(selected) ==> FilteredEvents(events, selected) == []
    ensures Filtering(selected) ==>
      && (e in FilteredEvents(events, selected) <==> e in events && EventMonth(e) == Some(selected.value))
      && FilteredEvents(events, selected) == MonthEvents(events, selected, selected.value)
  {
    if Filtering(selected) {
      var m := selected.value;
      var r := Filter(events, InMonth(m));
      if e in r {
        var i :| 0 <= i < |r| && r[i] == e;
      }
      if e in events && EventMonth(e) == Some(m) {
        var i :| 0 <= i < |events| && events[i] == e;
      }
      FilterCongruent(events, PassesSelection(selected), InMonth(m));
      forall x | x in r ensures InMonth(m)(x) {
        var i :| 0 <= i < |r| && r[i] == x;
      }
      FilterAll(r, InMonth(m));
    }
  }
}
