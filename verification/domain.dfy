/** The records the event pages share: a visitor on an event's roster, an event,
    a point in time as the Date getters report it, a chosen file and the alert
    banner. The repository's `app/page.tsx` does not declare `Visitor` or
    `EventInfo`; their fields are the ones the components read and write.
    An optional text field that the components only test with `!x` or read
    with `x || ""` is held as a string in which "" stands for "absent". */
module Domain {
  import opened Wrappers

  /** The values of `getFullYear()`, `getMonth()` (0-based), `getDate()`,
      `getHours()`, `getMinutes()` and `getSeconds()`. */
  datatype DateTime = DateTime(year: nat, month: nat, day: nat, hours: nat, minutes: nat, seconds: nat)

  /** The ranges the Date getters keep to. */
  predicate ValidTime(t: DateTime) {
    t.month < 12 && 1 <= t.day <= 31 && t.hours < 24 && t.minutes < 60 && t.seconds < 60
  }

  datatype Visitor = Visitor(
    id: string,
    name: string,
    affiliation: string,
    position: string,
    email: string,
    contact: string,
    isCheckedIn: bool,
    isOnSite: bool,
    checkedInAt: Option<DateTime>,
    memo: string,     // "" when absent
    category: string) // "" when absent

  /** The roster invariant every handler keeps: a visitor carries a check-in
      time exactly when checked in, and an on-site registration is always
      checked in. */
  predicate WellFormed(v: Visitor) {
    (v.isCheckedIn <==> v.checkedInAt.Some?) && (v.isOnSite ==> v.isCheckedIn)
  }

  predicate AllWellFormed(vs: seq<Visitor>) {
    forall i :: 0 <= i < |vs| ==> WellFormed(vs[i])
  }

  function VisitorId(v: Visitor): string {
    v.id
  }

  /** Named selections used for counting. */
  predicate IsCheckedIn(v: Visitor) { v.isCheckedIn }
  predicate IsOnSite(v: Visitor) { v.isOnSite }
  predicate IsPreRegistered(v: Visitor) { !v.isOnSite }
  predicate IsPreRegisteredCheckedIn(v: Visitor) { v.isCheckedIn && !v.isOnSite }

  datatype EventInfo = EventInfo(
    id: string,
    managerName: string,
    managerAffiliation: string,
    eventDate: string, // "YYYY-MM-DD"
    startTime: string,
    endTime: string,
    eventLocation: string,
    eventName: string,
    isClosed: bool,
    createdAt: DateTime)

  /** A file picked in an upload input: its name and its text as read. */
  datatype FileInput = FileInput(name: string, text: string)

  /** The banner `showAlert(type, message)` raises; `AlertPrompt` is a browser
      `alert()` box. */
  datatype AlertKind = AlertSuccess | AlertError | AlertInfo | AlertOnSite | AlertPrompt
  datatype Alert = Alert(kind: AlertKind, message: string)
}
