/** What a calendar's two operations do to its state, as functions on values.
    `Calendar` in calendar.dfy is proved to follow these. */
module CalendarSpec {

  import opened Wrappers
  import opened Errors
  import opened Appointments
  import opened Sequences

  /** The persistent part of a calendar: owner, id counter and appointment list. */
  datatype CalendarState = CalendarState(owner: string, idCount: nat, appointments: seq<Appointment>)

  /** The state `Calendar.__init__` builds. */
  function Empty(owner: string): (s: CalendarState)
    ensures s.owner == owner && s.idCount == 0 && s.appointments == []
    ensures Consistent(s)
  {
    CalendarState(owner, 0, [])
  }

  /** An appointment that may sit in a calendar whose counter is `idCount`. */
  predicate Stored(a: Appointment, idCount: nat) {
    a.WellFormed() && a.id.Some? && 0 <= a.id.value < idCount
  }

  /** No two positions of the list hold the same id. */
  predicate DistinctIds(apps: seq<Appointment>) {
    forall i, j :: 0 <= i < j < |apps| ==> apps[i].id != apps[j].id
  }

  /** No two accepted appointments of the list collide. */
  predicate AcceptedCompatible(apps: seq<Appointment>) {
    forall x, y :: x in apps && y in apps && x.accepted && y.accepted ==> !x.Collide(y)
  }

  /** The invariant both operations keep. */
  predicate Consistent(s: CalendarState) {
    (forall x :: x in s.appointments ==> Stored(x, s.idCount))
    && DistinctIds(s.appointments)
    && AcceptedCompatible(s.appointments)
  }

  /** Some accepted appointment of the list collides with `a` (the list is the receiver). */
  predicate Blocked(apps: seq<Appointment>, a: Appointment) {
    exists i :: 0 <= i < |apps| && apps[i].Collide(a) && apps[i].accepted
  }

  /** The appointments of the list that do not collide with `a`, in list order. */
  function Kept(apps: seq<Appointment>, a: Appointment): (r: seq<Appointment>)
    ensures |r| <= |apps|
  {
    if apps == [] then []
    else
      var last := apps[|apps| - 1];
      Kept(apps[..|apps| - 1], a) + (if last.Collide(a) then [] else [last])
  }

  /** `Kept` holds exactly the appointments of the list that do not collide with `a`. */
  lemma {:induction false} KeptMembers(apps: seq<Appointment>, a: Appointment)
    ensures forall x :: x in Kept(apps, a) <==> x in apps && !x.Collide(a)
    decreases |apps|
  {
    if apps != [] {
      var last := apps[|apps| - 1];
      assert apps == apps[..|apps| - 1] + [last];
      KeptMembers(apps[..|apps| - 1], a);
    }
  }

  /** The list with the element `a` replaced by its accepted version. */
  function MarkAccepted(apps: seq<Appointment>, a: Appointment): (r: seq<Appointment>)
    ensures |r| == |apps|
    ensures forall i :: 0 <= i < |apps| ==> r[i].id == apps[i].id
    ensures forall x :: x in r ==> (x in apps && x != a) || x == a.(accepted := true)
    ensures forall x :: x in apps && x != a ==> x in r
    ensures a in apps ==> a.(accepted := true) in r
  {
    seq(|apps|, i requires 0 <= i < |apps| => if apps[i] == a then a.(accepted := true) else apps[i])
  }

  /** The ids of the list, in order. */
  function Ids(apps: seq<Appointment>): (r: seq<Option<int>>)
    ensures |r| == |apps| && forall i :: 0 <= i < |apps| ==> r[i] == apps[i].id
  {
    seq(|apps|, i requires 0 <= i < |apps| => apps[i].id)
  }

  /** `create_appointment`: the new state and the created appointment, or the exception. */
  function Create(s: CalendarState, fromUser: string, since: int, until: int, description: string)
    : (r: Result<(CalendarState, Appointment), Error>)
    ensures r.Failure? ==> r.error == ValueError || r.error == NotAvailableError("")
    ensures r.Success? ==>
              var (s', a) := r.value;
              a.id == Some(s.idCount) && !a.accepted && a.fromUser == fromUser
              && a.since == since && a.until == until && a.description == description
              && s'.owner == s.owner && s'.idCount == s.idCount + 1
              && s'.appointments == s.appointments + [a]
  {
    var a :- New(Some(s.idCount), fromUser, since, until, description, false);
    if Blocked(s.appointments, a) then Failure(NotAvailableError(""))
    else Success((CalendarState(s.owner, s.idCount + 1, s.appointments + [a]), a))
  }

  /** `accept_appointment`: the new state and the accepted appointment, or the exception.
      An accepted collider is found during the scan, so it is reported even for a foreign
      appointment; ownership is only judged once the scan is over. */
  function Accept(s: CalendarState, a: Appointment): (r: Result<(CalendarState, Appointment), Error>)
    ensures r.Failure? ==>
              r.error == NotAvailableError("") || r.error == DoesNotExistsError(NotInCalendar)
    ensures r.Success? ==> a in s.appointments && r.value.1 == a.(accepted := true)
    ensures r.Success? ==> r.value.0.owner == s.owner && r.value.0.idCount == s.idCount
  {
    if Blocked(s.appointments, a) then Failure(NotAvailableError(""))
    else if a !in s.appointments then Failure(DoesNotExistsError(NotInCalendar))
    else Success((s.(appointments := MarkAccepted(Kept(s.appointments, a), a)), a.(accepted := true)))
  }

  /** `get_appointment`: the first stored appointment with that id. */
  function Find(apps: seq<Appointment>, id: int): (r: Result<Appointment, Error>)
    ensures r.Failure? <==> forall x :: x in apps ==> x.id != Some(id)
    ensures r.Failure? ==> r.error == DoesNotExistsError(NoSuchAppointment)
    ensures r.Success? ==> r.value in apps && r.value.id == Some(id)
  {
    if apps == [] then Failure(DoesNotExistsError(NoSuchAppointment))
    else if apps[0].id == Some(id) then Success(apps[0])
    else Find(apps[1..], id)
  }

  /** `_resolve_collision`: one step of the acceptance scan, on the list built so far. */
  function ResolveCollision(a1: Appointment, a2: Appointment, verified: seq<Appointment>)
    : (r: Result<seq<Appointment>, Error>)
    ensures r.Failure? <==> Blocked([a2], a1)
    ensures r.Failure? ==> r.error == NotAvailableError("")
    ensures r.Success? ==> r.value == verified + Kept([a2], a1)
  {
    if a2.Collide(a1) then
      if a2.accepted then assert [a2][0] == a2; Failure(NotAvailableError(""))
      else Success(verified)
    else Success(verified + [a2])
  }
}
