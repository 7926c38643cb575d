/** The calendar aggregate: an owner's appointment list, changed in place. */
module Calendars {

  import opened Wrappers
  import opened Errors
  import opened Appointments
  import opened Events
  import opened CalendarSpec
  import CalendarProperties

  /** A call returned what `spec` says and left the state as `spec` says: the new state on
      success, the old one on failure. */
  predicate Performed(r: Result<Appointment, Error>, spec: Result<(CalendarState, Appointment), Error>,
                      before: CalendarState, after: CalendarState)
  {
    match spec
    case Success((s', a)) => r == Success(a) && after == s'
    case Failure(e) => r == Failure(e) && after == before
  }

  class Calendar {
    const owner: string
    var idCount: nat
    var appointments: seq<Appointment>
    /** Events raised on this calendar and not yet collected by the unit of work. */
    var events: seq<Event>

    function State(): CalendarState
      reads this
    {
      CalendarState(owner, idCount, appointments)
    }

    ghost predicate Valid()
      reads this
    {
      Consistent(State())
    }

    /** `Calendar.__init__`. */
    constructor(owner: string)
      ensures State() == Empty(owner) && events == []
      ensures Valid()
    {
      this.owner := owner;
      idCount := 0;
      appointments := [];
      events := [];
    }

    /** A calendar loaded from a stored state. */
    constructor Load(s: CalendarState)
      requires Consistent(s)
      ensures State() == s && events == []
      ensures Valid()
    {
      owner := s.owner;
      idCount := s.idCount;
      appointments := s.appointments;
      events := [];
    }

    /** Discards the unsaved changes: the stored state is read back; pending events stay. */
    method Reload(s: CalendarState)
      requires Consistent(s) && s.owner == owner
      modifies this
      ensures State() == s && events == old(events)
      ensures Valid()
    {
      idCount := s.idCount;
      appointments := s.appointments;
    }

    /** `create_appointment`. */
    method CreateAppointment(fromUser: string, since: int, until: int, description: string)
      returns (r: Result<Appointment, Error>)
      requires Valid()
      modifies this
      ensures Performed(r, Create(old(State()), fromUser, since, until, description), old(State()), State())
      ensures events == old(events)
      ensures Valid()
    {
      var made := New(Some(idCount), fromUser, since, until, description, false);
      if made.Failure? {
        return Failure(made.error);
      }
      var a := made.value;
      for i := 0 to |appointments|
        invariant forall k :: 0 <= k < i ==> !(appointments[k].Collide(a) && appointments[k].accepted)
      {
        if appointments[i].Collide(a) && appointments[i].accepted {
          return Failure(NotAvailableError(""));
        }
      }
      CalendarProperties.CreatePreservesConsistent(State(), fromUser, since, until, description);
      appointments := appointments + [a];
      idCount := idCount + 1;
      return Success(a);
    }

    /** `accept_appointment`, with `_resolve_collision` applied to each stored appointment. */
    method AcceptAppointment(a: Appointment) returns (r: Result<Appointment, Error>)
      requires Valid()
      modifies this
      ensures Performed(r, Accept(old(State()), a), old(State()), State())
      ensures events == old(events)
      ensures Valid()
    {
      var updated: seq<Appointment> := [];
      var owned := false;
      var i := 0;
      while i < |appointments|
        invariant 0 <= i <= |appointments|
        invariant unchanged(this)
        invariant updated == Kept(appointments[..i], a)
        invariant owned <==> a in appointments[..i]
        invariant !Blocked(appointments[..i], a)
      {
        var a2 := appointments[i];
        var step := ResolveCollision(a, a2, updated);
        if step.Failure? {
          assert [a2][0] == a2;
          CalendarProperties.ScanBlocked(appointments, i, a);
          return Failure(step.error);
        }
        CalendarProperties.ScanStep(appointments, i, a, updated);
        updated := step.value;
        if a2 == a {
          owned := true;
        }
        i := i + 1;
      }
      assert appointments[..i] == appointments;
      assert !Blocked(appointments, a);
      if !owned {
        assert a !in appointments;
        return Failure(DoesNotExistsError(NotInCalendar));
      }
      CalendarProperties.AcceptPreservesConsistent(State(), a);
      appointments := MarkAccepted(updated, a);
      return Success(a.(accepted := true));
    }

    /** `list_appointments`: the stored appointments in insertion order. */
    function ListAppointments(): (apps: seq<Appointment>)
      reads this
      ensures apps == State().appointments
    {
      appointments
    }

    /** `get_appointment`: the first stored appointment with that id. */
    function GetAppointment(id: int): (r: Result<Appointment, Error>)
      reads this
      ensures r == Find(State().appointments, id)
    {
      Find(appointments, id)
    }
  }
}
