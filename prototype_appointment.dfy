/** The first prototype of the appointment: an interval with an `accepted` flag and no id.
    Its `collide` has no identity exclusion. */
module PrototypeAppointments {

  import opened Wrappers
  import opened Errors
  import Appointments

  /** A prototype appointment. */
  datatype Appointment = Appointment(since: int, until: int, accepted: bool)
  {
    /** The interval is non-empty, as the constructor guarantees. */
    predicate WellFormed() {
      since < until
    }

    /** `collide`: the two intervals share an instant, whichever appointments they are. */
    predicate Collide(other: Appointment)
      ensures WellFormed() && other.WellFormed() ==>
        (Collide(other) <==> Appointments.Overlap(since, until, other.since, other.until))
    {
      (since <= other.since && other.since < until)
      || (since < other.until && other.until <= until)
      || (since > other.since && other.until > until)
    }

    /** `__repr__`, given how an instant is printed: never empty, it reads "Appointment(",
        then the printed start, and ends with ")". */
    function Repr(showTime: int -> string): (s: string)
      ensures |s| >= 15 && s[..12] == "Appointment(" && s[|s| - 1] == ')'
      ensures 12 + |showTime(since)| <= |s| && s[12..12 + |showTime(since)|] == showTime(since)
    {
      var head, start := "Appointment(", showTime(since);
      var s := head + start + ", " + showTime(until) + ")";
      assert s[..12] == head && s[12..12 + |start|] == start;
      s
    }
  }

  /** `Appointment.__init__`: rejects an interval whose `until` is not after its `since`. */
  function New(since: int, until: int, accepted: bool): (r: Result<Appointment, Error>)
    ensures r.Failure? <==> until <= since
    ensures r.Failure? ==> r.error == ValueError
    ensures r.Success? ==> r.value.WellFormed() && r.value == Appointment(since, until, accepted)
  {
    if until - since <= 0 then Failure(ValueError)
    else Success(Appointment(since, until, accepted))
  }

  /** Without an identity check, a well-formed appointment collides with itself. */
  lemma CollideReflexive(a: Appointment)
    requires a.WellFormed()
    ensures a.Collide(a)
  {
  }

  /** For well-formed appointments `collide` is symmetric. */
  lemma CollideSymmetric(a: Appointment, b: Appointment)
    requires a.WellFormed() && b.WellFormed()
    ensures a.Collide(b) <==> b.Collide(a)
  {
  }

  /** An appointment that ends no later than another starts collides with it in neither
      direction: adjacent and separated intervals do not collide. */
  lemma EarlierDoesNotCollide(a: Appointment, b: Appointment)
    requires a.WellFormed() && b.WellFormed()
    requires a.until <= b.since
    ensures !a.Collide(b) && !b.Collide(a)
  {
  }

  /** `accepted` plays no part in `collide`. */
  lemma CollideIgnoresAccepted(a: Appointment, b: Appointment, x: bool, y: bool)
    ensures a.Collide(b) <==> a.(accepted := x).Collide(b.(accepted := y))
  {
  }
}
