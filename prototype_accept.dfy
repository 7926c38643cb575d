/** The prototype's `accept`: an appointment is accepted unless an accepted appointment
    among the others collides with it. */
module PrototypeAccept {

  import opened Wrappers
  import opened Errors
  import opened PrototypeAppointments

  /** `other` stands in the way of accepting `app`. */
  predicate Blocks(app: Appointment, other: Appointment) {
    other.accepted && app.Collide(other)
  }

  /** The position of the first appointment of `others` that blocks `app`. */
  function FirstBlocker(app: Appointment, others: seq<Appointment>): (r: Option<nat>)
    ensures r.Some? ==> r.value < |others| && Blocks(app, others[r.value])
    ensures r.Some? ==> forall j :: 0 <= j < r.value ==> !Blocks(app, others[j])
    ensures r.None? <==> forall j :: 0 <= j < |others| ==> !Blocks(app, others[j])
  {
    if others == [] then None
    else if Blocks(app, others[0]) then Some(0)
    else match FirstBlocker(app, others[1..])
      case None => None
      case Some(i) => Some(i + 1)
  }

  /** What `accept` does: the appointment with `accepted` set, or the NotAvailableError
      naming the first blocking appointment. */
  function AcceptSpec(app: Appointment, others: seq<Appointment>, showTime: int -> string): Result<Appointment, Error>
  {
    match FirstBlocker(app, others)
    case None => Success(app.(accepted := true))
    case Some(i) => Failure(NotAvailableError(app.Repr(showTime) + " collides with " + others[i].Repr(showTime)))
  }

  /** `accept(app, others)`: scans `others` in order and raises at the first accepted one
      that collides; otherwise sets `accepted`. The result is the appointment as the call
      leaves it. */
  method Accept(app: Appointment, others: seq<Appointment>, showTime: int -> string) returns (r: Result<Appointment, Error>)
    ensures r == AcceptSpec(app, others, showTime)
  {
    for i := 0 to |others|
      invariant forall j :: 0 <= j < i ==> !Blocks(app, others[j])
    {
      if others[i].accepted && app.Collide(others[i]) {
        return Failure(NotAvailableError(app.Repr(showTime) + " collides with " + others[i].Repr(showTime)));
      }
    }
    r := Success(app.(accepted := true));
  }

  /** Acceptance succeeds exactly when no accepted appointment of `others` collides, and
      then only the flag changes; a failure is a NotAvailableError. */
  lemma AcceptOutcome(app: Appointment, others: seq<Appointment>, showTime: int -> string)
    ensures AcceptSpec(app, others, showTime).Success? <==>
              forall o :: o in others ==> !(o.accepted && app.Collide(o))
    ensures AcceptSpec(app, others, showTime).Success? ==>
              AcceptSpec(app, others, showTime).value == app.(accepted := true)
    ensures AcceptSpec(app, others, showTime).Failure? ==>
              AcceptSpec(app, others, showTime).error.NotAvailableError?
  {
    var r := FirstBlocker(app, others);
    if r.Some? {
      assert others[r.value] in others;
    } else {
      forall o | o in others
        ensures !(o.accepted && app.Collide(o))
      {
        var j :| 0 <= j < |others| && others[j] == o;
      }
    }
  }

  /** Appointments that are not accepted never block: adding them anywhere to `others`
      changes nothing. */
  lemma {:induction false} PendingNeverBlocks(app: Appointment, others: seq<Appointment>, pending: seq<Appointment>,
                                              showTime: int -> string)
    requires forall p :: p in pending ==> !p.accepted
    ensures AcceptSpec(app, pending + others, showTime) == AcceptSpec(app, others, showTime)
  {
    if pending != [] {
      PendingNeverBlocks(app, others, pending[1..], showTime);
      assert (pending + others)[1..] == pending[1..] + others;
      assert !Blocks(app, (pending + others)[0]);
    } else {
      assert pending + others == others;
    }
  }

  /** With nothing to compare against, acceptance always succeeds. */
  lemma EmptyAccepts(app: Appointment, showTime: int -> string)
    ensures AcceptSpec(app, [], showTime) == Success(app.(accepted := true))
  {
  }
}
