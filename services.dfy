/** `services.py`: the earlier single-table service layer. Appointments are rows of one
    table reached through a unit of work whose session holds a working copy of the rows;
    `accept_appointment` and `ask_appointment` run `accept.py` over those rows. */
module LegacyServices {

  import opened Wrappers
  import opened Errors
  import opened LegacyAppointments
  import Accepting

  /** What `accept.py` uses of the single-table appointment: `accepted`, `collide`, `str`,
      and setting `accepted = True`. */
  function LegacyProtocol(showTime: int -> string): Accepting.Protocol<Appointment> {
    Accepting.Protocol(
      (a: Appointment) => a.accepted,
      (a: Appointment, b: Appointment) => a.Collide(b),
      (a: Appointment) => a.Repr(showTime),
      (a: Appointment) => a.(accepted := true))
  }

  /** The position of the row whose primary key is `id`: the first such row, or `None`. */
  function FindById(rows: seq<Appointment>, id: int): (r: Option<nat>)
    ensures r.Some? ==> r.value < |rows| && rows[r.value].id == Some(id)
    ensures r.Some? ==> forall j :: 0 <= j < r.value ==> rows[j].id != Some(id)
    ensures r.None? <==> forall j :: 0 <= j < |rows| ==> rows[j].id != Some(id)
  {
    if rows == [] then None
    else if rows[0].id == Some(id) then Some(0)
    else match FindById(rows[1..], id)
      case None => None
      case Some(i) => Some(i + 1)
  }

  /** The unit of work of the single-table application. `committed` is what the database
      holds, `working` what the session sees; `commits` counts the calls to `commit`. */
  class SqlUnitOfWork {
    var committed: seq<Appointment>
    var working: seq<Appointment>
    var commits: nat

    /** A unit of work over a database holding `rows`. */
    constructor(rows: seq<Appointment>)
      ensures committed == rows && working == rows && commits == 0
    {
      committed := rows;
      working := rows;
      commits := 0;
    }

    /** `__enter__`: a new session, which sees the committed rows. */
    method Enter()
      modifies this
      ensures working == committed && committed == old(committed) && commits == old(commits)
    {
      working := committed;
    }

    /** `rollback` (and `__exit__`, which calls it): the session forgets what was not
        committed. */
    method Rollback()
      modifies this
      ensures working == committed && committed == old(committed) && commits == old(commits)
    {
      working := committed;
    }

    /** `commit`: what the session holds becomes what the database holds. */
    method Commit()
      modifies this
      ensures committed == old(working) && working == old(working) && commits == old(commits) + 1
    {
      committed := working;
      commits := commits + 1;
    }

    /** `appointments.get(id)`: where the row with that key sits, or DoesNotExistsError. */
    method Get(id: int) returns (r: Result<nat, Error>)
      ensures r.Success? <==> exists j :: 0 <= j < |working| && working[j].id == Some(id)
      ensures r.Success? <==> FindById(working, id).Some?
      ensures r.Success? ==> r.value == FindById(working, id).value
      ensures r.Success? ==> r.value < |working| && working[r.value].id == Some(id)
      ensures r.Failure? ==> r.error == DoesNotExistsError("")
    {
      match FindById(working, id)
      case None =>
        r := Failure(DoesNotExistsError(""));
      case Some(i) =>
        r := Success(i);
    }

    /** `appointments.list()`: every row the session sees, in table order. */
    method List() returns (rows: seq<Appointment>)
      ensures rows == working
    {
      rows := working;
    }

    /** `appointments.add(app)`: the session holds one more row. */
    method Add(app: Appointment)
      modifies this
      ensures working == old(working) + [app] && committed == old(committed) && commits == old(commits)
    {
      working := working + [app];
    }

    /** Setting a field of a row the session handed out: the session now holds the changed
        row in its place. */
    method Put(i: nat, app: Appointment)
      requires i < |working|
      modifies this
      ensures working == old(working)[i := app] && committed == old(committed) && commits == old(commits)
    {
      working := working[i := app];
    }
  }

  /** What `accept_appointment(id)` does to a database holding `rows`: the rows it commits
      and the appointment it returns, or the exception it raises. */
  function AcceptAppointmentSpec(rows: seq<Appointment>, id: int, showTime: int -> string)
    : Result<(seq<Appointment>, Appointment), Error>
  {
    match FindById(rows, id)
    case None => Failure(DoesNotExistsError(""))
    case Some(i) =>
      var app :- Accepting.Accept(LegacyProtocol(showTime), rows[i], rows);
      Success((rows[i := app], app))
  }

  /** `accept_appointment`: looks the row up, accepts it against every row (itself
      included), commits and returns it; on any exception nothing is committed, and leaving
      the unit of work rolls the session back. */
  method AcceptAppointment(id: int, uow: SqlUnitOfWork, showTime: int -> string) returns (r: Result<Appointment, Error>)
    modifies uow
    ensures var s := AcceptAppointmentSpec(old(uow.committed), id, showTime);
            r == (if s.Success? then Success(s.value.1) else Failure(s.error))
            && uow.committed == (if s.Success? then s.value.0 else old(uow.committed))
            && uow.commits == old(uow.commits) + (if s.Success? then 1 else 0)
    ensures uow.working == uow.committed
  {
    uow.Enter();
    var found := uow.Get(id);
    if found.Failure? {
      uow.Rollback();
      return Failure(found.error);
    }
    r := AcceptRow(found.value, uow, showTime);
  }

  /** The part of `accept_appointment` after the row at `i` was found: accept it against
      every row, write it back and commit, or roll back on NotAvailableError. */
  method AcceptRow(i: nat, uow: SqlUnitOfWork, showTime: int -> string) returns (r: Result<Appointment, Error>)
    requires i < |uow.working| && uow.working == uow.committed
    modifies uow
    ensures var s := Accepting.Accept(LegacyProtocol(showTime), old(uow.working)[i], old(uow.working));
            r == s
            && uow.committed == (if s.Success? then old(uow.working)[i := s.value] else old(uow.committed))
            && uow.commits == old(uow.commits) + (if s.Success? then 1 else 0)
    ensures uow.working == uow.committed
  {
    var others := uow.List();
    var accepted := Accepting.Accept(LegacyProtocol(showTime), others[i], others);
    if accepted.Failure? {
      uow.Rollback();
      return accepted;
    }
    uow.Put(i, accepted.value);
    uow.Commit();
    uow.Rollback();
    r := accepted;
  }

  /** The message `ask_appointment` raises with, as written: after the first collider it
      lists every stored row, whether it collides or not. */
  function AskMessageAsWritten(app: Appointment, first: Appointment, stored: seq<Appointment>, showTime: int -> string)
    : (m: string)
    ensures var head := Accepting.Collision(LegacyProtocol(showTime), app, first);
            |head| <= |m| && m[..|head|] == head
  {
    Accepting.BuildExcMsg(LegacyProtocol(showTime), app, first, stored)
  }

  /** The message `ask_appointment` evidently means to raise, the one `accept` builds:
      the first collider, then the remaining colliders. */
  function AskMessage(app: Appointment, colliding: seq<Appointment>, showTime: int -> string): (m: string)
    requires colliding != []
    ensures var head := Accepting.Collision(LegacyProtocol(showTime), app, colliding[0]);
            |head| <= |m| && m[..|head|] == head
  {
    Accepting.BuildExcMsg(LegacyProtocol(showTime), app, colliding[0], colliding[1..])
  }

  /** What `ask_appointment(since, until)` does to a database holding `rows`, as written:
      the rows it commits and the appointment it returns, or the exception it raises, whose
      message lists every stored row after the first collider. */
  function AskAppointmentSpec(rows: seq<Appointment>, since: int, until: int, showTime: int -> string)
    : Result<(seq<Appointment>, Appointment), Error>
  {
    var app :- New(since, until, false, None);
    var colliding := Accepting.FindColliding(LegacyProtocol(showTime), app, rows);
    if colliding == [] then Success((rows + [app], app))
    else Failure(NotAvailableError(AskMessageAsWritten(app, colliding[0], rows, showTime)))
  }

  /** What `ask_appointment` evidently means to do: the same, except that the message lists
      the remaining colliders, as `accept` does. */
  function AskAppointmentIntended(rows: seq<Appointment>, since: int, until: int, showTime: int -> string)
    : Result<(seq<Appointment>, Appointment), Error>
  {
    var app :- New(since, until, false, None);
    var colliding := Accepting.FindColliding(LegacyProtocol(showTime), app, rows);
    if colliding == [] then Success((rows + [app], app))
    else Failure(NotAvailableError(AskMessage(app, colliding, showTime)))
  }

  /** `ask_appointment`: builds the appointment before entering the unit of work, so an
      invalid interval touches nothing; otherwise adds and commits it when no accepted row
      collides, and raises NotAvailableError without committing when one does. */
  method AskAppointment(since: int, until: int, uow: SqlUnitOfWork, showTime: int -> string)
    returns (r: Result<Appointment, Error>)
    modifies uow
    ensures var s := AskAppointmentSpec(old(uow.committed), since, until, showTime);
            r == (if s.Success? then Success(s.value.1) else Failure(s.error))
            && uow.committed == (if s.Success? then s.value.0 else old(uow.committed))
            && uow.commits == old(uow.commits) + (if s.Success? then 1 else 0)
    ensures until <= since ==> unchanged(uow)
    ensures since < until ==> uow.working == uow.committed
  {
    var made := New(since, until, false, None);
    if made.Failure? {
      return Failure(made.error);
    }
    var app := made.value;
    uow.Enter();
    var others := uow.List();
    var colliding := Accepting.FindColliding(LegacyProtocol(showTime), app, others);
    if colliding == [] {
      uow.Add(app);
      uow.Commit();
      uow.Rollback();
      return Success(app);
    }
    uow.Rollback();
    r := Failure(NotAvailableError(AskMessageAsWritten(app, colliding[0], others, showTime)));
  }

  /** An unknown id raises DoesNotExistsError before anything is accepted. */
  lemma AcceptUnknownId(rows: seq<Appointment>, id: int, showTime: int -> string)
    requires forall a :: a in rows ==> a.id != Some(id)
    ensures AcceptAppointmentSpec(rows, id, showTime) == Failure(DoesNotExistsError(""))
  {
    assert FindById(rows, id).None? by {
      forall j | 0 <= j < |rows|
        ensures rows[j].id != Some(id)
      {
        assert rows[j] in rows;
      }
    }
  }

  /** For a stored id, acceptance succeeds exactly when no accepted row collides with the
      appointment; the returned appointment is then accepted, differs from the stored one in
      nothing else, and is what the database holds in its place. A failure is a
      NotAvailableError. */
  lemma AcceptAppointmentOutcome(rows: seq<Appointment>, id: int, showTime: int -> string, i: nat)
    requires FindById(rows, id) == Some(i)
    ensures AcceptAppointmentSpec(rows, id, showTime).Success? <==>
              forall x :: x in rows ==> !(x.accepted && rows[i].Collide(x))
    ensures AcceptAppointmentSpec(rows, id, showTime).Success? ==>
              var v := AcceptAppointmentSpec(rows, id, showTime).value;
              v.1 == rows[i].(accepted := true) && v.1.accepted && v.0 == rows[i := v.1]
    ensures AcceptAppointmentSpec(rows, id, showTime).Failure? ==>
              AcceptAppointmentSpec(rows, id, showTime).error.NotAvailableError?
  {
    var p := LegacyProtocol(showTime);
    assert forall x :: Accepting.Blocks(p, rows[i], x) <==> x.accepted && rows[i].Collide(x);
  }

  /** `collide` has no identity check and the appointment is among the rows it is checked
      against, so accepting an appointment that is already accepted always fails. */
  lemma AcceptAlreadyAcceptedFails(rows: seq<Appointment>, id: int, showTime: int -> string, i: nat)
    requires FindById(rows, id) == Some(i)
    requires rows[i].accepted && rows[i].WellFormed()
    ensures AcceptAppointmentSpec(rows, id, showTime).Failure?
    ensures AcceptAppointmentSpec(rows, id, showTime).error.NotAvailableError?
  {
    CollideReflexive(rows[i]);
    assert rows[i] in rows;
    AcceptAppointmentOutcome(rows, id, showTime, i);
  }

  /** Asking for an interval whose `until` is not after its `since` raises ValueError. */
  lemma AskInvalidInterval(rows: seq<Appointment>, since: int, until: int, showTime: int -> string)
    requires until <= since
    ensures AskAppointmentSpec(rows, since, until, showTime) == Failure(ValueError)
  {
  }

  /** For a valid interval, asking succeeds exactly when no accepted row collides; the new
      row is then unaccepted, has no id yet and is appended after the stored rows. A failure
      is a NotAvailableError that names the first accepted collider and then every stored
      row, in stored order. */
  lemma AskAppointmentOutcome(rows: seq<Appointment>, since: int, until: int, showTime: int -> string)
    requires since < until
    ensures var app := Appointment(None, since, until, false);
            var s := AskAppointmentSpec(rows, since, until, showTime);
            (s.Success? <==> forall x :: x in rows ==> !(x.accepted && app.Collide(x)))
            && (s.Success? ==> s.value == (rows + [app], app))
            && (s.Failure? ==>
                  var c := Accepting.FindColliding(LegacyProtocol(showTime), app, rows);
                  rows != [] && c != [] && c[0].accepted && app.Collide(c[0])
                  && s.error == NotAvailableError(
                       Accepting.Collision(LegacyProtocol(showTime), app, c[0])
                       + ", " + Accepting.Join(", ", Accepting.Shows(LegacyProtocol(showTime), rows))))
  {
    var app := Appointment(None, since, until, false);
    var p := LegacyProtocol(showTime);
    var c := Accepting.FindColliding(p, app, rows);
    if c != [] {
      assert c[0] in c;
      Accepting.BuildExcMsgListsRest(p, app, c[0], rows);
    } else {
      forall x | x in rows
        ensures !(x.accepted && app.Collide(x))
      {
      }
    }
  }

  /** The intended behaviour: it agrees with `ask_appointment` in everything but the
      message, which names the first accepted collider and then exactly the remaining
      ones. */
  lemma AskIntendedOutcome(rows: seq<Appointment>, since: int, until: int, showTime: int -> string)
    ensures var s, t := AskAppointmentSpec(rows, since, until, showTime), AskAppointmentIntended(rows, since, until, showTime);
            (t.Success? <==> s.Success?) && (t.Success? ==> t.value == s.value)
            && (t.Failure? ==> t.error.NotAvailableError? == s.error.NotAvailableError?)
    ensures since < until ==>
              var app := Appointment(None, since, until, false);
              var t := AskAppointmentIntended(rows, since, until, showTime);
              t.Failure? ==>
                var c := Accepting.FindColliding(LegacyProtocol(showTime), app, rows);
                c != [] && c[0].accepted && app.Collide(c[0])
                && t.error == NotAvailableError(
                     Accepting.Collision(LegacyProtocol(showTime), app, c[0])
                     + (if |c| == 1 then "" else ", " + Accepting.Join(", ", Accepting.Shows(LegacyProtocol(showTime), c[1..]))))
  {
    if since < until {
      var app := Appointment(None, since, until, false);
      var p := LegacyProtocol(showTime);
      var c := Accepting.FindColliding(p, app, rows);
      if c != [] {
        assert c[0] in c;
        Accepting.BuildExcMsgListsRest(p, app, c[0], c[1..]);
      }
    }
  }

  /** Whatever `ask_appointment` commits is the stored rows plus one pending row, so rows
      already accepted stay as they were. */
  lemma AskKeepsStoredRows(rows: seq<Appointment>, since: int, until: int, showTime: int -> string)
    requires AskAppointmentSpec(rows, since, until, showTime).Success?
    ensures var v := AskAppointmentSpec(rows, since, until, showTime).value;
            |v.0| == |rows| + 1 && v.0[..|rows|] == rows && !v.0[|rows|].accepted
  {
    var v := AskAppointmentSpec(rows, since, until, showTime).value;
    assert v.0[..|rows|] == rows;
  }

  /** The message as written repeats the collider: with a single stored accepted
      appointment that collides, it reads "`app` collides with `n`, `n`", whereas the
      intended message stops after the first `n`. */
  lemma AskMessageRepeatsCollider(n: Appointment, since: int, until: int, showTime: int -> string)
    requires since < until && n.accepted && n.WellFormed()
    requires Appointment(None, since, until, false).Collide(n)
    ensures var app := Appointment(None, since, until, false);
            var head := Accepting.Collision(LegacyProtocol(showTime), app, n);
            AskMessageAsWritten(app, n, [n], showTime) == head + ", " + n.Repr(showTime)
            && AskMessage(app, Accepting.FindColliding(LegacyProtocol(showTime), app, [n]), showTime) == head
            && AskMessageAsWritten(app, n, [n], showTime)
               != AskMessage(app, Accepting.FindColliding(LegacyProtocol(showTime), app, [n]), showTime)
  {
    var app := Appointment(None, since, until, false);
    var p := LegacyProtocol(showTime);
    assert Accepting.FindColliding(p, app, [n][1..]) == [];
    assert Accepting.FindColliding(p, app, [n]) == [n];
    assert Accepting.Shows(p, [n]) == [n.Repr(showTime)];
    assert Accepting.Shows(p, []) == [];
  }
}
