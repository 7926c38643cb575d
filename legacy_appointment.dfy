/** The appointment of the earlier single-table application: an interval with an
    `accepted` flag and an optional database id. Its `collide` has no identity exclusion. */
module LegacyAppointments {

  import opened Wrappers
  import opened Errors
  import opened Dicts
  import Appointments

  /** An appointment row; `id` is `None` until the database gives it one. */
  datatype Appointment = Appointment(id: Option<int>, since: int, until: int, accepted: bool)
  {
    /** The interval is non-empty, as the constructor guarantees. */
    predicate WellFormed() {
      since < until
    }

    /** `collide`: the two intervals share an instant, whichever appointments they are. */
    predicate Collide(other: Appointment)
      ensures WellFormed() && other.WellFormed() ==>
        (Collide(other) <==> Appointments.Overlap(since, until, other.since, other.until))
    {
      (since <= other.since && other.since < until)
      || (since < other.until && other.until <= until)
      || (since > other.since && other.until > until)
    }

    /** `to_dict`: the four stored fields under their Python names. */
    function ToDict(): (d: Dict)
      ensures d.Keys == {"id", "since", "until", "accepted"}
      ensures d["id"] == OptInt(id) && d["since"] == Int(since) && d["until"] == Int(until)
      ensures d["accepted"] == Bool(accepted)
    {
      map["id" := OptInt(id), "since" := Int(since), "until" := Int(until), "accepted" := Bool(accepted)]
    }

    /** `__repr__`, given how an instant is printed: never empty, it reads "Appointment(",
        then the printed start, and ends with ")". */
    function Repr(showTime: int -> string): (s: string)
      ensures |s| >= 15 && s[..12] == "Appointment(" && s[|s| - 1] == ')'
      ensures 12 + |showTime(since)| <= |s| && s[12..12 + |showTime(since)|] == showTime(since)
    {
      var head, start := "Appointment(", showTime(since);
      var s := head + start + ", " + showTime(until) + ")";
      assert s[..12] == head && s[12..12 + |start|] == start;
      s
    }
  }

  /** `Appointment.__init__`: rejects an interval whose `until` is not after its `since`;
      `id` is `None` unless given. */
  function New(since: int, until: int, accepted: bool, id: Option<int>): (r: Result<Appointment, Error>)
    ensures r.Failure? <==> until <= since
    ensures r.Failure? ==> r.error == ValueError
    ensures r.Success? ==> r.value.WellFormed()
    ensures r.Success? ==>
              r.value.id == id && r.value.since == since && r.value.until == until && r.value.accepted == accepted
  {
    if until - since <= 0 then Failure(ValueError)
    else Success(Appointment(id, since, until, accepted))
  }

  /** Reads an appointment back from its dictionary; the partner of `ToDict`. */
  function FromDict(d: Dict): (r: Option<Appointment>)
    ensures r.Some? ==> r.value.ToDict() == d
  {
    if d.Keys == {"id", "since", "until", "accepted"}
       && (d["id"].Null? || d["id"].Int?) && d["since"].Int? && d["until"].Int? && d["accepted"].Bool?
    then
      var id := if d["id"].Null? then None else Some(d["id"].i);
      Some(Appointment(id, d["since"].i, d["until"].i, d["accepted"].b))
    else None
  }

  /** `to_dict` loses nothing: the appointment can be read back from it. */
  lemma ToDictRoundTrip(a: Appointment)
    ensures FromDict(a.ToDict()) == Some(a)
  {
  }

  /** Without an identity check, a well-formed appointment collides with itself. */
  lemma CollideReflexive(a: Appointment)
    requires a.WellFormed()
    ensures a.Collide(a)
  {
  }

  /** For well-formed appointments `collide` is symmetric. */
  lemma CollideSymmetric(a: Appointment, b: Appointment)
    requires a.WellFormed() && b.WellFormed()
    ensures a.Collide(b) <==> b.Collide(a)
  {
  }

  /** An appointment that ends no later than another starts collides with it in neither
      direction; this covers adjacent intervals [t0, t1) and [t1, t2). */
  lemma EarlierDoesNotCollide(a: Appointment, b: Appointment)
    requires a.WellFormed() && b.WellFormed()
    requires a.until <= b.since
    ensures !a.Collide(b) && !b.Collide(a)
  {
  }

  /** `id` and `accepted` play no part in `collide`. */
  lemma CollideIgnoresPayload(a: Appointment, b: Appointment, a': Appointment, b': Appointment)
    requires a.since == a'.since && a.until == a'.until
    requires b.since == b'.since && b.until == b'.until
    ensures a.Collide(b) <==> a'.Collide(b')
  {
  }
}
