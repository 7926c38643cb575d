/** The appointment value of the scheduling domain and its collision rule. */
module Appointments {

  import opened Wrappers
  import opened Errors
  import opened Dicts

  /** An appointment request with a mutable `accepted` flag; times are instants as integers.
      Python compares appointments by identity; here two appointments are the same one exactly
      when they are equal records (inside a calendar their ids tell them apart). */
  datatype Appointment = Appointment(
    id: Option<int>,
    fromUser: string,
    since: int,
    until: int,
    description: string,
    accepted: bool)
  {
    /** The interval is non-empty, as the constructor guarantees. */
    predicate WellFormed() {
      since < until
    }

    /** `collide`: the two intervals share an instant and the appointments are different ones. */
    predicate Collide(other: Appointment)
      ensures WellFormed() && other.WellFormed() ==>
        (Collide(other) <==> this != other && Overlap(since, until, other.since, other.until))
    {
      this != other &&
      ((since <= other.since && other.since < until)
       || (since < other.until && other.until <= until)
       || (since > other.since && other.until > until))
    }

    /** `to_dict`: the six stored fields under their Python names. */
    function ToDict(): (d: Dict)
      ensures d.Keys == {"id", "from_user", "since", "until", "description", "accepted"}
      ensures d["id"] == OptInt(id) && d["from_user"] == Str(fromUser)
      ensures d["since"] == Int(since) && d["until"] == Int(until)
      ensures d["description"] == Str(description) && d["accepted"] == Bool(accepted)
    {
      map["id" := OptInt(id), "from_user" := Str(fromUser), "since" := Int(since),
          "until" := Int(until), "description" := Str(description), "accepted" := Bool(accepted)]
    }

    /** `__repr__`, given how an instant is printed: never empty, it reads "Appointment(",
        then the printed start, and ends with ")". */
    function Repr(showTime: int -> string): (s: string)
      ensures |s| >= 15 && s[..12] == "Appointment(" && s[|s| - 1] == ')'
      ensures 12 + |showTime(since)| <= |s| && s[12..12 + |showTime(since)|] == showTime(since)
    {
      var head, start := "Appointment(", showTime(since);
      var s := head + start + ", " + showTime(until) + ")";
      assert s[..12] == head && s[12..12 + |start|] == start;
      s
    }
  }

  /** Half-open intervals [s1, u1) and [s2, u2) share an instant. */
  predicate Overlap(s1: int, u1: int, s2: int, u2: int) {
    s1 < u2 && s2 < u1
  }

  /** `Appointment.__init__`: rejects an interval whose `until` is not after its `since`. */
  function New(id: Option<int>, fromUser: string, since: int, until: int,
               description: string, accepted: bool): (r: Result<Appointment, Error>)
    ensures r.Failure? <==> until <= since
    ensures r.Failure? ==> r.error == ValueError
    ensures r.Success? ==> r.value.WellFormed()
    ensures r.Success? ==>
              r.value.id == id && r.value.fromUser == fromUser
              && r.value.since == since && r.value.until == until
              && r.value.description == description && r.value.accepted == accepted
  {
    if until - since <= 0 then Failure(ValueError)
    else Success(Appointment(id, fromUser, since, until, description, accepted))
  }

  /** Reads an appointment back from its dictionary; the partner of `ToDict`. */
  function FromDict(d: Dict): (r: Option<Appointment>)
    ensures r.Some? ==> r.value.ToDict() == d
  {
    if d.Keys == {"id", "from_user", "since", "until", "description", "accepted"}
       && (d["id"].Null? || d["id"].Int?) && d["from_user"].Str? && d["since"].Int?
       && d["until"].Int? && d["description"].Str? && d["accepted"].Bool?
    then
      var id := if d["id"].Null? then None else Some(d["id"].i);
      Some(Appointment(id, d["from_user"].s, d["since"].i, d["until"].i,
                       d["description"].s, d["accepted"].b))
    else None
  }

  /** `to_dict` loses nothing: the appointment can be read back from it. */
  lemma ToDictRoundTrip(a: Appointment)
    ensures FromDict(a.ToDict()) == Some(a)
  {
  }

  /** An appointment never collides with itself. */
  lemma CollideIrreflexive(a: Appointment)
    ensures !a.Collide(a)
  {
  }

  /** For well-formed appointments `collide` is symmetric. */
  lemma CollideSymmetric(a: Appointment, b: Appointment)
    requires a.WellFormed() && b.WellFormed()
    ensures a.Collide(b) <==> b.Collide(a)
  {
  }

  /** An appointment that ends no later than another starts collides with it in neither
      direction; this covers adjacent intervals [t0, t1) and [t1, t2). */
  lemma EarlierDoesNotCollide(a: Appointment, b: Appointment)
    requires a.WellFormed() && b.WellFormed()
    requires a.until <= b.since
    ensures !a.Collide(b) && !b.Collide(a)
  {
  }

  /** Only the intervals (and whether the two are the same appointment) matter:
      `accepted`, `id`, `from_user` and `description` play no part. */
  lemma CollideIgnoresPayload(a: Appointment, b: Appointment, a': Appointment, b': Appointment)
    requires a.since == a'.since && a.until == a'.until
    requires b.since == b'.since && b.until == b'.until
    requires a != b && a' != b'
    ensures a.Collide(b) <==> a'.Collide(b')
  {
  }
}
