/** Properties of the calendar operations: when they fail, what they change,
    and the invariant they keep. */
module CalendarProperties {

  import opened Wrappers
  import opened Errors
  import opened Appointments
  import opened Sequences
  import opened CalendarSpec

  /** Accepted appointments at two different positions never share an instant. */
  lemma AcceptedNeverOverlap(s: CalendarState, i: int, j: int)
    requires Consistent(s)
    requires 0 <= i < |s.appointments| && 0 <= j < |s.appointments| && i != j
    requires s.appointments[i].accepted && s.appointments[j].accepted
    ensures !Overlap(s.appointments[i].since, s.appointments[i].until,
                     s.appointments[j].since, s.appointments[j].until)
  {
    var x, y := s.appointments[i], s.appointments[j];
    assert x.id != y.id by {
      if i < j { } else { }
    }
    assert x in s.appointments && y in s.appointments;
    assert !x.Collide(y);
  }

  /** The appointment `create_appointment` builds is a different one from every stored one. */
  lemma NewIsFresh(s: CalendarState, a: Appointment)
    requires Consistent(s) && a.id == Some(s.idCount)
    ensures forall x :: x in s.appointments ==> x != a
  {
    forall x | x in s.appointments
      ensures x != a
    {
      assert Stored(x, s.idCount);
    }
  }

  /** `create_appointment` fails exactly for an empty interval (ValueError) or when an
      accepted appointment overlaps the requested one (NotAvailableError); pending
      appointments never block. */
  lemma CreateFailsIff(s: CalendarState, fromUser: string, since: int, until: int, description: string)
    requires Consistent(s)
    ensures var r := Create(s, fromUser, since, until, description);
            (r.Failure? && r.error == ValueError) <==> until <= since
    ensures var r := Create(s, fromUser, since, until, description);
            (r.Failure? && r.error == NotAvailableError("")) <==>
            since < until &&
            exists x :: x in s.appointments && x.accepted && Overlap(x.since, x.until, since, until)
  {
    if since < until {
      var a := Appointment(Some(s.idCount), fromUser, since, until, description, false);
      NewIsFresh(s, a);
      if Blocked(s.appointments, a) {
        var i :| 0 <= i < |s.appointments| && s.appointments[i].Collide(a) && s.appointments[i].accepted;
        assert s.appointments[i] in s.appointments;
      }
      if exists x :: x in s.appointments && x.accepted && Overlap(x.since, x.until, since, until) {
        var x :| x in s.appointments && x.accepted && Overlap(x.since, x.until, since, until);
        assert Stored(x, s.idCount);
        var i :| 0 <= i < |s.appointments| && s.appointments[i] == x;
        assert s.appointments[i].Collide(a);
      }
    }
  }

  /** `create_appointment` keeps the calendar consistent. */
  lemma CreatePreservesConsistent(s: CalendarState, fromUser: string, since: int, until: int,
                                  description: string)
    requires Consistent(s)
    requires Create(s, fromUser, since, until, description).Success?
    ensures Consistent(Create(s, fromUser, since, until, description).value.0)
  {
    var (s', a) := Create(s, fromUser, since, until, description).value;
    NewIsFresh(s, a);
    forall x | x in s'.appointments
      ensures Stored(x, s'.idCount)
    {
      if x != a {
        assert x in s.appointments;
      }
    }
    forall i, j | 0 <= i < j < |s'.appointments|
      ensures s'.appointments[i].id != s'.appointments[j].id
    {
      if j < |s.appointments| {
        assert s'.appointments[i] == s.appointments[i] && s'.appointments[j] == s.appointments[j];
      } else {
        assert s'.appointments[i] in s.appointments;
        assert Stored(s'.appointments[i], s.idCount);
      }
    }
  }

  /** A search through stored appointments that have other ids goes on to the rest. */
  lemma {:induction false} FindSkips(xs: seq<Appointment>, ys: seq<Appointment>, id: int)
    requires forall x :: x in xs ==> x.id != Some(id)
    ensures Find(xs + ys, id) == Find(ys, id)
    decreases |xs|
  {
    if xs != [] {
      assert xs[0] in xs;
      assert (xs + ys)[0] == xs[0];
      assert (xs + ys)[1..] == xs[1..] + ys;
      FindSkips(xs[1..], ys, id);
    } else {
      assert xs + ys == ys;
    }
  }

  /** With distinct ids, `get_appointment` returns the one stored appointment with that id. */
  lemma {:induction false} FindStored(apps: seq<Appointment>, i: int)
    requires DistinctIds(apps) && 0 <= i < |apps| && apps[i].id.Some?
    ensures Find(apps, apps[i].id.value) == Success(apps[i])
    decreases |apps|
  {
    if i > 0 {
      assert apps[0].id != apps[i].id;
      assert DistinctIds(apps[1..]) by {
        forall p, q | 0 <= p < q < |apps[1..]|
          ensures apps[1..][p].id != apps[1..][q].id
        {
          assert apps[1..][p] == apps[p + 1] && apps[1..][q] == apps[q + 1];
        }
      }
      FindStored(apps[1..], i - 1);
    }
  }

  /** After a successful `create_appointment`, `get_appointment` with the old counter finds
      the new appointment, which `list_appointments` shows last. */
  lemma CreateThenGet(s: CalendarState, fromUser: string, since: int, until: int, description: string)
    requires Consistent(s)
    requires Create(s, fromUser, since, until, description).Success?
    ensures var (s', a) := Create(s, fromUser, since, until, description).value;
            Find(s'.appointments, s.idCount) == Success(a)
            && s'.appointments[|s'.appointments| - 1] == a
  {
    var (s', a) := Create(s, fromUser, since, until, description).value;
    forall x | x in s.appointments
      ensures x.id != Some(s.idCount)
    {
      assert Stored(x, s.idCount);
    }
    FindSkips(s.appointments, [a], s.idCount);
  }

  /** Filtering keeps ids distinct. */
  lemma {:induction false} KeptDistinct(apps: seq<Appointment>, a: Appointment)
    requires DistinctIds(apps)
    ensures DistinctIds(Kept(apps, a))
    decreases |apps|
  {
    if apps != [] {
      var init, last := apps[..|apps| - 1], apps[|apps| - 1];
      assert DistinctIds(init) by {
        forall p, q | 0 <= p < q < |init|
          ensures init[p].id != init[q].id
        {
          assert init[p] == apps[p] && init[q] == apps[q];
        }
      }
      KeptDistinct(init, a);
      var k := Kept(init, a);
      KeptMembers(init, a);
      if !last.Collide(a) {
        forall p | 0 <= p < |k|
          ensures k[p].id != last.id
        {
          assert k[p] in k;
          var q :| 0 <= q < |init| && init[q] == k[p];
          assert apps[q] == k[p];
        }
      }
    }
  }

  /** Filtering keeps the relative order of the ids. */
  lemma {:induction false} KeptKeepsOrder(apps: seq<Appointment>, a: Appointment)
    ensures Subsequence(Ids(Kept(apps, a)), Ids(apps))
    decreases |apps|
  {
    if apps != [] {
      var init, last := apps[..|apps| - 1], apps[|apps| - 1];
      KeptKeepsOrder(init, a);
      var k, ids := Kept(init, a), Ids(apps);
      assert ids[..|ids| - 1] == Ids(init);
      assert Kept(apps, a) == k + (if last.Collide(a) then [] else [last]);
      if !last.Collide(a) {
        var kids := Ids(k + [last]);
        assert kids[..|kids| - 1] == Ids(k);
        assert kids != [];
      } else {
        assert Kept(apps, a) == k;
        if Ids(k) != [] {
          assert Subsequence(Ids(k), ids[..|ids| - 1]);
          assert ids != [];
        }
      }
    }
  }

  /** Marking the target accepted keeps the list consistent when nothing accepted
      collides with it. */
  lemma AcceptPreservesConsistent(s: CalendarState, a: Appointment)
    requires Consistent(s)
    requires Accept(s, a).Success?
    ensures Consistent(Accept(s, a).value.0)
  {
    var apps := s.appointments;
    var k := Kept(apps, a);
    var a' := a.(accepted := true);
    var r := MarkAccepted(k, a);
    KeptMembers(apps, a);
    assert Stored(a, s.idCount);
    forall x | x in r
      ensures Stored(x, s.idCount)
    {
    }
    KeptDistinct(apps, a);
    forall x, y | x in r && y in r && x.accepted && y.accepted
      ensures !x.Collide(y)
    {
      if x != a' && y != a' {
        assert x in apps && y in apps;
      } else if x == a' && y != a' {
        assert y in apps && y != a;
        var i :| 0 <= i < |apps| && apps[i] == y;
        assert !apps[i].Collide(a);
      } else if y == a' && x != a' {
        assert x in apps && x != a;
        var i :| 0 <= i < |apps| && apps[i] == x;
        assert !apps[i].Collide(a);
      }
    }
  }

  /** `accept_appointment` on a stored appointment fails exactly when an accepted
      appointment other than it overlaps it, and then with NotAvailableError. */
  lemma AcceptFailsIff(s: CalendarState, a: Appointment)
    requires Consistent(s) && a in s.appointments
    ensures Accept(s, a).Failure? <==>
            exists x :: x in s.appointments && x.accepted && x != a
                        && Overlap(x.since, x.until, a.since, a.until)
    ensures Accept(s, a).Failure? ==> Accept(s, a).error == NotAvailableError("")
  {
    var apps := s.appointments;
    assert Stored(a, s.idCount);
    if Blocked(apps, a) {
      var i :| 0 <= i < |apps| && apps[i].Collide(a) && apps[i].accepted;
      assert apps[i] in apps;
    }
    if exists x :: x in apps && x.accepted && x != a && Overlap(x.since, x.until, a.since, a.until) {
      var x :| x in apps && x.accepted && x != a && Overlap(x.since, x.until, a.since, a.until);
      var i :| 0 <= i < |apps| && apps[i] == x;
      assert apps[i].Collide(a);
    }
  }

  /** An appointment that is not stored is never accepted. With an accepted appointment
      overlapping it the error is NotAvailableError, otherwise DoesNotExistsError. */
  lemma AcceptForeign(s: CalendarState, a: Appointment)
    requires a !in s.appointments
    ensures Accept(s, a).Failure?
    ensures Accept(s, a).error ==
            if Blocked(s.appointments, a) then NotAvailableError("")
            else DoesNotExistsError(NotInCalendar)
  {
  }

  /** A successful `accept_appointment`: the target is present and accepted, pending
      appointments colliding with it are gone, every other appointment stays, unchanged and
      in the same relative order, and the counter is untouched. */
  lemma AcceptSuccess(s: CalendarState, a: Appointment)
    requires Consistent(s)
    requires Accept(s, a).Success?
    ensures var (s', a') := Accept(s, a).value;
            a' in s'.appointments && a'.accepted && a'.id == a.id
            && s'.idCount == s.idCount && s'.owner == s.owner
            && (forall x :: x in s.appointments && x.Collide(a) ==> x !in s'.appointments)
            && (forall x :: x in s.appointments && x != a && !x.Collide(a) ==> x in s'.appointments)
            && (forall x :: x in s'.appointments ==> x == a' || (x in s.appointments && !x.Collide(a)))
            && Subsequence(Ids(s'.appointments), Ids(s.appointments))
  {
    var apps := s.appointments;
    var (s', a') := Accept(s, a).value;
    var k := Kept(apps, a);
    KeptMembers(apps, a);
    KeptKeepsOrder(apps, a);
    assert Ids(s'.appointments) == Ids(k);
  }

  /** One step of the acceptance scan over a prefix of the list: the keep-list grows as
      `Kept` says, and the prefix stays unblocked. */
  lemma ScanStep(apps: seq<Appointment>, i: int, a: Appointment, updated: seq<Appointment>)
    requires 0 <= i < |apps|
    requires updated == Kept(apps[..i], a) && !Blocked(apps[..i], a)
    requires ResolveCollision(a, apps[i], updated).Success?
    ensures ResolveCollision(a, apps[i], updated).value == Kept(apps[..i + 1], a)
    ensures !Blocked(apps[..i + 1], a)
    ensures (a in apps[..i + 1]) <==> (a in apps[..i] || apps[i] == a)
  {
    var p, x := apps[..i + 1], apps[i];
    assert p == apps[..i] + [x];
    assert p[..i] == apps[..i];
    assert Kept(p, a) == Kept(apps[..i], a) + (if x.Collide(a) then [] else [x]);
    assert Kept([x], a) == (if x.Collide(a) then [] else [x]) by {
      assert [x][..0] == [];
    }
    assert !Blocked(p, a) by {
      forall j | 0 <= j < |p|
        ensures !(p[j].Collide(a) && p[j].accepted)
      {
        if j < i {
          assert p[j] == apps[..i][j];
        } else {
          assert p[j] == [x][0];
        }
      }
    }
  }

  /** An accepted collider anywhere in the list blocks acceptance. */
  lemma ScanBlocked(apps: seq<Appointment>, i: int, a: Appointment)
    requires 0 <= i < |apps| && apps[i].Collide(a) && apps[i].accepted
    ensures Blocked(apps, a)
  {
  }
}
