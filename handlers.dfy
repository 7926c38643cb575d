/** The command handlers: each opens the unit of work, changes the aggregates through
    its repositories, commits, and leaves the block (which rolls back what was not
    committed). Each is proved against a function from the committed store to the new
    committed store and the dictionary returned. */
module Handlers {

  import opened Wrappers
  import opened Errors
  import opened Dicts
  import opened Appointments
  import opened Users
  import opened Commands
  import opened Sequences
  import opened CalendarSpec
  import CalendarProperties
  import opened Calendars
  import opened Repositories
  import opened UnitsOfWork
  import opened Views

  /** Where `owner`'s calendar sits in the store, or the repository's DoesNotExistsError. */
  function CalendarIndex(st: Store, owner: string): (r: Result<nat, Error>)
    ensures r.Success? ==> r.value < |st.calendars| && CalendarOf(st, owner) == Success(st.calendars[r.value])
    ensures r.Failure? ==> CalendarOf(st, owner).Failure? && r.error == CalendarOf(st, owner).error
  {
    match FirstIndex(st.calendars, StateOwner, owner)
    case None => Failure(DoesNotExistsError(""))
    case Some(i) => Success(i)
  }

  /** `create_appointment`: a new pending appointment in `to_user`'s calendar. */
  function CreateAppointmentSpec(st: Store, ca: Command): Result<(Store, Dict), Error>
    requires ca.CreateAppointment?
  {
    var i :- CalendarIndex(st, ca.toUser);
    var res :- Create(st.calendars[i], ca.fromUser, ca.since, ca.until, ca.description);
    Success((st.(calendars := st.calendars[i := res.0]), res.1.ToDict()))
  }

  /** `accept_appointment`: look the appointment up by id in the calendar, then accept it. */
  function AcceptAppointmentSpec(st: Store, aa: Command): Result<(Store, Dict), Error>
    requires aa.AcceptAppointment?
  {
    var i :- CalendarIndex(st, aa.accountName);
    var a :- Find(st.calendars[i].appointments, aa.id);
    var res :- Accept(st.calendars[i], a);
    Success((st.(calendars := st.calendars[i := res.0]), res.1.ToDict()))
  }

  /** `create_client`: a taken account name raises NotAvailableError; otherwise the client
      is added. */
  function CreateClientSpec(st: Store, cc: Command): Result<(Store, Dict), Error>
    requires cc.CreateClient?
  {
    if Lookup(st.users, AccountOf, cc.accountName).Success? then Failure(NotAvailableError(""))
    else
      var u := Client(cc.accountName, cc.email, cc.password);
      Success((st.(users := Upsert(st.users, AccountOf, u)), u.ToDict()))
  }

  /** `create_service`: as `create_client`, and the service also gets an empty calendar
      (stored by a second commit). */
  function CreateServiceSpec(st: Store, cs: Command): Result<(Store, Dict), Error>
    requires cs.CreateService?
  {
    if Lookup(st.users, AccountOf, cs.accountName).Success? then Failure(NotAvailableError(""))
    else
      var u := Service(cs.accountName, cs.email, cs.password, cs.tags);
      var st1 := st.(users := Upsert(st.users, AccountOf, u));
      Success((st1.(calendars := Upsert(st1.calendars, StateOwner, Empty(cs.accountName))), u.ToDict()))
  }

  /** A handler answered what `spec` says and the database holds what `spec` says: the
      new store on success, the old one when the handler raised. */
  predicate Outcome(r: Result<Dict, Error>, spec: Result<(Store, Dict), Error>, before: Store, after: Store)
  {
    if spec.Success? then r == Success(spec.value.1) && after == spec.value.0
    else r == Failure(spec.error) && after == before
  }

  /** After a handler the session can still be reconciled with the database, its
      repositories and the calendars they handed out are new, and no event waits. */
  twostate predicate Settled(uow: SqlUnitOfWork)
    reads uow, uow.calendars, uow.calendars.repo, uow.calendars.repo.obs, uow.calendars.seen
  {
    uow.Valid() && uow.Tracked() && uow.Quiet() && fresh(uow.Repr - {uow})
  }

  /** Replacing a slot by a state with the same owner leaves `owner`'s position alone. */
  lemma UpdateKeepsIndex(st: Store, i: nat, s: CalendarState)
    requires i < |st.calendars| && s.owner == st.calendars[i].owner
    requires FirstIndex(st.calendars, StateOwner, s.owner) == Some(i)
    ensures FirstIndex(st.calendars[i := s], StateOwner, s.owner) == Some(i)
  {
    var cs' := st.calendars[i := s];
    var f := FirstIndex(cs', StateOwner, s.owner);
    assert StateOwner(cs'[i]) == s.owner;
  }

  /** Replacing a consistent calendar by a consistent one keeps the store valid. */
  lemma UpdateKeepsValid(st: Store, i: nat, s: CalendarState)
    requires ValidStore(st) && i < |st.calendars| && Consistent(s)
    ensures ValidStore(st.(calendars := st.calendars[i := s]))
  {
    var cs' := st.calendars[i := s];
    forall x | x in cs'
      ensures Consistent(x)
    {
      var j :| 0 <= j < |cs'| && cs'[j] == x;
      if j != i {
        assert st.calendars[j] in st.calendars;
      }
    }
  }

  /** What `create_appointment` did to the store: `to_user`'s calendar went from `s` to
      `s'` by `Create`, every stored calendar stays consistent, the users stay as they were. */
  lemma CreatedIn(st: Store, ca: Command) returns (s: CalendarState, s': CalendarState, a: Appointment)
    requires ca.CreateAppointment? && ValidStore(st)
    requires CreateAppointmentSpec(st, ca).Success?
    ensures var (st', d) := CreateAppointmentSpec(st, ca).value;
            CalendarOf(st, ca.toUser) == Success(s) && CalendarOf(st', ca.toUser) == Success(s')
            && Consistent(s) && Create(s, ca.fromUser, ca.since, ca.until, ca.description) == Success((s', a))
            && d == a.ToDict() && ValidStore(st') && st'.users == st.users
  {
    var i := CalendarIndex(st, ca.toUser).value;
    s := st.calendars[i];
    assert s in st.calendars;
    var res := Create(s, ca.fromUser, ca.since, ca.until, ca.description).value;
    s', a := res.0, res.1;
    CalendarProperties.CreatePreservesConsistent(s, ca.fromUser, ca.since, ca.until, ca.description);
    var st' := st.(calendars := st.calendars[i := s']);
    UpdateKeepsValid(st, i, s');
    UpdateKeepsIndex(st, i, s');
  }

  /** A created appointment can be fetched by its id (the calendar's counter before the
      call) from the new store, and every stored calendar stays consistent. */
  lemma CreateAppointmentThenGet(st: Store, ca: Command)
    requires ca.CreateAppointment? && ValidStore(st)
    requires CreateAppointmentSpec(st, ca).Success?
    ensures var (st', d) := CreateAppointmentSpec(st, ca).value;
            ValidStore(st') && st'.users == st.users
            && GetAppointmentView(st', ca.toUser, CalendarOf(st, ca.toUser).value.idCount) == Success(d)
  {
    var s, s', a := CreatedIn(st, ca);
    CalendarProperties.CreateThenGet(s, ca.fromUser, ca.since, ca.until, ca.description);
  }

  /** The owner's listing after `create_appointment` is the one before with the new
      appointment's dictionary appended. */
  lemma CreateAppointmentListed(st: Store, ca: Command)
    requires ca.CreateAppointment? && ValidStore(st)
    requires CreateAppointmentSpec(st, ca).Success?
    ensures var (st', d) := CreateAppointmentSpec(st, ca).value;
            ListAppointmentsView(st', ca.toUser, ca.toUser)
            == Success(ListAppointmentsView(st, ca.toUser, ca.toUser).value + [d])
  {
    var s, s', a := CreatedIn(st, ca);
    OwnerListingAppend(s.appointments, a);
  }

  /** Why `create_appointment` raises: no calendar for the addressee, an empty or reversed
      interval, or an accepted appointment already holding the time. */
  lemma CreateAppointmentFails(st: Store, ca: Command)
    requires ca.CreateAppointment? && ValidStore(st)
    ensures var r := CreateAppointmentSpec(st, ca);
            (r.Failure? && r.error == DoesNotExistsError("")) <==>
            (forall s :: s in st.calendars ==> s.owner != ca.toUser)
    ensures var r := CreateAppointmentSpec(st, ca);
            (r.Failure? && r.error == ValueError) <==>
            CalendarOf(st, ca.toUser).Success? && ca.until <= ca.since
    ensures var r := CreateAppointmentSpec(st, ca);
            (r.Failure? && r.error == NotAvailableError("")) <==>
            CalendarOf(st, ca.toUser).Success? && ca.since < ca.until
            && exists x :: x in CalendarOf(st, ca.toUser).value.appointments && x.accepted
                           && Overlap(x.since, x.until, ca.since, ca.until)
  {
    var c := CalendarIndex(st, ca.toUser);
    if c.Success? {
      var s := st.calendars[c.value];
      assert s in st.calendars;
      CalendarProperties.CreateFailsIff(s, ca.fromUser, ca.since, ca.until, ca.description);
    }
  }

  /** An accepted appointment reads back accepted under its id, and every stored calendar
      stays consistent. */
  lemma AcceptAppointmentThenGet(st: Store, aa: Command)
    requires aa.AcceptAppointment? && ValidStore(st)
    requires AcceptAppointmentSpec(st, aa).Success?
    ensures var (st', d) := AcceptAppointmentSpec(st, aa).value;
            ValidStore(st')
            && GetAppointmentView(st', aa.accountName, aa.id) == Success(d)
            && d["accepted"] == Bool(true)
            && st'.users == st.users
  {
    var i := CalendarIndex(st, aa.accountName).value;
    var s := st.calendars[i];
    assert s in st.calendars;
    var a := Find(s.appointments, aa.id).value;
    var (s', a') := Accept(s, a).value;
    CalendarProperties.AcceptPreservesConsistent(s, a);
    CalendarProperties.AcceptSuccess(s, a);
    var st' := st.(calendars := st.calendars[i := s']);
    UpdateKeepsValid(st, i, s');
    UpdateKeepsIndex(st, i, s');
    assert CalendarOf(st', aa.accountName) == Success(s');
    var k :| 0 <= k < |s'.appointments| && s'.appointments[k] == a';
    CalendarProperties.FindStored(s'.appointments, k);
  }

  /** Why `accept_appointment` raises: no calendar, no appointment with that id in it, or an
      accepted appointment that overlaps it. */
  lemma AcceptAppointmentFails(st: Store, aa: Command)
    requires aa.AcceptAppointment? && ValidStore(st)
    ensures var r := AcceptAppointmentSpec(st, aa);
            r.Failure? ==> r.error in {DoesNotExistsError(""), DoesNotExistsError(NoSuchAppointment),
                                       NotAvailableError("")}
    ensures var r := AcceptAppointmentSpec(st, aa);
            (r.Failure? && r.error == NotAvailableError("")) <==>
            CalendarOf(st, aa.accountName).Success?
            && Find(CalendarOf(st, aa.accountName).value.appointments, aa.id).Success?
            && var a := Find(CalendarOf(st, aa.accountName).value.appointments, aa.id).value;
               exists x :: x in CalendarOf(st, aa.accountName).value.appointments && x.accepted
                           && x != a && Overlap(x.since, x.until, a.since, a.until)
  {
    var c := CalendarIndex(st, aa.accountName);
    if c.Success? {
      var s := st.calendars[c.value];
      assert s in st.calendars;
      var f := Find(s.appointments, aa.id);
      if f.Success? {
        CalendarProperties.AcceptFailsIff(s, f.value);
      }
    }
  }

  /** `create_client` succeeds exactly when the account name is free; the client is then
      appended and `get_user` returns what the handler returned. */
  lemma CreateClientRegisters(st: Store, cc: Command)
    requires cc.CreateClient?
    ensures var r := CreateClientSpec(st, cc);
            r.Failure? <==> exists u :: u in st.users && u.accountName == cc.accountName
    ensures var r := CreateClientSpec(st, cc);
            r.Failure? ==> r.error == NotAvailableError("")
    ensures var r := CreateClientSpec(st, cc);
            r.Success? ==>
              var (st', d) := r.value;
              st'.users == st.users + [Client(cc.accountName, cc.email, cc.password)]
              && st'.calendars == st.calendars
              && GetUserView(st', cc.accountName) == Success(d)
  {
    var u := Client(cc.accountName, cc.email, cc.password);
    AddThenGet(st.users, AccountOf, u);
    if Lookup(st.users, AccountOf, cc.accountName).Failure? {
      assert forall x :: x in st.users ==> AccountOf(x) != AccountOf(u);
    }
  }

  /** `create_service` succeeds exactly when the account name is free; the service is then
      appended, `get_user` returns it, it owns an empty calendar, and a search for its own
      tags finds it. */
  lemma CreateServiceRegisters(st: Store, cs: Command)
    requires cs.CreateService? && ValidStore(st)
    ensures var r := CreateServiceSpec(st, cs);
            r.Failure? <==> exists u :: u in st.users && u.accountName == cs.accountName
    ensures var r := CreateServiceSpec(st, cs);
            r.Failure? ==> r.error == NotAvailableError("")
    ensures var r := CreateServiceSpec(st, cs);
            r.Success? ==>
              var (st', d) := r.value;
              var u := Service(cs.accountName, cs.email, cs.password, cs.tags);
              ValidStore(st')
              && st'.users == st.users + [u]
              && GetUserView(st', cs.accountName) == Success(d)
              && CalendarOf(st', cs.accountName) == Success(Empty(cs.accountName))
              && ListAppointmentsView(st', cs.accountName, cs.accountName) == Success([])
              && u in FilterByTags(Services(st'.users), cs.tags)
  {
    var u := Service(cs.accountName, cs.email, cs.password, cs.tags);
    AddThenGet(st.users, AccountOf, u);
    if Lookup(st.users, AccountOf, cs.accountName).Failure? {
      assert forall x :: x in st.users ==> AccountOf(x) != AccountOf(u);
      var users' := st.users + [u];
      var e := Empty(cs.accountName);
      var cs' := Upsert(st.calendars, StateOwner, e);
      AddThenGet(st.calendars, StateOwner, e);
      forall x | x in cs'
        ensures Consistent(x)
      {
        if x != e {
          var j :| 0 <= j < |cs'| && cs'[j] == x;
          assert j < |st.calendars| && st.calendars[j] == x;
          assert st.calendars[j] in st.calendars;
        }
      }
      SearchSelects(users', cs.tags);
      assert u in users';
    }
  }

  /** `create_appointment` on the unit of work. */
  method CreateAppointment(ca: Command, uow: SqlUnitOfWork) returns (r: Result<Dict, Error>)
    requires ca.CreateAppointment? && uow.Valid()
    modifies uow
    ensures Outcome(r, CreateAppointmentSpec(old(uow.committed), ca), old(uow.committed), uow.committed)
    ensures uow.commits == old(uow.commits) + (if r.Success? then 1 else 0)
    ensures Settled(uow)
  {
    uow.Enter();
    r := ScheduleAppointment(ca, uow);
    uow.Exit();
  }

  /** After the tracking repository handed out `owner`'s calendar (or failed to), the
      session is as it was apart from `seen`, and the handed-out calendar sits at the slot
      `CalendarIndex` names. */
  twostate lemma CalendarFetched(uow: SqlUnitOfWork, new owner: string, new c: Result<Calendar, Error>)
    requires old(uow.Valid()) && old(uow.Tracked()) && old(uow.Quiet()) && old(uow.Working()) == old(uow.committed)
    requires forall x :: x in old(uow.calendars.repo.obs) ==> old(x.events) == []
    requires unchanged(uow) && unchanged(old(uow.calendars.repo), old(uow.users.repo))
    requires unchanged(set x | x in old(uow.calendars.repo.obs))
    requires unchanged(set x | x in old(uow.calendars.seen))
    requires c == Lookup(uow.calendars.repo.obs, OwnerOf, owner)
    requires uow.calendars.seen == if c.Success? then Track(old(uow.calendars.seen), [c.value]) else old(uow.calendars.seen)
    ensures uow.Valid() && uow.Tracked() && uow.Quiet() && uow.Working() == uow.committed
    ensures c.Failure? ==> CalendarIndex(uow.committed, owner) == Failure(c.error)
    ensures c.Success? ==> FirstIndex(uow.calendars.repo.obs, OwnerOf, owner).Some?
    ensures c.Success? ==>
              CalendarIndex(uow.committed, owner) == Success(FirstIndex(uow.calendars.repo.obs, OwnerOf, owner).value)
    ensures c.Success? ==>
              FirstIndex(uow.calendars.repo.obs, OwnerOf, owner).value < |uow.calendars.repo.obs|
              && uow.calendars.repo.obs[FirstIndex(uow.calendars.repo.obs, OwnerOf, owner).value] == c.value
  {
    CalendarsKept(uow);
    CalendarLookup(uow.calendars.repo.obs, owner);
    if c.Success? {
      assert c.value in old(uow.calendars.repo.obs);
      assert c.value.events == [];
    }
  }

  /** The body of the `with` block of `create_appointment`. */
  method ScheduleAppointment(ca: Command, uow: SqlUnitOfWork) returns (r: Result<Dict, Error>)
    requires ca.CreateAppointment? && uow.Valid() && uow.Working() == uow.committed
    requires uow.Tracked() && uow.Quiet() && forall c :: c in uow.calendars.repo.obs ==> c.events == []
    modifies uow.Repr
    ensures Outcome(r, CreateAppointmentSpec(old(uow.committed), ca), old(uow.committed), uow.committed)
    ensures uow.commits == old(uow.commits) + (if r.Success? then 1 else 0)
    ensures uow.calendars == old(uow.calendars) && uow.Repr == old(uow.Repr)
    ensures uow.Valid() && uow.Tracked() && uow.Quiet()
  {
    label Open:
    var c := uow.calendars.Get(ca.toUser);
    CalendarFetched@Open(uow, ca.toUser, c);
    if c.Failure? {
      r := Failure(c.error);
    } else {
      ghost var i := FirstIndex(uow.calendars.repo.obs, OwnerOf, ca.toUser).value;
      r := AddAppointment(ca, uow, c.value, i);
    }
  }

  /** `calendar.create_appointment` on the tracked calendar at slot `i`, committed when it
      succeeds. */
  method AddAppointment(ca: Command, uow: SqlUnitOfWork, cal: Calendar, ghost i: nat) returns (r: Result<Dict, Error>)
    requires ca.CreateAppointment? && uow.Valid() && uow.Working() == uow.committed
    requires uow.Tracked() && uow.Quiet()
    requires i < |uow.calendars.repo.obs| && uow.calendars.repo.obs[i] == cal
    requires CalendarIndex(uow.committed, ca.toUser) == Success(i)
    modifies uow, cal
    ensures Outcome(r, CreateAppointmentSpec(old(uow.committed), ca), old(uow.committed), uow.committed)
    ensures uow.commits == old(uow.commits) + (if r.Success? then 1 else 0)
    ensures uow.calendars == old(uow.calendars) && uow.Repr == old(uow.Repr)
    ensures uow.Valid() && uow.Tracked() && uow.Quiet()
  {
    ghost var st := uow.committed;
    label Before:
    var a := cal.CreateAppointment(ca.fromUser, ca.since, ca.until, ca.description);
    CalendarChanged@Before(uow, i);
    if a.Success? {
      assert States(uow.calendars.repo.obs) == st.calendars[i := cal.State()];
      uow.Commit();
      r := Success(a.value.ToDict());
    } else {
      r := Failure(a.error);
    }
  }

  /** `accept_appointment` on the unit of work. */
  method AcceptAppointment(aa: Command, uow: SqlUnitOfWork) returns (r: Result<Dict, Error>)
    requires aa.AcceptAppointment? && uow.Valid()
    modifies uow
    ensures Outcome(r, AcceptAppointmentSpec(old(uow.committed), aa), old(uow.committed), uow.committed)
    ensures uow.commits == old(uow.commits) + (if r.Success? then 1 else 0)
    ensures Settled(uow)
  {
    uow.Enter();
    r := ConfirmAppointment(aa, uow);
    uow.Exit();
  }

  /** The body of the `with` block of `accept_appointment`. */
  method ConfirmAppointment(aa: Command, uow: SqlUnitOfWork) returns (r: Result<Dict, Error>)
    requires aa.AcceptAppointment? && uow.Valid() && uow.Working() == uow.committed
    requires uow.Tracked() && uow.Quiet() && forall c :: c in uow.calendars.repo.obs ==> c.events == []
    modifies uow.Repr
    ensures Outcome(r, AcceptAppointmentSpec(old(uow.committed), aa), old(uow.committed), uow.committed)
    ensures uow.commits == old(uow.commits) + (if r.Success? then 1 else 0)
    ensures uow.calendars == old(uow.calendars) && uow.Repr == old(uow.Repr)
    ensures uow.Valid() && uow.Tracked() && uow.Quiet()
  {
    label Open:
    var c := uow.calendars.Get(aa.accountName);
    CalendarFetched@Open(uow, aa.accountName, c);
    if c.Failure? {
      r := Failure(c.error);
    } else {
      ghost var i := FirstIndex(uow.calendars.repo.obs, OwnerOf, aa.accountName).value;
      r := AcceptIn(aa, uow, c.value, i);
    }
  }

  /** `calendar.get_appointment` then `calendar.accept_appointment` on the tracked calendar
      at slot `i`, committed when both succeed. */
  method AcceptIn(aa: Command, uow: SqlUnitOfWork, cal: Calendar, ghost i: nat) returns (r: Result<Dict, Error>)
    requires aa.AcceptAppointment? && uow.Valid() && uow.Working() == uow.committed
    requires uow.Tracked() && uow.Quiet()
    requires i < |uow.calendars.repo.obs| && uow.calendars.repo.obs[i] == cal
    requires CalendarIndex(uow.committed, aa.accountName) == Success(i)
    modifies uow, cal
    ensures Outcome(r, AcceptAppointmentSpec(old(uow.committed), aa), old(uow.committed), uow.committed)
    ensures uow.commits == old(uow.commits) + (if r.Success? then 1 else 0)
    ensures uow.calendars == old(uow.calendars) && uow.Repr == old(uow.Repr)
    ensures uow.Valid() && uow.Tracked() && uow.Quiet()
  {
    ghost var st := uow.committed;
    assert cal.State() == st.calendars[i];
    var app := cal.GetAppointment(aa.id);
    if app.Failure? {
      r := Failure(app.error);
      return;
    }
    label Before:
    var acc := cal.AcceptAppointment(app.value);
    CalendarChanged@Before(uow, i);
    if acc.Success? {
      assert States(uow.calendars.repo.obs) == st.calendars[i := cal.State()];
      uow.Commit();
      r := Success(acc.value.ToDict());
    } else {
      r := Failure(acc.error);
    }
  }

  /** `create_client` on the unit of work. */
  method CreateClient(cc: Command, uow: SqlUnitOfWork) returns (r: Result<Dict, Error>)
    requires cc.CreateClient? && uow.Valid()
    modifies uow
    ensures Outcome(r, CreateClientSpec(old(uow.committed), cc), old(uow.committed), uow.committed)
    ensures uow.commits == old(uow.commits) + (if r.Success? then 1 else 0)
    ensures Settled(uow)
  {
    uow.Enter();
    r := RegisterClient(cc, uow);
    uow.Exit();
  }

  /** The body of the `with` block of `create_client`. */
  method RegisterClient(cc: Command, uow: SqlUnitOfWork) returns (r: Result<Dict, Error>)
    requires cc.CreateClient? && uow.Valid() && uow.Working() == uow.committed
    modifies uow, uow.users, uow.users.repo
    ensures Outcome(r, CreateClientSpec(old(uow.committed), cc), old(uow.committed), uow.committed)
    ensures uow.commits == old(uow.commits) + (if r.Success? then 1 else 0)
    ensures uow.calendars == old(uow.calendars) && uow.Repr == old(uow.Repr)
    ensures uow.Valid() && (old(uow.Tracked()) ==> uow.Tracked())
  {
    var existing := FindUser(cc.accountName, uow);
    if existing.Success? {
      r := Failure(NotAvailableError(""));
    } else {
      r := AddClient(cc, uow);
    }
  }

  /** `uow.users.get(account_name)` inside a session: the lookup sees the committed users
      and leaves the session as it was. */
  method FindUser(accountName: string, uow: SqlUnitOfWork) returns (existing: Result<User, Error>)
    requires uow.Valid() && uow.Working() == uow.committed
    modifies uow.users
    ensures existing == Lookup(uow.committed.users, AccountOf, accountName)
    ensures uow.Valid() && uow.Working() == uow.committed
    ensures old(uow.Tracked()) ==> uow.Tracked()
    ensures old(uow.Quiet()) ==> uow.Quiet()
  {
    label Open:
    existing := uow.users.Get(accountName);
    CalendarsKept@Open(uow);
  }

  /** The client is added and committed. */
  method AddClient(cc: Command, uow: SqlUnitOfWork) returns (r: Result<Dict, Error>)
    requires cc.CreateClient? && uow.Valid() && uow.Working() == uow.committed
    requires Lookup(uow.committed.users, AccountOf, cc.accountName).Failure?
    modifies uow, uow.users, uow.users.repo
    ensures Outcome(r, CreateClientSpec(old(uow.committed), cc), old(uow.committed), uow.committed)
    ensures r.Success? && uow.commits == old(uow.commits) + 1
    ensures uow.calendars == old(uow.calendars) && uow.Repr == old(uow.Repr)
    ensures uow.Valid() && (old(uow.Tracked()) ==> uow.Tracked())
  {
    var u := Client(cc.accountName, cc.email, cc.password);
    uow.AddUser(u);
    uow.Commit();
    r := Success(u.ToDict());
  }

  /** `create_service` on the unit of work. */
  method CreateService(cs: Command, uow: SqlUnitOfWork) returns (r: Result<Dict, Error>)
    requires cs.CreateService? && uow.Valid()
    modifies uow
    ensures Outcome(r, CreateServiceSpec(old(uow.committed), cs), old(uow.committed), uow.committed)
    ensures uow.commits == old(uow.commits) + (if r.Success? then 2 else 0)
    ensures Settled(uow)
  {
    uow.Enter();
    r := RegisterService(cs, uow);
    uow.Exit();
  }

  /** The body of the `with` block of `create_service`: the user is committed, then the new
      calendar is added and committed. */
  method RegisterService(cs: Command, uow: SqlUnitOfWork) returns (r: Result<Dict, Error>)
    requires cs.CreateService? && uow.Valid() && uow.Working() == uow.committed
    requires uow.Tracked() && uow.Quiet()
    modifies uow, uow.users, uow.users.repo, uow.calendars, uow.calendars.repo
    ensures Outcome(r, CreateServiceSpec(old(uow.committed), cs), old(uow.committed), uow.committed)
    ensures uow.commits == old(uow.commits) + (if r.Success? then 2 else 0)
    ensures uow.calendars == old(uow.calendars) && fresh(uow.Repr - old(uow.Repr))
    ensures uow.Valid() && uow.Tracked() && uow.Quiet()
  {
    var existing := FindUser(cs.accountName, uow);
    if existing.Success? {
      r := Failure(NotAvailableError(""));
    } else {
      r := AddService(cs, uow);
    }
  }

  /** The service is added and committed, then its empty calendar is added and committed. */
  method AddService(cs: Command, uow: SqlUnitOfWork) returns (r: Result<Dict, Error>)
    requires cs.CreateService? && uow.Valid() && uow.Working() == uow.committed
    requires uow.Tracked() && uow.Quiet()
    requires Lookup(uow.committed.users, AccountOf, cs.accountName).Failure?
    modifies uow, uow.users, uow.users.repo, uow.calendars, uow.calendars.repo
    ensures Outcome(r, CreateServiceSpec(old(uow.committed), cs), old(uow.committed), uow.committed)
    ensures r.Success? && uow.commits == old(uow.commits) + 2
    ensures uow.calendars == old(uow.calendars) && fresh(uow.Repr - old(uow.Repr))
    ensures uow.Valid() && uow.Tracked() && uow.Quiet()
  {
    var u := Service(cs.accountName, cs.email, cs.password, cs.tags);
    uow.AddUser(u);
    uow.Commit();
    AddCalendar(cs.accountName, uow);
    r := Success(u.ToDict());
  }

  /** `uow.calendars.add(Calendar(owner))` followed by `commit`: a new empty calendar for
      `owner`, stored as `add` places it. */
  method AddCalendar(owner: string, uow: SqlUnitOfWork)
    requires uow.Valid() && uow.Working() == uow.committed && uow.Tracked() && uow.Quiet()
    modifies uow, uow.calendars, uow.calendars.repo
    ensures uow.committed == old(uow.committed).(calendars := Upsert(old(uow.committed).calendars, StateOwner, Empty(owner)))
    ensures uow.commits == old(uow.commits) + 1
    ensures uow.calendars == old(uow.calendars) && uow.users == old(uow.users)
    ensures fresh(uow.Repr - old(uow.Repr))
    ensures uow.Valid() && uow.Tracked() && uow.Quiet()
  {
    ghost var repr := uow.Repr;
    var c := new Calendar(owner);
    uow.AddCalendar(c);
    assert uow.Repr == repr + {c} && c.State() == Empty(owner);
    uow.Commit();
  }

  /** `handlers.list_appointments`: the query's payload handed to the read-side listing;
      never commits. */
  method ListAppointmentsQuery(la: Query, uow: SqlUnitOfWork) returns (r: Result<seq<Dict>, Error>)
    requires la.ListAppointments? && uow.Valid()
    modifies uow
    ensures r == ListAppointmentsView(old(uow.committed), la.ofUser, la.forUser)
    ensures uow.committed == old(uow.committed) && uow.commits == old(uow.commits)
    ensures uow.Valid()
  {
    r := Views.ListAppointments(la.ofUser, la.forUser, uow);
  }

  /** `handlers.get_user`: never commits. */
  method GetUserQuery(ga: Query, uow: SqlUnitOfWork) returns (r: Result<Dict, Error>)
    requires ga.GetUser? && uow.Valid()
    modifies uow
    ensures r == GetUserView(old(uow.committed), ga.accountName)
    ensures uow.committed == old(uow.committed) && uow.commits == old(uow.commits)
    ensures uow.Valid()
  {
    r := Views.GetUser(ga.accountName, uow);
  }

  /** `handlers.search_services`: never commits. */
  method SearchServicesQuery(ss: Query, uow: SqlUnitOfWork) returns (r: seq<Dict>)
    requires ss.SearchServices? && uow.Valid()
    modifies uow
    ensures r == SearchServicesView(old(uow.committed), ss.tags)
    ensures uow.committed == old(uow.committed) && uow.commits == old(uow.commits)
    ensures uow.Valid()
  {
    r := Views.SearchServices(ss.tags, uow);
  }

  /** `handlers.get_appointment`: never commits. */
  method GetAppointmentQuery(ga: Query, uow: SqlUnitOfWork) returns (r: Result<Dict, Error>)
    requires ga.GetAppointment? && uow.Valid()
    modifies uow
    ensures r == GetAppointmentView(old(uow.committed), ga.accountName, ga.id)
    ensures uow.committed == old(uow.committed) && uow.commits == old(uow.commits)
    ensures uow.Valid()
  {
    r := Views.GetAppointment(ga.accountName, ga.id, uow);
  }
}
