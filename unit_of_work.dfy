/** The unit of work: a session over the stored calendars and users. Work done through
    its repositories is kept only if committed; leaving the `with` block rolls back. */
module UnitsOfWork {

  import opened Wrappers
  import opened Events
  import opened Users
  import opened Sequences
  import opened CalendarSpec
  import opened Calendars
  import opened Repositories

  /** What the database holds: calendar states and accounts, each in stored order. */
  datatype Store = Store(calendars: seq<CalendarState>, users: seq<User>)

  /** Every stored calendar is consistent. */
  predicate ValidStore(st: Store) {
    forall s :: s in st.calendars ==> Consistent(s)
  }

  /** The states of a list of calendar objects. */
  function States(cs: seq<Calendar>): (r: seq<CalendarState>)
    reads cs
    ensures |r| == |cs| && forall i :: 0 <= i < |cs| ==> r[i] == cs[i].State()
  {
    if cs == [] then [] else States(cs[..|cs| - 1]) + [cs[|cs| - 1].State()]
  }

  /** The pending event lists of a list of calendar objects. */
  function EventLists(cs: seq<Calendar>): (r: seq<seq<Event>>)
    reads cs
    ensures |r| == |cs| && forall i :: 0 <= i < |cs| ==> r[i] == cs[i].events
  {
    if cs == [] then [] else EventLists(cs[..|cs| - 1]) + [cs[|cs| - 1].events]
  }

  /** The lists joined end to end, first list first. */
  function Concat(ls: seq<seq<Event>>): (r: seq<Event>)
  {
    if ls == [] then [] else Concat(ls[..|ls| - 1]) + ls[|ls| - 1]
  }

  /** The number of events in all the lists together. */
  function TotalLength(ls: seq<seq<Event>>): nat
  {
    if ls == [] then 0 else TotalLength(ls[..|ls| - 1]) + |ls[|ls| - 1]|
  }

  /** Joining keeps every event: as many come out as went in. */
  lemma {:induction false} ConcatLength(ls: seq<seq<Event>>)
    ensures |Concat(ls)| == TotalLength(ls)
    decreases |ls|
  {
    if ls != [] {
      ConcatLength(ls[..|ls| - 1]);
    }
  }

  /** Joining empty lists gives nothing. */
  lemma {:induction false} ConcatEmpty(ls: seq<seq<Event>>)
    requires forall i :: 0 <= i < |ls| ==> ls[i] == []
    ensures Concat(ls) == []
    decreases |ls|
  {
    if ls != [] {
      ConcatEmpty(ls[..|ls| - 1]);
    }
  }

  /** Stored calendar states are keyed by owner, like the calendar objects. */
  function StateOwner(s: CalendarState): string {
    s.owner
  }

  /** Looking a calendar object up by owner finds the one whose state is found among the
      states, at the same position. */
  lemma CalendarLookup(cs: seq<Calendar>, owner: string)
    ensures FirstIndex(cs, OwnerOf, owner) == FirstIndex(States(cs), StateOwner, owner)
    ensures var r, s := Lookup(cs, OwnerOf, owner), Lookup(States(cs), StateOwner, owner);
            (r.Failure? <==> s.Failure?)
            && (r.Failure? ==> r.error == s.error)
            && (r.Success? ==> r.value.State() == s.value)
  {
    FirstIndexTransfer(cs, OwnerOf, States(cs), StateOwner, owner);
  }

  /** Adding a calendar object adds its state at the same place among the states. */
  lemma UpsertStates(cs: seq<Calendar>, c: Calendar)
    ensures States(Upsert(cs, OwnerOf, c)) == Upsert(States(cs), StateOwner, c.State())
  {
    FirstIndexTransfer(cs, OwnerOf, States(cs), StateOwner, c.owner);
  }

  /** Loads a calendar object for every stored state, as a fresh session does; `loaded`
      holds the new objects. */
  method LoadCalendars(states: seq<CalendarState>) returns (cs: seq<Calendar>, ghost loaded: set<object>)
    requires forall s :: s in states ==> Consistent(s)
    ensures States(cs) == states && Distinct(cs)
    ensures forall c :: c in cs ==> c in loaded && c.Valid() && c.events == []
    ensures fresh(loaded)
  {
    cs, loaded := [], {};
    for i := 0 to |states|
      invariant States(cs) == states[..i] && Distinct(cs) && fresh(loaded)
      invariant forall c :: c in cs ==> c in loaded && c.Valid() && c.events == []
    {
      var c := new Calendar.Load(states[i]);
      cs, loaded := cs + [c], loaded + {c};
      assert States(cs) == states[..i + 1];
    }
    assert states[..|states|] == states;
  }

  /** The repositories of a new session: every stored calendar loaded into a new object,
      nothing tracked yet; `objs` holds every object created. */
  method OpenRepositories(store: Store)
    returns (cr: TrackingCalendarRepository, ur: TrackingUserRepository, ghost objs: set<object>)
    requires ValidStore(store)
    ensures cr.seen == [] && ur.seen == [] && ur.repo.obs == store.users
    ensures States(cr.repo.obs) == store.calendars && Distinct(cr.repo.obs)
    ensures forall c :: c in cr.repo.obs ==> c in objs && c.Valid() && c.events == []
    ensures cr in objs && cr.repo in objs && ur in objs && ur.repo in objs && fresh(objs)
  {
    var cs, loaded := LoadCalendars(store.calendars);
    var crepo := new CalendarRepository(cs);
    var urepo := new UserRepository(store.users);
    cr := new TrackingCalendarRepository(crepo);
    ur := new TrackingUserRepository(urepo);
    objs := loaded + {crepo, urepo, cr, ur};
  }

  /** Reads the stored states back into the calendar objects that hold them. */
  method ReloadAll(cs: seq<Calendar>, states: seq<CalendarState>)
    requires |cs| == |states| && Distinct(cs)
    requires forall i :: 0 <= i < |cs| ==> cs[i].owner == states[i].owner && Consistent(states[i])
    modifies set c | c in cs
    ensures States(cs) == states
    ensures forall c :: c in cs ==> c.Valid() && c.events == old(c.events)
  {
    for i := 0 to |cs|
      invariant forall k :: 0 <= k < i ==> cs[k].State() == states[k] && cs[k].Valid()
      invariant forall c :: c in cs ==> c.events == old(c.events)
    {
      cs[i].Reload(states[i]);
    }
  }

  /** The inner loop of `collect_new_events`: pops a calendar's events from the front until
      none is left. */
  method DrainEvents(c: Calendar) returns (evs: seq<Event>)
    modifies c
    ensures evs == old(c.events) && c.events == []
    ensures c.State() == old(c.State())
  {
    evs := [];
    while c.events != []
      invariant old(c.events) == evs + c.events
      invariant c.State() == old(c.State())
      decreases |c.events|
    {
      evs := evs + [c.events[0]];
      c.events := c.events[1..];
    }
  }

  /** The outer loop of `collect_new_events`: drains the calendars one after the other. */
  method DrainAll(seen: seq<Calendar>) returns (evs: seq<Event>)
    requires Distinct(seen)
    modifies set c | c in seen
    ensures evs == Concat(old(EventLists(seen)))
    ensures forall c :: c in seen ==> c.events == [] && c.State() == old(c.State())
  {
    ghost var before := EventLists(seen);
    evs := [];
    for i := 0 to |seen|
      invariant evs == Concat(before[..i])
      invariant forall k :: 0 <= k < i ==> seen[k].events == []
      invariant forall k :: i <= k < |seen| ==> seen[k].events == before[k]
      invariant forall k :: 0 <= k < |seen| ==> seen[k].State() == old(seen[k].State())
    {
      var drained := DrainEvents(seen[i]);
      evs := evs + drained;
      assert before[..i + 1] == before[..i] + [before[i]];
    }
    assert before[..|seen|] == before;
    forall c | c in seen
      ensures c.events == [] && c.State() == old(c.State())
    {
      var k :| 0 <= k < |seen| && seen[k] == c;
    }
  }

  /** A step that touched neither the unit of work, nor its calendar repository, nor any
      calendar it holds, leaves the session reconcilable and the working calendars alone. */
  twostate lemma CalendarsKept(uow: SqlUnitOfWork)
    requires old(uow.Valid()) && unchanged(uow) && unchanged(old(uow.calendars.repo))
    requires unchanged(set x | x in old(uow.calendars.repo.obs))
    ensures uow.Valid() && States(uow.calendars.repo.obs) == old(States(uow.calendars.repo.obs))
  {
  }

  /** Upserting a calendar object that was not held keeps the objects distinct and the
      owners of the slots already there. */
  lemma UpsertNew(cs: seq<Calendar>, c: Calendar)
    requires Distinct(cs) && c !in cs
    ensures var cs' := Upsert(cs, OwnerOf, c);
            Distinct(cs') && |cs| <= |cs'|
            && (forall j :: 0 <= j < |cs| ==> cs'[j].owner == cs[j].owner)
            && (forall x :: x in cs' ==> x in cs || x == c)
  {
    var cs' := Upsert(cs, OwnerOf, c);
    if forall x :: x in cs ==> OwnerOf(x) != OwnerOf(c) {
      assert cs' == cs + [c];
    } else {
      var i :| 0 <= i < |cs| && OwnerOf(cs[i]) == OwnerOf(c) && cs' == cs[i := c];
      forall j, k | 0 <= j < k < |cs'|
        ensures cs'[j] != cs'[k]
      {
        assert cs[j] in cs && cs[k] in cs;
      }
    }
  }

  /** A new calendar upserted into the session's calendar repository (and into `Repr`),
      nothing held before touched: the session stays reconcilable and the working calendars
      gain the new one's state as `add` places it. */
  twostate lemma CalendarAdded(uow: SqlUnitOfWork, new c: Calendar)
    requires old(uow.Valid()) && c !in old(uow.calendars.repo.obs) && c.Valid()
    requires uow.committed == old(uow.committed) && uow.calendars == old(uow.calendars)
    requires uow.users == old(uow.users) && uow.Repr == old(uow.Repr) + {c}
    requires uow.calendars.repo == old(uow.calendars.repo)
    requires uow.calendars.repo.obs == Upsert(old(uow.calendars.repo.obs), OwnerOf, c)
    requires unchanged(set x | x in old(uow.calendars.repo.obs))
    requires unchanged(old(uow.users.repo)) && unchanged(set x | x in old(uow.calendars.seen))
    requires uow.calendars.seen == Track(old(uow.calendars.seen), [c]) && c.events == []
    ensures uow.Valid() && (old(uow.Tracked()) ==> uow.Tracked()) && (old(uow.Quiet()) ==> uow.Quiet())
    ensures uow.Working() == old(uow.Working()).(calendars := Upsert(old(States(uow.calendars.repo.obs)), StateOwner, c.State()))
  {
    var obs := old(uow.calendars.repo.obs);
    UpsertNew(obs, c);
    UpsertStates(obs, c);
    forall j | 0 <= j < |obs|
      ensures obs[j].State() == old(obs[j].State())
    {
      assert obs[j] in obs;
    }
    assert States(obs) == old(States(obs));
  }

  /** After one calendar of the session changed in place (and nothing else did), the session
      is still reconcilable and only that calendar's state differs in the working store. */
  twostate lemma CalendarChanged(uow: SqlUnitOfWork, new i: nat)
    requires old(uow.Valid()) && i < |old(uow.calendars.repo.obs)|
    requires unchanged(uow) && unchanged(old(uow.calendars), old(uow.calendars.repo))
    requires forall x :: x in old(uow.calendars.repo.obs) && x != old(uow.calendars.repo.obs[i]) ==> unchanged(x)
    requires forall x :: x in old(uow.calendars.seen) && x != old(uow.calendars.repo.obs[i]) ==> unchanged(x)
    requires uow.calendars.repo.obs[i].Valid()
    requires uow.calendars.repo.obs[i].events == old(uow.calendars.repo.obs[i].events)
    ensures uow.Valid()
    ensures States(uow.calendars.repo.obs) == old(States(uow.calendars.repo.obs))[i := uow.calendars.repo.obs[i].State()]
    ensures old(uow.Quiet()) ==> uow.Quiet()
  {
    var obs := uow.calendars.repo.obs;
    forall j | 0 <= j < |obs| && j != i
      ensures obs[j].State() == old(obs[j].State())
    {
      assert obs[j] != obs[i] && obs[j] in old(uow.calendars.repo.obs);
    }
  }

  /** `SqlUnitOfWork` with its session. */
  class SqlUnitOfWork {
    /** The committed database content. */
    var committed: Store
    /** The repositories of the current session; their objects are the working state. */
    var calendars: TrackingCalendarRepository
    var users: TrackingUserRepository
    /** How many times the session was committed. */
    ghost var commits: nat
    /** The unit of work, its repositories and every calendar they hold or track. */
    ghost var Repr: set<object>

    /** The working objects can always be reconciled with the committed store: the first
        slots of the calendar repository hold the stored calendars' owners. */
    ghost predicate Valid()
      reads this, calendars.repo, calendars.repo.obs
    {
      this in Repr && calendars in Repr && calendars.repo in Repr && users in Repr && users.repo in Repr
      && (forall c :: c in calendars.repo.obs ==> c in Repr && c.Valid())
      && ValidStore(committed)
      && Distinct(calendars.repo.obs)
      && |committed.calendars| <= |calendars.repo.obs|
      && (forall i :: 0 <= i < |committed.calendars| ==>
            calendars.repo.obs[i].owner == committed.calendars[i].owner)
    }

    /** The calendars handed out are tracked once each and belong to the session. */
    ghost predicate Tracked()
      reads this, calendars
    {
      Distinct(calendars.seen) && forall c :: c in calendars.seen ==> c in Repr
    }

    /** What a commit would store now. */
    function Working(): Store
      reads this, calendars.repo, calendars.repo.obs, users.repo
    {
      Store(States(calendars.repo.obs), users.repo.obs)
    }

    /** The events waiting on the calendars the session has handed out, in `seen` order. */
    function PendingEvents(): seq<Event>
      reads this, calendars, calendars.seen
    {
      Concat(EventLists(calendars.seen))
    }

    /** No tracked calendar has an event waiting. */
    ghost predicate Quiet()
      reads this, calendars, calendars.seen
    {
      forall c :: c in calendars.seen ==> c.events == []
    }

    /** With no events waiting, there is nothing to collect. */
    lemma QuietHasNothingPending()
      requires Quiet()
      ensures PendingEvents() == []
    {
      ConcatEmpty(EventLists(calendars.seen));
    }

    /** A unit of work over a database holding `store`, with a session already open. */
    constructor(store: Store)
      requires ValidStore(store)
      ensures committed == store && commits == 0
      ensures Valid() && Tracked() && Working() == store && fresh(Repr)
    {
      committed := store;
      commits := 0;
      var cr := new CalendarRepository([]);
      var ur := new UserRepository([]);
      calendars := new TrackingCalendarRepository(cr);
      users := new TrackingUserRepository(ur);
      Repr := {this};
      new;
      Enter();
    }

    /** `__enter__`: a new session with fresh repositories over the committed data. */
    method Enter()
      requires ValidStore(committed)
      modifies this
      ensures committed == old(committed) && commits == old(commits)
      ensures fresh(Repr - {this})
      ensures forall c :: c in calendars.repo.obs ==> c.events == []
      ensures calendars.seen == [] && users.seen == []
      ensures Valid() && Tracked() && Quiet() && Working() == committed
    {
      var cr, ur, objs := OpenRepositories(committed);
      Install(cr, ur, objs);
    }

    /** Makes `cr` and `ur` the session's repositories. */
    method Install(cr: TrackingCalendarRepository, ur: TrackingUserRepository, ghost held: set<object>)
      requires cr in held && cr.repo in held && ur in held && ur.repo in held && this !in held
      requires ValidStore(committed)
      requires cr.seen == [] && ur.seen == [] && ur.repo.obs == committed.users
      requires States(cr.repo.obs) == committed.calendars && Distinct(cr.repo.obs)
      requires forall c :: c in cr.repo.obs ==> c in held && c.Valid() && c.events == []
      modifies this
      ensures calendars == cr && users == ur && Repr == {this} + held && Repr - {this} == held
      ensures committed == old(committed) && commits == old(commits)
      ensures forall c :: c in calendars.repo.obs ==> c.events == []
      ensures calendars.seen == [] && users.seen == []
      ensures Valid() && Tracked() && Quiet() && Working() == committed
    {
      calendars, users := cr, ur;
      Repr := {this} + held;
    }

    /** `commit`: the working state becomes the committed one. */
    method Commit()
      requires Valid()
      modifies this
      ensures committed == old(Working()) && commits == old(commits) + 1
      ensures calendars == old(calendars) && users == old(users) && Repr == old(Repr)
      ensures Valid() && Working() == committed
      ensures old(Tracked()) ==> Tracked()
      ensures old(Quiet()) ==> Quiet()
    {
      var w := Working();
      forall s | s in w.calendars
        ensures Consistent(s)
      {
        var i :| 0 <= i < |w.calendars| && w.calendars[i] == s;
        assert calendars.repo.obs[i] in calendars.repo.obs;
      }
      committed := w;
      commits := commits + 1;
    }

    /** `rollback`: the working objects are read back from the committed store and objects
        added since the last commit are dropped; tracked calendars keep their events. */
    method Rollback()
      requires Valid()
      modifies calendars.repo, users.repo, set c | c in calendars.repo.obs
      ensures calendars.repo.obs == old(calendars.repo.obs)[..|committed.calendars|]
      ensures forall c :: c in calendars.seen ==> c.events == old(c.events)
      ensures Valid() && Working() == committed
    {
      var n := |committed.calendars|;
      ReloadAll(calendars.repo.obs[..n], committed.calendars);
      Truncate();
    }

    /** Drops the calendars and users added since the last commit, once the calendars
        kept hold the committed states again. */
    method Truncate()
      requires Valid() && States(calendars.repo.obs[..|committed.calendars|]) == committed.calendars
      modifies calendars.repo, users.repo
      ensures calendars.repo.obs == old(calendars.repo.obs)[..|committed.calendars|]
      ensures Valid() && Working() == committed
    {
      calendars.repo.obs := calendars.repo.obs[..|committed.calendars|];
      users.repo.obs := committed.users;
    }

    /** `__exit__`: always rolls back. */
    method Exit()
      requires Valid()
      modifies calendars.repo, users.repo, set c | c in calendars.repo.obs
      ensures forall c :: c in calendars.seen ==> c.events == old(c.events)
      ensures Valid() && Working() == committed
      ensures old(Tracked()) ==> Tracked()
      ensures old(Quiet()) ==> Quiet()
    {
      Rollback();
    }

    /** `users.add(u)`: the working users gain `u` where `add` puts it; the calendars and
        the session's bookkeeping stay as they are. */
    method AddUser(u: User)
      requires Working() == committed
      modifies users, users.repo
      ensures users.repo == old(users.repo)
      ensures Working() == committed.(users := Upsert(committed.users, AccountOf, u))
    {
      users.Add(u);
    }

    /** `calendars.add(c)` for a calendar the session does not hold yet: the working
        calendars gain `c`'s state where `add` puts it, and `c` is tracked. */
    method AddCalendar(c: Calendar)
      requires Valid() && Working() == committed && c !in Repr && c.Valid() && c.events == []
      modifies this, calendars, calendars.repo
      ensures committed == old(committed) && commits == old(commits)
      ensures calendars == old(calendars) && users == old(users) && Repr == old(Repr) + {c}
      ensures Working() == committed.(calendars := Upsert(committed.calendars, StateOwner, c.State()))
      ensures Valid() && (old(Tracked()) ==> Tracked()) && (old(Quiet()) ==> Quiet())
    {
      calendars.Add(c);
      Repr := Repr + {c};
      CalendarAdded(this, c);
    }

    /** `collect_new_events`, consumed to the end: each tracked calendar's events, calendar
        by calendar in `seen` order and oldest first, leaving every tracked calendar without
        events and its appointments as they were. */
    method CollectNewEvents() returns (evs: seq<Event>)
      requires Valid() && Tracked()
      modifies set c | c in calendars.seen
      ensures evs == old(PendingEvents())
      ensures |evs| == old(TotalLength(EventLists(calendars.seen)))
      ensures Quiet() && PendingEvents() == []
      ensures forall c :: c in calendars.seen ==> c.State() == old(c.State())
      ensures Valid() && Working() == old(Working())
    {
      ConcatLength(EventLists(calendars.seen));
      evs := DrainAll(calendars.seen);
      ConcatEmpty(EventLists(calendars.seen));
      forall j | 0 <= j < |calendars.repo.obs|
        ensures calendars.repo.obs[j].State() == old(calendars.repo.obs[j].State())
      {
      }
      assert States(calendars.repo.obs) == old(States(calendars.repo.obs));
    }
  }
}
