/** The read side: listings, lookups and tag search over the stored data, and the
    masking that hides details from other users. */
module Views {

  import opened Wrappers
  import opened Errors
  import opened Dicts
  import opened Sequences
  import opened Appointments
  import opened Users
  import opened CalendarSpec
  import opened Calendars
  import opened Repositories
  import opened UnitsOfWork

  /** `_mask`: only the interval of an appointment dictionary. */
  function Mask(d: Dict): (r: Dict)
    requires "since" in d && "until" in d
    ensures r.Keys == {"since", "until"}
    ensures forall k :: k in r ==> k in d && r[k] == d[k]
  {
    map["since" := d["since"], "until" := d["until"]]
  }

  /** `_mask_service`: only the account name and tags of a service dictionary. */
  function MaskService(d: Dict): (r: Dict)
    requires "account_name" in d && "tags" in d
    ensures r.Keys == {"account_name", "tags"}
    ensures forall k :: k in r ==> k in d && r[k] == d[k]
  {
    map["account_name" := d["account_name"], "tags" := d["tags"]]
  }

  /** What the owner sees: every appointment's full dictionary, in list order. */
  function OwnerListing(apps: seq<Appointment>): (r: seq<Dict>)
    ensures |r| == |apps| && forall i :: 0 <= i < |apps| ==> r[i] == apps[i].ToDict()
  {
    if apps == [] then [] else [apps[0].ToDict()] + OwnerListing(apps[1..])
  }

  /** A new last appointment adds its dictionary at the end of the owner's listing. */
  lemma OwnerListingAppend(apps: seq<Appointment>, a: Appointment)
    ensures OwnerListing(apps + [a]) == OwnerListing(apps) + [a.ToDict()]
  {
    var l, l' := OwnerListing(apps), OwnerListing(apps + [a]);
    assert forall i :: 0 <= i < |apps| ==> (apps + [a])[i] == apps[i];
    assert |l'| == |l + [a.ToDict()]|;
    forall i | 0 <= i < |l'|
      ensures l'[i] == (l + [a.ToDict()])[i]
    {
      if i < |apps| {
        assert (apps + [a])[i] == apps[i];
      }
    }
  }

  /** What anybody else sees: the accepted appointments only, masked, in list order. */
  function PublicListing(apps: seq<Appointment>): (r: seq<Dict>)
    ensures forall d :: d in r ==> d.Keys == {"since", "until"}
  {
    if apps == [] then []
    else (if apps[0].accepted then [Mask(apps[0].ToDict())] else []) + PublicListing(apps[1..])
  }

  /** The accepted appointments, in list order. */
  function AcceptedOnly(apps: seq<Appointment>): (r: seq<Appointment>)
  {
    if apps == [] then [] else (if apps[0].accepted then [apps[0]] else []) + AcceptedOnly(apps[1..])
  }

  /** The interval of an appointment, as `_mask` leaves it. */
  function Interval(a: Appointment): (d: Dict)
    ensures d == Mask(a.ToDict())
  {
    map["since" := Int(a.since), "until" := Int(a.until)]
  }

  /** The intervals of the appointments, in list order. */
  function Intervals(apps: seq<Appointment>): (r: seq<Dict>)
    ensures |r| == |apps| && forall i :: 0 <= i < |apps| ==> r[i] == Interval(apps[i])
  {
    if apps == [] then [] else [Interval(apps[0])] + Intervals(apps[1..])
  }

  /** Another user's listing is the intervals of the accepted appointments, in list order:
      nothing about pending appointments, and no id, requester or description, shows. */
  lemma {:induction false} PublicListingIsAcceptedIntervals(apps: seq<Appointment>)
    ensures PublicListing(apps) == Intervals(AcceptedOnly(apps))
    decreases |apps|
  {
    if apps != [] {
      PublicListingIsAcceptedIntervals(apps[1..]);
      if apps[0].accepted {
        assert AcceptedOnly(apps) == [apps[0]] + AcceptedOnly(apps[1..]);
        assert Mask(apps[0].ToDict()) == Interval(apps[0]);
      } else {
        assert AcceptedOnly(apps) == AcceptedOnly(apps[1..]);
      }
    }
  }

  /** The accepted appointments are selected in list order. */
  lemma {:induction false} AcceptedOnlySelects(apps: seq<Appointment>)
    ensures forall a :: a in AcceptedOnly(apps) <==> a in apps && a.accepted
    ensures Subsequence(AcceptedOnly(apps), apps)
    decreases |apps|
  {
    if apps != [] {
      assert apps == [apps[0]] + apps[1..];
      AcceptedOnlySelects(apps[1..]);
      if apps[0].accepted {
        ConsSubsequence(AcceptedOnly(apps[1..]), apps[1..], apps[0]);
      } else {
        assert AcceptedOnly(apps) == AcceptedOnly(apps[1..]);
        SubsequencePrepend(AcceptedOnly(apps[1..]), apps[1..], apps[0]);
      }
    }
  }

  /** The listing `list_appointments` answers with, for a calendar's appointments. */
  function Listing(apps: seq<Appointment>, ofUser: string, forUser: string): (r: seq<Dict>)
    ensures forUser == ofUser ==> |r| == |apps| && forall i :: 0 <= i < |apps| ==> r[i] == apps[i].ToDict()
    ensures forUser != ofUser ==> r == Intervals(AcceptedOnly(apps))
  {
    if forUser == ofUser then OwnerListing(apps)
    else
      PublicListingIsAcceptedIntervals(apps);
      PublicListing(apps)
  }

  /** The user carries tag `t`; only services have tags. */
  predicate HasTag(u: User, t: string) {
    u.Service? && t in u.tags
  }

  /** The user carries every one of the tags. */
  predicate HasAllTags(u: User, tags: seq<string>) {
    forall t :: t in tags ==> HasTag(u, t)
  }

  /** One pass of the search loop: `[u for u in us if t in u.tags]`. */
  function WithTag(us: seq<User>, t: string): (r: seq<User>)
  {
    if us == [] then [] else (if HasTag(us[0], t) then [us[0]] else []) + WithTag(us[1..], t)
  }

  /** The search loop `for t in tags`, narrowing the list one tag at a time. */
  function FilterByTags(us: seq<User>, tags: seq<string>): (r: seq<User>)
    decreases |tags|
  {
    if tags == [] then us else FilterByTags(WithTag(us, tags[0]), tags[1..])
  }

  /** The reference definition: a single pass keeping the users with all the tags. */
  function WithAllTags(us: seq<User>, tags: seq<string>): (r: seq<User>)
  {
    if us == [] then [] else (if HasAllTags(us[0], tags) then [us[0]] else []) + WithAllTags(us[1..], tags)
  }

  /** Narrowing by one tag and then by the rest is one pass with all of them. */
  lemma {:induction false} WithTagThenAll(us: seq<User>, t: string, tags: seq<string>)
    ensures WithAllTags(WithTag(us, t), tags) == WithAllTags(us, [t] + tags)
    decreases |us|
  {
    if us != [] {
      WithTagThenAll(us[1..], t, tags);
      assert HasAllTags(us[0], [t] + tags) <==> HasTag(us[0], t) && HasAllTags(us[0], tags) by {
        if HasTag(us[0], t) && HasAllTags(us[0], tags) {
          forall x | x in [t] + tags
            ensures HasTag(us[0], x)
          {
            if x != t { assert x in tags; }
          }
        }
      }
      var rest := WithTag(us[1..], t);
      if HasTag(us[0], t) {
        assert WithTag(us, t) == [us[0]] + rest;
        assert ([us[0]] + rest)[0] == us[0];
        assert ([us[0]] + rest)[1..] == rest;
      } else {
        assert t in [t] + tags;
        assert WithTag(us, t) == rest;
      }
    }
  }

  /** Without tags the single pass keeps everything. */
  lemma {:induction false} WithNoTags(us: seq<User>)
    ensures WithAllTags(us, []) == us
    decreases |us|
  {
    if us != [] {
      WithNoTags(us[1..]);
    }
  }

  /** The search loop equals the single pass with all tags. */
  lemma {:induction false} FilterByTagsIsWithAllTags(us: seq<User>, tags: seq<string>)
    ensures FilterByTags(us, tags) == WithAllTags(us, tags)
    decreases |tags|
  {
    if tags == [] {
      WithNoTags(us);
    } else {
      FilterByTagsIsWithAllTags(WithTag(us, tags[0]), tags[1..]);
      WithTagThenAll(us, tags[0], tags[1..]);
      assert [tags[0]] + tags[1..] == tags;
    }
  }

  /** The single pass keeps exactly the users with all tags, in their order. */
  lemma {:induction false} WithAllTagsSelects(us: seq<User>, tags: seq<string>)
    ensures forall u :: u in WithAllTags(us, tags) <==> u in us && HasAllTags(u, tags)
    ensures Subsequence(WithAllTags(us, tags), us)
    decreases |us|
  {
    if us != [] {
      assert us == [us[0]] + us[1..];
      WithAllTagsSelects(us[1..], tags);
      if HasAllTags(us[0], tags) {
        ConsSubsequence(WithAllTags(us[1..], tags), us[1..], us[0]);
      } else {
        assert WithAllTags(us, tags) == WithAllTags(us[1..], tags);
        SubsequencePrepend(WithAllTags(us[1..], tags), us[1..], us[0]);
      }
    }
  }

  /** `search_services` finds exactly the services carrying every searched tag, in stored
      order; with no tags, every service. */
  lemma SearchSelects(users: seq<User>, tags: seq<string>)
    ensures forall u :: u in FilterByTags(Services(users), tags) <==>
                        u in users && u.Service? && forall t :: t in tags ==> t in u.tags
    ensures Subsequence(FilterByTags(Services(users), tags), users)
    ensures tags == [] ==> FilterByTags(Services(users), tags) == Services(users)
  {
    FilterByTagsIsWithAllTags(Services(users), tags);
    WithAllTagsSelects(Services(users), tags);
    ServicesInOrder(users);
    SubsequenceTransitive(FilterByTags(Services(users), tags), Services(users), users);
  }

  /** The search only ever finds services. */
  lemma FoundAreServices(users: seq<User>, tags: seq<string>)
    ensures forall u :: u in FilterByTags(Services(users), tags) ==> u.Service?
  {
    SearchSelects(users, tags);
  }

  /** The masked dictionaries of the found services. */
  function MaskedServices(us: seq<User>): (r: seq<Dict>)
    requires forall u :: u in us ==> u.Service?
    ensures |r| == |us|
    ensures forall i :: 0 <= i < |us| ==>
              r[i] == map["account_name" := Str(us[i].accountName), "tags" := Strs(us[i].tags)]
  {
    if us == [] then [] else [MaskService(us[0].ToDict())] + MaskedServices(us[1..])
  }

  /** `calendars.get(owner)` on the stored data. */
  function CalendarOf(st: Store, owner: string): (r: Result<CalendarState, Error>)
    ensures r.Failure? <==> forall s :: s in st.calendars ==> s.owner != owner
    ensures r.Failure? ==> r.error == DoesNotExistsError("")
    ensures r.Success? ==> r.value in st.calendars && r.value.owner == owner
  {
    Lookup(st.calendars, StateOwner, owner)
  }

  /** `list_appointments(of_user, for_user)` on the stored data. */
  function ListAppointmentsView(st: Store, ofUser: string, forUser: string): (r: Result<seq<Dict>, Error>)
    ensures r.Failure? <==> CalendarOf(st, ofUser).Failure?
    ensures r.Success? && forUser == ofUser ==>
              r.value == OwnerListing(CalendarOf(st, ofUser).value.appointments)
    ensures r.Success? && forUser != ofUser ==>
              r.value == PublicListing(CalendarOf(st, ofUser).value.appointments)
  {
    var cal :- CalendarOf(st, ofUser);
    Success(Listing(cal.appointments, ofUser, forUser))
  }

  /** `get_user(account_name)` on the stored data. */
  function GetUserView(st: Store, accountName: string): (r: Result<Dict, Error>)
    ensures r.Failure? <==> forall u :: u in st.users ==> u.accountName != accountName
    ensures r.Failure? ==> r.error == DoesNotExistsError("")
    ensures r.Success? ==> exists u :: u in st.users && u.accountName == accountName && r.value == u.ToDict()
  {
    var u :- Lookup(st.users, AccountOf, accountName);
    Success(u.ToDict())
  }

  /** `search_services(tags)` on the stored data. */
  function SearchServicesView(st: Store, tags: seq<string>): (r: seq<Dict>)
    ensures |r| == |FilterByTags(Services(st.users), tags)|
  {
    FoundAreServices(st.users, tags);
    MaskedServices(FilterByTags(Services(st.users), tags))
  }

  /** `get_appointment(account_name, id)` on the stored data. */
  function GetAppointmentView(st: Store, accountName: string, id: int): (r: Result<Dict, Error>)
    ensures r.Failure? <==>
              CalendarOf(st, accountName).Failure?
              || forall a :: a in CalendarOf(st, accountName).value.appointments ==> a.id != Some(id)
    ensures r.Failure? ==>
              r.error == DoesNotExistsError("") || r.error == DoesNotExistsError(NoSuchAppointment)
    ensures r.Success? ==>
              exists a :: a in CalendarOf(st, accountName).value.appointments && a.id == Some(id)
                          && r.value == a.ToDict()
  {
    var cal :- CalendarOf(st, accountName);
    var a :- Find(cal.appointments, id);
    Success(a.ToDict())
  }

  /** `views.list_appointments`: reads through a session, never commits. */
  method ListAppointments(ofUser: string, forUser: string, uow: SqlUnitOfWork)
    returns (r: Result<seq<Dict>, Error>)
    requires uow.Valid()
    modifies uow
    ensures r == ListAppointmentsView(old(uow.committed), ofUser, forUser)
    ensures uow.committed == old(uow.committed) && uow.commits == old(uow.commits)
    ensures uow.Valid()
  {
    uow.Enter();
    CalendarLookup(uow.calendars.repo.obs, ofUser);
    ghost var spec := CalendarOf(uow.committed, ofUser);
    label Open:
    var c := uow.calendars.Get(ofUser);
    CalendarsKept@Open(uow);
    assert c.Success? <==> spec.Success?;
    if c.Success? {
      var apps := c.value.ListAppointments();
      assert apps == spec.value.appointments;
      r := Success(Listing(apps, ofUser, forUser));
    } else {
      r := Failure(c.error);
    }
    uow.Exit();
  }

  /** `views.get_user`: reads through a session, never commits. */
  method GetUser(accountName: string, uow: SqlUnitOfWork) returns (r: Result<Dict, Error>)
    requires uow.Valid()
    modifies uow
    ensures r == GetUserView(old(uow.committed), accountName)
    ensures uow.committed == old(uow.committed) && uow.commits == old(uow.commits)
    ensures uow.Valid()
  {
    uow.Enter();
    label Open:
    var u := uow.users.Get(accountName);
    CalendarsKept@Open(uow);
    if u.Success? {
      r := Success(u.value.ToDict());
    } else {
      r := Failure(u.error);
    }
    uow.Exit();
  }

  /** `views.search_services`: the tracking `list_services`, the narrowing fold over the
      tags, then the masking; never commits. */
  method SearchServices(tags: seq<string>, uow: SqlUnitOfWork) returns (r: seq<Dict>)
    requires uow.Valid()
    modifies uow
    ensures r == SearchServicesView(old(uow.committed), tags)
    ensures uow.committed == old(uow.committed) && uow.commits == old(uow.commits)
    ensures uow.Valid()
  {
    uow.Enter();
    label Open:
    var us := uow.users.ListServices();
    CalendarsKept@Open(uow);
    assert us == Services(uow.committed.users);
    var found := FilterByTags(us, tags);
    FoundAreServices(uow.committed.users, tags);
    r := MaskedServices(found);
    uow.Exit();
  }

  /** `views.get_appointment`: reads through a session, never commits. */
  method GetAppointment(accountName: string, id: int, uow: SqlUnitOfWork) returns (r: Result<Dict, Error>)
    requires uow.Valid()
    modifies uow
    ensures r == GetAppointmentView(old(uow.committed), accountName, id)
    ensures uow.committed == old(uow.committed) && uow.commits == old(uow.commits)
    ensures uow.Valid()
  {
    uow.Enter();
    CalendarLookup(uow.calendars.repo.obs, accountName);
    ghost var spec := CalendarOf(uow.committed, accountName);
    label Open:
    var c := uow.calendars.Get(accountName);
    CalendarsKept@Open(uow);
    assert c.Success? <==> spec.Success?;
    if c.Success? {
      assert c.value.State() == spec.value;
      var a := c.value.GetAppointment(id);
      if a.Success? {
        r := Success(a.value.ToDict());
      } else {
        r := Failure(a.error);
      }
    } else {
      r := Failure(c.error);
    }
    uow.Exit();
  }
}
