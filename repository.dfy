/** The in-memory repositories: objects kept in insertion order, looked up by a key
    attribute, and tracked in a `seen` collection once handed out or added. */
module Repositories {

  import opened Wrappers
  import opened Errors
  import opened Sequences
  import opened Users
  import opened Calendars

  /** The position of the first object whose key is `k`. */
  function FirstIndex<T>(obs: seq<T>, key: T -> string, k: string): (r: Option<nat>)
    ensures r.Some? ==> r.value < |obs| && key(obs[r.value]) == k
    ensures r.Some? ==> forall j :: 0 <= j < r.value ==> key(obs[j]) != k
    ensures r.None? ==> forall j :: 0 <= j < |obs| ==> key(obs[j]) != k
  {
    if obs == [] then None
    else if key(obs[0]) == k then Some(0)
    else match FirstIndex(obs[1..], key, k)
      case None => None
      case Some(i) => Some(i + 1)
  }

  /** `get`: the first object whose key is `k`; a bare DoesNotExistsError if there is none. */
  function Lookup<T>(obs: seq<T>, key: T -> string, k: string): (r: Result<T, Error>)
    ensures r.Failure? <==> forall x :: x in obs ==> key(x) != k
    ensures r.Failure? ==> r.error == DoesNotExistsError("")
    ensures r.Success? ==>
              exists i :: 0 <= i < |obs| && obs[i] == r.value && key(r.value) == k
                          && forall j :: 0 <= j < i ==> key(obs[j]) != k
  {
    match FirstIndex(obs, key, k)
    case None => Failure(DoesNotExistsError(""))
    case Some(i) => Success(obs[i])
  }

  /** `add`: overwrites the slot of the first object with the same key, or appends. */
  function Upsert<T>(obs: seq<T>, key: T -> string, ob: T): (r: seq<T>)
    ensures (forall x :: x in obs ==> key(x) != key(ob)) ==> r == obs + [ob]
    ensures (exists x :: x in obs && key(x) == key(ob)) ==>
              |r| == |obs| &&
              exists i :: 0 <= i < |obs| && key(obs[i]) == key(ob) && r == obs[i := ob]
                          && forall j :: 0 <= j < i ==> key(obs[j]) != key(ob)
  {
    match FirstIndex(obs, key, key(ob))
    case None => obs + [ob]
    case Some(i) => obs[i := ob]
  }

  /** `seen.update(xs)`: adds what is not there yet, keeping what was. */
  function Track<T(==)>(seen: seq<T>, xs: seq<T>): (r: seq<T>)
    ensures forall x :: x in r ==> x in seen || x in xs
    ensures forall x :: x in xs ==> x in r
    ensures |seen| <= |r| && r[..|seen|] == seen
    ensures Distinct(seen) ==> Distinct(r)
    decreases |xs|
  {
    if xs == [] then seen
    else
      var seen' := if xs[0] in seen then seen else seen + [xs[0]];
      assert seen'[..|seen|] == seen;
      assert xs == [xs[0]] + xs[1..];
      Track(seen', xs[1..])
  }

  /** After `add(ob)`, `get` with the key of `ob` returns `ob`. */
  lemma AddThenGet<T>(obs: seq<T>, key: T -> string, ob: T)
    ensures Lookup(Upsert(obs, key, ob), key, key(ob)) == Success(ob)
  {
    var r := Upsert(obs, key, ob);
    if forall x :: x in obs ==> key(x) != key(ob) {
      assert r[|obs|] == ob;
    } else {
      var i :| 0 <= i < |obs| && key(obs[i]) == key(ob) && r == obs[i := ob]
               && forall j :: 0 <= j < i ==> key(obs[j]) != key(ob);
      var f := FirstIndex(r, key, key(ob));
      assert f == Some(i) by {
        assert key(r[i]) == key(ob);
      }
    }
  }

  /** `add` leaves the lookup of every other key as it was. */
  lemma AddKeepsOtherKeys<T>(obs: seq<T>, key: T -> string, ob: T, k: string)
    requires k != key(ob)
    ensures Lookup(Upsert(obs, key, ob), key, k) == Lookup(obs, key, k)
  {
  }

  /** The accounts that are services, in stored order. */
  function Services(us: seq<User>): (r: seq<User>)
    ensures forall u :: u in r <==> u in us && u.Service?
  {
    if us == [] then []
    else (if us[0].Service? then [us[0]] else []) + Services(us[1..])
  }

  /** `list_services` keeps the stored order. */
  lemma {:induction false} ServicesInOrder(us: seq<User>)
    ensures Subsequence(Services(us), us)
    decreases |us|
  {
    if us != [] {
      assert us == [us[0]] + us[1..];
      ServicesInOrder(us[1..]);
      if us[0].Service? {
        ConsSubsequence(Services(us[1..]), us[1..], us[0]);
      } else {
        assert Services(us) == Services(us[1..]);
        SubsequencePrepend(Services(us[1..]), us[1..], us[0]);
      }
    }
  }

  /** Two lists whose keys agree position by position have their first match at the same
      place; this carries lookups from stored objects to their stored states. */
  lemma {:induction false} FirstIndexTransfer<A, B>(xs: seq<A>, kx: A -> string, ys: seq<B>,
                                                    ky: B -> string, k: string)
    requires |xs| == |ys| && forall i :: 0 <= i < |xs| ==> kx(xs[i]) == ky(ys[i])
    ensures FirstIndex(xs, kx, k) == FirstIndex(ys, ky, k)
    decreases |xs|
  {
    if xs != [] && kx(xs[0]) != k {
      FirstIndexTransfer(xs[1..], kx, ys[1..], ky, k);
    }
  }

  /** Calendars are keyed by their owner. */
  function OwnerOf(c: Calendar): string {
    c.owner
  }

  /** Users are keyed by their account name. */
  function AccountOf(u: User): string {
    u.accountName
  }

  /** `FakeCalendarRepository`: stored calendars in insertion order, keyed by owner. */
  class CalendarRepository {
    var obs: seq<Calendar>

    constructor(obs: seq<Calendar>)
      ensures this.obs == obs
    {
      this.obs := obs;
    }

    /** `get(owner)`: the first calendar of that owner. */
    method Get(owner: string) returns (r: Result<Calendar, Error>)
      ensures r == Lookup(obs, OwnerOf, owner)
    {
      r := Lookup(obs, OwnerOf, owner);
    }

    /** `add(c)`: overwrites the slot of the calendar with the same owner, or appends. */
    method Add(c: Calendar)
      modifies this
      ensures obs == Upsert(old(obs), OwnerOf, c)
    {
      obs := Upsert(obs, OwnerOf, c);
    }
  }

  /** `FakeTrackingCalendarRepository`: the calendar repository a unit of work hands out;
      it remembers in `seen` every calendar it handed out or was given. */
  class TrackingCalendarRepository {
    const repo: CalendarRepository
    var seen: seq<Calendar>

    constructor(repo: CalendarRepository)
      ensures this.repo == repo && seen == []
    {
      this.repo := repo;
      seen := [];
    }

    /** `get(owner)`; a calendar found is tracked. */
    method Get(owner: string) returns (r: Result<Calendar, Error>)
      modifies this
      ensures r == Lookup(repo.obs, OwnerOf, owner)
      ensures seen == if r.Success? then Track(old(seen), [r.value]) else old(seen)
    {
      r := repo.Get(owner);
      if r.Success? {
        seen := Track(seen, [r.value]);
      }
    }

    /** `add(c)`; the calendar is tracked. */
    method Add(c: Calendar)
      modifies this, repo
      ensures repo.obs == Upsert(old(repo.obs), OwnerOf, c)
      ensures seen == Track(old(seen), [c])
    {
      repo.Add(c);
      seen := Track(seen, [c]);
    }
  }

  /** `FakeUsersRepository`: stored accounts in insertion order, keyed by account name. */
  class UserRepository {
    var obs: seq<User>

    constructor(obs: seq<User>)
      ensures this.obs == obs
    {
      this.obs := obs;
    }

    /** `get(account_name)`: the first account with that name. */
    method Get(accountName: string) returns (r: Result<User, Error>)
      ensures r == Lookup(obs, AccountOf, accountName)
    {
      r := Lookup(obs, AccountOf, accountName);
    }

    /** `add(u)`: overwrites the slot of the account with the same name, or appends. */
    method Add(u: User)
      modifies this
      ensures obs == Upsert(old(obs), AccountOf, u)
    {
      obs := Upsert(obs, AccountOf, u);
    }

    /** `list_services`: the services, in stored order. */
    method ListServices() returns (r: seq<User>)
      ensures r == Services(obs)
    {
      r := Services(obs);
    }
  }

  /** `FakeTrackingUserRepository`: the user repository a unit of work hands out. */
  class TrackingUserRepository {
    const repo: UserRepository
    var seen: seq<User>

    constructor(repo: UserRepository)
      ensures this.repo == repo && seen == []
    {
      this.repo := repo;
      seen := [];
    }

    /** `get(account_name)`; a user found is tracked. */
    method Get(accountName: string) returns (r: Result<User, Error>)
      modifies this
      ensures r == Lookup(repo.obs, AccountOf, accountName)
      ensures seen == if r.Success? then Track(old(seen), [r.value]) else old(seen)
    {
      r := repo.Get(accountName);
      if r.Success? {
        seen := Track(seen, [r.value]);
      }
    }

    /** `add(u)`; the user is tracked. */
    method Add(u: User)
      modifies this, repo
      ensures repo.obs == Upsert(old(repo.obs), AccountOf, u)
      ensures seen == Track(old(seen), [u])
    {
      repo.Add(u);
      seen := Track(seen, [u]);
    }

    /** The tracking `list_services`: the services in stored order, all of them tracked. */
    method ListServices() returns (r: seq<User>)
      modifies this
      ensures r == Services(repo.obs)
      ensures seen == Track(old(seen), r)
    {
      r := repo.ListServices();
      seen := Track(seen, r);
    }
  }
}
