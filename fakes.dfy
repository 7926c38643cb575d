/** The in-memory unit of work the unit tests run the handlers against. */
module Fakes {

  import opened Events
  import opened Repositories

  /** `FakeUnitOfWork`: empty tracking repositories and a flag recording a commit. */
  class FakeUnitOfWork {
    var commited: bool
    var calendars: TrackingCalendarRepository
    var users: TrackingUserRepository
    var events: seq<Event>

    constructor()
      ensures !commited && events == []
      ensures fresh(calendars) && fresh(calendars.repo) && fresh(users) && fresh(users.repo)
      ensures calendars.repo.obs == [] && calendars.seen == [] && users.repo.obs == [] && users.seen == []
    {
      commited := false;
      var cr := new CalendarRepository([]);
      var ur := new UserRepository([]);
      calendars := new TrackingCalendarRepository(cr);
      users := new TrackingUserRepository(ur);
      events := [];
    }

    /** `__enter__` hands out the unit of work itself and changes nothing. */
    method Enter() returns (self: FakeUnitOfWork)
      ensures self == this
    {
      self := this;
    }

    /** `commit` only records that it happened. */
    method Commit()
      modifies this
      ensures commited
      ensures calendars == old(calendars) && users == old(users) && events == old(events)
    {
      commited := true;
    }

    /** `rollback` keeps everything: nothing done through the fake is ever discarded. */
    method Rollback()
      ensures unchanged(this) && unchanged(calendars, calendars.repo) && unchanged(users, users.repo)
    {
    }
  }
}
