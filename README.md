# timetable: a Dafny model of the scheduling core

`timetable` is a small booking service. Users are either clients or service providers.
Each service provider owns a calendar of appointments. A client asks for an appointment,
which is stored pending. The owner accepts it, and that removes every pending appointment
that overlaps it. An appointment that overlaps an accepted one cannot be asked for or
accepted.

Commands reach the command handlers through a message bus. The handlers work on
calendars and accounts through a unit of work, which commits the changes or rolls them
back. Read-only views list appointments, look up users and search services by tag. Two
earlier layers also remain in the repository: a single-table service layer
(`services.py`, `timetable/timetable/domain/appointment.py`) and a first prototype
(`timetable/model/`). Both have a shared `accept` routine.

The model follows the structure of the program:

| file | module | models |
|---|---|---|
| `appointment.dfy` | `Appointments` | the calendar appointment, its `collide` (which excludes the appointment itself), `to_dict` |
| `calendar_spec.dfy`, `calendar_props.dfy` | `CalendarSpec`, `CalendarProperties` | what `create_appointment` and `accept_appointment` do to a calendar's state, and why |
| `calendar.dfy` | `Calendars` | the `Calendar` class, whose methods change its fields in place |
| `user.dfy`, `command.dfy`, `events.dfy`, `dicts.dfy`, `errors.dfy` | | accounts, commands, events, returned dictionaries, exceptions |
| `repository.dfy` | `Repositories` | the in-memory repositories with key lookup, upsert and tracking |
| `fakes.dfy` | `Fakes` | the fake unit of work of the unit tests |
| `unit_of_work.dfy` | `UnitsOfWork` | the session: committed store, working objects, `collect_new_events` |
| `handlers.dfy` | `Handlers` | the four command handlers, each proved against a function on the store |
| `views.dfy` | `Views` | the read handlers, masking, tag search |
| `message_bus.dfy` | `MessageBus` | the FIFO message loop, event and command dispatch |
| `accept.dfy` | `Accepting` | `find_colliding`, `accept`, `build_exc_msg`, over any appointment class |
| `legacy_appointment.dfy`, `services.dfy` | `LegacyAppointments`, `LegacyServices` | the single-table appointment and service layer |
| `prototype_appointment.dfy`, `prototype_accept.dfy` | `PrototypeAppointments`, `PrototypeAccept` | the prototype |

Python exceptions are values of `Result`. Objects that the source updates in place
(calendars, repositories, units of work) are classes. Each of their methods is proved
against a pure function of the old state. Times are integers, and the text of an
appointment's time is a `showTime` parameter.

## Model

| member | source | states |
|---|---|---|
| Appointments.New | timetable/domain/appointment.py:6-24 | construction fails with ValueError exactly when `until <= since`; otherwise every field is stored as given |
| Appointments.Appointment.Collide | timetable/domain/appointment.py:26-31 | for well-formed appointments, `collide` is half-open interval overlap |
| Appointments.Appointment.ToDict | timetable/domain/appointment.py:36-44 | the dictionary has exactly the six fields under their Python names |
| Appointments.Appointment.Repr | timetable/domain/appointment.py:33-34 | `__repr__` is never empty: it reads `Appointment(`, then the printed start, and ends with `)`; so the collision message always names both appointments |
| Appointments.ToDictRoundTrip | timetable/domain/appointment.py:36-44 | `to_dict` loses nothing: the appointment reads back from it |
| Appointments.CollideIrreflexive | timetable/domain/appointment.py:27 | because of the identity exclusion, no appointment collides with itself |
| Appointments.CollideSymmetric | timetable/domain/appointment.py:26-31 | `collide` is symmetric for well-formed appointments |
| Appointments.EarlierDoesNotCollide | timetable/domain/appointment.py:28-30 | adjacent or separated intervals collide in neither direction |
| Appointments.CollideIgnoresPayload | timetable/domain/appointment.py:26-31 | only the two intervals and identity decide `collide` |
| CalendarSpec.Empty | timetable/domain/calendar.py:9-12 | a new calendar has the owner, counter 0, no appointments, and is consistent |
| CalendarSpec.Kept | timetable/domain/calendar.py:51-61 | the list `_resolve_collision` builds is never longer than the stored list |
| CalendarSpec.KeptMembers | timetable/domain/calendar.py:57-61 | the kept list holds exactly the stored appointments that do not collide with the target |
| CalendarSpec.MarkAccepted | timetable/domain/calendar.py:48 | only the target changes, to its accepted version, and ids stay in place |
| CalendarSpec.Ids | timetable/domain/calendar.py:11 | the ids of the list, position by position |
| CalendarSpec.Create | timetable/domain/calendar.py:14-34 | fails only with ValueError or NotAvailableError; on success appends a pending appointment with id `id_count` and increments the counter |
| CalendarSpec.Accept | timetable/domain/calendar.py:36-49 | on success the target was stored and comes back accepted, and owner and counter are unchanged; failures are NotAvailableError or the foreign-element DoesNotExistsError |
| CalendarSpec.Find | timetable/domain/calendar.py:71-75 | fails with "such appointment does not exists" exactly when no stored appointment has that id; otherwise returns a stored one with that id |
| CalendarSpec.ResolveCollision | timetable/domain/calendar.py:51-61 | raises exactly for an accepted collider; otherwise appends the appointment only when it does not collide |
| CalendarProperties.AcceptedNeverOverlap | timetable/domain/calendar.py:29-31 | in a consistent calendar, two accepted appointments never overlap |
| CalendarProperties.NewIsFresh | timetable/domain/calendar.py:21-28 | the created appointment differs from every stored one |
| CalendarProperties.CreateFailsIff | timetable/domain/calendar.py:21-31 | `create_appointment` fails exactly for an empty interval (ValueError) or an overlapping accepted appointment (NotAvailableError) |
| CalendarProperties.CreatePreservesConsistent | timetable/domain/calendar.py:14-34 | creation keeps ids distinct and below the counter, and keeps accepted appointments pairwise compatible |
| CalendarProperties.FindSkips | timetable/domain/calendar.py:72 | the search goes past appointments that have other ids |
| CalendarProperties.FindStored | timetable/domain/calendar.py:71-75 | with distinct ids, `get_appointment` returns the one stored appointment with that id |
| CalendarProperties.CreateThenGet | timetable/domain/calendar.py:14-34 | after creation, `get_appointment` with the old counter returns the new appointment |
| CalendarProperties.KeptDistinct | timetable/domain/calendar.py:37-47 | filtering keeps ids distinct |
| CalendarProperties.KeptKeepsOrder | timetable/domain/calendar.py:37-47 | filtering keeps the order of the ids |
| CalendarProperties.AcceptPreservesConsistent | timetable/domain/calendar.py:36-49 | acceptance keeps the calendar consistent |
| CalendarProperties.AcceptFailsIff | timetable/domain/calendar.py:39-46 | for a stored target, acceptance fails exactly when another accepted appointment overlaps it, and then with NotAvailableError |
| CalendarProperties.AcceptForeign | timetable/domain/calendar.py:43-46 | an appointment that is not stored is never accepted |
| CalendarProperties.AcceptSuccess | timetable/domain/calendar.py:36-49 | after acceptance the target is stored accepted under its id, every colliding appointment is gone, every other one stays, and ids keep their order |
| CalendarProperties.ScanStep | timetable/domain/calendar.py:39-42 | one step of the loop extends the keep-list and the ownership flag as the whole-list definitions say |
| CalendarProperties.ScanBlocked | timetable/domain/calendar.py:57-59 | an accepted collider anywhere in the list blocks acceptance |
| Calendars.Calendar.constructor | timetable/domain/calendar.py:9-12 | a new calendar holds the empty state |
| Calendars.Calendar.Load | timetable/domain/calendar.py:8-12 | a calendar loaded from a stored state holds that state |
| Calendars.Calendar.Reload | timetable/domain/calendar.py:8-12 | a calendar read back from the store holds the stored state, and its pending events stay |
| Calendars.Calendar.CreateAppointment | timetable/domain/calendar.py:14-34 | the result and the new state are those of `CalendarSpec.Create` on the old state |
| Calendars.Calendar.AcceptAppointment | timetable/domain/calendar.py:36-61 | the loop over `_resolve_collision` gives the result and the new state of `CalendarSpec.Accept` |
| Calendars.Calendar.ListAppointments | timetable/domain/calendar.py:68-69 | the stored appointments in insertion order |
| Calendars.Calendar.GetAppointment | timetable/domain/calendar.py:71-75 | the lookup of `CalendarSpec.Find` on the stored appointments |
| Users.User.ToDict | timetable/domain/user.py:13-32 | the three `User` fields, plus the tags for a service |
| Users.FromDict | timetable/domain/user.py:13-32 | a dictionary that reads back gives a user with that dictionary |
| Users.ToDictRoundTrip | timetable/domain/user.py:13-32 | `to_dict` loses nothing, not even whether the account is a service |
| Commands.Command.TypeName | timetable/domain/command.py:6-37 | the class name is "Command" exactly for the base class |
| Commands.TypeNameInjective | timetable/domain/command.py:6-37 | different command classes have different names |
| Dicts.OptInt | timetable/domain/appointment.py:38 | `None` becomes null, and an id becomes its integer |
| Repositories.FirstIndex | tests/fakes.py:27-34 | the position of the first object with the key |
| Repositories.Lookup | tests/fakes.py:14-20 | `get` fails with DoesNotExistsError exactly when no object has the key; otherwise returns the first that does |
| Repositories.Upsert | tests/fakes.py:25-38 | `add` appends a new key and overwrites the slot of an existing one |
| Repositories.Track | tests/fakes.py:62 | `seen.update` keeps what was tracked and adds what is new, without duplicates |
| Repositories.AddThenGet | tests/fakes.py:14-38 | after `add(ob)`, `get` with the key of `ob` returns `ob` |
| Repositories.AddKeepsOtherKeys | tests/fakes.py:14-38 | `add` leaves the lookup of every other key unchanged |
| Repositories.Services | tests/fakes.py:52-54 | `list_services` keeps exactly the services |
| Repositories.ServicesInOrder | tests/fakes.py:52-54 | `list_services` keeps the stored order |
| Repositories.FirstIndexTransfer | tests/fakes.py:27-34 | lists whose keys agree position by position have their first match at the same place |
| Repositories.CalendarRepository.constructor | tests/fakes.py:11-12 | the repository holds the given calendars |
| Repositories.CalendarRepository.Get | tests/fakes.py:14-20 | `get(owner)` is `Lookup` on the stored calendars |
| Repositories.CalendarRepository.Add | tests/fakes.py:25-38 | `add(c)` is `Upsert` on the stored calendars |
| Repositories.TrackingCalendarRepository.constructor | tests/fakes.py:45-46 | a tracking repository starts with nothing seen |
| Repositories.TrackingCalendarRepository.Get | tests/fakes.py:45-46 | `get` on the inner repository; a calendar it finds becomes tracked |
| Repositories.TrackingCalendarRepository.Add | tests/fakes.py:45-46 | `add` on the inner repository; the calendar becomes tracked |
| Repositories.UserRepository.constructor | tests/fakes.py:49-50 | the repository holds the given accounts |
| Repositories.UserRepository.Get | tests/fakes.py:14-20 | `get(account_name)` is `Lookup` on the stored accounts |
| Repositories.UserRepository.Add | tests/fakes.py:25-38 | `add(u)` is `Upsert` on the stored accounts |
| Repositories.UserRepository.ListServices | tests/fakes.py:52-54 | the stored services, in order |
| Repositories.TrackingUserRepository.constructor | tests/fakes.py:57-58 | a tracking repository starts with nothing seen |
| Repositories.TrackingUserRepository.Get | tests/fakes.py:57-58 | `get` on the inner repository; a user it finds becomes tracked |
| Repositories.TrackingUserRepository.Add | tests/fakes.py:57-58 | `add` on the inner repository; the user becomes tracked |
| Repositories.TrackingUserRepository.ListServices | tests/fakes.py:60-63 | the stored services, in order, and every one of them becomes tracked |
| Fakes.FakeUnitOfWork.constructor | tests/fakes.py:67-71 | no commit yet, empty tracking repositories, no events |
| Fakes.FakeUnitOfWork.Enter | tests/fakes.py:73-74 | `__enter__` hands out the unit of work itself |
| Fakes.FakeUnitOfWork.Commit | tests/fakes.py:79-80 | `commit` only records that it happened |
| Fakes.FakeUnitOfWork.Rollback | tests/fakes.py:76-77 | `rollback` changes nothing |
| UnitsOfWork.States | timetable/service_layer/unit_of_work.py:11 | the state of each calendar object, position by position |
| UnitsOfWork.EventLists | timetable/service_layer/unit_of_work.py:27-28 | the pending events of each calendar, position by position |
| UnitsOfWork.ConcatLength | timetable/service_layer/unit_of_work.py:26-29 | collecting loses no event: as many come out as were pending |
| UnitsOfWork.ConcatEmpty | timetable/service_layer/unit_of_work.py:26-29 | empty event lists yield nothing |
| UnitsOfWork.CalendarLookup | timetable/service_layer/unit_of_work.py:38 | looking up a calendar object finds the one whose state the store lookup finds |
| UnitsOfWork.UpsertStates | timetable/service_layer/unit_of_work.py:38 | adding a calendar object adds its state at the same place |
| UnitsOfWork.LoadCalendars | timetable/service_layer/unit_of_work.py:36-40 | a new session loads a fresh, distinct object for every stored calendar |
| UnitsOfWork.OpenRepositories | timetable/service_layer/unit_of_work.py:36-40 | the new repositories hold the committed data and have tracked nothing yet |
| UnitsOfWork.ReloadAll | timetable/service_layer/unit_of_work.py:42-43 | the calendar objects read the stored states back; pending events stay |
| UnitsOfWork.DrainEvents | timetable/service_layer/unit_of_work.py:28-29 | the inner `pop(0)` loop yields a calendar's events in order and empties the list |
| UnitsOfWork.DrainAll | timetable/service_layer/unit_of_work.py:26-29 | the outer loop yields the events of the tracked calendars, calendar by calendar, and empties them all |
| UnitsOfWork.CalendarsKept | timetable/service_layer/unit_of_work.py:10-12 | a step that touched no calendar keeps the session valid and the working calendars |
| UnitsOfWork.UpsertNew | timetable/service_layer/unit_of_work.py:38 | adding an object that was not held keeps the objects distinct |
| UnitsOfWork.CalendarAdded | timetable/service_layer/unit_of_work.py:38 | a new calendar added to the session becomes part of the working store |
| UnitsOfWork.CalendarChanged | timetable/service_layer/unit_of_work.py:38 | a calendar changed in place changes the working store at its slot only |
| UnitsOfWork.SqlUnitOfWork.QuietHasNothingPending | timetable/service_layer/unit_of_work.py:26-29 | with no events waiting there is nothing to collect |
| UnitsOfWork.SqlUnitOfWork.constructor | timetable/service_layer/unit_of_work.py:33-34 | a unit of work over a store, whose working state is that store |
| UnitsOfWork.SqlUnitOfWork.Enter | timetable/service_layer/unit_of_work.py:36-40 | `__enter__` opens fresh repositories whose working state is the committed store, with nothing tracked or pending |
| UnitsOfWork.SqlUnitOfWork.Install | timetable/service_layer/unit_of_work.py:38-39 | the new repositories become the session's |
| UnitsOfWork.SqlUnitOfWork.Commit | timetable/service_layer/unit_of_work.py:45-46 | `commit` makes the working state the committed one and counts the commit |
| UnitsOfWork.SqlUnitOfWork.Rollback | timetable/service_layer/unit_of_work.py:42-43 | `rollback` brings the working state back to the committed store and drops objects added since |
| UnitsOfWork.SqlUnitOfWork.Truncate | timetable/service_layer/unit_of_work.py:42-43 | objects added since the last commit are dropped |
| UnitsOfWork.SqlUnitOfWork.Exit | timetable/service_layer/unit_of_work.py:17-18 | `__exit__` always rolls back |
| UnitsOfWork.SqlUnitOfWork.AddUser | timetable/service_layer/unit_of_work.py:39 | `users.add` upserts the account into the working store |
| UnitsOfWork.SqlUnitOfWork.AddCalendar | timetable/service_layer/unit_of_work.py:38 | `calendars.add` upserts the calendar into the working store |
| UnitsOfWork.SqlUnitOfWork.CollectNewEvents | timetable/service_layer/unit_of_work.py:26-29 | all pending events, tracked calendar by tracked calendar, in order; afterwards none are pending and the working state is unchanged |
| Handlers.CalendarIndex | timetable/service_layer/handlers.py:24 | the slot of the owner's calendar, or the repository's DoesNotExistsError |
| Handlers.UpdateKeepsIndex | timetable/service_layer/handlers.py:24 | replacing a calendar by one with the same owner keeps its slot |
| Handlers.UpdateKeepsValid | timetable/service_layer/handlers.py:23-28 | replacing a consistent calendar by a consistent one keeps the store valid |
| Handlers.CreatedIn | timetable/service_layer/handlers.py:31-41 | `create_appointment` changed only the addressee's calendar, by `CalendarSpec.Create` |
| Handlers.CreateAppointmentThenGet | timetable/service_layer/handlers.py:31-41 | the created appointment can be fetched under its id, and the store stays valid |
| Handlers.CreateAppointmentListed | timetable/service_layer/handlers.py:31-41 | the owner's listing gains the new appointment's dictionary at its end |
| Handlers.CreateAppointmentFails | timetable/service_layer/handlers.py:31-41 | which error is raised exactly when: an unknown addressee, an empty interval, an accepted overlap |
| Handlers.AcceptAppointmentThenGet | timetable/service_layer/handlers.py:20-28 | the accepted appointment reads back accepted under its id, and the store stays valid |
| Handlers.AcceptAppointmentFails | timetable/service_layer/handlers.py:20-28 | the only errors are the three lookup and availability ones, and NotAvailableError is raised exactly for an accepted overlap |
| Handlers.CreateClientRegisters | timetable/service_layer/handlers.py:58-68 | succeeds exactly for a free account name, appends the client, and `get_user` then returns it |
| Handlers.CreateServiceRegisters | timetable/service_layer/handlers.py:71-88 | succeeds exactly for a free account name, appends the service with an empty calendar, and a search for its tags finds it |
| Handlers.CreateAppointment | timetable/service_layer/handlers.py:31-41 | result and committed store are those of the specification; one commit exactly on success |
| Handlers.CalendarFetched | timetable/service_layer/handlers.py:24 | after `calendars.get`, the tracked calendar holds the committed state of that owner |
| Handlers.ScheduleAppointment | timetable/service_layer/handlers.py:36-41 | the body of the `with` block meets the same specification |
| Handlers.AddAppointment | timetable/service_layer/handlers.py:37-40 | `create_appointment` on the tracked calendar, then a commit exactly on success |
| Handlers.AcceptAppointment | timetable/service_layer/handlers.py:20-28 | result and committed store are those of the specification; one commit exactly on success |
| Handlers.ConfirmAppointment | timetable/service_layer/handlers.py:24-28 | the body of the `with` block meets the same specification |
| Handlers.AcceptIn | timetable/service_layer/handlers.py:25-28 | `get_appointment` then `accept_appointment` on the tracked calendar, then a commit exactly on success |
| Handlers.CreateClient | timetable/service_layer/handlers.py:58-68 | result and committed store are those of the specification; one commit exactly on success |
| Handlers.RegisterClient | timetable/service_layer/handlers.py:60-68 | the body of the `with` block meets the same specification |
| Handlers.FindUser | timetable/service_layer/handlers.py:61 | `users.get` within the session sees the committed accounts |
| Handlers.AddClient | timetable/service_layer/handlers.py:63-66 | the client is added and committed once |
| Handlers.CreateService | timetable/service_layer/handlers.py:71-88 | result and committed store are those of the specification; two commits exactly on success |
| Handlers.RegisterService | timetable/service_layer/handlers.py:76-88 | the body of the `with` block meets the same specification |
| Handlers.AddService | timetable/service_layer/handlers.py:79-86 | the service is added and committed, then its empty calendar is added and committed |
| Handlers.AddCalendar | timetable/service_layer/handlers.py:83-85 | a new empty calendar for the owner is upserted and committed |
| Views.Mask | timetable/service_layer/views.py:53-57 | `_mask` keeps exactly `since` and `until`, unchanged |
| Views.MaskService | timetable/service_layer/views.py:46-50 | `_mask_service` keeps exactly `account_name` and `tags`, unchanged |
| Views.OwnerListing | timetable/service_layer/views.py:12 | the owner sees every appointment's dictionary, in order |
| Views.OwnerListingAppend | timetable/service_layer/views.py:12 | a new last appointment adds its dictionary at the end of the owner's listing |
| Views.PublicListing | timetable/service_layer/views.py:14-16 | anybody else sees only interval dictionaries |
| Views.Interval | timetable/service_layer/views.py:15 | an appointment's masked dictionary |
| Views.Intervals | timetable/service_layer/views.py:14-16 | the `_mask`ed interval of each appointment, in list order |
| Views.PublicListingIsAcceptedIntervals | timetable/service_layer/views.py:14-16 | another user's listing equals the intervals of the accepted appointments, in order: pending appointments and every other field are hidden |
| Views.AcceptedOnlySelects | timetable/service_layer/views.py:15 | the accepted appointments are selected in list order |
| Views.Listing | timetable/service_layer/views.py:11-16 | the owner gets every appointment's full dictionary, position by position; anybody else gets exactly the intervals of the accepted appointments, in order |
| Views.WithTagThenAll | timetable/service_layer/views.py:31-32 | narrowing by one tag and then by the rest is one pass with all of them |
| Views.WithNoTags | timetable/service_layer/views.py:31-32 | no tags keep everything |
| Views.FilterByTagsIsWithAllTags | timetable/service_layer/views.py:31-32 | the `for t in tags` loop equals the single pass with all tags |
| Views.WithAllTagsSelects | timetable/service_layer/views.py:31-32 | the pass keeps exactly the users with all tags, in order |
| Views.SearchSelects | timetable/service_layer/views.py:26-34 | the search finds exactly the services that carry every tag, in stored order; no tags find all services |
| Views.FoundAreServices | timetable/service_layer/views.py:30-32 | the search only finds services |
| Views.MaskedServices | timetable/service_layer/views.py:33 | each found service's masked dictionary, in order |
| Views.CalendarOf | timetable/service_layer/views.py:10 | `calendars.get` on the store: DoesNotExistsError exactly for an unknown owner |
| Views.ListAppointmentsView | timetable/service_layer/views.py:6-17 | fails exactly for an unknown owner; otherwise the owner's or the public listing |
| Views.GetUserView | timetable/service_layer/views.py:20-23 | fails exactly for an unknown account; otherwise that account's dictionary |
| Views.SearchServicesView | timetable/service_layer/views.py:26-34 | one masked dictionary per found service |
| Views.GetAppointmentView | timetable/service_layer/views.py:37-43 | the error of the calendar or appointment lookup, or the appointment's dictionary |
| Views.ListAppointments | timetable/service_layer/views.py:6-17 | answers `ListAppointmentsView` on the committed store and never commits |
| Handlers.ListAppointmentsQuery | timetable/service_layer/handlers.py:44-55 | answers `ListAppointmentsView` for the query's users and never commits |
| Views.GetUser | timetable/service_layer/views.py:20-23 | answers `GetUserView` and never commits |
| Handlers.GetUserQuery | timetable/service_layer/handlers.py:91-94 | answers `GetUserView` for the query's account and never commits |
| Views.SearchServices | timetable/service_layer/views.py:26-34 | answers `SearchServicesView` through the tracking `list_services` and never commits |
| Handlers.SearchServicesQuery | timetable/service_layer/handlers.py:97-105 | answers `SearchServicesView` for the query's tags and never commits |
| Views.GetAppointment | timetable/service_layer/views.py:37-43 | answers `GetAppointmentView` and never commits |
| Handlers.GetAppointmentQuery | timetable/service_layer/handlers.py:108-114 | answers `GetAppointmentView` for the query's account and id and never commits |
| MessageBus.CommandRegistryKeys | timetable/service_layer/message_bus.py:36-41 | exactly the four command classes have a handler; the base `Command` has none |
| MessageBus.AsMessages | timetable/service_layer/message_bus.py:64 | the collected events queued as messages, in order |
| MessageBus.AnyReturnsWitness | timetable/service_layer/message_bus.py:59-64 | some handler returned exactly when one of them returns |
| MessageBus.AnyReturnsSnoc | timetable/service_layer/message_bus.py:57-64 | one handler more returns exactly when an earlier one did or the new one does |
| MessageBus.Step | timetable/service_layer/message_bus.py:46-52 | one message: a non-message raises, an event without registry entry raises KeyError, a command does what its handler's specification says |
| MessageBus.ProcessFront | timetable/service_layer/message_bus.py:44-46 | the queue is served from the front |
| MessageBus.ProcessSnoc | timetable/service_layer/message_bus.py:45-46 | handling one more message continues from the store the earlier ones left |
| MessageBus.ProcessStops | timetable/service_layer/message_bus.py:45-52 | once a message raises, the messages behind it change nothing |
| MessageBus.UnregisteredEventRaises | timetable/service_layer/message_bus.py:33-35 | with the bus's empty event registry, any queued event raises KeyError |
| MessageBus.HandleEvent | timetable/service_layer/message_bus.py:54-64 | KeyError exactly for an unregistered type; the pending events are queued once some handler returns; raising handlers are swallowed |
| MessageBus.RunEventHandler | timetable/service_layer/message_bus.py:59-64 | a raising handler leaves the queue alone; a returning one queues the pending events |
| MessageBus.HandleCommand | timetable/service_layer/message_bus.py:66-77 | KeyError for the base class; otherwise the committed store follows the handler's specification, its exception is re-raised, and nothing stays pending |
| MessageBus.CollectAfterCommand | timetable/service_layer/message_bus.py:77 | after a handler, nothing is pending, so the queue stays as it was |
| MessageBus.RunCommandHandler | timetable/service_layer/message_bus.py:70-72 | the registered handler runs and meets its specification |
| MessageBus.Dispatch | timetable/service_layer/message_bus.py:46-52 | one turn meets `Step`; the queue grows only by the collected pending events |
| MessageBus.DispatchEvent | timetable/service_layer/message_bus.py:47-48 | an event taken from the queue is one `Step`: the store stays, the queue grows only by the pending events |
| MessageBus.Turn | timetable/service_layer/message_bus.py:45-52 | one turn of the loop keeps the queue invariant and brings the loop closer to its end |
| MessageBus.Handle | timetable/service_layer/message_bus.py:43-52 | the committed store is that of processing the handled messages in order; on success every queued message was handled; on failure the next one raised that error |
| Accepting.FindColliding | timetable/domain/accept.py:10-15 | exactly the accepted appointments of `others` that collide with `app` |
| Accepting.FindCollidingInOrder | timetable/domain/accept.py:10-15 | the colliders come in list order |
| Accepting.FindCollidingAppend | timetable/domain/accept.py:10-15 | scanning two lists in a row yields the colliders of the first, then of the second |
| Accepting.NoBlockerNoneFound | timetable/domain/accept.py:13-15 | with no accepted collider, nothing is yielded |
| Accepting.Join | timetable/domain/accept.py:33 | `", ".join`: empty for no parts; otherwise it starts with the first part and ends with the last |
| Accepting.Shows | timetable/domain/accept.py:33 | the `str` of each appointment, in order |
| Accepting.JoinEmpty | timetable/domain/accept.py:34 | joining non-empty strings gives the empty string exactly for no strings |
| Accepting.BuildExcMsg | timetable/domain/accept.py:29-36 | the message starts with "`app` collides with `app1`" |
| Accepting.BuildExcMsgListsRest | timetable/domain/accept.py:29-36 | the message goes on with ", " and the joined rest exactly when there is a rest |
| Accepting.Accept | timetable/domain/accept.py:18-26 | success exactly when no accepted appointment collides, and then `app` is accepted; otherwise NotAvailableError naming the first collider and the rest |
| Accepting.FirstColliderFirst | timetable/domain/accept.py:19-21 | the first collider named is the first blocking appointment of `others` |
| Accepting.PendingNeverBlocks | timetable/domain/accept.py:14 | unaccepted appointments change neither the colliders nor the outcome |
| Accepting.DomainAcceptAgain | timetable/domain/appointment.py:27 | with the calendar appointment's `collide`, an accepted appointment does not block itself |
| LegacyAppointments.New | timetable/timetable/domain/appointment.py:6-20 | ValueError exactly when `until <= since`; otherwise the fields as given |
| LegacyAppointments.Appointment.Collide | timetable/timetable/domain/appointment.py:22-27 | for well-formed appointments, half-open interval overlap |
| LegacyAppointments.Appointment.ToDict | timetable/timetable/domain/appointment.py:32-38 | exactly `id`, `since`, `until`, `accepted` |
| LegacyAppointments.Appointment.Repr | timetable/timetable/domain/appointment.py:29-30 | `__repr__` is never empty: it reads `Appointment(`, then the printed start, and ends with `)`; so the collision message always names both appointments |
| LegacyAppointments.FromDict | timetable/timetable/domain/appointment.py:32-38 | a dictionary that reads back gives an appointment with that dictionary |
| LegacyAppointments.ToDictRoundTrip | timetable/timetable/domain/appointment.py:32-38 | `to_dict` loses nothing |
| LegacyAppointments.CollideReflexive | timetable/timetable/domain/appointment.py:22-27 | without an identity check, a well-formed appointment collides with itself |
| LegacyAppointments.CollideSymmetric | timetable/timetable/domain/appointment.py:22-27 | symmetric for well-formed appointments |
| LegacyAppointments.EarlierDoesNotCollide | timetable/timetable/domain/appointment.py:24-26 | adjacent or separated intervals do not collide |
| LegacyAppointments.CollideIgnoresPayload | timetable/timetable/domain/appointment.py:22-27 | `id` and `accepted` play no part |
| LegacyServices.FindById | timetable/adapters/repository.py:15-19 | the first row with that primary key, or none exactly when no row has it |
| LegacyServices.SqlUnitOfWork.constructor | timetable/timetable/service_layer/unit_of_work.py:5-6 | a unit of work over the stored rows |
| LegacyServices.SqlUnitOfWork.Enter | timetable/timetable/service_layer/unit_of_work.py:8-11 | a new session sees the committed rows |
| LegacyServices.SqlUnitOfWork.Rollback | timetable/timetable/service_layer/unit_of_work.py:13-17 | the session forgets what was not committed |
| LegacyServices.SqlUnitOfWork.Commit | timetable/timetable/service_layer/unit_of_work.py:19-20 | what the session holds becomes what the database holds |
| LegacyServices.SqlUnitOfWork.Get | timetable/adapters/repository.py:15-19 | found exactly when some row has the id; otherwise DoesNotExistsError |
| LegacyServices.SqlUnitOfWork.List | timetable/adapters/repository.py:21-22 | every row the session sees, in order |
| LegacyServices.SqlUnitOfWork.Add | timetable/adapters/repository.py:24-25 | the session holds one more row |
| LegacyServices.SqlUnitOfWork.Put | timetable/service_layer/services.py:17 | setting a field of a row the session handed out changes that row in the session |
| LegacyServices.AcceptAppointment | timetable/service_layer/services.py:13-19 | result and committed rows follow `AcceptAppointmentSpec`; one commit exactly on success; the session ends rolled back |
| LegacyServices.AcceptRow | timetable/service_layer/services.py:16-19 | `accept` against every row, write-back and commit, or no commit on NotAvailableError |
| LegacyServices.AskMessageAsWritten | timetable/service_layer/services.py:34 | the message as written starts with the head naming the first collider |
| LegacyServices.AskMessage | timetable/service_layer/services.py:34 | the intended message starts with the head naming the first collider |
| LegacyServices.AskAppointment | timetable/service_layer/services.py:22-35 | result and committed rows follow `AskAppointmentSpec`, the behaviour as written, message included; an invalid interval changes nothing; one commit exactly on success |
| LegacyServices.AcceptUnknownId | timetable/service_layer/services.py:15 | an unknown id raises DoesNotExistsError before anything is accepted |
| LegacyServices.AcceptAppointmentOutcome | timetable/service_layer/services.py:13-19 | succeeds exactly when no accepted row collides; the returned row is accepted and stored in place; failures are NotAvailableError |
| LegacyServices.AcceptAlreadyAcceptedFails | timetable/service_layer/services.py:16-17 | the row itself is among the others and `collide` has no identity check, so accepting an accepted row always fails |
| LegacyServices.AskInvalidInterval | timetable/service_layer/services.py:23 | an empty or reversed interval raises ValueError |
| LegacyServices.AskAppointmentOutcome | timetable/service_layer/services.py:22-35 | succeeds exactly when no accepted row collides, appending the new pending row; otherwise NotAvailableError whose message names the first collider and then every stored row, in stored order |
| LegacyServices.AskIntendedOutcome | timetable/domain/accept.py:19-26 | the corrected behaviour agrees with `ask_appointment` on success, the committed rows and the error kind; its message names the first collider and then exactly the remaining ones |
| LegacyServices.AskKeepsStoredRows | timetable/service_layer/services.py:30-31 | what is committed is the stored rows plus one pending row |
| LegacyServices.AskMessageRepeatsCollider | timetable/service_layer/services.py:34 | with a single accepted collider, the message as written names it twice, unlike the intended one |
| PrototypeAppointments.New | timetable/model/appointment.py:5-12 | ValueError exactly when `until <= since`; otherwise the fields as given |
| PrototypeAppointments.Appointment.Collide | timetable/model/appointment.py:14-19 | for well-formed appointments, half-open interval overlap |
| PrototypeAppointments.Appointment.Repr | timetable/model/appointment.py:21-22 | `__repr__` is never empty: it reads `Appointment(`, then the printed start, and ends with `)`; so the collision message always names both appointments |
| PrototypeAppointments.CollideReflexive | timetable/model/appointment.py:14-19 | a well-formed appointment collides with itself |
| PrototypeAppointments.CollideSymmetric | timetable/model/appointment.py:14-19 | symmetric for well-formed appointments |
| PrototypeAppointments.EarlierDoesNotCollide | timetable/model/appointment.py:15-19 | adjacent or separated intervals do not collide |
| PrototypeAppointments.CollideIgnoresAccepted | timetable/model/appointment.py:14-19 | `accepted` plays no part |
| PrototypeAccept.FirstBlocker | timetable/model/accept.py:11-13 | the first accepted collider, if any |
| PrototypeAccept.Accept | timetable/model/accept.py:10-14 | the loop raises at the first accepted collider, otherwise sets `accepted` |
| PrototypeAccept.AcceptOutcome | timetable/model/accept.py:10-14 | succeeds exactly when no accepted appointment collides, and only the flag changes; failures are NotAvailableError |
| PrototypeAccept.PendingNeverBlocks | timetable/model/accept.py:12 | unaccepted appointments never change the outcome |
| PrototypeAccept.EmptyAccepts | timetable/model/accept.py:10-14 | with nothing to compare against, acceptance succeeds |

## Left out

- Appointments, users and calendars carry times as integers. Date parsing and formatting are not modelled, and the text of a time is a `showTime` parameter.
- Exception messages: only `accept.py` and the calendar's own messages are modelled; the datetime text inside them is abstract.
- `timetable/domain/event.py` is not part of this model. An event is reduced to the name of its class.
- Calendars get an `events` list, which `collect_new_events` reads and the calendar code never fills.
- The SQL session, SQLAlchemy mapping and queries are left out. The session is a committed store plus working objects. The in-memory repositories of `tests/fakes.py` define lookup and upsert.
- `TrackingRepository` itself is not shown in the source. `seen` is a duplicate-free list that `get`, `add` and `list_services` extend.
- The SQL unit of work opens its session in the constructor as well as in `__enter__`, so that a unit of work is always usable.
- Event handlers are functions of the event alone: the bus defines none, so what a handler could do to the unit of work is not modelled.
- Logging in the message bus is left out.
- Handler results are not accumulated by the bus, and the model does not accumulate them either.
- Accepting.Accept and the accept routines return the accepted appointment as a new value instead of setting `accepted` on a shared object. Aliasing between the caller's object and the list is not captured; `others` is unchanged because values cannot be changed.
- LegacyServices: ids that the database assigns on commit are not modelled. A new row keeps `id = None`.
- The handlers' `_mask` and `_mask_service` (timetable/service_layer/handlers.py:117-128) are the same code as those of the views, and are modelled once.
- The local fakes of `tests/unit/test_services.py`, the HTTP entry points, authentication, bootstrap and configuration are left out.
- Calendars.Calendar.AcceptAppointment: the identity comparison `a2 == a` is record equality, so a field-equal appointment from another calendar counts as owned.

## Findings

| source | as written | input that shows it | evidently intended | confidence | as-written member | corrected member |
|---|---|---|---|---|---|---|
| timetable/service_layer/services.py:34 | `build_exc_msg(app, n, others)` receives `others`, the whole list of stored rows, so after the head it lists all of them: rows before and after the collider, rows that do not collide, and the first collider again | one stored accepted row that collides with the asked interval: the message reads "app collides with n, n" | the remaining colliders, as `accept` passes them (timetable/domain/accept.py:25) | high, not executed | LegacyServices.AskMessageRepeatsCollider | LegacyServices.AskIntendedOutcome |
