/** The message bus: a FIFO queue seeded with one message; each message is dispatched to
    the handlers registered for its type, and the events the unit of work collects after a
    handler returns are queued at the back. */
module MessageBus {

  import opened Wrappers
  import opened Errors
  import opened Events
  import opened Commands
  import opened Dicts
  import opened UnitsOfWork
  import Handlers

  /** `Message = Union[Command, Event]`; `Other` is any other value handed to `handle`. */
  datatype Message = Cmd(command: Command) | Evt(event: Event) | Other(name: string)

  /** An event handler, by what a call does: return (`Success`) or raise (`Failure`). */
  type EventHandler = Event -> Result<(), Error>

  /** An event registry: the handlers of each event type, in calling order. */
  type EventRegistry = map<string, seq<EventHandler>>

  /** `EVENT_HANDLERS` as the bus defines it: no event type has handlers. */
  const EVENT_HANDLERS: EventRegistry := map[]

  /** The command handlers the bus can be given. */
  datatype CommandHandler =
    | CreateAppointmentHandler
    | AcceptAppointmentHandler
    | CreateClientHandler
    | CreateServiceHandler

  /** `COMMAND_HANDLERS`: one handler per command class, looked up by the class name. */
  const COMMAND_HANDLERS: map<string, CommandHandler> := map[
    "CreateAppointment" := CreateAppointmentHandler,
    "AcceptAppointment" := AcceptAppointmentHandler,
    "CreateClient" := CreateClientHandler,
    "CreateService" := CreateServiceHandler]

  /** Exactly the four command classes have a handler; the base `Command` has none. */
  lemma CommandRegistryKeys(c: Command)
    ensures COMMAND_HANDLERS.Keys == {"CreateAppointment", "AcceptAppointment", "CreateClient", "CreateService"}
    ensures c.TypeName() in COMMAND_HANDLERS <==> !c.BaseCommand?
  {
  }

  /** Collected events as messages, in the order they were collected. */
  function AsMessages(evs: seq<Event>): (ms: seq<Message>)
    ensures |ms| == |evs| && forall i :: 0 <= i < |evs| ==> ms[i] == Evt(evs[i])
  {
    if evs == [] then [] else AsMessages(evs[..|evs| - 1]) + [Evt(evs[|evs| - 1])]
  }

  /** Some handler of the list returns for `e` (rather than raising). */
  predicate AnyReturns(hs: seq<EventHandler>, e: Event) {
    hs != [] && (AnyReturns(hs[..|hs| - 1], e) || hs[|hs| - 1](e).Success?)
  }

  /** `AnyReturns` holds exactly when one of the handlers returns. */
  lemma {:induction false} AnyReturnsWitness(hs: seq<EventHandler>, e: Event)
    ensures AnyReturns(hs, e) <==> exists j :: 0 <= j < |hs| && hs[j](e).Success?
  {
    if hs != [] {
      var init := hs[..|hs| - 1];
      AnyReturnsWitness(init, e);
      if exists j :: 0 <= j < |hs| && hs[j](e).Success? {
        var j :| 0 <= j < |hs| && hs[j](e).Success?;
        if j < |hs| - 1 {
          assert init[j] == hs[j];
        }
      }
      if AnyReturns(init, e) {
        var j :| 0 <= j < |init| && init[j](e).Success?;
        assert hs[j] == init[j];
      }
    }
  }

  /** One handler more returns for `e` exactly when an earlier one did or the new one does. */
  lemma AnyReturnsSnoc(hs: seq<EventHandler>, i: nat, e: Event)
    requires i < |hs|
    ensures AnyReturns(hs[..i + 1], e) <==> AnyReturns(hs[..i], e) || hs[i](e).Success?
  {
    assert hs[..i + 1][..i] == hs[..i];
  }

  /** The committed store a command leaves, by the specification of its handler. */
  function CommandSpec(st: Store, c: Command): (r: Result<Store, Error>)
    requires !c.BaseCommand?
  {
    var res :- match c
      case CreateAppointment(_, _, _, _, _) => Handlers.CreateAppointmentSpec(st, c)
      case AcceptAppointment(_, _) => Handlers.AcceptAppointmentSpec(st, c)
      case CreateClient(_, _, _) => Handlers.CreateClientSpec(st, c)
      case CreateService(_, _, _, _) => Handlers.CreateServiceSpec(st, c);
    Success(res.0)
  }

  /** What handling one message does to the committed store, or the exception it raises. */
  function Step(st: Store, m: Message, events: EventRegistry): (r: Result<Store, Error>)
    ensures m.Other? ==> r == Failure(NotAMessage)
    ensures m.Evt? ==> r == if m.event.kind in events then Success(st) else Failure(KeyError(m.event.kind))
    ensures m.Cmd? && m.command.BaseCommand? ==> r == Failure(KeyError("Command"))
    ensures m.Cmd? && !m.command.BaseCommand? ==> r == CommandSpec(st, m.command)
  {
    match m
    case Other(_) => Failure(NotAMessage)
    case Evt(e) => if e.kind in events then Success(st) else Failure(KeyError(e.kind))
    case Cmd(c) =>
      if c.TypeName() !in COMMAND_HANDLERS then Failure(KeyError(c.TypeName()))
      else CommandSpec(st, c)
  }

  /** Handling the messages one after the other from `st`: the first exception ends it. */
  function Process(st: Store, ms: seq<Message>, events: EventRegistry): Result<Store, Error>
  {
    if ms == [] then Success(st)
    else
      var st' :- Process(st, ms[..|ms| - 1], events);
      Step(st', ms[|ms| - 1], events)
  }

  /** The queue read from the front: the first message is handled first, and the rest
      starts from the store it leaves. */
  lemma {:induction false} ProcessFront(st: Store, m: Message, ms: seq<Message>, events: EventRegistry)
    ensures Process(st, [m] + ms, events) ==
            match Step(st, m, events)
            case Failure(e) => Failure(e)
            case Success(st') => Process(st', ms, events)
  {
    if ms == [] {
      assert ([m] + ms)[..0] == [];
    } else {
      var init := ms[..|ms| - 1];
      ProcessFront(st, m, init, events);
      assert ([m] + ms)[..|[m] + ms| - 1] == [m] + init;
      match Step(st, m, events)
      case Failure(e) =>
      case Success(st') =>
        assert ms[..|ms| - 1] == init;
    }
  }

  /** Once a message raises, the messages still queued behind it change nothing. */
  lemma {:induction false} ProcessStops(st: Store, ms: seq<Message>, rest: seq<Message>, events: EventRegistry)
    requires Process(st, ms, events).Failure?
    ensures Process(st, ms + rest, events) == Process(st, ms, events)
  {
    if rest != [] {
      var init := rest[..|rest| - 1];
      ProcessStops(st, ms, init, events);
      assert (ms + rest)[..|ms + rest| - 1] == ms + init;
    } else {
      assert ms + rest == ms;
    }
  }

  /** Handling one more message continues from the store the earlier ones left. */
  lemma ProcessSnoc(st: Store, ms: seq<Message>, m: Message, events: EventRegistry, mid: Store)
    requires Process(st, ms, events) == Success(mid)
    ensures Process(st, ms + [m], events) == Step(mid, m, events)
  {
    assert (ms + [m])[..|ms + [m]| - 1] == ms;
  }

  /** With the bus's own empty event registry, an event in the queue raises `KeyError`. */
  lemma {:induction false} UnregisteredEventRaises(st: Store, ms: seq<Message>, e: Event)
    requires Process(st, ms, EVENT_HANDLERS).Success?
    ensures Process(st, ms + [Evt(e)], EVENT_HANDLERS) == Failure(KeyError(e.kind))
  {
    assert (ms + [Evt(e)])[..|ms + [Evt(e)]| - 1] == ms;
  }

  /** `handle_event`: the handlers registered for the event's type run in order; one that
      raises is skipped, and after one that returns the new events are queued. The lookup
      itself raises `KeyError` for an unregistered type. */
  method HandleEvent(e: Event, queue: seq<Message>, events: EventRegistry, uow: SqlUnitOfWork)
      returns (r: Result<seq<Message>, Error>)
    requires uow.Valid() && uow.Tracked()
    modifies set c | c in uow.calendars.seen
    ensures r.Failure? <==> e.kind !in events
    ensures r.Failure? ==> r.error == KeyError(e.kind)
    ensures r.Success? ==>
              r.value == queue + AsMessages(if AnyReturns(events[e.kind], e) then old(uow.PendingEvents()) else [])
    ensures r.Success? && AnyReturns(events[e.kind], e) ==> uow.Quiet()
    ensures !(r.Success? && AnyReturns(events[e.kind], e)) ==> uow.PendingEvents() == old(uow.PendingEvents())
    ensures uow.Valid() && uow.Tracked() && uow.committed == old(uow.committed)
    ensures old(uow.Quiet()) ==> uow.Quiet()
  {
    if e.kind !in events {
      return Failure(KeyError(e.kind));
    }
    var handlers := events[e.kind];
    ghost var pending := uow.PendingEvents();
    var q := queue;
    for i := 0 to |handlers|
      invariant uow.Valid() && uow.Tracked()
      invariant q == queue + AsMessages(if AnyReturns(handlers[..i], e) then pending else [])
      invariant AnyReturns(handlers[..i], e) ==> uow.Quiet()
      invariant !AnyReturns(handlers[..i], e) ==> uow.PendingEvents() == pending
      invariant old(uow.Quiet()) ==> uow.Quiet()
    {
      AnyReturnsSnoc(handlers, i, e);
      if !AnyReturns(handlers[..i], e) {
        assert q == queue;
      }
      q := RunEventHandler(handlers[i], e, q, uow);
    }
    assert handlers[..|handlers|] == handlers;
    r := Success(q);
  }

  /** One turn of the loop of `handle_event`: the handler is called; if it raises, the
      exception is logged and swallowed, otherwise the new events are queued. */
  method RunEventHandler(h: EventHandler, e: Event, queue: seq<Message>, uow: SqlUnitOfWork)
      returns (q: seq<Message>)
    requires uow.Valid() && uow.Tracked()
    modifies set c | c in uow.calendars.seen
    ensures h(e).Failure? ==> q == queue && uow.PendingEvents() == old(uow.PendingEvents())
    ensures h(e).Success? ==> q == queue + AsMessages(old(uow.PendingEvents())) && uow.Quiet()
    ensures old(uow.Quiet()) ==> q == queue && uow.Quiet()
    ensures uow.Valid() && uow.Tracked() && uow.committed == old(uow.committed)
  {
    if uow.Quiet() {
      uow.QuietHasNothingPending();
    }
    q := queue;
    var outcome := h(e);
    if outcome.Success? {
      var evs := uow.CollectNewEvents();
      q := q + AsMessages(evs);
    }
  }

  /** `handle_command`: the handler is looked up by the command's class (a `KeyError`
      escapes), run, and re-raised on failure; after it returns the new events are
      collected. */
  method HandleCommand(c: Command, queue: seq<Message>, uow: SqlUnitOfWork) returns (r: Result<seq<Message>, Error>)
    requires uow.Valid()
    modifies uow
    ensures c.BaseCommand? ==> r == Failure(KeyError("Command")) && uow.committed == old(uow.committed)
    ensures !c.BaseCommand? ==> CommandSpec(old(uow.committed), c) == if r.Success? then Success(uow.committed) else Failure(r.error)
    ensures r.Failure? ==> uow.committed == old(uow.committed)
    ensures r.Success? ==> r.value == queue
    ensures uow.Valid() && fresh(uow.Repr - old(uow.Repr))
    ensures !c.BaseCommand? ==> uow.Tracked() && uow.Quiet()
    ensures c.BaseCommand? ==> unchanged(uow)
    ensures (old(uow.Tracked()) ==> uow.Tracked()) && (old(uow.Quiet()) ==> uow.Quiet())
    ensures !uow.Quiet() ==> uow.PendingEvents() == old(uow.PendingEvents())
  {
    var name := c.TypeName();
    if name !in COMMAND_HANDLERS {
      return Failure(KeyError(name));
    }
    var res := RunCommandHandler(COMMAND_HANDLERS[name], c, uow);
    if res.Failure? {
      return Failure(res.error);
    }
    r := CollectAfterCommand(queue, uow);
  }

  /** `queue.extend(uow.collect_new_events())` after a command handler returned: the
      handler left no event waiting, so the queue stays as it was. */
  method CollectAfterCommand(queue: seq<Message>, uow: SqlUnitOfWork) returns (r: Result<seq<Message>, Error>)
    requires uow.Valid() && uow.Tracked() && uow.Quiet()
    modifies set c | c in uow.calendars.seen
    ensures r == Success(queue)
    ensures uow.Valid() && uow.Tracked() && uow.Quiet() && uow.committed == old(uow.committed)
  {
    uow.QuietHasNothingPending();
    var evs := uow.CollectNewEvents();
    assert AsMessages(evs) == [];
    r := Success(queue + AsMessages(evs));
    assert queue + [] == queue;
  }

  /** Calls the handler the registry gave for `c`. */
  method RunCommandHandler(h: CommandHandler, c: Command, uow: SqlUnitOfWork) returns (res: Result<Dict, Error>)
    requires c.TypeName() in COMMAND_HANDLERS && COMMAND_HANDLERS[c.TypeName()] == h
    requires uow.Valid()
    modifies uow
    ensures CommandSpec(old(uow.committed), c) == if res.Success? then Success(uow.committed) else Failure(res.error)
    ensures res.Failure? ==> uow.committed == old(uow.committed)
    ensures Handlers.Settled(uow)
  {
    match h {
      case CreateAppointmentHandler => res := Handlers.CreateAppointment(c, uow);
      case AcceptAppointmentHandler => res := Handlers.AcceptAppointment(c, uow);
      case CreateClientHandler => res := Handlers.CreateClient(c, uow);
      case CreateServiceHandler => res := Handlers.CreateService(c, uow);
    }
  }

  /** One turn of the loop of `handle`: the message is dispatched by its kind. The result is
      the queue with whatever was collected appended, or the exception that escapes. */
  method Dispatch(m: Message, queue: seq<Message>, events: EventRegistry, uow: SqlUnitOfWork)
      returns (r: Result<seq<Message>, Error>)
    requires uow.Valid() && uow.Tracked()
    modifies uow, set c | c in uow.calendars.seen
    ensures Step(old(uow.committed), m, events) == if r.Success? then Success(uow.committed) else Failure(r.error)
    ensures r.Failure? ==> uow.committed == old(uow.committed)
    ensures uow.Valid() && uow.Tracked() && fresh(uow.Repr - old(uow.Repr))
    ensures old(uow.Quiet()) ==> uow.Quiet()
    ensures !uow.Quiet() ==> uow.PendingEvents() == old(uow.PendingEvents())
    ensures r.Success? ==> r.value == queue || (!old(uow.Quiet()) && uow.Quiet()
                                               && r.value == queue + AsMessages(old(uow.PendingEvents())))
  {
    match m {
      case Evt(e) =>
        r := DispatchEvent(e, queue, events, uow);
      case Cmd(c) =>
        r := HandleCommand(c, queue, uow);
      case Other(_) =>
        r := Failure(NotAMessage);
    }
  }

  /** The event branch of a turn: `handle_event`, stated as a step of the queue. */
  method DispatchEvent(e: Event, queue: seq<Message>, events: EventRegistry, uow: SqlUnitOfWork)
      returns (r: Result<seq<Message>, Error>)
    requires uow.Valid() && uow.Tracked()
    modifies set c | c in uow.calendars.seen
    ensures Step(old(uow.committed), Evt(e), events) == if r.Success? then Success(uow.committed) else Failure(r.error)
    ensures uow.Valid() && uow.Tracked() && uow.committed == old(uow.committed)
    ensures old(uow.Quiet()) ==> uow.Quiet()
    ensures !uow.Quiet() ==> uow.PendingEvents() == old(uow.PendingEvents())
    ensures r.Success? ==> r.value == queue || (!old(uow.Quiet()) && uow.Quiet()
                                               && r.value == queue + AsMessages(old(uow.PendingEvents())))
  {
    if uow.Quiet() {
      uow.QuietHasNothingPending();
      assert queue + AsMessages([]) == queue;
    }
    r := HandleEvent(e, queue, events, uow);
  }

  /** The queue as `handle` keeps it: `enqueued` is everything queued so far, `processed`
      the part already taken from the front; the events collected from the seen calendars
      appear only once no event is left waiting; the store is the one the processed
      messages lead to. */
  ghost predicate Queued(message: Message, processed: seq<Message>, queue: seq<Message>, enqueued: seq<Message>,
                         pending: seq<Event>, quiet: bool)
  {
    enqueued == processed + queue
    && (enqueued == [message] || (quiet && enqueued == [message] + AsMessages(pending)))
  }

  /** One turn of the loop of `handle`: the front message is taken and dispatched. */
  method Turn(message: Message, queue: seq<Message>, events: EventRegistry, uow: SqlUnitOfWork,
              ghost st: Store, ghost pending: seq<Event>, ghost processed: seq<Message>)
      returns (r: Result<seq<Message>, Error>)
    requires queue != [] && uow.Valid() && uow.Tracked()
    requires Queued(message, processed, queue, processed + queue, pending, uow.Quiet())
    requires !uow.Quiet() ==> uow.PendingEvents() == pending
    requires Process(st, processed, events) == Success(uow.committed)
    modifies uow, set c | c in uow.calendars.seen
    ensures uow.Valid() && uow.Tracked() && fresh(uow.Repr - old(uow.Repr))
    ensures r.Failure? ==> Step(uow.committed, queue[0], events) == Failure(r.error)
    ensures r.Failure? ==> uow.committed == old(uow.committed)
    ensures r.Success? ==> Process(st, processed + [queue[0]], events) == Success(uow.committed)
    ensures r.Success? ==> Queued(message, processed + [queue[0]], r.value, processed + [queue[0]] + r.value, pending, uow.Quiet())
    ensures r.Success? ==> !uow.Quiet() ==> uow.PendingEvents() == pending
    ensures r.Success? ==> (!old(uow.Quiet()) && uow.Quiet()) || (old(uow.Quiet()) == uow.Quiet() && |r.value| < |queue|)
  {
    ProcessSnoc(st, processed, queue[0], events, uow.committed);
    ghost var processed' := processed + [queue[0]];
    r := Dispatch(queue[0], queue[1..], events, uow);
    if r.Success? {
      assert processed + queue == processed' + queue[1..];
    }
  }

  /** `MessageBus.handle`: the queue starts with `message`; messages are taken from the
      front until the queue is empty or an exception escapes. `enqueued` is every message
      ever queued and `handled` the messages handled without an exception, both in queue
      order: the handled ones are a prefix of the queued ones, and on an exception the
      next queued message is the one that raised it. */
  method Handle(message: Message, events: EventRegistry, uow: SqlUnitOfWork)
      returns (r: Result<(), Error>, ghost handled: seq<Message>, ghost enqueued: seq<Message>)
    requires uow.Valid() && uow.Tracked()
    modifies uow.Repr
    ensures enqueued == [message] || enqueued == [message] + AsMessages(old(uow.PendingEvents()))
    ensures |handled| <= |enqueued| && handled == enqueued[..|handled|]
    ensures Process(old(uow.committed), handled, events) == Success(uow.committed)
    ensures r.Success? ==> handled == enqueued
    ensures r.Failure? ==> |handled| < |enqueued| && Step(uow.committed, enqueued[|handled|], events) == Failure(r.error)
    ensures uow.Valid()
  {
    ghost var st := uow.committed;
    ghost var pending := uow.PendingEvents();
    var queue := [message];
    handled, enqueued := [], [message];
    while queue != []
      invariant uow.Valid() && uow.Tracked() && fresh(uow.Repr - old(uow.Repr))
      invariant Queued(message, handled, queue, enqueued, pending, uow.Quiet())
      invariant !uow.Quiet() ==> uow.PendingEvents() == pending
      invariant Process(st, handled, events) == Success(uow.committed)
      decreases if uow.Quiet() then 0 else 1, |queue|
    {
      var next := Turn(message, queue, events, uow, st, pending, handled);
      if next.Failure? {
        return Failure(next.error), handled, enqueued;
      }
      handled := handled + [queue[0]];
      queue := next.value;
      enqueued := handled + queue;
    }
    r := Success(());
  }
}
