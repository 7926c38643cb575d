/** Domain events queued on calendars and dispatched by the message bus. */
module Events {

  /** An event, identified by the name of its Python class. */
  datatype Event = Event(kind: string)
}
