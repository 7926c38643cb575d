/** The exceptions the scheduling core raises, as values. */
module Errors {

  datatype Error =
    /** `ValueError`: an appointment whose `until` is not after its `since`. */
    | ValueError
    /** `NotAvailableError`, with the message it was raised with ("" when raised bare). */
    | NotAvailableError(message: string)
    /** `DoesNotExistsError`, with the message it was raised with ("" when raised bare). */
    | DoesNotExistsError(message: string)
    /** `KeyError` from a registry lookup of a message type that has no entry. */
    | KeyError(key: string)
    /** The bare `Exception` the message bus raises for something neither event nor command. */
    | NotAMessage

  /** The message `Calendar.get_appointment` raises with for an unknown id. */
  const NoSuchAppointment: string := "such appointment does not exists"

  /** The message `Calendar.accept_appointment` raises with for a foreign appointment. */
  const NotInCalendar: string := "This element does not belong to this calendar"
}
