/** The messages the application accepts: commands that change state and the queries
    the read handlers answer. */
module Commands {

  /** The command payloads; `BaseCommand` is an instance of the `Command` base class itself. */
  datatype Command =
    | CreateAppointment(toUser: string, fromUser: string, since: int, until: int, description: string)
    | AcceptAppointment(accountName: string, id: int)
    | CreateClient(accountName: string, email: string, password: string)
    | CreateService(accountName: string, email: string, password: string, tags: seq<string>)
    | BaseCommand
  {
    /** The name of the Python class, by which the bus looks its handler up. */
    function TypeName(): (n: string)
      ensures BaseCommand? <==> n == "Command"
    {
      match this
      case CreateAppointment(_, _, _, _, _) => "CreateAppointment"
      case AcceptAppointment(_, _) => "AcceptAppointment"
      case CreateClient(_, _, _) => "CreateClient"
      case CreateService(_, _, _, _) => "CreateService"
      case BaseCommand => "Command"
    }
  }

  /** The payloads of the read handlers. */
  datatype Query =
    | GetUser(accountName: string)
    | GetAppointment(accountName: string, id: int)
    | ListAppointments(ofUser: string, forUser: string)
    | SearchServices(tags: seq<string>)

  /** Different command classes have different names. */
  lemma TypeNameInjective(c: Command, d: Command)
    requires c.TypeName() == d.TypeName()
    ensures c.CreateAppointment? == d.CreateAppointment? && c.AcceptAppointment? == d.AcceptAppointment?
    ensures c.CreateClient? == d.CreateClient? && c.CreateService? == d.CreateService?
    ensures c.BaseCommand? == d.BaseCommand?
  {
  }
}
