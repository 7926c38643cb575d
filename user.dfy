/** Accounts: plain clients and service providers with tags. */
module Users {

  import opened Wrappers
  import opened Dicts

  /** `Client` and `Service`; both carry the fields of the `User` base class. */
  datatype User =
    | Client(accountName: string, email: string, password: string)
    | Service(accountName: string, email: string, password: string, tags: seq<string>)
  {
    /** `to_dict`: the three `User` fields, and for a service also a copy of its tags. */
    function ToDict(): (d: Dict)
      ensures "account_name" in d && d["account_name"] == Str(accountName)
      ensures "email" in d && d["email"] == Str(email)
      ensures "password" in d && d["password"] == Str(password)
      ensures Client? ==> d.Keys == {"account_name", "email", "password"}
      ensures Service? ==> d.Keys == {"account_name", "email", "password", "tags"} && d["tags"] == Strs(tags)
    {
      var base := map["account_name" := Str(accountName), "email" := Str(email), "password" := Str(password)];
      if Service? then base["tags" := Strs(tags)] else base
    }
  }

  /** Reads a user back from its dictionary; the partner of `ToDict`. */
  function FromDict(d: Dict): (r: Option<User>)
    ensures r.Some? ==> r.value.ToDict() == d
  {
    if !("account_name" in d && "email" in d && "password" in d) then None
    else if !(d["account_name"].Str? && d["email"].Str? && d["password"].Str?) then None
    else if d.Keys == {"account_name", "email", "password"} then
      Some(Client(d["account_name"].s, d["email"].s, d["password"].s))
    else if d.Keys == {"account_name", "email", "password", "tags"} && d["tags"].Strs? then
      Some(Service(d["account_name"].s, d["email"].s, d["password"].s, d["tags"].ss))
    else None
  }

  /** `to_dict` loses nothing, not even whether the account is a service. */
  lemma ToDictRoundTrip(u: User)
    ensures FromDict(u.ToDict()) == Some(u)
  {
  }
}
