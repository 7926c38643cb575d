/** `accept.py`: accepting an appointment against a list of others. The module relies only
    on an appointment's `accepted` flag, its `collide` method and its `str`, so it is
    stated for any appointment class given by those operations; the application runs it
    on the appointments of the single-table service layer. */
module Accepting {

  import opened Wrappers
  import opened Errors
  import opened Sequences
  import Appointments

  /** What `accept.py` uses of an appointment class: reading `accepted`, `collide`, `str`,
      and setting `accepted = True`. */
  datatype Protocol<!A> = Protocol(
    accepted: A -> bool,
    collide: (A, A) -> bool,
    show: A -> string,
    markAccepted: A -> A)

  /** `other` stands in the way of accepting `app`: it is accepted and collides with it. */
  predicate Blocks<A>(p: Protocol<A>, app: A, other: A) {
    p.accepted(other) && p.collide(app, other)
  }

  /** `find_colliding`: the appointments of `others` that block `app`, in list order. */
  function FindColliding<A(==)>(p: Protocol<A>, app: A, others: seq<A>): (r: seq<A>)
    ensures |r| <= |others|
    ensures forall x :: x in r ==> x in others && Blocks(p, app, x)
    ensures forall x :: x in others && Blocks(p, app, x) ==> x in r
  {
    if others == [] then []
    else (if Blocks(p, app, others[0]) then [others[0]] else []) + FindColliding(p, app, others[1..])
  }

  /** `find_colliding` keeps the order of `others`: what it yields is a subsequence. */
  lemma {:induction false} FindCollidingInOrder<A>(p: Protocol<A>, app: A, others: seq<A>)
    ensures Subsequence(FindColliding(p, app, others), others)
  {
    if others != [] {
      var rest := FindColliding(p, app, others[1..]);
      FindCollidingInOrder(p, app, others[1..]);
      assert others == [others[0]] + others[1..];
      if Blocks(p, app, others[0]) {
        ConsSubsequence(rest, others[1..], others[0]);
      } else {
        assert FindColliding(p, app, others) == [] + rest == rest;
        SubsequencePrepend(rest, others[1..], others[0]);
      }
    }
  }

  /** Scanning two lists one after the other yields the colliders of the first, then those
      of the second. */
  lemma {:induction false} FindCollidingAppend<A>(p: Protocol<A>, app: A, xs: seq<A>, ys: seq<A>)
    ensures FindColliding(p, app, xs + ys) == FindColliding(p, app, xs) + FindColliding(p, app, ys)
  {
    if xs == [] {
      assert xs + ys == ys;
    } else {
      var zs := xs + ys;
      assert zs[0] == xs[0] && zs[1..] == xs[1..] + ys;
      FindCollidingAppend(p, app, xs[1..], ys);
      var head := if Blocks(p, app, xs[0]) then [xs[0]] else [];
      assert FindColliding(p, app, zs) == head + FindColliding(p, app, zs[1..]);
      assert FindColliding(p, app, xs) == head + FindColliding(p, app, xs[1..]);
    }
  }

  /** When no appointment of `xs` blocks, `find_colliding` finds nothing. */
  lemma {:induction false} NoBlockerNoneFound<A>(p: Protocol<A>, app: A, xs: seq<A>)
    requires forall x :: x in xs ==> !Blocks(p, app, x)
    ensures FindColliding(p, app, xs) == []
  {
    if xs != [] {
      assert xs[0] in xs;
      assert forall x :: x in xs[1..] ==> x in xs;
      NoBlockerNoneFound(p, app, xs[1..]);
    }
  }

  /** `", ".join(strs)`: nothing for no parts; otherwise it starts with the first part and
      ends with the last. */
  function Join(sep: string, strs: seq<string>): (r: string)
    ensures strs == [] ==> r == ""
    ensures strs != [] ==> |strs[0]| <= |r| && r[..|strs[0]|] == strs[0]
    ensures strs != [] ==> var last := strs[|strs| - 1];
              |last| <= |r| && r[|r| - |last|..] == last
  {
    if strs == [] then "" else if |strs| == 1 then strs[0]
    else
      var rest := Join(sep, strs[1..]);
      assert strs[1..][|strs[1..]| - 1] == strs[|strs| - 1];
      strs[0] + sep + rest
  }

  /** The `str` of each appointment, in order. */
  function Shows<A>(p: Protocol<A>, xs: seq<A>): (r: seq<string>)
    ensures |r| == |xs| && forall i :: 0 <= i < |xs| ==> r[i] == p.show(xs[i])
  {
    if xs == [] then [] else [p.show(xs[0])] + Shows(p, xs[1..])
  }

  /** Joining non-empty strings gives a non-empty string exactly when there is one. */
  lemma {:induction false} JoinEmpty(sep: string, strs: seq<string>)
    requires forall s :: s in strs ==> s != ""
    ensures Join(sep, strs) == "" <==> strs == []
  {
    if |strs| > 1 {
      assert strs[0] in strs;
    } else if |strs| == 1 {
      assert strs[0] in strs;
    }
  }

  /** The head of the message: "`app` collides with `app1`". */
  function Collision<A>(p: Protocol<A>, app: A, app1: A): string {
    p.show(app) + " collides with " + p.show(app1)
  }

  /** `build_exc_msg`: the head, then ", " and the comma-joined `str` of the rest when that
      text is not empty. */
  function BuildExcMsg<A>(p: Protocol<A>, app: A, app1: A, rest: seq<A>): (r: string)
    ensures var head := Collision(p, app, app1);
            |head| <= |r| && r[..|head|] == head
  {
    var msg := Collision(p, app, app1);
    var joined := Join(", ", Shows(p, rest));
    if joined != "" then msg + ", " + joined else msg
  }

  /** When every appointment prints as something (as `__repr__` guarantees), the message
      goes on after the head exactly when there are further colliders, and then lists them
      all in order. */
  lemma BuildExcMsgListsRest<A>(p: Protocol<A>, app: A, app1: A, rest: seq<A>)
    requires forall x :: x in rest ==> p.show(x) != ""
    ensures BuildExcMsg(p, app, app1, rest) ==
              Collision(p, app, app1) + (if rest == [] then "" else ", " + Join(", ", Shows(p, rest)))
  {
    forall s | s in Shows(p, rest)
      ensures s != ""
    {
      var i :| 0 <= i < |rest| && Shows(p, rest)[i] == s;
      assert rest[i] in rest;
    }
    JoinEmpty(", ", Shows(p, rest));
  }

  /** `accept`: with no blocking appointment the appointment is marked accepted; otherwise
      NotAvailableError names the first blocker and then the remaining ones. */
  function Accept<A(==)>(p: Protocol<A>, app: A, others: seq<A>): (r: Result<A, Error>)
    ensures r.Success? <==> forall x :: x in others ==> !Blocks(p, app, x)
    ensures r.Success? ==> r.value == p.markAccepted(app)
    ensures r.Failure? ==>
              var c := FindColliding(p, app, others);
              c != [] && r.error == NotAvailableError(BuildExcMsg(p, app, c[0], c[1..]))
  {
    var colliding := FindColliding(p, app, others);
    if colliding == [] then Success(p.markAccepted(app))
    else
      assert colliding[0] in colliding;
      Failure(NotAvailableError(BuildExcMsg(p, app, colliding[0], colliding[1..])))
  }

  /** The first appointment the error names is the first blocker in `others`. */
  lemma {:induction false} FirstColliderFirst<A>(p: Protocol<A>, app: A, others: seq<A>)
    requires FindColliding(p, app, others) != []
    ensures exists i :: 0 <= i < |others| && others[i] == FindColliding(p, app, others)[0]
                        && Blocks(p, app, others[i]) && forall j :: 0 <= j < i ==> !Blocks(p, app, others[j])
  {
    if Blocks(p, app, others[0]) {
    } else {
      FirstColliderFirst(p, app, others[1..]);
      var i :| 0 <= i < |others[1..]| && others[1..][i] == FindColliding(p, app, others[1..])[0]
               && Blocks(p, app, others[1..][i]) && forall j :: 0 <= j < i ==> !Blocks(p, app, others[1..][j]);
      assert others[i + 1] == others[1..][i];
      forall j | 0 <= j < i + 1
        ensures !Blocks(p, app, others[j])
      {
        if j > 0 {
          assert others[j] == others[1..][j - 1];
        }
      }
    }
  }

  /** Appointments that are not accepted never block: adding them to `others` changes
      neither the colliders nor the outcome. */
  lemma {:induction false} PendingNeverBlocks<A>(p: Protocol<A>, app: A, others: seq<A>, pending: seq<A>)
    requires forall x :: x in pending ==> !p.accepted(x)
    ensures FindColliding(p, app, pending + others) == FindColliding(p, app, others)
    ensures Accept(p, app, pending + others) == Accept(p, app, others)
  {
    FindCollidingAppend(p, app, pending, others);
    NoBlockerNoneFound(p, app, pending);
  }

  /** The protocol of the calendar's appointment class, whose `collide` excludes the
      appointment itself. */
  function DomainProtocol(showTime: int -> string): Protocol<Appointments.Appointment> {
    Protocol(
      (a: Appointments.Appointment) => a.accepted,
      (a: Appointments.Appointment, b: Appointments.Appointment) => a.Collide(b),
      (a: Appointments.Appointment) => a.Repr(showTime),
      (a: Appointments.Appointment) => a.(accepted := true))
  }

  /** With the calendar's appointment class an appointment never blocks itself, so an
      accepted appointment can be accepted again among others that do not collide. */
  lemma DomainAcceptAgain(a: Appointments.Appointment, others: seq<Appointments.Appointment>, showTime: int -> string)
    requires forall x :: x in others && x != a ==> !(x.accepted && a.Collide(x))
    ensures Accept(DomainProtocol(showTime), a, others) == Success(a.(accepted := true))
  {
    forall x | x in others
      ensures !Blocks(DomainProtocol(showTime), a, x)
    {
      Appointments.CollideIrreflexive(a);
    }
  }
}
