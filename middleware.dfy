/** The session gates of internal/middleware/auth.go. A gate either passes the request on
    to the wrapped handler with the user and the admin flag in its context, or answers it
    itself, possibly clearing the session cookie. */
module Middleware {
  import opened Wrappers
  import opened Models
  import opened Http

  /** What the session cookie holds once read: the user id (never empty) and the admin flag
      set at login. `None` stands for no session, an unreadable one or an empty user id. */
  datatype Session = Session(userId: string, isAdmin: bool)

  /** The request context values; `None` is a value that was never set. */
  datatype Context = Context(user: Option<User>, isAdmin: Option<bool>)

  /** The context a request carries before any gate ran. */
  const EmptyContext := Context(None, None)

  /** `GetUser(ctx)`: the user put there by a gate, or nil. */
  function ContextUser(ctx: Context): (u: Option<User>)
    ensures u.Some? <==> ctx.user.Some?
    ensures u.Some? ==> u.value == ctx.user.value
  {
    ctx.user
  }

  /** `IsAdmin(ctx)`: the flag put there by a gate, or false. */
  function ContextIsAdmin(ctx: Context): (b: bool)
    ensures b <==> ctx.isAdmin == Some(true)
  {
    ctx.isAdmin.GetOr(false)
  }

  datatype Decision = Next(ctx: Context) | Reject(response: Response, clearSession: bool)

  /** RequireAuth: no session sends the visitor to the login page; a session whose user has
      no row (or whose lookup fails) is cleared and sent there too; otherwise the wrapped
      handler runs with the stored user and the session's admin flag. */
  function RequireAuth(session: Option<Session>, lookup: string -> Lookup<User>): (d: Decision)
    ensures d.Next? <==> session.Some? && lookup(session.value.userId).Found?
    ensures d.Next? ==> ContextUser(d.ctx) == Some(lookup(session.value.userId).value)
    ensures d.Next? ==> ContextIsAdmin(d.ctx) == session.value.isAdmin
    ensures d.Reject? ==> d.response == Redirect(LoginPath)
    ensures d.Reject? ==> (d.clearSession <==> session.Some?)
  {
    if session.None? then Reject(Redirect(LoginPath), false)
    else
      var l := lookup(session.value.userId);
      if !l.Found? then Reject(Redirect(LoginPath), true)
      else Next(Context(Some(l.value), Some(session.value.isAdmin)))
  }

  /** RequireAdmin: as RequireAuth, except that a session without the admin flag is
      refused with 403 before the user is looked up. */
  function RequireAdmin(session: Option<Session>, lookup: string -> Lookup<User>): (d: Decision)
    ensures d.Next? <==> session.Some? && session.value.isAdmin && lookup(session.value.userId).Found?
    ensures d.Next? ==> ContextUser(d.ctx) == Some(lookup(session.value.userId).value)
    ensures d.Next? ==> ContextIsAdmin(d.ctx)
    ensures session.Some? && !session.value.isAdmin ==> d == Reject(Error(StatusForbidden, "Forbidden"), false)
    ensures session.None? ==> d == Reject(Redirect(LoginPath), false)
    ensures session.Some? && session.value.isAdmin && !lookup(session.value.userId).Found? ==>
      d == Reject(Redirect(LoginPath), true)
  {
    if session.None? then Reject(Redirect(LoginPath), false)
    else if !session.value.isAdmin then Reject(Error(StatusForbidden, "Forbidden"), false)
    else RequireAuth(session, lookup)
  }

  /** The 403 does not depend on the store at all: a non-admin session gets it whatever the
      user table says or whether it can be read. */
  lemma NonAdminRefusedWithoutLookup(userId: string, lookup1: string -> Lookup<User>, lookup2: string -> Lookup<User>)
    ensures RequireAdmin(Some(Session(userId, false)), lookup1) == RequireAdmin(Some(Session(userId, false)), lookup2)
    ensures Status(RequireAdmin(Some(Session(userId, false)), lookup1).response) == StatusForbidden
  {
  }

  /** The admin flag handed on is the session's, not the user row's: a row that says the
      user is an admin does not make a non-admin session an admin one, and the reverse. */
  lemma AdminFlagComesFromSession(s: Session, u: User)
    ensures var d := RequireAuth(Some(s), (id: string) => Found(u));
      d.Next? && ContextIsAdmin(d.ctx) == s.isAdmin && ContextUser(d.ctx) == Some(u)
  {
  }

  /** RequireAdmin lets through exactly the requests RequireAuth lets through whose session
      carries the admin flag, with the same context. */
  lemma AdminGateRefinesAuthGate(session: Option<Session>, lookup: string -> Lookup<User>)
    ensures RequireAdmin(session, lookup).Next? <==> RequireAuth(session, lookup).Next? && session.value.isAdmin
    ensures RequireAdmin(session, lookup).Next? ==> RequireAdmin(session, lookup) == RequireAuth(session, lookup)
  {
  }
}
