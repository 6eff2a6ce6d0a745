/** The authentication guards of backend/src/middleware/auth.ts and the way a
    protected route composes them with `asyncHandler` and `errorHandler`. */
module Auth {
  import opened Wrappers
  import opened ErrorHandler

  /** The caller's account id, when a session resolved to one (`req.user`). */
  type Caller = Option<nat>

  /** What a guard does: call `next()` once, or throw. */
  datatype GuardOutcome = CallNext | Throw(error: AppError)

  const AuthenticationRequired: string := "Authentication required"

  /** `requireAuth`: without a user, throw the operational 401 error; with
      one, call `next` once. */
  function RequireAuth(user: Caller): (r: GuardOutcome)
    ensures r.CallNext? <==> user.Some?
    ensures r.Throw? ==> r.error == CreateError(AuthenticationRequired, 401)
  {
    if user.None? then Throw(CreateError(AuthenticationRequired, 401)) else CallNext
  }

  /** `requireAuthOptional`: always calls `next`. */
  function RequireAuthOptional(user: Caller): GuardOutcome {
    CallNext
  }

  /** What the client receives from a route. */
  datatype Reply<T> = Sent(status: int, data: T) | Failed(response: ErrorResponse)

  /** A route behind `requireAuthOptional`: the handler, wrapped in
      `asyncHandler`, is given the caller whether or not there is one. */
  function OptionalRoute<T>(user: Caller, handler: Caller -> Settled<(int, T)>, development: bool): Reply<T> {
    match RequireAuthOptional(user)
    case Throw(err) => Failed(Classify(err, development))
    case CallNext =>
      var outcome := handler(user);
      match AsyncHandler(outcome)
      case Some(err) => Failed(Classify(err, development))
      case None => Sent(outcome.value.0, outcome.value.1)
  }

  /** A protected route: `requireAuth`, then the handler (given the caller's
      id) wrapped in `asyncHandler`; a thrown guard error and a rejected
      handler both reach `errorHandler`. The handler resolves to a status and
      a payload. */
  function Protected<T>(user: Caller, handler: nat -> Settled<(int, T)>, development: bool): (r: Reply<T>)
    ensures r.Sent? ==> user.Some? && handler(user.value) == Resolved((r.status, r.data))
    ensures user.None? ==> r == Failed(Classify(CreateError(AuthenticationRequired, 401), development))
    ensures r.Failed? ==> r.response.success == false
  {
    match RequireAuth(user)
    case Throw(err) => Failed(Classify(err, development))
    case CallNext =>
      var outcome := handler(user.value);
      match AsyncHandler(outcome)
      case Some(err) => Failed(Classify(err, development))
      case None => Sent(outcome.value.0, outcome.value.1)
  }

  /** Without a session, every protected route answers 401 "Authentication
      required", whatever its handler would have done. */
  lemma {:induction false} UnauthenticatedIs401<T>(handler: nat -> Settled<(int, T)>, development: bool)
    ensures Protected(None, handler, development).Failed?
    ensures Protected(None, handler, development).response.status == 401
    ensures Protected(None, handler, development).response.error.message == AuthenticationRequired
  {
    OperationalErrorPassesThrough(AuthenticationRequired, 401, development);
  }

  /** With a session, the route's reply is exactly its handler's: the
      resolved status and payload, or the classified rejection. */
  lemma AuthenticatedRunsHandler<T>(caller: nat, handler: nat -> Settled<(int, T)>, development: bool)
    ensures handler(caller).Resolved? ==>
              Protected(Some(caller), handler, development) ==
              Sent(handler(caller).value.0, handler(caller).value.1)
    ensures handler(caller).Rejected? ==>
              Protected(Some(caller), handler, development) ==
              Failed(Classify(handler(caller).error, development))
  {
  }

  /** Behind the optional guard every caller, anonymous ones included, gets
      exactly its handler's reply: the resolved status and payload, or the
      classified rejection. */
  lemma OptionalGuardRunsHandler<T>(user: Caller, handler: Caller -> Settled<(int, T)>, development: bool)
    ensures handler(user).Resolved? ==>
              OptionalRoute(user, handler, development) ==
              Sent(handler(user).value.0, handler(user).value.1)
    ensures handler(user).Rejected? ==>
              OptionalRoute(user, handler, development) ==
              Failed(Classify(handler(user).error, development))
  {
  }

  /** Where the two guards differ: a handler that resolves for an anonymous
      caller is answered behind `requireAuthOptional`, but 401 behind
      `requireAuth`. */
  lemma AnonymousOnlyPassesOptionalGuard<T>(handler: Caller -> Settled<(int, T)>, development: bool)
    requires handler(None).Resolved?
    ensures OptionalRoute(None, handler, development).Sent?
    ensures Protected(None, (id: nat) => handler(Some(id)), development).response.status == 401
  {
    OperationalErrorPassesThrough(AuthenticationRequired, 401, development);
  }
}
