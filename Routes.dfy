/** The route tables of `routes/courses.js`, `routes/students.js` and
    `routes/auth.js`: which middleware runs, in which order, before which
    handler; and what the client then receives. */
module Routes {
  import opened Base
  import opened ApiTypes
  import opened AuthMiddleware
  import opened ErrorHandler

  /** A middleware of a route: `protect`, `authorize(...roles)`, or the
      inline admin-or-self check of the student routes. */
  datatype Guard = RequireLogin | RequireRole(roles: seq<string>) | SelfOrAdmin

  datatype Verb = Get | Post | Put | Delete

  datatype Route = Route(verb: Verb, path: string, guards: seq<Guard>)

  /** An Express router: the middleware of `router.use(...)`, then its
      routes. */
  datatype Router = Router(shared: seq<Guard>, routes: seq<Route>)

  /** The parts of a request the middleware reads. */
  datatype Request = Request(authorization: Option<string>, id: string)

  /** The middleware a request to route `i` passes through, in order. */
  function Chain(router: Router, i: nat): seq<Guard>
    requires i < |router.routes|
  {
    router.shared + router.routes[i].guards
  }

  const StudentDataForbidden: string := "Not authorized to access this student data"

  /** `req.user.role === 'admin' || req.user.user_id === req.params.id`.
      Without `req.user` reading `role` throws a TypeError, which Express
      answers with 500. */
  function SelfOrAdminGate(user: Option<AuthUser>, id: string): (r: Gate)
    ensures r.Next? <==> user.Some? && (user.value.role == "admin" || user.value.userId == id)
    ensures r.Next? ==> r.user == user
    ensures user.Some? && r.Halt? ==> r == Halt(403, StudentDataForbidden)
  {
    if user.None? then Halt(500, "Cannot read properties of undefined (reading 'role')")
    else if user.value.role == "admin" || user.value.userId == id then Next(user)
    else Halt(403, StudentDataForbidden)
  }

  /** One middleware. */
  function RunGuard(g: Guard, req: Request, verify: string -> Option<string>, users: map<string, UserRow>,
                    user: Option<AuthUser>): Gate
  {
    match g
    case RequireLogin => Protect(req.authorization, verify, users)
    case RequireRole(roles) => Authorize(roles, user)
    case SelfOrAdmin => SelfOrAdminGate(user, req.id)
  }

  /** The middleware in order: the first that halts decides; each that
      calls `next()` hands on `req.user`. */
  function RunGuards(guards: seq<Guard>, req: Request, verify: string -> Option<string>,
                     users: map<string, UserRow>, user: Option<AuthUser>): (r: Gate)
    ensures guards == [] ==> r == Next(user)
    ensures r.Halt? ==> r.status in {401, 403, 500}
    decreases |guards|
  {
    if guards == [] then Next(user)
    else
      match RunGuard(guards[0], req, verify, users, user)
      case Halt(status, message) => Halt(status, message)
      case Next(u) => RunGuards(guards[1..], req, verify, users, u)
  }

  /** When the chain starts with `protect` and `protect` refuses, the
      answer is `protect`'s 401, whatever follows. */
  lemma ProtectRefusesFirst(guards: seq<Guard>, req: Request, verify: string -> Option<string>,
                            users: map<string, UserRow>, user: Option<AuthUser>)
    requires |guards| > 0 && guards[0] == RequireLogin
    requires Protect(req.authorization, verify, users).Halt?
    ensures RunGuards(guards, req, verify, users, user) == Protect(req.authorization, verify, users)
    ensures RunGuards(guards, req, verify, users, user).status == 401
  {
  }

  /** `protect` then `authorize(roles)`: 401 from `protect` when the caller
      is not authenticated, otherwise through exactly when the caller's
      role is listed, and 403 when it is not. */
  lemma {:induction false} ProtectThenAuthorize(roles: seq<string>, req: Request, verify: string -> Option<string>,
                                               users: map<string, UserRow>, user: Option<AuthUser>)
    ensures var r := RunGuards([RequireLogin, RequireRole(roles)], req, verify, users, user);
      var p := Protect(req.authorization, verify, users);
      (p.Halt? ==> r == p && r.status == 401)
      && (p.Next? ==> (r.Next? <==> p.user.value.role in roles))
      && (p.Next? && r.Next? ==> r.user == p.user)
      && (p.Next? && r.Halt? ==> r.status == 403)
  {
    var p := Protect(req.authorization, verify, users);
    if p.Next? {
      assert RunGuards([RequireLogin, RequireRole(roles)], req, verify, users, user)
          == RunGuards([RequireRole(roles)], req, verify, users, p.user);
      assert RunGuards([RequireRole(roles)], req, verify, users, p.user)
          == (match Authorize(roles, p.user)
              case Halt(s, m) => Halt(s, m)
              case Next(u) => RunGuards([], req, verify, users, u));
    }
  }

  /** `protect` then the admin-or-self check: through exactly when the
      caller is authenticated and is an admin or asks for their own id; an
      authenticated caller is otherwise refused with 403. */
  lemma {:induction false} ProtectThenSelfOrAdmin(req: Request, verify: string -> Option<string>,
                                                 users: map<string, UserRow>, user: Option<AuthUser>)
    ensures var r := RunGuards([RequireLogin, SelfOrAdmin], req, verify, users, user);
      var p := Protect(req.authorization, verify, users);
      (p.Halt? ==> r == p && r.status == 401)
      && (r.Next? <==> p.Next? && (p.user.value.role == "admin" || p.user.value.userId == req.id))
      && (p.Next? && r.Halt? ==> r == Halt(403, StudentDataForbidden))
  {
    var p := Protect(req.authorization, verify, users);
    if p.Next? {
      assert RunGuards([RequireLogin, SelfOrAdmin], req, verify, users, user)
          == RunGuards([SelfOrAdmin], req, verify, users, p.user);
      assert RunGuards([SelfOrAdmin], req, verify, users, p.user)
          == (match SelfOrAdminGate(p.user, req.id)
              case Halt(s, m) => Halt(s, m)
              case Next(u) => RunGuards([], req, verify, users, u));
    }
  }

  /** `routes/courses.js`: everything behind `protect`; the three reads open
      to any role, create, update and delete for admins. */
  const CourseRouter: Router := Router([RequireLogin], [
    Route(Get, "/", []),
    Route(Get, "/:id", []),
    Route(Get, "/:id/classes", []),
    Route(Post, "/", [RequireRole(["admin"])]),
    Route(Put, "/:id", [RequireRole(["admin"])]),
    Route(Delete, "/:id", [RequireRole(["admin"])])])

  /** `routes/students.js`: everything behind `protect`; the list for
      admins, each `/:id` route for admins and the student themself. */
  const StudentRouter: Router := Router([RequireLogin], [
    Route(Get, "/", [RequireRole(["admin"])]),
    Route(Get, "/:id", [SelfOrAdmin]),
    Route(Get, "/:id/enrollments", [SelfOrAdmin]),
    Route(Get, "/:id/attendance", [SelfOrAdmin]),
    Route(Get, "/:id/schedule", [SelfOrAdmin]),
    Route(Get, "/:id/assignments", [SelfOrAdmin]),
    Route(Get, "/:id/tuition", [SelfOrAdmin])])

  /** `routes/auth.js`: login open, `me` behind `protect`, register for
      admins. */
  const AuthRouter: Router := Router([], [
    Route(Post, "/login", []),
    Route(Get, "/me", [RequireLogin]),
    Route(Post, "/register", [RequireLogin, RequireRole(["admin"])])])

  /** Every course route runs `protect` first; the reads need nothing
      more, the writes need the admin role. */
  lemma CourseRouteTable(i: nat)
    requires i < |CourseRouter.routes|
    ensures Chain(CourseRouter, i)[0] == RequireLogin
    ensures CourseRouter.routes[i].verb == Get ==> Chain(CourseRouter, i) == [RequireLogin]
    ensures CourseRouter.routes[i].verb != Get ==> Chain(CourseRouter, i) == [RequireLogin, RequireRole(["admin"])]
  {
  }

  /** Every student route runs `protect` first; the list needs the admin
      role, and every other route the same admin-or-self check. */
  lemma StudentRouteTable(i: nat)
    requires i < |StudentRouter.routes|
    ensures Chain(StudentRouter, i)[0] == RequireLogin
    ensures StudentRouter.routes[i].path == "/" ==> Chain(StudentRouter, i) == [RequireLogin, RequireRole(["admin"])]
    ensures StudentRouter.routes[i].path != "/" ==> Chain(StudentRouter, i) == [RequireLogin, SelfOrAdmin]
  {
  }

  /** A request to any course or student route without a valid token is
      refused with 401, never 403. */
  lemma {:induction false} UnauthenticatedGets401(router: Router, i: nat, req: Request,
                                                 verify: string -> Option<string>, users: map<string, UserRow>)
    requires router == CourseRouter || router == StudentRouter
    requires i < |router.routes|
    requires Protect(req.authorization, verify, users).Halt?
    ensures RunGuards(Chain(router, i), req, verify, users, None).status == 401
  {
    if router == CourseRouter {
      CourseRouteTable(i);
    } else {
      StudentRouteTable(i);
    }
    ProtectRefusesFirst(Chain(router, i), req, verify, users, None);
  }

  /** What the client receives: the handler's reply, or the error reply
      (with the status kept, see `HandleErrorKeepingStatus`) for a
      middleware or handler that threw. */
  datatype Response<T> = Answer(status: int, body: T) | Failed(response: ErrorResponse)

  function Dispatch<T>(guards: seq<Guard>, req: Request, verify: string -> Option<string>,
                       users: map<string, UserRow>, handler: Option<AuthUser> -> Reply<T>,
                       stack: string, nodeEnv: Option<string>): (r: Response<T>)
    ensures RunGuards(guards, req, verify, users, None).Halt? ==>
      var g := RunGuards(guards, req, verify, users, None);
      r == Failed(HandleErrorKeepingStatus(PlainError(g.message, stack), g.status, nodeEnv))
    ensures RunGuards(guards, req, verify, users, None).Next? ==>
      var reply := handler(RunGuards(guards, req, verify, users, None).user);
      (reply.Respond? ==> r == Answer(reply.status, reply.body))
      && (reply.Raise? ==> r == Failed(HandleErrorKeepingStatus(PlainError(reply.message, stack), reply.status, nodeEnv)))
  {
    match RunGuards(guards, req, verify, users, None)
    case Halt(status, message) => Failed(HandleErrorKeepingStatus(PlainError(message, stack), status, nodeEnv))
    case Next(user) =>
      match handler(user)
      case Respond(status, body) => Answer(status, body)
      case Raise(status, message) => Failed(HandleErrorKeepingStatus(PlainError(message, stack), status, nodeEnv))
  }

  /** When a middleware refuses, the handler is never reached: the
      response is the same whatever the handler would have done, and
      carries the middleware's status. */
  lemma HandlerNotReached<T>(guards: seq<Guard>, req: Request, verify: string -> Option<string>,
                             users: map<string, UserRow>, h1: Option<AuthUser> -> Reply<T>,
                             h2: Option<AuthUser> -> Reply<T>, stack: string, nodeEnv: Option<string>)
    requires RunGuards(guards, req, verify, users, None).Halt?
    ensures Dispatch(guards, req, verify, users, h1, stack, nodeEnv) == Dispatch(guards, req, verify, users, h2, stack, nodeEnv)
    ensures Dispatch(guards, req, verify, users, h1, stack, nodeEnv).response.status
            == RunGuards(guards, req, verify, users, None).status
  {
  }

  /** `POST /register` by an authenticated caller who is not an admin is
      answered with 403, and `register` never runs. */
  lemma {:induction false} RegisterNeedsAdmin<T>(req: Request, verify: string -> Option<string>,
                                                users: map<string, UserRow>, h1: Option<AuthUser> -> Reply<T>,
                                                h2: Option<AuthUser> -> Reply<T>, stack: string, nodeEnv: Option<string>)
    requires Protect(req.authorization, verify, users).Next?
    requires Protect(req.authorization, verify, users).user.value.role != "admin"
    ensures var guards := Chain(AuthRouter, 2);
      Dispatch(guards, req, verify, users, h1, stack, nodeEnv).Failed?
      && Dispatch(guards, req, verify, users, h1, stack, nodeEnv).response.status == 403
      && Dispatch(guards, req, verify, users, h1, stack, nodeEnv) == Dispatch(guards, req, verify, users, h2, stack, nodeEnv)
  {
    var guards := Chain(AuthRouter, 2);
    assert guards == [RequireLogin, RequireRole(["admin"])];
    ProtectThenAuthorize(["admin"], req, verify, users, None);
    HandlerNotReached(guards, req, verify, users, h1, h2, stack, nodeEnv);
  }

  /** The same dispatch through the error handler as written, which sets
      the status from the mapped error alone: a plain error thrown after
      `res.status(...)` is answered with 500. It agrees with `Dispatch`
      on everything but that status. */
  function DispatchAsWritten<T>(guards: seq<Guard>, req: Request, verify: string -> Option<string>,
                                users: map<string, UserRow>, handler: Option<AuthUser> -> Reply<T>,
                                stack: string, nodeEnv: Option<string>): (r: Response<T>)
    ensures RunGuards(guards, req, verify, users, None).Halt? ==> r.Failed? && r.response.status == 500
    ensures r.Failed? <==> Dispatch(guards, req, verify, users, handler, stack, nodeEnv).Failed?
    ensures r.Failed? ==>
              r.response.status == 500
              && r.response.body == Dispatch(guards, req, verify, users, handler, stack, nodeEnv).response.body
    ensures r.Answer? ==> r == Dispatch(guards, req, verify, users, handler, stack, nodeEnv)
  {
    match RunGuards(guards, req, verify, users, None)
    case Halt(status, message) =>
      AsWrittenDiscardsResponseStatus(message, stack, nodeEnv);
      Failed(HandleError(PlainError(message, stack), nodeEnv))
    case Next(user) =>
      match handler(user)
      case Respond(status, body) => Answer(status, body)
      case Raise(status, message) =>
        AsWrittenDiscardsResponseStatus(message, stack, nodeEnv);
        Failed(HandleError(PlainError(message, stack), nodeEnv))
  }

  /** As written, the same non-admin `POST /register` is answered with 500
      instead of 403; the handler is still not reached. */
  lemma {:induction false} RegisterAsWrittenGets500<T>(req: Request, verify: string -> Option<string>,
                                                       users: map<string, UserRow>, handler: Option<AuthUser> -> Reply<T>,
                                                       stack: string, nodeEnv: Option<string>)
    requires Protect(req.authorization, verify, users).Next?
    requires Protect(req.authorization, verify, users).user.value.role != "admin"
    ensures var guards := Chain(AuthRouter, 2);
      DispatchAsWritten(guards, req, verify, users, handler, stack, nodeEnv).Failed?
      && DispatchAsWritten(guards, req, verify, users, handler, stack, nodeEnv).response.status == 500
      && Dispatch(guards, req, verify, users, handler, stack, nodeEnv).response.status == 403
  {
    var guards := Chain(AuthRouter, 2);
    assert guards == [RequireLogin, RequireRole(["admin"])];
    ProtectThenAuthorize(["admin"], req, verify, users, None);
    RegisterNeedsAdmin(req, verify, users, handler, handler, stack, nodeEnv);
  }

  /** `POST /login` runs no middleware: its reply is the handler's. */
  lemma LoginIsOpen<T>(req: Request, verify: string -> Option<string>, users: map<string, UserRow>,
                       handler: Option<AuthUser> -> Reply<T>, stack: string, nodeEnv: Option<string>)
    ensures Chain(AuthRouter, 0) == []
    ensures handler(None).Respond? ==>
      Dispatch(Chain(AuthRouter, 0), req, verify, users, handler, stack, nodeEnv)
      == Answer(handler(None).status, handler(None).body)
  {
  }

  /** `GET /me` needs only `protect`. */
  lemma MeNeedsLoginOnly(req: Request, verify: string -> Option<string>, users: map<string, UserRow>)
    ensures Chain(AuthRouter, 1) == [RequireLogin]
    ensures RunGuards(Chain(AuthRouter, 1), req, verify, users, None) == Protect(req.authorization, verify, users)
  {
  }
}
