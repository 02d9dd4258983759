/**
 * The event router: six routes tried in registration order, each a chain of
 * middleware in front of one controller action. Paths are relative to the
 * router's mount point.
 */
module Routes {
  import opened Wrappers
  import opened Http
  import opened Store
  import EventQuery
  import Categories
  import EventMutation
  import Upload

  /** A route path: a literal, the router root, or the single parameter `/:id`. */
  datatype Pattern = Exact(text: string) | Root | IdParam

  /** Middleware that may stop a request before the controller. */
  datatype Guard = Authenticate | UploadBanner

  datatype Action = ListCategories | ShowEvent | ListEvents | CreateEvent | UpdateEvent | DeleteEvent

  datatype Route = Route(verb: Method, pattern: Pattern, guards: seq<Guard>, action: Action)

  /** The route table, in registration order. */
  const Table: seq<Route> := [
    Route(GET, Exact("/categories"), [], ListCategories),
    Route(GET, IdParam, [], ShowEvent),
    Route(GET, Root, [], ListEvents),
    Route(POST, Root, [Authenticate, UploadBanner], CreateEvent),
    Route(PUT, IdParam, [Authenticate, UploadBanner], UpdateEvent),
    Route(DELETE, IdParam, [Authenticate], DeleteEvent)
  ]

  /** An incoming request, reduced to the parts the chain reads. */
  datatype Request = Request(
    verb: Method,
    path: string,
    query: EventQuery.ListQuery,
    authorization: Option<string>,
    body: EventMutation.EventBody,
    files: seq<Upload.IncomingFile>,
    protocol: string,
    host: string)

  /**
   * The authentication middleware, whose code is not part of this model: it
   * either lets the request through with `req.user.id` set, or answers itself.
   */
  datatype AuthResult = Pass(user: UserId) | Block(response: Response)
  type Gate = Option<string> -> AuthResult

  /** The path with one trailing slash dropped: routes are not strict. */
  function Trimmed(path: string): (t: string)
    ensures t == path || path == t + "/"
  {
    if |path| > 0 && path[|path| - 1] == '/' then path[..|path| - 1] else path
  }

  /** The `:id` segment of a one-segment path: non-empty and free of `/`. */
  function Segment(path: string): (r: Option<string>)
    ensures r.Some? ==> r.value != [] && '/' !in r.value && (path == "/" + r.value || path == "/" + r.value + "/")
  {
    if |path| >= 2 && path[0] == '/' then
      var t := Trimmed(path[1..]);
      if t != [] && '/' !in t then
        assert path == "/" + path[1..];
        Some(t)
      else None
    else None
  }

  /** Whether a pattern matches, and the `:id` it captures ("" when it captures none). */
  function MatchPattern(p: Pattern, path: string): (r: Option<string>)
    ensures p.Exact? && r.Some? ==> path == p.text || path == p.text + "/"
    ensures p.Root? ==> (r.Some? <==> path == "" || path == "/")
  {
    match p
    case Exact(text) => if Trimmed(path) == text then Some("") else None
    case Root => if path == "" || path == "/" then Some("") else None
    case IdParam => Segment(path)
  }

  /** The first route of `routes` that takes the request, with its position and captured `:id`. */
  function FirstMatch(routes: seq<Route>, verb: Method, path: string): (r: Option<(nat, string)>)
    ensures r.Some? ==> r.value.0 < |routes| && routes[r.value.0].verb == verb
                        && MatchPattern(routes[r.value.0].pattern, path) == Some(r.value.1)
    ensures r.Some? ==> forall i :: 0 <= i < r.value.0 ==>
                          routes[i].verb != verb || MatchPattern(routes[i].pattern, path).None?
    ensures r.None? ==> forall i :: 0 <= i < |routes| ==>
                          routes[i].verb != verb || MatchPattern(routes[i].pattern, path).None?
  {
    if routes == [] then None
    else if routes[0].verb == verb && MatchPattern(routes[0].pattern, path).Some? then
      Some((0, MatchPattern(routes[0].pattern, path).value))
    else
      match FirstMatch(routes[1..], verb, path)
      case None => None
      case Some((i, id)) => Some((i + 1, id))
  }

  /** What the middleware hands on to the controller. */
  datatype Context = Context(user: Option<UserId>, file: Option<Upload.UploadedFile>)

  /** Either a response that ends the chain, or the context for the next handler. */
  datatype Step = Stop(response: Response) | Next(ctx: Context)

  /** Multer errors have no status of their own, so the default error handler answers 500. */
  function UploadFailure(e: Upload.UploadError): (r: Response)
    ensures r.status == 500
  {
    Response(500, Message(Upload.ErrorMessage(e)))
  }

  /** Runs the guards in order; the first that answers ends the request. */
  function RunGuards(guards: seq<Guard>, ctx: Context, req: Request, gate: Gate): (r: Step)
    decreases |guards|
  {
    if guards == [] then Next(ctx)
    else
      var step :=
        match guards[0]
        case Authenticate =>
          (match gate(req.authorization)
           case Block(resp) => Stop(resp)
           case Pass(id) => Next(ctx.(user := Some(id))))
        case UploadBanner =>
          (match Upload.Single(req.files)
           case Rejected(e) => Stop(UploadFailure(e))
           case Accepted(f) => Next(ctx.(file := f)));
      match step
      case Stop(resp) => Stop(resp)
      case Next(c) => RunGuards(guards[1..], c, req, gate)
  }

  /** The controller action, with the captured `:id` and the middleware's context. */
  function Invoke(a: Action, id: string, ctx: Context, req: Request, db: Db,
                  verify: EventQuery.Verifier): (Db, Response)
  {
    match a
    case ListCategories => (db, Categories.GetCategories(db))
    case ShowEvent => (db, EventMutation.GetEventById(db, id))
    case ListEvents => (db, EventQuery.GetAllEvents(db, req.query, req.authorization, verify))
    case CreateEvent => EventMutation.CreateEvent(db, req.body, ctx.user, ctx.file, req.protocol, req.host)
    case UpdateEvent => EventMutation.UpdateEvent(db, id, req.body)
    case DeleteEvent => EventMutation.DeleteEvent(db, id)
  }

  /** The router: `None` when no route takes the request and it falls through to the next handler. */
  function Handle(db: Db, req: Request, gate: Gate, verify: EventQuery.Verifier): Option<(Db, Response)> {
    match FirstMatch(Table, req.verb, req.path)
    case None => None
    case Some((i, id)) =>
      var route := Table[i];
      match RunGuards(route.guards, Context(None, None), req, gate)
      case Stop(resp) => Some((db, resp))
      case Next(ctx) => Some(Invoke(route.action, id, ctx, req, db, verify))
  }

  // ---------------------------------------------------------------------------
  // Properties

  /** The action a request reaches, if any. */
  function Routed(req: Request): Option<Action> {
    match FirstMatch(Table, req.verb, req.path)
    case None => None
    case Some((i, _)) => Some(Table[i].action)
  }

  /**
   * `/categories` is registered before `/:id`, so it is never read as an
   * event id; any other one-segment GET path is an event id.
   */
  lemma CategoriesBeforeId(req: Request)
    requires req.verb == GET
    ensures req.path == "/categories" || req.path == "/categories/" ==> Routed(req) == Some(ListCategories)
    ensures Routed(req) == Some(ShowEvent) <==> Segment(req.path).Some? && Trimmed(req.path) != "/categories"
    ensures Routed(req) == Some(ListEvents) <==> req.path == "" || req.path == "/"
  {
    if req.path == "/categories" || req.path == "/categories/" {
      assert Trimmed(req.path) == "/categories";
    }
    if Segment(req.path).Some? && Trimmed(req.path) != "/categories" {
      assert MatchPattern(Table[0].pattern, req.path).None?;
      assert MatchPattern(Table[1].pattern, req.path).Some?;
    }
    if req.path == "" || req.path == "/" {
      assert Segment(req.path).None?;
      assert Trimmed(req.path) != "/categories";
    }
  }

  /** Which action each verb reaches on the paths the router knows. */
  lemma WritesRouted(req: Request)
    ensures req.verb == POST ==> (Routed(req) == Some(CreateEvent) <==> req.path == "" || req.path == "/")
    ensures req.verb == PUT ==> (Routed(req) == Some(UpdateEvent) <==> Segment(req.path).Some?)
    ensures req.verb == DELETE ==> (Routed(req) == Some(DeleteEvent) <==> Segment(req.path).Some?)
    ensures req.verb != GET ==> Routed(req).None? || Routed(req) == Some(CreateEvent)
                                  || Routed(req) == Some(UpdateEvent) || Routed(req) == Some(DeleteEvent)
  {
    assert Table[3] == Route(POST, Root, [Authenticate, UploadBanner], CreateEvent);
    assert Table[4] == Route(PUT, IdParam, [Authenticate, UploadBanner], UpdateEvent);
    assert Table[5] == Route(DELETE, IdParam, [Authenticate], DeleteEvent);
    assert forall i :: 0 <= i < 3 ==> Table[i].verb == GET;
  }

  /** The read routes carry no guard: they answer the same whatever the authentication middleware would say. */
  lemma ReadsIgnoreGate(db: Db, req: Request, gate1: Gate, gate2: Gate, verify: EventQuery.Verifier)
    requires req.verb == GET
    ensures Handle(db, req, gate1, verify) == Handle(db, req, gate2, verify)
    ensures Handle(db, req, gate1, verify).Some? ==> Handle(db, req, gate1, verify).value.0 == db
  {
  }

  /**
   * Authentication runs first on every write: a blocked request gets the
   * middleware's own answer, the store is untouched and the upload is never looked at.
   */
  lemma WritesAuthenticateFirst(db: Db, req: Request, gate: Gate, verify: EventQuery.Verifier)
    requires req.verb != GET && Routed(req).Some? && gate(req.authorization).Block?
    ensures Handle(db, req, gate, verify) == Some((db, gate(req.authorization).response))
  {
    WritesRouted(req);
  }

  /** After authentication, a rejected upload ends a create or update with 500 and changes nothing. */
  lemma UploadRejectedAfterAuth(db: Db, req: Request, gate: Gate, verify: EventQuery.Verifier)
    requires req.verb == POST || req.verb == PUT
    requires Routed(req).Some? && gate(req.authorization).Pass? && Upload.Single(req.files).Rejected?
    ensures Handle(db, req, gate, verify) == Some((db, UploadFailure(Upload.Single(req.files).error)))
  {
    WritesRouted(req);
  }

  /** `DELETE /:id` has no upload step: its outcome does not depend on the files sent. */
  lemma DeleteIgnoresFiles(db: Db, req: Request, files: seq<Upload.IncomingFile>, gate: Gate,
                           verify: EventQuery.Verifier)
    requires req.verb == DELETE
    ensures Handle(db, req, gate, verify) == Handle(db, req.(files := files), gate, verify)
  {
  }

  /** A passing create request reaches `createEvent` with the authenticated user and the uploaded banner. */
  lemma CreateReceivesContext(db: Db, req: Request, gate: Gate, verify: EventQuery.Verifier)
    requires req.verb == POST && (req.path == "" || req.path == "/")
    requires gate(req.authorization).Pass? && Upload.Single(req.files).Accepted?
    ensures Handle(db, req, gate, verify)
            == Some(EventMutation.CreateEvent(db, req.body, Some(gate(req.authorization).user),
                                              Upload.Single(req.files).file, req.protocol, req.host))
  {
  }

  /** A passing update reaches `updateEvent` with the captured `:id` and the body; an accepted file plays no part. */
  lemma UpdateReceivesId(db: Db, req: Request, gate: Gate, verify: EventQuery.Verifier)
    requires req.verb == PUT && Segment(req.path).Some?
    requires gate(req.authorization).Pass? && Upload.Single(req.files).Accepted?
    ensures Handle(db, req, gate, verify) == Some(EventMutation.UpdateEvent(db, Segment(req.path).value, req.body))
  {
    WritesRouted(req);
  }

  /** A passing delete reaches `deleteEvent` with the captured `:id`. */
  lemma DeleteReceivesId(db: Db, req: Request, gate: Gate, verify: EventQuery.Verifier)
    requires req.verb == DELETE && Segment(req.path).Some?
    requires gate(req.authorization).Pass?
    ensures Handle(db, req, gate, verify) == Some(EventMutation.DeleteEvent(db, Segment(req.path).value))
  {
    WritesRouted(req);
  }

  /** The store changes only through an authenticated write. */
  lemma OnlyAuthenticatedWrites(db: Db, req: Request, gate: Gate, verify: EventQuery.Verifier)
    requires Handle(db, req, gate, verify).Some? && Handle(db, req, gate, verify).value.0 != db
    ensures req.verb != GET && gate(req.authorization).Pass?
  {
    WritesRouted(req);
  }

  /** The `:id` the controllers see is the path segment, so a written path reaches the same key. */
  lemma IdRoundTrip(id: string, m: Method)
    requires id != [] && '/' !in id && (m == PUT || m == DELETE)
    ensures FirstMatch(Table, m, "/" + id) == Some((if m == PUT then 4 else 5, id))
    ensures Segment("/" + id) == Some(id)
  {
    var path := "/" + id;
    assert path[1..] == id;
    assert id[|id| - 1] in id;
    assert Trimmed(id) == id;
    assert Segment(path) == Some(id);
    assert Table[4] == Route(PUT, IdParam, [Authenticate, UploadBanner], UpdateEvent);
    assert Table[5] == Route(DELETE, IdParam, [Authenticate], DeleteEvent);
    assert forall i :: 0 <= i < 4 ==> Table[i].verb != m;
  }
}
