/** The engine's routing table: each method and path pattern with the guards
    gin runs before its handler. */
module Routes {
  import opened Wrappers

  datatype Verb = GET | POST

  /** The request handlers the table refers to. */
  datatype Handler =
    | Home | TaskList
    | NewUserForm | RegisterUser | LoginForm | Login | Logout
    | EditUserForm | EditUser | DeleteUserForm | DeleteUser
    | ShowTask | NewTaskForm | RegisterTask | EditTaskForm | EditTask | DeleteTask

  /** The middleware that stands in front of handlers: LoginCheck and CheckUser. */
  datatype Step = RequireLogin | RequireOwner

  /** One segment of a path pattern: a fixed name, or a `:name` parameter. */
  datatype Segment = Lit(text: string) | Param(name: string)

  /** A path pattern as its segments: "/task/edit/:id" is
      [Lit("task"), Lit("edit"), Param("id")], and "/" is []. */
  type Path = seq<Segment>

  /** A registered route: gin's handler chain is `guards` followed by `handler`. */
  datatype Route = Route(verb: Verb, path: Path, guards: seq<Step>, handler: Handler)

  /** A router group: its prefix goes in front of each path and its middleware
      in front of each chain. */
  function Group(prefix: Path, middleware: seq<Step>, routes: seq<Route>): seq<Route>
  {
    if routes == [] then []
    else
      var r := routes[0];
      [Route(r.verb, prefix + r.path, middleware + r.guards, r.handler)] + Group(prefix, middleware, routes[1..])
  }

  /** A group keeps its routes' order, methods and handlers, and prefixes
      their paths and chains. */
  lemma {:induction false} GroupPrefixes(prefix: Path, middleware: seq<Step>, routes: seq<Route>)
    ensures var rs := Group(prefix, middleware, routes);
      && |rs| == |routes|
      && forall i :: 0 <= i < |rs| ==>
           rs[i] == Route(routes[i].verb, prefix + routes[i].path, middleware + routes[i].guards, routes[i].handler)
  {
    if routes != [] {
      GroupPrefixes(prefix, middleware, routes[1..]);
    }
  }

  /** The routes of the "/task" group, as written inside it. */
  function TaskGroup(): seq<Route>
  {
    [ Route(GET, [Param("id")], [RequireOwner], ShowTask),
      Route(GET, [Lit("new")], [], NewTaskForm),
      Route(POST, [Lit("new")], [], RegisterTask),
      Route(GET, [Lit("edit"), Param("id")], [RequireOwner], EditTaskForm),
      Route(POST, [Lit("edit"), Param("id")], [RequireOwner], EditTask),
      Route(GET, [Lit("delete"), Param("id")], [RequireOwner], DeleteTask) ]
  }

  /** The registered table, in registration order; the last six routes are
      the "/task" group behind LoginCheck (see TaskGroupRegistered). */
  function EngineRoutes(): seq<Route>
  {
    [ Route(GET, [], [], Home),
      Route(GET, [Lit("list")], [RequireLogin], TaskList),
      Route(GET, [Lit("user"), Lit("new")], [], NewUserForm),
      Route(POST, [Lit("user"), Lit("new")], [], RegisterUser),
      Route(GET, [Lit("login")], [], LoginForm),
      Route(POST, [Lit("login")], [], Login),
      Route(GET, [Lit("logout")], [RequireLogin], Logout),
      Route(GET, [Lit("user"), Lit("edit")], [RequireLogin], EditUserForm),
      Route(POST, [Lit("user"), Lit("edit")], [RequireLogin], EditUser),
      Route(GET, [Lit("user"), Lit("delete")], [RequireLogin], DeleteUserForm),
      Route(POST, [Lit("user"), Lit("delete")], [RequireLogin], DeleteUser),
      Route(GET, [Lit("task"), Param("id")], [RequireLogin, RequireOwner], ShowTask),
      Route(GET, [Lit("task"), Lit("new")], [RequireLogin], NewTaskForm),
      Route(POST, [Lit("task"), Lit("new")], [RequireLogin], RegisterTask),
      Route(GET, [Lit("task"), Lit("edit"), Param("id")], [RequireLogin, RequireOwner], EditTaskForm),
      Route(POST, [Lit("task"), Lit("edit"), Param("id")], [RequireLogin, RequireOwner], EditTask),
      Route(GET, [Lit("task"), Lit("delete"), Param("id")], [RequireLogin, RequireOwner], DeleteTask) ]
  }

  /** The route registered for a method and path pattern, if any. */
  function Lookup(routes: seq<Route>, verb: Verb, path: Path): (c: Option<Route>)
    ensures c.Some? ==> c.value in routes && c.value.verb == verb && c.value.path == path
    ensures c.None? ==> forall r :: r in routes ==> r.verb != verb || r.path != path
  {
    if routes == [] then None
    else if routes[0].verb == verb && routes[0].path == path then Some(routes[0])
    else Lookup(routes[1..], verb, path)
  }

  /** Lookup finds the first route registered for the method and path. */
  lemma {:induction false} LookupFirst(routes: seq<Route>, verb: Verb, path: Path, i: int)
    requires 0 <= i < |routes| && routes[i].verb == verb && routes[i].path == path
    requires forall j :: 0 <= j < i ==> routes[j].verb != verb || routes[j].path != path
    ensures Lookup(routes, verb, path) == Some(routes[i])
    decreases i
  {
    if i > 0 {
      assert routes[0].verb != verb || routes[0].path != path;
      assert forall j :: 0 <= j < i - 1 ==> routes[1..][j] == routes[j + 1];
      LookupFirst(routes[1..], verb, path, i - 1);
    }
  }

  // ---------------------------------------------------------------------------
  // Properties of the table

  /** The last six registered routes are the "/task" group with its prefix
      and its LoginCheck middleware applied. */
  lemma TaskGroupRegistered()
    ensures EngineRoutes()[11..] == Group([Lit("task")], [RequireLogin], TaskGroup())
  {
    var g := Group([Lit("task")], [RequireLogin], TaskGroup());
    GroupPrefixes([Lit("task")], [RequireLogin], TaskGroup());
    assert g[0] == Route(GET, [Lit("task"), Param("id")], [RequireLogin, RequireOwner], ShowTask);
    assert g[1] == Route(GET, [Lit("task"), Lit("new")], [RequireLogin], NewTaskForm);
    assert g[2] == Route(POST, [Lit("task"), Lit("new")], [RequireLogin], RegisterTask);
    assert g[3] == Route(GET, [Lit("task"), Lit("edit"), Param("id")], [RequireLogin, RequireOwner], EditTaskForm);
    assert g[4] == Route(POST, [Lit("task"), Lit("edit"), Param("id")], [RequireLogin, RequireOwner], EditTask);
    assert g[5] == Route(GET, [Lit("task"), Lit("delete"), Param("id")], [RequireLogin, RequireOwner], DeleteTask);
  }

  /** No method and path is registered twice (gin refuses duplicate routes). */
  lemma RoutesDistinct()
    ensures forall i, j :: 0 <= i < j < |EngineRoutes()| ==>
      EngineRoutes()[i].verb != EngineRoutes()[j].verb || EngineRoutes()[i].path != EngineRoutes()[j].path
  {
  }

  /** Only the home page, sign-up and login are open without a session. */
  lemma PublicRoutes()
    ensures forall r :: r in EngineRoutes() ==>
      (RequireLogin !in r.guards <==> r.path == [] || r.path == [Lit("user"), Lit("new")] || r.path == [Lit("login")])
  {
    var t := EngineRoutes();
    forall r | r in t
      ensures RequireLogin !in r.guards <==> r.path == [] || r.path == [Lit("user"), Lit("new")] || r.path == [Lit("login")]
    {
      var i :| 0 <= i < |t| && t[i] == r;
      if i >= 11 {
        assert RequireLogin in r.guards && r.path[0] == Lit("task");
      } else if i == 0 || 2 <= i <= 5 {
        assert r.guards == [];
      } else {
        assert r.guards == [RequireLogin];
        assert r.path[0] == Lit("list") || r.path[0] == Lit("logout") || r.path[1] == Lit("edit") || r.path[1] == Lit("delete");
      }
    }
  }

  /** In every guarded chain LoginCheck runs first. */
  lemma LoginCheckFirst()
    ensures forall r :: r in EngineRoutes() && r.guards != [] ==> r.guards[0] == RequireLogin
  {
    var t := EngineRoutes();
    forall r | r in t && r.guards != []
      ensures r.guards[0] == RequireLogin
    {
      var i :| 0 <= i < |t| && t[i] == r;
    }
  }

  /** The path ends in the task's `:id` parameter. */
  predicate NamesTask(path: Path)
  {
    path != [] && path[|path| - 1] == Param("id")
  }

  /** Every route that names a task runs LoginCheck and then CheckUser before its handler. */
  lemma TaskRoutesCheckOwner()
    ensures forall r :: r in EngineRoutes() && NamesTask(r.path) ==> r.guards == [RequireLogin, RequireOwner]
  {
    var t := EngineRoutes();
    forall r | r in t && NamesTask(r.path)
      ensures r.guards == [RequireLogin, RequireOwner]
    {
      var i :| 0 <= i < |t| && t[i] == r;
      assert i == 11 || i >= 14;
    }
  }

  /** CheckUser stands only in front of routes that name a task. */
  lemma OwnerCheckOnlyOnTaskRoutes()
    ensures forall r :: r in EngineRoutes() && RequireOwner in r.guards ==> NamesTask(r.path)
  {
    var t := EngineRoutes();
    forall r | r in t && RequireOwner in r.guards
      ensures NamesTask(r.path)
    {
      var i :| 0 <= i < |t| && t[i] == r;
      assert i == 11 || i >= 14;
    }
  }

  /** GET /task/delete/:id is registered, behind LoginCheck and CheckUser. */
  lemma DeleteRoute()
    ensures Lookup(EngineRoutes(), GET, [Lit("task"), Lit("delete"), Param("id")]) ==
      Some(Route(GET, [Lit("task"), Lit("delete"), Param("id")], [RequireLogin, RequireOwner], DeleteTask))
  {
    var t := EngineRoutes();
    var path := [Lit("task"), Lit("delete"), Param("id")];
    forall j | 0 <= j < 16
      ensures t[j].verb != GET || t[j].path != path
    {
      if j >= 11 {
        assert t[j].path[1] != Lit("delete");
      } else {
        assert t[j].path == [] || t[j].path[0] != Lit("task");
      }
    }
    LookupFirst(t, GET, path, 16);
  }
}
