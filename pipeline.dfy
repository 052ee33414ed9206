/** What a route's handler chain does with a request: the guards run in
    order, and the first that aborts answers instead of the handler. */
module Pipeline {
  import opened Wrappers
  import opened GoLib
  import opened Store
  import opened Routes
  import UserService
  import TaskService

  // ---------------------------------------------------------------------------
  // Running a chain

  /** What the guards see of a request: the session's user, the route's `:id`
      and how the database behaves for CheckUser. */
  datatype Request = Request(session: Option<UserId>, idParam: string, db: Db)

  /** A chain either reaches its handler or is stopped by a guard's response. */
  datatype Outcome = Handled(handler: Handler) | Aborted(response: Response)

  /** A guard's verdict on the request. */
  function Verdict(step: Step, rq: Request, tasks: map<TaskId, Task>, ownership: map<TaskId, UserId>): Guard
  {
    match step
    case RequireLogin => UserService.LoginCheck(rq.session)
    case RequireOwner => TaskService.CheckUser(rq.session, rq.idParam, tasks, ownership, rq.db)
  }

  /** gin's chain: each guard either calls Next or aborts with its response. */
  function Execute(guards: seq<Step>, handler: Handler, rq: Request, tasks: map<TaskId, Task>,
                   ownership: map<TaskId, UserId>): Outcome
  {
    if guards == [] then Handled(handler)
    else
      match Verdict(guards[0], rq, tasks, ownership)
      case Continue => Execute(guards[1..], handler, rq, tasks, ownership)
      case Abort(response) => Aborted(response)
  }

  /** Guard i is the first one to refuse the request. */
  ghost predicate FirstRefusal(guards: seq<Step>, rq: Request, tasks: map<TaskId, Task>,
                               ownership: map<TaskId, UserId>, i: int)
  {
    && 0 <= i < |guards|
    && Verdict(guards[i], rq, tasks, ownership) != Continue
    && forall j :: 0 <= j < i ==> Verdict(guards[j], rq, tasks, ownership) == Continue
  }

  /** A chain reaches its handler exactly when every guard lets the request
      through, and otherwise answers with the first refusing guard's response. */
  lemma {:induction false} ExecuteSound(guards: seq<Step>, handler: Handler, rq: Request,
                                        tasks: map<TaskId, Task>, ownership: map<TaskId, UserId>)
    ensures var o := Execute(guards, handler, rq, tasks, ownership);
      && (o.Handled? ==> o == Handled(handler))
      && (o.Handled? <==> forall i :: 0 <= i < |guards| ==> Verdict(guards[i], rq, tasks, ownership) == Continue)
      && (forall i :: FirstRefusal(guards, rq, tasks, ownership, i) ==>
            o == Aborted(Verdict(guards[i], rq, tasks, ownership).response))
  {
    if guards != [] {
      var tail := guards[1..];
      if Verdict(guards[0], rq, tasks, ownership) == Continue {
        ExecuteSound(tail, handler, rq, tasks, ownership);
        forall i | FirstRefusal(guards, rq, tasks, ownership, i)
          ensures FirstRefusal(tail, rq, tasks, ownership, i - 1)
        {
          forall j | 0 <= j < i - 1
            ensures Verdict(tail[j], rq, tasks, ownership) == Continue
          {
            assert tail[j] == guards[j + 1];
          }
        }
        if forall i :: 0 <= i < |tail| ==> Verdict(tail[i], rq, tasks, ownership) == Continue {
          forall i | 0 <= i < |guards|
            ensures Verdict(guards[i], rq, tasks, ownership) == Continue
          {
            if i > 0 { assert guards[i] == tail[i - 1]; }
          }
        } else {
          var k :| 0 <= k < |tail| && Verdict(tail[k], rq, tasks, ownership) != Continue;
          assert guards[k + 1] == tail[k];
        }
      } else {
        assert !(forall i :: 0 <= i < |guards| ==> Verdict(guards[i], rq, tasks, ownership) == Continue) by {
          assert Verdict(guards[0], rq, tasks, ownership) != Continue;
        }
      }
    }
  }

  /** The chain LoginCheck, CheckUser: no session is sent to the login page;
      with one, CheckUser's verdict decides. */
  lemma OwnerChain(handler: Handler, rq: Request, tasks: map<TaskId, Task>, ownership: map<TaskId, UserId>)
    ensures var o := Execute([RequireLogin, RequireOwner], handler, rq, tasks, ownership);
      && (rq.session.None? ==> o == Aborted(Redirect(LoginPage)))
      && (rq.session.Some? ==>
            o == if Verdict(RequireOwner, rq, tasks, ownership) == Continue then Handled(handler)
                 else Aborted(Verdict(RequireOwner, rq, tasks, ownership).response))
  {
    var guards := [RequireLogin, RequireOwner];
    if rq.session.Some? {
      assert Verdict(RequireLogin, rq, tasks, ownership) == Continue;
      assert guards[1..] == [RequireOwner];
      assert Execute(guards, handler, rq, tasks, ownership) == Execute([RequireOwner], handler, rq, tasks, ownership);
      assert [RequireOwner][1..] == [];
      assert Execute([], handler, rq, tasks, ownership) == Handled(handler);
    } else {
      assert Verdict(RequireLogin, rq, tasks, ownership) == Abort(Redirect(LoginPage));
    }
  }

  /** Through any route that names a task, a real user (ids start at 1)
      reaches the handler exactly when they own that existing task and the
      owner lookup succeeds, or when the connection is down; a client without
      a session is sent to the login page, anyone else is refused. */
  lemma TaskRouteNeedsOwner(r: Route, rq: Request, tasks: map<TaskId, Task>, ownership: map<TaskId, UserId>)
    requires r in EngineRoutes() && NamesTask(r.path)
    requires rq.session.None? || rq.session.value > 0
    requires forall t :: t in tasks ==> t > 0
    ensures var id := Atoi(rq.idParam).value;
      var o := Execute(r.guards, r.handler, rq, tasks, ownership);
      && (o == Handled(r.handler) <==>
            rq.session.Some? &&
            (!Connected(rq.db) ||
             (CallSucceeds(rq.db, 0) && id in tasks && id in ownership && ownership[id] == rq.session.value)))
      && (rq.session.None? ==> o == Aborted(Redirect(LoginPage)))
      && (rq.session.Some? && !o.Handled? ==> o == Aborted(Unauthorized))
  {
    TaskRoutesCheckOwner();
    assert r.guards == [RequireLogin, RequireOwner];
    OwnerChain(r.handler, rq, tasks, ownership);
    TaskService.CheckUserAdmitsOnlyOwner(rq.session, rq.idParam, tasks, ownership, rq.db);
  }
}
