/** The task routes: list with search, status filter and paging; get, create, update
    and delete of a single task. Each handler receives the id of the authenticated
    caller (resolved by the `protect` middleware) and the request fields. `fault`
    stands for the database raising an error while the request is served, which the
    handler's `catch` turns into 500 "Server error". Validation runs before the
    `try`, so a rejected body is answered with 400 whatever the database does. */
module TaskRoutes {
  import opened Http
  import opened Text
  import opened Paging
  import opened TaskStore

  const DefaultPage: nat := 1
  const DefaultLimit: nat := 10

  /** The `pagination` block of the list reply. */
  datatype PageInfo = PageInfo(page: nat, limit: nat, total: nat, pages: nat)

  datatype TaskPage = TaskPage(data: seq<Task>, pagination: PageInfo)

  /** A query-string value that was not given takes its default. */
  function OrDefault(v: Option<nat>, default: nat): nat {
    if v.Some? then v.value else default
  }

  /** The list selection stated on the request itself: the caller's own task, containing
      the search text (in any case) in its title or description when a search is given,
      and having exactly the requested status when a status is given. An empty search
      or status is falsy in the handler and restricts nothing. */
  predicate Selected(caller: UserId, search: string, status: string, t: Task) {
    && t.owner == caller
    && (search != "" ==> ContainsIgnoringCase(t.title, search) || ContainsIgnoringCase(t.description, search))
    && (status != "" ==> t.status == status)
  }

  /** Builds the filter document as the handler does: the owner predicate first, then the
      search and status predicates only when those are given. The document selects exactly
      the tasks `Selected` describes. */
  method BuildQuery(caller: UserId, search: string, status: string) returns (q: Query)
    ensures q.owner == caller
    ensures forall t :: Matches(q, t) <==> Selected(caller, search, status, t)
  {
    q := Query(caller, None, None);
    if search != "" {
      q := q.(search := Some(search));
    }
    if status != "" {
      q := q.(status := Some(status));
    }
  }

  /** GET /api/tasks. The ghost `ranked` is the database's ordered answer to the filter,
      of which the reply shows one window; `total` and `pages` describe all of it. */
  method ListTasks(store: Tasks, caller: UserId, search: string, status: string,
                   page: Option<nat>, limit: Option<nat>, fault: bool)
    returns (reply: Reply<TaskPage>, ghost ranked: seq<Task>)
    requires WellFormed(store)
    requires page.Some? ==> page.value >= 1
    requires limit.Some? ==> limit.value >= 1
    ensures fault ==> reply == ServerError()
    ensures !fault ==>
      var p, l := OrDefault(page, DefaultPage), OrDefault(limit, DefaultLimit);
      && reply.status == 200
      && reply.body == Success(TaskPage(Window(ranked, p, l), PageInfo(p, l, |ranked|, CeilDiv(|ranked|, l))))
    ensures !fault ==> NewestFirst(ranked) && DistinctIds(ranked)
    ensures !fault ==> forall t :: t in ranked <==> t.id in store && store[t.id] == t && Selected(caller, search, status, t)
    ensures reply.body.Success? ==> forall t :: t in reply.body.data.data ==> t.owner == caller && t in store.Values
  {
    ranked := [];
    if fault {
      return ServerError(), ranked;
    }
    var q := BuildQuery(caller, search, status);
    var p, l := OrDefault(page, DefaultPage), OrDefault(limit, DefaultLimit);
    var found := Find(store, q);
    ranked := found;
    var items := Window(found, p, l);
    var total := CountDocuments(store, q);
    reply := Reply(200, Success(TaskPage(items, PageInfo(p, l, total, CeilDiv(total, l)))));
    WindowWithin(found, p, l);
  }

  /** Outcome of looking a task up for the caller: absence is decided before ownership. */
  datatype Access = Missing | Forbidden | Granted(task: Task)

  /** `findById` followed by the ownership check. */
  function CheckAccess(store: Tasks, caller: UserId, id: TaskId): (a: Access)
    ensures a == Missing <==> id !in store
    ensures a == Forbidden <==> id in store && store[id].owner != caller
    ensures a.Granted? <==> id in store && store[id].owner == caller
    ensures a.Granted? ==> a.task == store[id]
  {
    if id !in store then Missing
    else if store[id].owner != caller then Forbidden
    else Granted(store[id])
  }

  /** The reply to a refused lookup. */
  function Denied<T>(a: Access): (r: Reply<T>)
    requires !a.Granted?
    ensures a == Missing ==> r == Reply(404, Failure("Task not found"))
    ensures a == Forbidden ==> r == Reply(401, Failure("Not authorized"))
  {
    if a == Missing then Reply(404, Failure("Task not found")) else Reply(401, Failure("Not authorized"))
  }

  /** GET /api/tasks/:id. */
  function GetTask(store: Tasks, caller: UserId, id: TaskId, fault: bool): (reply: Reply<Task>)
    ensures fault ==> reply == ServerError()
    ensures !fault && id !in store ==> reply == Reply(404, Failure("Task not found"))
    ensures !fault && id in store && store[id].owner != caller ==> reply == Reply(401, Failure("Not authorized"))
    ensures reply.status == 200 <==> !fault && id in store && store[id].owner == caller
    ensures reply.status == 200 ==> reply.body == Success(store[id])
  {
    if fault then ServerError()
    else
      var a := CheckAccess(store, caller, id);
      if a.Granted? then Reply(200, Success(a.task)) else Denied(a)
  }

  /** The fields of a POST body the handler reads. */
  datatype NewTask = NewTask(title: string, description: string, status: Option<string>)

  /** The status a task gets when the body gives none (the Task schema's default). */
  const DefaultStatus: string := "pending"

  /** The two `not().isEmpty()` checks on title and description, in that order. */
  function TaskErrors(title: string, description: string): (errors: seq<FieldError>)
    ensures errors == [] <==> title != "" && description != ""
    ensures |errors| <= 2
  {
    Check(title != "", "title", "Title is required") + Check(description != "", "description", "Description is required")
  }

  /** POST /api/tasks. `newId` and `now` are the id and the timestamp the database assigns. */
  method CreateTask(store: Tasks, caller: UserId, body: NewTask, newId: TaskId, now: Time, fault: bool)
    returns (reply: Reply<Task>, store': Tasks)
    requires WellFormed(store)
    requires newId !in store
    ensures WellFormed(store')
    ensures OthersUntouched(store, store', caller)
    ensures TaskErrors(body.title, body.description) != [] ==>
              reply == Invalid(TaskErrors(body.title, body.description)) && store' == store
    ensures TaskErrors(body.title, body.description) == [] && fault ==> reply == ServerError() && store' == store
    ensures reply.status == 201 <==> TaskErrors(body.title, body.description) == [] && !fault
    ensures reply.status == 201 ==>
      var t := Task(newId, caller, body.title, body.description,
                    if body.status.Some? then body.status.value else DefaultStatus, now);
      && reply.body == Success(t)
      && store' == store[newId := t]
      && store'.Keys == store.Keys + {newId}
      && |store'| == |store| + 1
  {
    var errors := TaskErrors(body.title, body.description);
    if errors != [] {
      return Invalid(errors), store;
    }
    if fault {
      return ServerError(), store;
    }
    var status := if body.status.Some? then body.status.value else DefaultStatus;
    var t := Task(newId, caller, body.title, body.description, status, now);
    store' := store[newId := t];
    OwnWriteKeepsOthers(store, caller, newId, t);
    AddOneMore(store, newId, t);
    reply := Reply(201, Success(t));
  }

  /** The fields of a PUT body the model follows: title and description (both validated),
      and optionally a status and an owner (`user`). */
  datatype TaskUpdate = TaskUpdate(title: string, description: string, status: Option<string>, user: Option<UserId>)

  /** `findByIdAndUpdate(id, req.body)` as written: every field of the body is set on the
      stored task, the owner included. */
  function ApplyBodyAsWritten(t: Task, body: TaskUpdate): (r: Task)
    ensures r.id == t.id && r.createdAt == t.createdAt
    ensures r.title == body.title && r.description == body.description
    ensures r.status == (if body.status.Some? then body.status.value else t.status)
    ensures r.owner == (if body.user.Some? then body.user.value else t.owner)
  {
    t.(title := body.title, description := body.description,
       status := if body.status.Some? then body.status.value else t.status,
       owner := if body.user.Some? then body.user.value else t.owner)
  }

  /** The update with the owner left out of the body: only title, description and status
      can change. */
  function ApplyBody(t: Task, body: TaskUpdate): (r: Task)
    ensures r.id == t.id && r.owner == t.owner && r.createdAt == t.createdAt
    ensures r.title == body.title && r.description == body.description
    ensures r.status == (if body.status.Some? then body.status.value else t.status)
  {
    t.(title := body.title, description := body.description,
       status := if body.status.Some? then body.status.value else t.status)
  }

  /** As written, the owner of a task can hand it to any other user by naming them in
      `user`: the task leaves the owner's list and appears in the other user's. */
  lemma AsWrittenUpdateMovesTask(store: Tasks, caller: UserId, id: TaskId, body: TaskUpdate)
    requires WellFormed(store)
    requires id in store && store[id].owner == caller
    requires body.user.Some? && body.user.value != caller
    ensures var store' := store[id := ApplyBodyAsWritten(store[id], body)];
            && !OthersUntouched(store, store', caller)
            && id in TasksOf(store', body.user.value) && id !in TasksOf(store, body.user.value)
  {
    var store' := store[id := ApplyBodyAsWritten(store[id], body)];
    assert store'[id].owner == body.user.value;
    assert id in store' && store'[id].owner != caller && !(store[id] == store'[id]);
  }

  /** PUT /api/tasks/:id exactly as written: the body reaches the database unfiltered. */
  method UpdateTaskAsWritten(store: Tasks, caller: UserId, id: TaskId, body: TaskUpdate, fault: bool)
    returns (reply: Reply<Task>, store': Tasks)
    requires WellFormed(store)
    ensures WellFormed(store')
    ensures TaskErrors(body.title, body.description) != [] ==>
              reply == Invalid(TaskErrors(body.title, body.description)) && store' == store
    ensures reply.status == 200 <==>
              TaskErrors(body.title, body.description) == [] && !fault && id in store && store[id].owner == caller
    ensures reply.status == 200 ==>
              store' == store[id := ApplyBodyAsWritten(store[id], body)] && reply.body == Success(store'[id])
    ensures reply.status != 200 ==> store' == store
  {
    var errors := TaskErrors(body.title, body.description);
    if errors != [] {
      return Invalid(errors), store;
    }
    if fault {
      return ServerError(), store;
    }
    var a := CheckAccess(store, caller, id);
    if !a.Granted? {
      return Denied(a), store;
    }
    var t := ApplyBodyAsWritten(a.task, body);
    store' := store[id := t];
    reply := Reply(200, Success(t));
  }

  /** PUT /api/tasks/:id with the owner kept out of the body. Precedence: 400 on an empty
      title or description, then 500 on a database error, then 404 for an absent id, then
      401 for another user's task; otherwise exactly that task gets the body's fields. */
  method UpdateTask(store: Tasks, caller: UserId, id: TaskId, body: TaskUpdate, fault: bool)
    returns (reply: Reply<Task>, store': Tasks)
    requires WellFormed(store)
    ensures WellFormed(store')
    ensures OthersUntouched(store, store', caller)
    ensures TaskErrors(body.title, body.description) != [] ==>
              reply == Invalid(TaskErrors(body.title, body.description)) && store' == store
    ensures TaskErrors(body.title, body.description) == [] && fault ==> reply == ServerError() && store' == store
    ensures TaskErrors(body.title, body.description) == [] && !fault && id !in store ==>
              reply == Reply(404, Failure("Task not found")) && store' == store
    ensures TaskErrors(body.title, body.description) == [] && !fault && id in store && store[id].owner != caller ==>
              reply == Reply(401, Failure("Not authorized")) && store' == store
    ensures reply.status == 200 <==>
              TaskErrors(body.title, body.description) == [] && !fault && id in store && store[id].owner == caller
    ensures reply.status == 200 ==>
              && store' == store[id := ApplyBody(store[id], body)]
              && reply.body == Success(store'[id])
              && store'.Keys == store.Keys
              && forall k :: k in store && k != id ==> store'[k] == store[k]
  {
    var errors := TaskErrors(body.title, body.description);
    if errors != [] {
      return Invalid(errors), store;
    }
    if fault {
      return ServerError(), store;
    }
    var a := CheckAccess(store, caller, id);
    if !a.Granted? {
      return Denied(a), store;
    }
    var t := ApplyBody(a.task, body);
    OwnWriteKeepsOthers(store, caller, id, t);
    store' := store[id := t];
    reply := Reply(200, Success(t));
  }

  /** DELETE /api/tasks/:id. The reply data is the empty object. */
  method DeleteTask(store: Tasks, caller: UserId, id: TaskId, fault: bool)
    returns (reply: Reply<()>, store': Tasks)
    requires WellFormed(store)
    ensures WellFormed(store')
    ensures OthersUntouched(store, store', caller)
    ensures fault ==> reply == ServerError() && store' == store
    ensures !fault && id !in store ==> reply == Reply(404, Failure("Task not found")) && store' == store
    ensures !fault && id in store && store[id].owner != caller ==>
              reply == Reply(401, Failure("Not authorized")) && store' == store
    ensures reply.status == 200 <==> !fault && id in store && store[id].owner == caller
    ensures reply.status == 200 ==>
              && reply.body == Success(())
              && store'.Keys == store.Keys - {id}
              && forall k :: k in store' ==> store'[k] == store[k]
  {
    if fault {
      return ServerError(), store;
    }
    var a := CheckAccess(store, caller, id);
    if !a.Granted? {
      return Denied(a), store;
    }
    OwnWriteKeepsOthers(store, caller, id, a.task);
    store' := store - {id};
    reply := Reply(200, Success(()));
  }

  /** Deleting the same task twice: the first delete succeeds, the second finds nothing. */
  method DeleteTwice(store: Tasks, caller: UserId, id: TaskId) returns (first: Reply<()>, second: Reply<()>)
    requires WellFormed(store)
    requires id in store && store[id].owner == caller
    ensures first == Reply(200, Success(()))
    ensures second == Reply(404, Failure("Task not found"))
  {
    var store1, store2;
    first, store1 := DeleteTask(store, caller, id, false);
    second, store2 := DeleteTask(store1, caller, id, false);
  }

  /** A task just created is readable by its creator and refused to everyone else. */
  method CreateThenGet(store: Tasks, caller: UserId, other: UserId, body: NewTask, newId: TaskId, now: Time)
    returns (mine: Reply<Task>, theirs: Reply<Task>)
    requires WellFormed(store) && newId !in store
    requires body.title != "" && body.description != ""
    requires other != caller
    ensures mine.status == 200 && mine.body.Success? && mine.body.data.owner == caller
    ensures mine.body.data.title == body.title && mine.body.data.description == body.description
    ensures theirs == Reply(401, Failure("Not authorized"))
  {
    var created, store' := CreateTask(store, caller, body, newId, now, false);
    mine := GetTask(store', caller, newId, false);
    theirs := GetTask(store', other, newId, false);
  }

  /** Three matching tasks, one per page: page 2 holds one task and there are three pages. */
  lemma {:induction false} OnePerPageOfThree(ranked: seq<Task>)
    requires |ranked| == 3
    ensures Window(ranked, 2, 1) == [ranked[1]]
    ensures CeilDiv(|ranked|, 1) == 3
  {
    assert CeilDiv(3, 1) == 1 + CeilDiv(2, 1);
    assert CeilDiv(2, 1) == 1 + CeilDiv(1, 1);
  }
}
