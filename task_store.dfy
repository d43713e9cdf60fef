/** The task collection as the route handlers see it: a map from task id to task
    record, the filter object the list handler builds, and the two reads the list
    handler issues against it (`find(...).sort({ createdAt: -1 })` and
    `countDocuments(...)`). */
module TaskStore {
  import opened Http
  import opened Text

  type TaskId = nat

  /** A stored task: `_id`, the owning user, title, description, status and creation time. */
  datatype Task = Task(id: TaskId, owner: UserId, title: string, description: string, status: string, createdAt: Time)

  type Tasks = map<TaskId, Task>

  /** Every stored task carries its own key as its id. */
  predicate WellFormed(store: Tasks) {
    forall k :: k in store ==> store[k].id == k
  }

  /** The filter document: `{ user }`, plus `$or` over title/description when a search
      is given, plus `status` when a status is given. */
  datatype Query = Query(owner: UserId, search: Option<string>, status: Option<string>)

  /** What the database does with a filter document: every predicate present must hold.
      The two `$regex` predicates with option "i" are case-insensitive substring tests. */
  predicate Matches(q: Query, t: Task) {
    && t.owner == q.owner
    && (q.search.Some? ==>
          ContainsIgnoringCase(t.title, q.search.value) || ContainsIgnoringCase(t.description, q.search.value))
    && (q.status.Some? ==> t.status == q.status.value)
  }

  /** `sort({ createdAt: -1 })`: newest first. Tasks created at the same instant may come in any order. */
  predicate NewestFirst(r: seq<Task>) {
    forall i, j :: 0 <= i < j < |r| ==> r[i].createdAt >= r[j].createdAt
  }

  predicate DistinctIds(r: seq<Task>) {
    forall i, j :: 0 <= i < j < |r| ==> r[i].id != r[j].id
  }

  /** The ids a filter document selects. */
  function MatchingIds(store: Tasks, q: Query): set<TaskId> {
    set k | k in store && Matches(q, store[k])
  }

  /** `countDocuments(query)`. */
  function CountDocuments(store: Tasks, q: Query): nat {
    |MatchingIds(store, q)|
  }

  /** Where `t` goes in a newest-first sequence: after every task at least as new. */
  function InsertionPoint(r: seq<Task>, t: Task): (p: nat)
    ensures p <= |r|
    ensures forall j :: 0 <= j < p ==> r[j].createdAt >= t.createdAt
    ensures p < |r| ==> r[p].createdAt < t.createdAt
  {
    if r == [] || r[0].createdAt < t.createdAt then 0 else 1 + InsertionPoint(r[1..], t)
  }

  function InsertNewestFirst(r: seq<Task>, t: Task): (r': seq<Task>)
    requires NewestFirst(r)
    ensures NewestFirst(r')
    ensures |r'| == |r| + 1
    ensures forall x :: x in r' <==> x in r || x == t
  {
    var p := InsertionPoint(r, t);
    InsertionKeepsOrder(r, t, p);
    assert r == r[..p] + r[p..];
    r[..p] + [t] + r[p..]
  }

  /** `r'` is `r` with `t` placed at position `p`. */
  predicate PlacedAt(r: seq<Task>, t: Task, p: nat, r': seq<Task>) {
    && p <= |r| && |r'| == |r| + 1 && r'[p] == t
    && (forall a :: 0 <= a < p ==> r'[a] == r[a])
    && (forall a :: p < a < |r'| ==> r'[a] == r[a - 1])
  }

  /** Cutting `r` at `p` and putting `t` in between places `t` at `p`. */
  lemma PlacedAtSlices(r: seq<Task>, t: Task, p: nat)
    requires p <= |r|
    ensures PlacedAt(r, t, p, r[..p] + [t] + r[p..])
  {
  }

  /** Placing `t` at its insertion point keeps a newest-first sequence newest-first. */
  lemma InsertionKeepsOrder(r: seq<Task>, t: Task, p: nat)
    requires NewestFirst(r)
    requires p == InsertionPoint(r, t)
    ensures NewestFirst(r[..p] + [t] + r[p..])
  {
    PlacedAtSlices(r, t, p);
    PlacedKeepsOrder(r, t, p, r[..p] + [t] + r[p..]);
  }

  /** A task placed after every task at least as new and before the first older one keeps
      a sequence newest first. */
  lemma PlacedKeepsOrder(r: seq<Task>, t: Task, p: nat, r': seq<Task>)
    requires NewestFirst(r) && PlacedAt(r, t, p, r')
    requires forall j :: 0 <= j < p ==> r[j].createdAt >= t.createdAt
    requires p < |r| ==> r[p].createdAt < t.createdAt
    ensures NewestFirst(r')
  {
    forall i, j | 0 <= i < j < |r'| ensures r'[i].createdAt >= r'[j].createdAt {
      if j < p || p < i {
        var i0, j0 := if i < p then i else i - 1, if j < p then j else j - 1;
        assert r'[i] == r[i0] && r'[j] == r[j0];
      } else if i < p {
        assert r'[i] == r[i];
      } else if j > p {
        assert r'[j] == r[j - 1];
      }
    }
  }

  /** Placing a task whose id no task of the sequence has keeps the ids distinct. */
  lemma PlacedKeepsIdsDistinct(r: seq<Task>, t: Task, p: nat, r': seq<Task>)
    requires DistinctIds(r) && PlacedAt(r, t, p, r')
    requires forall x :: x in r ==> x.id != t.id
    ensures DistinctIds(r')
  {
    forall i, j | 0 <= i < j < |r'| ensures r'[i].id != r'[j].id {
      if j < p || p < i {
        var i0, j0 := if i < p then i else i - 1, if j < p then j else j - 1;
        assert r'[i] == r[i0] && r'[j] == r[j0];
      } else if i < p {
        assert r'[i] == r[i] && r[i] in r;
      } else if j > p {
        assert r'[j] == r[j - 1] && r[j - 1] in r;
      }
    }
  }

  /** Inserting a task whose id no task of the sequence has keeps the ids distinct. */
  lemma InsertKeepsIdsDistinct(r: seq<Task>, t: Task)
    requires NewestFirst(r) && DistinctIds(r)
    requires forall x :: x in r ==> x.id != t.id
    ensures DistinctIds(InsertNewestFirst(r, t))
  {
    var p := InsertionPoint(r, t);
    PlacedAtSlices(r, t, p);
    PlacedKeepsIdsDistinct(r, t, p, InsertNewestFirst(r, t));
  }

  /** The filter document as a test on one task. */
  function MatchFn(q: Query): Task -> bool {
    (t: Task) => Matches(q, t)
  }

  /** The ids among `store`'s keys outside `rest` whose task `keep` accepts. */
  function VisitedMatches(store: Tasks, keep: Task -> bool, rest: set<TaskId>): set<TaskId> {
    set k | k in store && k !in rest && keep(store[k])
  }

  /** What the loop of `Find` knows after visiting every id of `store` outside `rest`:
      `ranked` holds exactly the accepted tasks among them, newest first and each once. */
  ghost predicate Scanned(store: Tasks, keep: Task -> bool, rest: set<TaskId>, ranked: seq<Task>) {
    && rest <= store.Keys
    && NewestFirst(ranked) && DistinctIds(ranked)
    && (forall t :: t in ranked <==> t.id in store && t.id !in rest && store[t.id] == t && keep(t))
    && |ranked| == |VisitedMatches(store, keep, rest)|
  }

  /** `find(query).sort({ createdAt: -1 })`: every stored task the filter selects, each
      once, newest first. The database visits the collection in an order of its own;
      the loop takes the remaining ids in any order, so the order among tasks created
      at the same instant is left open, as it is by the database. */
  method Find(store: Tasks, q: Query) returns (ranked: seq<Task>)
    requires WellFormed(store)
    ensures NewestFirst(ranked) && DistinctIds(ranked)
    ensures forall t :: t in ranked <==> t.id in store && store[t.id] == t && Matches(q, t)
    ensures |ranked| == CountDocuments(store, q)
  {
    var keep := MatchFn(q);
    ranked := [];
    var rest := store.Keys;
    while rest != {}
      invariant Scanned(store, keep, rest, ranked)
      decreases |rest|
    {
      var k :| k in rest;
      ScanStep(store, keep, rest, ranked, k);
      if keep(store[k]) {
        ranked := InsertNewestFirst(ranked, store[k]);
      }
      rest := rest - {k};
    }
    assert VisitedMatches(store, keep, rest) == MatchingIds(store, q);
  }

  /** The sort leaves only ties open: two newest-first answers with distinct ids and the
      same tasks are the same sequence when no two of those tasks share a creation time.
      So every request against an unchanged store then gets the same ranking. */
  lemma {:induction false} RankingUnique(a: seq<Task>, b: seq<Task>)
    requires NewestFirst(a) && DistinctIds(a) && NewestFirst(b) && DistinctIds(b)
    requires forall t :: t in a <==> t in b
    requires DistinctTimes(a)
    ensures a == b
    decreases |a|
  {
    assert a != [] ==> a[0] in b;
    assert b != [] ==> b[0] in a;
    if a != [] && b != [] {
      FirstsAgree(a, b);
      RestAfterFirst(a);
      RestAfterFirst(b);
      RankingUnique(a[1..], b[1..]);
      assert a == [a[0]] + a[1..] && b == [b[0]] + b[1..];
    }
  }

  /** No two tasks of `r` share a creation time. */
  predicate DistinctTimes(r: seq<Task>) {
    forall i, j :: 0 <= i < j < |r| ==> r[i].createdAt != r[j].createdAt
  }

  /** Two newest-first answers with the same tasks and no tied times start alike. */
  lemma FirstsAgree(a: seq<Task>, b: seq<Task>)
    requires NewestFirst(a) && NewestFirst(b) && DistinctTimes(a)
    requires a != [] && b != [] && a[0] in b && b[0] in a
    ensures a[0] == b[0]
  {
    var i :| 0 <= i < |a| && a[i] == b[0];
    NewestComesFirst(b, a[0]);
    assert a[0].createdAt == a[i].createdAt;
  }

  /** The first task of a newest-first sequence is at least as new as any task in it. */
  lemma NewestComesFirst(r: seq<Task>, t: Task)
    requires NewestFirst(r) && t in r
    ensures r[0].createdAt >= t.createdAt
  {
    var i :| 0 <= i < |r| && r[i] == t;
  }

  /** Without duplicate ids, the tasks after the first are the others, and they keep
      every ordering property of the whole. */
  lemma RestAfterFirst(r: seq<Task>)
    requires DistinctIds(r) && r != []
    ensures NewestFirst(r) ==> NewestFirst(r[1..])
    ensures DistinctTimes(r) ==> DistinctTimes(r[1..])
    ensures DistinctIds(r[1..])
    ensures forall t :: t in r[1..] <==> t in r && t != r[0]
  {
    forall t | t in r[1..] ensures t != r[0] {
      var k :| 0 <= k < |r| - 1 && r[1..][k] == t;
      assert r[k + 1] == t;
    }
  }

  /** With a tie in creation time the sort does not decide: two tasks created at the same
      instant make two different newest-first answers with the same tasks. */
  lemma TiesLeaveRankingOpen(t1: Task, t2: Task)
    requires t1.createdAt == t2.createdAt && t1.id != t2.id
    ensures NewestFirst([t1, t2]) && DistinctIds([t1, t2])
    ensures NewestFirst([t2, t1]) && DistinctIds([t2, t1])
    ensures forall t :: t in [t1, t2] <==> t in [t2, t1]
    ensures [t1, t2] != [t2, t1]
  {
    assert [t1, t2][0] != [t2, t1][0];
  }

  /** Visiting one more id keeps what the loop knows. */
  lemma ScanStep(store: Tasks, keep: Task -> bool, rest: set<TaskId>, ranked: seq<Task>, k: TaskId)
    requires WellFormed(store) && Scanned(store, keep, rest, ranked) && k in rest
    ensures keep(store[k]) ==> Scanned(store, keep, rest - {k}, InsertNewestFirst(ranked, store[k]))
    ensures !keep(store[k]) ==> Scanned(store, keep, rest - {k}, ranked)
  {
    VisitOne(store, keep, rest, k);
    if keep(store[k]) {
      InsertKeepsIdsDistinct(ranked, store[k]);
    }
  }

  /** Visiting one more id adds it to the visited matches exactly when `keep` accepts its task. */
  lemma VisitOne(store: Tasks, keep: Task -> bool, rest: set<TaskId>, k: TaskId)
    requires k in rest && k in store
    ensures keep(store[k]) ==> VisitedMatches(store, keep, rest - {k}) == VisitedMatches(store, keep, rest) + {k}
    ensures keep(store[k]) ==> k !in VisitedMatches(store, keep, rest)
    ensures !keep(store[k]) ==> VisitedMatches(store, keep, rest - {k}) == VisitedMatches(store, keep, rest)
  {
  }

  /** The tasks of user `u`. */
  function TasksOf(store: Tasks, u: UserId): map<TaskId, Task> {
    map k | k in store && store[k].owner == u :: store[k]
  }

  /** A write on behalf of `caller` left the other users' tasks alone: none of them was
      changed or removed, and none appeared. */
  predicate OthersUntouched(store: Tasks, store': Tasks, caller: UserId) {
    && (forall k :: k in store && store[k].owner != caller ==> k in store' && store'[k] == store[k])
    && (forall k :: k in store' && store'[k].owner != caller ==> k in store && store[k] == store'[k])
  }

  /** Storing a task under a new id adds exactly one task. */
  lemma AddOneMore(store: Tasks, id: TaskId, t: Task)
    requires id !in store
    ensures store[id := t].Keys == store.Keys + {id}
    ensures |store[id := t]| == |store| + 1
  {
  }

  /** Adding, replacing or removing one of the caller's own tasks, keeping it the caller's,
      leaves the other users' tasks alone. */
  lemma OwnWriteKeepsOthers(store: Tasks, caller: UserId, id: TaskId, t: Task)
    requires id in store ==> store[id].owner == caller
    requires t.owner == caller
    ensures OthersUntouched(store, store[id := t], caller)
    ensures OthersUntouched(store, store - {id}, caller)
  {
  }

  /** When a write leaves the other users' tasks alone, every other user sees exactly
      the tasks they saw before. */
  lemma OthersSeeNoChange(store: Tasks, store': Tasks, caller: UserId, u: UserId)
    requires OthersUntouched(store, store', caller)
    requires u != caller
    ensures TasksOf(store', u) == TasksOf(store, u)
  {
    assert TasksOf(store', u).Keys == TasksOf(store, u).Keys;
  }
}
