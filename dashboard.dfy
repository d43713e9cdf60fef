/** The client-side task list of the dashboard page: the tasks and the form inputs held
    in component state, the filtered view, the three task actions and the statistics. */
module Dashboard {
  import opened Http
  import opened Text

  datatype Priority = Low | Medium | High

  /** The string the page stores and compares for a priority. */
  function PriorityName(p: Priority): string {
    match p
    case Low => "low"
    case Medium => "medium"
    case High => "high"
  }

  /** A task on the page; `dueDate` is absent when none was entered. */
  datatype Item = Item(id: string, title: string, description: string, completed: bool,
                       priority: Priority, category: string, dueDate: Option<string>, createdAt: string)

  /** `tasks.filter(keep)`: the tasks that satisfy `keep`, in their original order. */
  function Select(s: seq<Item>, keep: Item -> bool): (r: seq<Item>)
    ensures |r| <= |s|
  {
    if s == [] then []
    else Select(s[..|s| - 1], keep) + (if keep(s[|s| - 1]) then [s[|s| - 1]] else [])
  }

  /** The selection holds exactly the tasks of `s` that `keep` accepts. */
  lemma {:induction false} SelectMembers(s: seq<Item>, keep: Item -> bool)
    ensures forall t :: t in Select(s, keep) <==> t in s && keep(t)
  {
    if s != [] {
      var front, last := s[..|s| - 1], s[|s| - 1];
      SelectMembers(front, keep);
      assert s == front + [last];
    }
  }

  /** The positions of `s` that `keep` accepts, in increasing order. */
  function KeptPositions(s: seq<Item>, keep: Item -> bool): (idx: seq<nat>)
    ensures forall i :: 0 <= i < |idx| ==> idx[i] < |s| && keep(s[idx[i]])
    ensures forall i, j :: 0 <= i < j < |idx| ==> idx[i] < idx[j]
    ensures forall p :: 0 <= p < |s| && keep(s[p]) ==> p in idx
  {
    if s == [] then []
    else
      var front := s[..|s| - 1];
      var idx := KeptPositions(front, keep);
      assert forall i :: 0 <= i < |idx| ==> s[idx[i]] == front[idx[i]];
      idx + (if keep(s[|s| - 1]) then [|s| - 1] else [])
  }

  /** The selection is exactly the accepted tasks, each at its own position of `s`, in the
      order they have in `s`: filtering never reorders. */
  lemma {:induction false} SelectKeepsOrder(s: seq<Item>, keep: Item -> bool)
    ensures |Select(s, keep)| == |KeptPositions(s, keep)|
    ensures forall i :: 0 <= i < |Select(s, keep)| ==> Select(s, keep)[i] == s[KeptPositions(s, keep)[i]]
  {
    if s != [] {
      var front, last := s[..|s| - 1], s[|s| - 1];
      SelectKeepsOrder(front, keep);
      var sf, kf := Select(front, keep), KeptPositions(front, keep);
      var r, idx := Select(s, keep), KeptPositions(s, keep);
      assert r == sf + (if keep(last) then [last] else []);
      assert idx == kf + (if keep(last) then [|s| - 1] else []);
      forall i | 0 <= i < |r| ensures r[i] == s[idx[i]] {
        if i < |sf| {
          assert r[i] == sf[i] && idx[i] == kf[i] && kf[i] < |front|;
        }
      }
    }
  }

  /** A predicate that accepts every task selects the whole list. */
  lemma {:induction false} SelectAll(s: seq<Item>, keep: Item -> bool)
    requires forall t :: t in s ==> keep(t)
    ensures Select(s, keep) == s
  {
    if s != [] {
      var front, last := s[..|s| - 1], s[|s| - 1];
      assert s == front + [last];
      assert last in s;
      forall t | t in front ensures keep(t) {
        assert t in s;
      }
      SelectAll(front, keep);
    }
  }

  /** A predicate that accepts no task selects nothing. */
  lemma {:induction false} SelectNone(s: seq<Item>, keep: Item -> bool)
    requires forall t :: t in s ==> !keep(t)
    ensures Select(s, keep) == []
  {
    if s != [] {
      var front, last := s[..|s| - 1], s[|s| - 1];
      assert s == front + [last];
      assert last in s;
      forall t | t in front ensures !keep(t) {
        assert t in s;
      }
      SelectNone(front, keep);
    }
  }

  /** Two predicates that agree on the tasks select the same list. */
  lemma {:induction false} SelectAgree(s: seq<Item>, p: Item -> bool, q: Item -> bool)
    requires forall t :: t in s ==> p(t) == q(t)
    ensures Select(s, p) == Select(s, q)
  {
    if s != [] {
      var front := s[..|s| - 1];
      assert forall t :: t in front ==> t in s;
      SelectAgree(front, p, q);
    }
  }

  /** The search box and the three drop-downs. */
  datatype Filters = Filters(search: string, category: string, priority: string, status: string)

  /** The four conditions of `filteredTasks`, all of which must hold. */
  predicate Keep(t: Item, f: Filters) {
    && (ContainsIgnoringCase(t.title, f.search) || ContainsIgnoringCase(t.description, f.search))
    && (f.category == "All" || t.category == f.category)
    && (f.priority == "All" || PriorityName(t.priority) == f.priority)
    && (f.status == "All" || (f.status == "Completed" && t.completed) || (f.status == "Pending" && !t.completed))
  }

  function KeepFn(f: Filters): Item -> bool {
    (t: Item) => Keep(t, f)
  }

  /** `filteredTasks`: never longer than the list; `FilteredIff` says which tasks it holds. */
  function Filtered(s: seq<Item>, f: Filters): (r: seq<Item>)
    ensures |r| <= |s|
  {
    Select(s, KeepFn(f))
  }

  /** A task is shown exactly when it is in the list and passes all four conditions. */
  lemma FilteredIff(s: seq<Item>, f: Filters, t: Item)
    ensures t in Filtered(s, f) <==> t in s && Keep(t, f)
  {
    SelectMembers(s, KeepFn(f));
  }

  /** The filters the page starts with (empty search, every drop-down on "All") show every
      task, in order. */
  lemma FilteredUnfiltered(s: seq<Item>)
    ensures Filtered(s, Filters("", "All", "All", "All")) == s
  {
    forall t | t in s ensures KeepFn(Filters("", "All", "All", "All"))(t) {
      ContainsEmpty(Lower(t.title));
    }
    SelectAll(s, KeepFn(Filters("", "All", "All", "All")));
  }

  /** "Completed" shows only completed tasks and "Pending" only open ones. */
  lemma FilteredByStatus(s: seq<Item>, f: Filters)
    ensures f.status == "Completed" ==> forall t :: t in Filtered(s, f) ==> t.completed
    ensures f.status == "Pending" ==> forall t :: t in Filtered(s, f) ==> !t.completed
    ensures f.status != "All" && f.status != "Completed" && f.status != "Pending" ==> Filtered(s, f) == []
  {
    SelectMembers(s, KeepFn(f));
    if f.status != "All" && f.status != "Completed" && f.status != "Pending" {
      SelectNone(s, KeepFn(f));
    }
  }

  /** A task added at the end shows up at the end of the view, when it passes the filters. */
  lemma {:induction false} FilteredAppend(s: seq<Item>, f: Filters, t: Item)
    ensures Filtered(s + [t], f) == Filtered(s, f) + (if Keep(t, f) then [t] else [])
  {
    assert (s + [t])[..|s + [t]| - 1] == s;
  }

  /** One task of `toggleTask`: only its `completed` flag may change, and it changes
      exactly when the task has this id. */
  function Flip(t: Item, id: string): (r: Item)
    ensures r.(completed := t.completed) == t
    ensures r.completed != t.completed <==> t.id == id
  {
    if t.id == id then t.(completed := !t.completed) else t
  }

  /** `tasks.map(...)` in `toggleTask`: the tasks with this id change their `completed` flag,
      every other field and every other task stays, and so do length and order. */
  function Toggled(s: seq<Item>, id: string): (r: seq<Item>)
    ensures |r| == |s|
    ensures forall i :: 0 <= i < |s| && s[i].id != id ==> r[i] == s[i]
    ensures forall i :: 0 <= i < |s| && s[i].id == id ==> r[i] == s[i].(completed := !s[i].completed)
  {
    if s == [] then [] else Toggled(s[..|s| - 1], id) + [Flip(s[|s| - 1], id)]
  }

  /** Toggling the same id twice restores the list. */
  lemma ToggleTwice(s: seq<Item>, id: string)
    ensures Toggled(Toggled(s, id), id) == s
  {
    var r := Toggled(Toggled(s, id), id);
    assert forall i :: 0 <= i < |s| ==> r[i] == s[i];
  }

  function Done(t: Item): bool {
    t.completed
  }

  function OtherId(id: string): Item -> bool {
    (t: Item) => t.id != id
  }

  /** `tasks.filter(task => task.id !== id)` in `deleteTask`. */
  function Without(s: seq<Item>, id: string): (r: seq<Item>)
    ensures forall t :: t in r <==> t in s && t.id != id
  {
    SelectMembers(s, OtherId(id));
    Select(s, OtherId(id))
  }

  /** Deleting keeps the remaining tasks in the order they had: the result is the tasks
      with another id, each at its own position of `s`, positions increasing. */
  lemma WithoutKeepsOrder(s: seq<Item>, id: string)
    ensures |Without(s, id)| == |KeptPositions(s, OtherId(id))|
    ensures forall i :: 0 <= i < |Without(s, id)| ==> Without(s, id)[i] == s[KeptPositions(s, OtherId(id))[i]]
  {
    SelectKeepsOrder(s, OtherId(id));
  }

  /** Deleting an id no task has changes nothing. */
  lemma WithoutAbsent(s: seq<Item>, id: string)
    requires forall t :: t in s ==> t.id != id
    ensures Without(s, id) == s
  {
    SelectAll(s, OtherId(id));
  }

  /** `completedTasks`: never more than `totalTasks`. */
  function CompletedCount(s: seq<Item>): (r: nat)
    ensures r <= |s|
  {
    |Select(s, Done)|
  }

  /** The counter counts the completed tasks: all of them when every task is completed,
      none when no task is. */
  lemma CompletedCountExtremes(s: seq<Item>)
    ensures (forall t :: t in s ==> t.completed) ==> CompletedCount(s) == |s|
    ensures (forall t :: t in s ==> !t.completed) ==> CompletedCount(s) == 0
  {
    if forall t :: t in s ==> t.completed {
      SelectAll(s, Done);
    }
    if forall t :: t in s ==> !t.completed {
      SelectNone(s, Done);
    }
  }

  /** The "Completed" view with no other filter holds as many tasks as the counter says. */
  lemma CompletedViewMatchesCounter(s: seq<Item>)
    ensures |Filtered(s, Filters("", "All", "All", "Completed"))| == CompletedCount(s)
  {
    forall t | t in s ensures KeepFn(Filters("", "All", "All", "Completed"))(t) == Done(t) {
      ContainsEmpty(Lower(t.title));
    }
    SelectAgree(s, KeepFn(Filters("", "All", "All", "Completed")), Done);
  }

  /** `Math.round(completed / total * 100)` for 0 <= completed <= total, or 0 without tasks:
      the nearest whole percentage, halves rounded up. */
  function Rate(completed: nat, total: nat): (r: nat)
    requires completed <= total
    ensures total == 0 ==> r == 0
    ensures r <= 100
    ensures total > 0 ==> 2 * r * total <= 200 * completed + total < 2 * r * total + 2 * total
    ensures total > 0 && completed == total ==> r == 100
    ensures completed == 0 ==> r == 0
  {
    if total == 0 then 0
    else
      var n, d := 200 * completed + total, 2 * total;
      var r := n / d;
      RoundedDivision(n, d);
      assert r * d == 2 * r * total;
      assert n < 101 * d;
      LessAfterScaling(r, 101, d);
      assert completed == total ==> 100 * d <= n;
      assert completed == total ==> 100 * d < (r + 1) * d;
      LessAfterScaling(100, r + 1, d);
      assert completed == 0 ==> r * d < 1 * d;
      LessAfterScaling(r, 1, d);
      r
  }

  /** Integer division rounds down: q * d <= n < q * d + d. */
  lemma RoundedDivision(n: nat, d: nat)
    requires d > 0
    ensures (n / d) * d <= n < (n / d) * d + d
  {
  }

  /** Scaling by a positive factor keeps a strict order: a * d < b * d gives a < b. */
  lemma LessAfterScaling(a: int, b: int, d: nat)
    requires d > 0
    ensures a * d < b * d ==> a < b
  {
    assert (b - a) * d == b * d - a * d;
  }

  /** `completionRate`: a percentage, 0 without tasks or without completed tasks, 100
      when all are completed, otherwise the share of completed tasks to the nearest
      whole percent. */
  function CompletionRate(s: seq<Item>): (r: nat)
    ensures r <= 100
    ensures s == [] || CompletedCount(s) == 0 ==> r == 0
    ensures s != [] && CompletedCount(s) == |s| ==> r == 100
    ensures s != [] ==> 2 * r * |s| <= 200 * CompletedCount(s) + |s| < 2 * r * |s| + 2 * |s|
  {
    Rate(CompletedCount(s), |s|)
  }

  /** The page: task list and form inputs as component state. The `showCompleted` and
      `darkMode` flags only affect rendering and are not part of this model. */
  class DashboardPage {
    var tasks: seq<Item>
    var newTaskTitle: string
    var newTaskDescription: string
    var newTaskPriority: Priority
    var newTaskCategory: string
    var newTaskDueDate: string
    var searchTerm: string
    var filterCategory: string
    var filterPriority: string
    var filterStatus: string

    /** The initial state: two sample tasks created `now`, empty inputs, priority "medium",
        category "Other", no filter. */
    constructor (now: string)
      ensures |tasks| == 2 && tasks[0].id == "1" && tasks[1].id == "2"
      ensures !tasks[0].completed && tasks[1].completed
      ensures newTaskTitle == "" && newTaskDescription == "" && newTaskDueDate == ""
      ensures newTaskPriority == Medium && newTaskCategory == "Other"
      ensures searchTerm == "" && filterCategory == "All" && filterPriority == "All" && filterStatus == "All"
    {
      tasks := [
        Item("1", "Complete project proposal", "Write and finalize the Q1 project proposal", false,
             High, "Work", Some("2024-01-15"), now),
        Item("2", "Buy groceries", "Weekly grocery shopping", true, Medium, "Shopping", None, now)
      ];
      newTaskTitle, newTaskDescription, newTaskPriority, newTaskCategory, newTaskDueDate := "", "", Medium, "Other", "";
      searchTerm, filterCategory, filterPriority, filterStatus := "", "All", "All", "All";
    }

    function CurrentFilters(): Filters
      reads this
    {
      Filters(searchTerm, filterCategory, filterPriority, filterStatus)
    }

    /** `filteredTasks`. */
    function FilteredTasks(): (r: seq<Item>)
      reads this
      ensures forall t :: t in r <==> t in tasks && Keep(t, CurrentFilters())
    {
      SelectMembers(tasks, KeepFn(CurrentFilters()));
      Filtered(tasks, CurrentFilters())
    }

    /** `completionRate`. */
    function CompletionPercent(): (r: nat)
      reads this
      ensures r <= 100
      ensures tasks == [] ==> r == 0
    {
      CompletionRate(tasks)
    }

    /** `addTask`. A title that is empty after trimming (blank, by `TrimEmptyIffBlank`)
        does nothing. Otherwise the new task (untrimmed title, not completed, the selected priority and category, the due date
        when one was entered) goes to the end of the list, and title, description and due
        date are cleared while priority and category keep their values. */
    method AddTask(newId: string, now: string)
      modifies this
      ensures IsBlank(old(newTaskTitle)) ==> unchanged(this)
      ensures !IsBlank(old(newTaskTitle)) ==>
        && tasks == old(tasks) + [Item(newId, old(newTaskTitle), old(newTaskDescription), false,
                                       old(newTaskPriority), old(newTaskCategory),
                                       if old(newTaskDueDate) == "" then None else Some(old(newTaskDueDate)), now)]
        && newTaskTitle == "" && newTaskDescription == "" && newTaskDueDate == ""
        && newTaskPriority == old(newTaskPriority) && newTaskCategory == old(newTaskCategory)
        && searchTerm == old(searchTerm) && filterCategory == old(filterCategory)
        && filterPriority == old(filterPriority) && filterStatus == old(filterStatus)
    {
      if IsBlank(newTaskTitle) {
        return;
      }
      var task := Item(newId, newTaskTitle, newTaskDescription, false, newTaskPriority, newTaskCategory,
                       if newTaskDueDate == "" then None else Some(newTaskDueDate), now);
      tasks := tasks + [task];
      newTaskTitle := "";
      newTaskDescription := "";
      newTaskDueDate := "";
    }

    /** `toggleTask(id)`. */
    method ToggleTask(id: string)
      modifies this`tasks
      ensures tasks == Toggled(old(tasks), id)
    {
      tasks := Toggled(tasks, id);
    }

    /** `deleteTask(id)`; `confirmed` is the user's answer to the confirmation dialog. */
    method DeleteTask(id: string, confirmed: bool)
      modifies this`tasks
      ensures confirmed ==> tasks == Without(old(tasks), id)
      ensures !confirmed ==> tasks == old(tasks)
    {
      if confirmed {
        tasks := Without(tasks, id);
      }
    }
  }
}
