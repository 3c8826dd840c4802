/** `list_tasks` of norax/a2a/server.py: filters, the (-updated_at, id) order, and page tokens. */
module A2APaging {
  import opened Common
  import opened A2AProtocol

  const MAX_PAGE_SIZE: nat := 100

  datatype Filter = Filter(context: ContextId, status: Option<Status>) {
    /** An empty context id means no filter. */
    predicate Matches(t: Task) {
      && (context == "" || t.context == context)
      && (status.None? || t.status == status.value)
    }
  }

  /** The sort key (-updated_at, id). */
  predicate Precedes(a: Task, b: Task) {
    a.updated > b.updated || (a.updated == b.updated && a.id <= b.id)
  }

  function Insert(t: Task, sorted: seq<Task>): seq<Task> {
    if sorted == [] || Precedes(t, sorted[0]) then [t] + sorted
    else [sorted[0]] + Insert(t, sorted[1..])
  }

  function Sorted(tasks: seq<Task>): seq<Task> {
    if tasks == [] then [] else Insert(tasks[0], Sorted(tasks[1..]))
  }

  function Select(tasks: seq<Task>, filter: Filter): seq<Task> {
    if tasks == [] then []
    else if filter.Matches(tasks[0]) then [tasks[0]] + Select(tasks[1..], filter)
    else Select(tasks[1..], filter)
  }

  /** Index of the first task with this id, or the length. */
  function Position(tasks: seq<Task>, id: TaskId): (i: nat)
    ensures i <= |tasks|
    ensures i < |tasks| ==> tasks[i].id == id
    ensures forall j | 0 <= j < i :: tasks[j].id != id
  {
    if tasks == [] || tasks[0].id == id then 0 else 1 + Position(tasks[1..], id)
  }

  datatype Page = Page(tasks: seq<Task>, totalSize: nat, next: Option<TaskId>)

  datatype PageError = BadPageSize | BadPageToken

  /** One page of a result set; a missing token is the empty string of the source. */
  function PageOf(tasks: seq<Task>, pageSize: int, token: Option<TaskId>): Result<Page, PageError> {
    if !(1 <= pageSize <= MAX_PAGE_SIZE) then Err(BadPageSize)
    else if token.Some? && Position(tasks, token.value) == |tasks| then Err(BadPageToken)
    else
      var start := if token.None? then 0 else Position(tasks, token.value) + 1;
      var stop := if start + pageSize < |tasks| then start + pageSize else |tasks|;
      var page := tasks[start..stop];
      Ok(Page(page, |tasks|, if stop < |tasks| && page != [] then Some(page[|page| - 1].id) else None))
  }

  /** The result set; `stored` is `_tasks.values()`. */
  function Matching(stored: seq<Task>, filter: Filter): seq<Task> {
    Select(Sorted(stored), filter)
  }

  function ListTasks(stored: seq<Task>, filter: Filter, pageSize: int, token: Option<TaskId>): Result<Page, PageError> {
    PageOf(Matching(stored, filter), pageSize, token)
  }

  // ----- the result set -----

  /** Most recently updated first, and by id where two were updated at the same time. */
  ghost predicate Ordered(tasks: seq<Task>) {
    forall i, j | 0 <= i < j < |tasks| ::
      tasks[i].updated > tasks[j].updated || (tasks[i].updated == tasks[j].updated && tasks[i].id <= tasks[j].id)
  }

  ghost predicate DistinctIds(tasks: seq<Task>) {
    forall i, j | 0 <= i < j < |tasks| :: tasks[i].id != tasks[j].id
  }

  /** Ordered with distinct ids, read from the front. */
  ghost predicate Row(tasks: seq<Task>) {
    tasks == [] ||
    ((forall t | t in tasks[1..] :: Precedes(tasks[0], t) && tasks[0].id != t.id) && Row(tasks[1..]))
  }

  lemma {:induction false} RowIsOrdered(tasks: seq<Task>)
    requires Row(tasks)
    ensures Ordered(tasks) && DistinctIds(tasks)
  {
    if tasks == [] {
    } else {
      RowIsOrdered(tasks[1..]);
      forall i, j | 0 <= i < j < |tasks| ensures Precedes(tasks[i], tasks[j]) && tasks[i].id != tasks[j].id {
        assert tasks[j] == tasks[1..][j - 1];
        assert i > 0 ==> tasks[i] == tasks[1..][i - 1];
      }
    }
  }

  lemma {:induction false} InsertRow(t: Task, sorted: seq<Task>)
    requires Row(sorted) && forall u | u in sorted :: u.id != t.id
    ensures Row(Insert(t, sorted)) && |Insert(t, sorted)| == |sorted| + 1
    ensures forall u :: u in Insert(t, sorted) <==> u in sorted || u == t
  {
    if sorted == [] {
    } else {
      assert sorted == [sorted[0]] + sorted[1..];
      if !Precedes(t, sorted[0]) {
        InsertRow(t, sorted[1..]);
        assert Insert(t, sorted)[1..] == Insert(t, sorted[1..]);
      } else {
        assert Insert(t, sorted)[1..] == sorted;
      }
    }
  }

  lemma {:induction false} SortedRow(tasks: seq<Task>)
    requires DistinctIds(tasks)
    ensures Row(Sorted(tasks)) && |Sorted(tasks)| == |tasks|
    ensures forall t :: t in Sorted(tasks) <==> t in tasks
  {
    if tasks == [] {
    } else {
      SortedRow(tasks[1..]);
      InsertRow(tasks[0], Sorted(tasks[1..]));
      assert tasks == [tasks[0]] + tasks[1..];
    }
  }

  lemma {:induction false} SelectRow(tasks: seq<Task>, filter: Filter)
    requires Row(tasks)
    ensures Row(Select(tasks, filter)) && |Select(tasks, filter)| <= |tasks|
    ensures forall t :: t in Select(tasks, filter) <==> t in tasks && filter.Matches(t)
  {
    if tasks == [] {
    } else {
      SelectRow(tasks[1..], filter);
      assert tasks == [tasks[0]] + tasks[1..];
      if filter.Matches(tasks[0]) {
        assert Select(tasks, filter)[1..] == Select(tasks[1..], filter);
      }
    }
  }

  /** What the page token walks over: every matching task exactly once, in key order. */
  lemma ResultSet(stored: seq<Task>, filter: Filter)
    requires DistinctIds(stored)
    ensures var tasks := Matching(stored, filter);
      && Ordered(tasks) && DistinctIds(tasks) && |tasks| <= |stored|
      && forall t :: t in tasks <==> t in stored && filter.Matches(t)
  {
    SortedRow(stored);
    SelectRow(Sorted(stored), filter);
    RowIsOrdered(Matching(stored, filter));
  }

  // ----- following the tokens -----

  lemma {:induction false} PositionOf(tasks: seq<Task>, i: nat)
    requires DistinctIds(tasks) && i < |tasks|
    ensures Position(tasks, tasks[i].id) == i
  {
    var p := Position(tasks, tasks[i].id);
    assert p < |tasks|;
    assert tasks[p].id == tasks[i].id;
  }

  /** The pages of a result set from `token` on, each found by the next token of the one before. */
  function Follow(tasks: seq<Task>, pageSize: int, token: Option<TaskId>, fuel: nat): Option<seq<seq<Task>>>
    decreases fuel
  {
    match PageOf(tasks, pageSize, token)
    case Err(_) => None
    case Ok(page) =>
      if page.next.None? then Some([page.tasks])
      else if fuel == 0 then None
      else
        match Follow(tasks, pageSize, page.next, fuel - 1)
        case None => None
        case Some(rest) => Some([page.tasks] + rest)
  }

  function Concat(pages: seq<seq<Task>>): seq<Task> {
    if pages == [] then [] else pages[0] + Concat(pages[1..])
  }

  /** The token a client has after `start` tasks. */
  ghost predicate TokenAt(tasks: seq<Task>, token: Option<TaskId>, start: nat) {
    start <= |tasks| && if token.None? then start == 0 else start > 0 && token.value == tasks[start - 1].id
  }

  /** The tasks from `start` on, cut into pages. */
  function Cut(tasks: seq<Task>, start: nat, pageSize: nat): seq<seq<Task>>
    requires start <= |tasks| && pageSize > 0
    decreases |tasks| - start
  {
    if start + pageSize < |tasks| then [tasks[start..start + pageSize]] + Cut(tasks, start + pageSize, pageSize)
    else [tasks[start..]]
  }

  lemma {:induction false} CutConcat(tasks: seq<Task>, start: nat, pageSize: nat)
    requires start <= |tasks| && pageSize > 0
    ensures Concat(Cut(tasks, start, pageSize)) == tasks[start..]
    decreases |tasks| - start
  {
    if start + pageSize < |tasks| {
      CutConcat(tasks, start + pageSize, pageSize);
      var rest := Cut(tasks, start + pageSize, pageSize);
      assert ([tasks[start..start + pageSize]] + rest)[1..] == rest;
      assert tasks[start..start + pageSize] + tasks[start + pageSize..] == tasks[start..];
    } else {
      assert [tasks[start..]][1..] == [];
      assert tasks[start..] + [] == tasks[start..];
    }
  }

  lemma {:induction false} CutFull(tasks: seq<Task>, start: nat, pageSize: nat)
    requires start <= |tasks| && pageSize > 0
    ensures var pages := Cut(tasks, start, pageSize);
      pages != [] && forall i | 0 <= i < |pages| - 1 :: |pages[i]| == pageSize
    decreases |tasks| - start
  {
    if start + pageSize < |tasks| {
      CutFull(tasks, start + pageSize, pageSize);
    }
  }

  function Stop(tasks: seq<Task>, start: nat, pageSize: nat): (stop: nat)
    requires start <= |tasks|
    ensures start <= stop <= |tasks|
  {
    if start + pageSize < |tasks| then start + pageSize else |tasks|
  }

  lemma PageAt(tasks: seq<Task>, pageSize: nat, token: Option<TaskId>, start: nat)
    requires DistinctIds(tasks) && 1 <= pageSize <= MAX_PAGE_SIZE && TokenAt(tasks, token, start)
    ensures var stop := Stop(tasks, start, pageSize);
      PageOf(tasks, pageSize, token) ==
        Ok(Page(tasks[start..stop], |tasks|, if stop < |tasks| then Some(tasks[stop - 1].id) else None))
  {
    if token.Some? {
      PositionOf(tasks, start - 1);
    }
  }

  /** From any token, the pages are the tasks still to come, cut into pages. */
  lemma {:induction false} FollowFrom(tasks: seq<Task>, pageSize: nat, token: Option<TaskId>, start: nat, fuel: nat)
    requires DistinctIds(tasks) && 1 <= pageSize <= MAX_PAGE_SIZE
    requires TokenAt(tasks, token, start) && |tasks| - start <= fuel
    ensures Follow(tasks, pageSize, token, fuel) == Some(Cut(tasks, start, pageSize))
    decreases fuel
  {
    var stop := Stop(tasks, start, pageSize);
    if stop < |tasks| {
      var next := Some(tasks[stop - 1].id);
      FollowFrom(tasks, pageSize, next, stop, fuel - 1);
      PageAt(tasks, pageSize, token, start);
      FollowMore(tasks, pageSize, token, fuel, tasks[start..stop], next, Cut(tasks, stop, pageSize));
    } else {
      FollowLast(tasks, pageSize, token, start, fuel);
    }
  }

  lemma FollowLast(tasks: seq<Task>, pageSize: nat, token: Option<TaskId>, start: nat, fuel: nat)
    requires DistinctIds(tasks) && 1 <= pageSize <= MAX_PAGE_SIZE && TokenAt(tasks, token, start)
    requires start + pageSize >= |tasks|
    ensures Follow(tasks, pageSize, token, fuel) == Some([tasks[start..]])
  {
    PageAt(tasks, pageSize, token, start);
    assert tasks[start..|tasks|] == tasks[start..];
  }

  lemma FollowMore(tasks: seq<Task>, pageSize: nat, token: Option<TaskId>, fuel: nat,
                   page: seq<Task>, next: Option<TaskId>, rest: seq<seq<Task>>)
    requires fuel > 0 && PageOf(tasks, pageSize, token) == Ok(Page(page, |tasks|, next)) && next.Some?
    requires Follow(tasks, pageSize, next, fuel - 1) == Some(rest)
    ensures Follow(tasks, pageSize, token, fuel) == Some([page] + rest)
  {
  }

  /** What a client sees that calls ListTasks with each nextPageToken in turn. */
  function Walk(stored: seq<Task>, filter: Filter, pageSize: int, token: Option<TaskId>, fuel: nat): Option<seq<seq<Task>>>
    decreases fuel
  {
    match ListTasks(stored, filter, pageSize, token)
    case Err(_) => None
    case Ok(page) =>
      if page.next.None? then Some([page.tasks])
      else if fuel == 0 then None
      else
        match Walk(stored, filter, pageSize, page.next, fuel - 1)
        case None => None
        case Some(rest) => Some([page.tasks] + rest)
  }

  lemma {:induction false} WalkFollows(stored: seq<Task>, filter: Filter, pageSize: int, token: Option<TaskId>, fuel: nat)
    ensures Walk(stored, filter, pageSize, token, fuel) == Follow(Matching(stored, filter), pageSize, token, fuel)
    decreases fuel
  {
    var r := ListTasks(stored, filter, pageSize, token);
    if r.Ok? && r.value.next.Some? && fuel > 0 {
      WalkFollows(stored, filter, pageSize, r.value.next, fuel - 1);
    }
  }

  /** For a store that does not change, a client that calls ListTasks with each nextPageToken,
      from the empty token on, comes to an end and has seen every matching task exactly once, in
      (-updated_at, id) order, for any page size; every page but the last is full. */
  lemma WalkVisitsAll(stored: seq<Task>, filter: Filter, pageSize: int)
    requires DistinctIds(stored) && 1 <= pageSize <= MAX_PAGE_SIZE
    ensures var pages := Walk(stored, filter, pageSize, None, |stored|);
      && pages.Some?
      && var visited := Concat(pages.value);
      && Ordered(visited) && DistinctIds(visited)
      && (forall t :: t in visited <==> t in stored && filter.Matches(t))
      && forall i | 0 <= i < |pages.value| - 1 :: |pages.value[i]| == pageSize
  {
    var tasks := Matching(stored, filter);
    ResultSet(stored, filter);
    WalkFollows(stored, filter, pageSize, None, |stored|);
    FollowFrom(tasks, pageSize, None, 0, |stored|);
    CutConcat(tasks, 0, pageSize);
    CutFull(tasks, 0, pageSize);
    assert tasks[0..] == tasks;
  }

  function TaskSet(tasks: seq<Task>): set<Task> {
    set t | t in tasks
  }

  lemma {:induction false} DistinctCount(tasks: seq<Task>)
    requires DistinctIds(tasks)
    ensures |TaskSet(tasks)| == |tasks|
  {
    if tasks == [] {
      assert TaskSet(tasks) == {};
    } else {
      var n := |tasks| - 1;
      DistinctCount(tasks[..n]);
      assert tasks == tasks[..n] + [tasks[n]];
      assert TaskSet(tasks) == TaskSet(tasks[..n]) + {tasks[n]};
    }
  }

  /** Every page says how many tasks match in all. */
  lemma TotalIsMatching(stored: seq<Task>, filter: Filter, pageSize: int, token: Option<TaskId>)
    requires DistinctIds(stored) && ListTasks(stored, filter, pageSize, token).Ok?
    ensures ListTasks(stored, filter, pageSize, token).value.totalSize == |set t | t in stored && filter.Matches(t)|
  {
    var tasks := Matching(stored, filter);
    ResultSet(stored, filter);
    DistinctCount(tasks);
    assert TaskSet(tasks) == (set t | t in stored && filter.Matches(t));
  }

  /** A token is refused exactly when no matching task has that id. */
  lemma TokenRefused(stored: seq<Task>, filter: Filter, pageSize: int, token: TaskId)
    requires DistinctIds(stored) && 1 <= pageSize <= MAX_PAGE_SIZE
    ensures ListTasks(stored, filter, pageSize, Some(token)) == Err(BadPageToken) <==>
      forall t | t in stored && filter.Matches(t) :: t.id != token
  {
    ResultSet(stored, filter);
    var tasks := Matching(stored, filter);
    if Position(tasks, token) < |tasks| {
      assert tasks[Position(tasks, token)] in tasks;
    } else {
      forall t | t in stored && filter.Matches(t) ensures t.id != token { assert t in tasks; }
    }
  }
}
