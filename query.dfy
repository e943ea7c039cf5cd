/** The GET /tasks pipeline: filter, then optionally sort, then paginate, over
    a copy of the store. Every function here is pure over the tasks and the
    query parameters. */
module Query {
  import opened Js
  import opened TaskModel

  /** The query string parameters GET /tasks reads. `page` and `perPage` are
      what `Number(...)` makes of the parameter: `None` when it is absent or
      not a number. */
  datatype ListQuery = ListQuery(
    completed: Option<string>,
    priority: Option<string>,
    search: Option<string>,
    sort: Option<string>,
    page: Option<int>,
    perPage: Option<int>)

  /** The response body `{ meta: { total, page, perPage }, data }`. */
  datatype Listing = Listing(total: nat, page: int, perPage: int, data: seq<Task>)

  // ---------------------------------------------------------------- filtering

  /** `a` is `b` with some elements left out and the rest in their order. */
  predicate IsSubsequence<T(==)>(a: seq<T>, b: seq<T>)
    decreases |b|
  {
    a == [] || (b != [] && if a[0] == b[0] then IsSubsequence(a[1..], b[1..]) else IsSubsequence(a, b[1..]))
  }

  /** `Array.prototype.filter`: the tasks that `keep` accepts, in store order,
      each as often as it occurs. */
  function Filter(s: seq<Task>, keep: Task -> bool): (r: seq<Task>)
    ensures |r| <= |s|
    ensures forall t :: t in r ==> keep(t)
    ensures forall t :: keep(t) ==> multiset(r)[t] == multiset(s)[t]
    ensures forall t :: t in r <==> t in s && keep(t)
    ensures IsSubsequence(r, s)
  {
    if s == [] then []
    else
      var rest := Filter(s[1..], keep);
      assert s == [s[0]] + s[1..];
      if keep(s[0]) then [s[0]] + rest else rest
  }

  /** Filtering with two predicates that agree everywhere gives the same tasks. */
  lemma {:induction false} FilterSameKeep(s: seq<Task>, a: Task -> bool, b: Task -> bool)
    requires forall t :: a(t) == b(t)
    ensures Filter(s, a) == Filter(s, b)
  {
    if s != [] {
      FilterSameKeep(s[1..], a, b);
    }
  }

  /** Two filters in a row are one filter by their conjunction. */
  lemma {:induction false} FilterFilter(s: seq<Task>, a: Task -> bool, b: Task -> bool, both: Task -> bool)
    requires forall t :: both(t) == (a(t) && b(t))
    ensures Filter(Filter(s, a), b) == Filter(s, both)
  {
    if s != [] {
      FilterFilter(s[1..], a, b, both);
    }
  }

  /** The search text a task is matched against, lower-cased: its title and
      description joined by a space (`description || ''` is the description
      itself, which is always a string). */
  function SearchText(t: Task, lower: string -> string): string {
    lower(t.title + " " + t.description)
  }

  predicate CompletedMatches(t: Task, q: ListQuery) {
    q.completed.Some? ==> t.completed == (q.completed.value == "true")
  }

  predicate PriorityMatches(t: Task, q: ListQuery) {
    q.priority.Some? && q.priority.value != "" ==> PriorityName(t.priority) == q.priority.value
  }

  predicate SearchMatches(t: Task, q: ListQuery, lower: string -> string) {
    q.search.Some? && q.search.value != "" ==> Includes(SearchText(t, lower), lower(q.search.value))
  }

  /** A task passes every supplied filter. A `completed` parameter other than
      "true" selects the tasks not completed; an empty `priority` or `search`
      does not filter. */
  predicate Matches(t: Task, q: ListQuery, lower: string -> string) {
    CompletedMatches(t, q) && PriorityMatches(t, q) && SearchMatches(t, q, lower)
  }

  /** The three filters, applied one after another as the handler does. */
  function Filtered(s: seq<Task>, q: ListQuery, lower: string -> string): seq<Task> {
    var byCompleted := if q.completed.Some? then Filter(s, t => CompletedMatches(t, q)) else s;
    var byPriority :=
      if q.priority.Some? && q.priority.value != "" then Filter(byCompleted, t => PriorityMatches(t, q))
      else byCompleted;
    if q.search.Some? && q.search.value != "" then Filter(byPriority, t => SearchMatches(t, q, lower))
    else byPriority
  }

  /** The filtered list holds every task that passes all filters, as often as
      the store does, and no other, in store order. */
  lemma FilteredSpec(s: seq<Task>, q: ListQuery, lower: string -> string)
    ensures var r := Filtered(s, q, lower);
      && |r| <= |s|
      && (forall t :: t in r ==> t in s && Matches(t, q, lower))
      && (forall t :: Matches(t, q, lower) ==> multiset(r)[t] == multiset(s)[t])
      && IsSubsequence(r, s)
  {
    var all := (t: Task) => Matches(t, q, lower);
    var c := (t: Task) => CompletedMatches(t, q);
    var cp := (t: Task) => CompletedMatches(t, q) && PriorityMatches(t, q);
    var p := (t: Task) => PriorityMatches(t, q);
    var m := (t: Task) => SearchMatches(t, q, lower);
    var byCompleted := if q.completed.Some? then Filter(s, c) else s;
    if q.completed.Some? {
      assert byCompleted == Filter(s, c);
    } else {
      FilterSameKeep(s, (t: Task) => true, c);
      FilterAll(s, (t: Task) => true);
    }
    assert byCompleted == Filter(s, c);
    var byPriority := if q.priority.Some? && q.priority.value != "" then Filter(byCompleted, p) else byCompleted;
    FilterFilter(s, c, p, cp);
    if !(q.priority.Some? && q.priority.value != "") {
      FilterSameKeep(s, c, cp);
    }
    assert byPriority == Filter(s, cp);
    FilterFilter(s, cp, m, all);
    if !(q.search.Some? && q.search.value != "") {
      FilterSameKeep(s, cp, all);
    }
    assert Filtered(s, q, lower) == Filter(s, all);
  }

  /** A filter that accepts every task keeps the whole list. */
  lemma {:induction false} FilterAll(s: seq<Task>, keep: Task -> bool)
    requires forall t :: keep(t)
    ensures Filter(s, keep) == s
  {
    if s != [] {
      FilterAll(s[1..], keep);
      assert s == [s[0]] + s[1..];
    }
  }

  // ---------------------------------------------------------------- sorting

  /** `sort=<field>:<dir>` after `split(':')`: the first piece names the field,
      and only a second piece equal to "desc" sorts descending. */
  datatype SortKey = SortKey(field: string, descending: bool)

  /** The piece of `s` before its first ':' (all of `s` when there is none). */
  function UpToColon(s: string): (r: string)
    ensures ':' !in r
    ensures |r| <= |s| && r == s[..|r|]
  {
    if s == [] || s[0] == ':' then [] else [s[0]] + UpToColon(s[1..])
  }

  /** What follows the first ':' of `s`, if there is one. */
  function AfterColon(s: string): Option<string> {
    if s == [] then None else if s[0] == ':' then Some(s[1..]) else AfterColon(s[1..])
  }

  function ParseSort(s: string): SortKey {
    var dir := match AfterColon(s) case None => None case Some(rest) => Some(UpToColon(rest));
    SortKey(UpToColon(s), dir == Some("desc"))
  }

  /** `field:dir` parses back into its field and direction, and a bare field
      sorts ascending. */
  lemma {:induction false} ParseSortRoundTrip(field: string, dir: string)
    requires ':' !in field && ':' !in dir
    ensures ParseSort(field + ":" + dir) == SortKey(field, dir == "desc")
    ensures ParseSort(field) == SortKey(field, false)
  {
    assert field + ":" + dir == field + (":" + dir);
    PiecesOfColon(field, ":" + dir);
    assert (":" + dir)[1..] == dir;
    PiecesOfColon(dir, "");
    assert dir + "" == dir;
    PiecesOfColon(field, "");
    assert field + "" == field;
  }

  lemma {:induction false} PiecesOfColon(a: string, b: string)
    requires ':' !in a && (b == [] || b[0] == ':')
    ensures UpToColon(a + b) == a
    ensures AfterColon(a + b) == if b == [] then None else Some(b[1..])
  {
    if a != [] {
      assert (a + b)[1..] == a[1..] + b;
      PiecesOfColon(a[1..], b);
    }
  }

  /** The value of `task[field]` as the comparator sees it. */
  datatype Prop = Undefined | PStr(s: string) | PBool(b: bool)

  function Property(t: Task, field: string): Prop {
    if field == "id" then PStr(t.id)
    else if field == "title" then PStr(t.title)
    else if field == "description" then PStr(t.description)
    else if field == "completed" then PBool(t.completed)
    else if field == "createdAt" then PStr(t.createdAt)
    else if field == "updatedAt" then PStr(t.updatedAt)
    else if field == "dueDate" then (match t.dueDate case None => Undefined case Some(d) => PStr(d))
    else if field == "priority" then PStr(PriorityName(t.priority))
    else Undefined
  }

  predicate PropTruthy(v: Prop) {
    match v
    case Undefined => false
    case PStr(s) => s != ""
    case PBool(b) => b
  }

  /** JavaScript's `<` on two strings: lexicographic, a proper prefix first. */
  predicate StrLess(a: string, b: string) {
    if a == [] then b != []
    else if b == [] then false
    else if a[0] != b[0] then a[0] < b[0]
    else StrLess(a[1..], b[1..])
  }

  /** `x > y` for two truthy property values of one field. */
  predicate Greater(x: Prop, y: Prop) {
    x.PStr? && y.PStr? && StrLess(y.s, x.s)
  }

  /** The comparator handed to `sort`, literally: two falsy values tie; a falsy
      value sorts before a truthy one, flipped by the direction; otherwise the
      greater value comes later, flipped by the direction, and equal values
      answer -1, also flipped by the direction. */
  function Compare(a: Task, b: Task, key: SortKey): int {
    var direction := if key.descending then -1 else 1;
    var x := Property(a, key.field);
    var y := Property(b, key.field);
    if !PropTruthy(x) && !PropTruthy(y) then 0
    else if !PropTruthy(x) then -1 * direction
    else if !PropTruthy(y) then 1 * direction
    else (if Greater(x, y) then 1 else -1) * direction
  }

  /** A task without the field sorts first ascending and last descending. */
  lemma CompareMissingField(a: Task, b: Task, key: SortKey)
    requires !PropTruthy(Property(a, key.field)) && PropTruthy(Property(b, key.field))
    ensures Compare(a, b, key) == (if key.descending then 1 else -1)
    ensures Compare(b, a, key) == -Compare(a, b, key)
  {
  }

  /** Two tasks that both lack the field tie. */
  lemma MissingFieldsTie(a: Task, b: Task, key: SortKey)
    requires !PropTruthy(Property(a, key.field)) && !PropTruthy(Property(b, key.field))
    ensures Compare(a, b, key) == 0
  {
  }

  /** The comparator is not a consistent order: two tasks with the same
      truthy value each claim to come before the other (or after, descending). */
  lemma CompareEqualValues(a: Task, b: Task, key: SortKey)
    requires PropTruthy(Property(a, key.field)) && Property(a, key.field) == Property(b, key.field)
    ensures Compare(a, b, key) == Compare(b, a, key) == (if key.descending then 1 else -1)
  {
    var x := Property(a, key.field);
    if x.PStr? {
      StrLessIrreflexive(x.s);
    }
  }

  lemma {:induction false} StrLessIrreflexive(s: string)
    ensures !StrLess(s, s)
  {
    if s != [] {
      StrLessIrreflexive(s[1..]);
    }
  }

  /** The comparator `result.sort` receives for a sort key. */
  function Comparator(key: SortKey): (Task, Task) -> int {
    (a: Task, b: Task) => Compare(a, b, key)
  }

  /** Places `x` in front of the first element the comparator puts after it. */
  function Insert(x: Task, s: seq<Task>, cmp: (Task, Task) -> int): (r: seq<Task>)
    ensures multiset(r) == multiset(s) + multiset{x}
    ensures |r| == |s| + 1
  {
    if s == [] then [x]
    else if cmp(s[0], x) > 0 then [x] + s
    else
      assert s == [s[0]] + s[1..];
      [s[0]] + Insert(x, s[1..], cmp)
  }

  /** A stable insertion sort driven by the comparator. The order a JavaScript
      engine produces with this comparator is not fixed by the language; what
      any engine produces is a permutation, and so is this. */
  function Sort(s: seq<Task>, cmp: (Task, Task) -> int): (r: seq<Task>)
    ensures multiset(r) == multiset(s)
    ensures |r| == |s|
  {
    if s == [] then []
    else
      assert s == s[..|s| - 1] + [s[|s| - 1]];
      Insert(s[|s| - 1], Sort(s[..|s| - 1], cmp), cmp)
  }

  /** Elements that all come no later than `x` keep their place, and `x` goes last. */
  lemma {:induction false} InsertAfterTies(x: Task, s: seq<Task>, cmp: (Task, Task) -> int)
    requires forall t :: t in s ==> cmp(t, x) <= 0
    ensures Insert(x, s, cmp) == s + [x]
  {
    if s != [] {
      assert s[0] in s;
      assert forall t :: t in s[1..] ==> t in s;
      InsertAfterTies(x, s[1..], cmp);
    }
  }

  /** A list the comparator consistently finds in order (each element is put
      no later than every later one, asked either way round) is left exactly
      as it is. */
  lemma {:induction false} SortKeepsOrdered(s: seq<Task>, cmp: (Task, Task) -> int)
    requires forall i, j :: 0 <= i < j < |s| ==> cmp(s[i], s[j]) <= 0 && cmp(s[j], s[i]) >= 0
    ensures Sort(s, cmp) == s
  {
    if s != [] {
      var init, x := s[..|s| - 1], s[|s| - 1];
      forall t | t in init ensures cmp(t, x) <= 0 {
        var i :| 0 <= i < |init| && init[i] == t;
        assert s[i] == t;
      }
      SortKeepsOrdered(init, cmp);
      InsertAfterTies(x, init, cmp);
      assert init + [x] == s;
    }
  }

  /** Sorting by a field no task has keeps the list as it is. */
  lemma SortWithoutKeyKeepsOrder(s: seq<Task>, key: SortKey)
    requires forall t :: t in s ==> !PropTruthy(Property(t, key.field))
    ensures Sort(s, Comparator(key)) == s
  {
    forall i, j | 0 <= i < j < |s|
      ensures Comparator(key)(s[i], s[j]) <= 0 && Comparator(key)(s[j], s[i]) >= 0
    {
      MissingFieldsTie(s[i], s[j], key);
      MissingFieldsTie(s[j], s[i], key);
    }
    SortKeepsOrdered(s, Comparator(key));
  }

  // ---------------------------------------------------------------- pagination

  /** `Math.max(1, Number(page) || 1)`. */
  function PageNumber(raw: Option<int>): (r: int)
    ensures r >= 1
    ensures raw.Some? && raw.value >= 1 ==> r == raw.value
    ensures raw.None? || raw.value <= 0 ==> r == 1
  {
    var n := if raw.None? || raw.value == 0 then 1 else raw.value;
    if n < 1 then 1 else n
  }

  /** `Math.min(100, Math.max(1, Number(perPage) || 10))`. A missing or zero
      value means 10, a negative one 1. */
  function PerPage(raw: Option<int>): (r: int)
    ensures 1 <= r <= 100
    ensures raw.Some? && 1 <= raw.value <= 100 ==> r == raw.value
    ensures raw.None? || raw.value == 0 ==> r == 10
    ensures raw.Some? && raw.value < 0 ==> r == 1
    ensures raw.Some? && raw.value > 100 ==> r == 100
  {
    var n := if raw.None? || raw.value == 0 then 10 else raw.value;
    var atLeastOne := if n < 1 then 1 else n;
    if atLeastOne > 100 then 100 else atLeastOne
  }

  /** The first index of a page. */
  function Start(page: int, perPage: int): (start: int)
    requires page >= 1 && perPage >= 1
    ensures start >= 0
  {
    (page - 1) * perPage
  }

  /** `result.slice(start, start + perPage)`: at most `perPage` tasks, the
      ones from position `start` on, none when `start` is past the end. */
  function Paginate(s: seq<Task>, page: int, perPage: int): (r: seq<Task>)
    requires page >= 1 && perPage >= 1
    ensures |r| <= perPage
    ensures Start(page, perPage) >= |s| ==> r == []
    ensures Start(page, perPage) < |s| ==>
              |r| == (if |s| - Start(page, perPage) < perPage then |s| - Start(page, perPage) else perPage)
    ensures forall k :: 0 <= k < |r| ==> Start(page, perPage) + k < |s| && r[k] == s[Start(page, perPage) + k]
  {
    var start := Start(page, perPage);
    Slice(s, start, start + perPage)
  }

  /** Every position of the list is on exactly the page its index says. */
  lemma PagesCover(s: seq<Task>, perPage: int, k: nat)
    requires 1 <= perPage && k < |s|
    ensures Start(k / perPage + 1, perPage) + k % perPage == k
    ensures k % perPage < |Paginate(s, k / perPage + 1, perPage)|
    ensures Paginate(s, k / perPage + 1, perPage)[k % perPage] == s[k]
  {
    var page := k / perPage + 1;
    assert Start(page, perPage) == (k / perPage) * perPage;
    assert (k / perPage) * perPage + k % perPage == k;
  }

  // ---------------------------------------------------------------- the pipeline

  predicate SortRequested(q: ListQuery) {
    q.sort.Some? && q.sort.value != ""
  }

  /** The filtered tasks, sorted when a `sort` parameter is given. */
  function Ordered(s: seq<Task>, q: ListQuery, lower: string -> string): (r: seq<Task>)
    ensures multiset(r) == multiset(Filtered(s, q, lower))
    ensures !SortRequested(q) ==> r == Filtered(s, q, lower)
  {
    var filtered := Filtered(s, q, lower);
    if SortRequested(q) then Sort(filtered, Comparator(ParseSort(q.sort.value))) else filtered
  }

  /** GET /tasks: the page of the ordered tasks the clamped `page` and
      `perPage` select, with the number of tasks that passed the filters. */
  function Run(s: seq<Task>, q: ListQuery, lower: string -> string): (r: Listing)
    ensures r.total == |Filtered(s, q, lower)|
    ensures r.page == PageNumber(q.page) && r.perPage == PerPage(q.perPage)
    ensures r.page >= 1 && 1 <= r.perPage <= 100
    ensures |r.data| <= r.perPage
    ensures r.data == Paginate(Ordered(s, q, lower), r.page, r.perPage)
    ensures forall t :: t in r.data ==> t in s && Matches(t, q, lower)
  {
    var ordered := Ordered(s, q, lower);
    var page := PageNumber(q.page);
    var perPage := PerPage(q.perPage);
    var data := Paginate(ordered, page, perPage);
    FilteredSpec(s, q, lower);
    assert forall t :: t in data ==> t in ordered;
    assert forall t :: t in ordered ==> t in multiset(Filtered(s, q, lower));
    Listing(|ordered|, page, perPage, data)
  }

  /** Without filters, 25 stored tasks read with `perPage=10&page=3` give the
      last 5 tasks, with total 25. */
  lemma ThirdPageOfTwentyFive(s: seq<Task>, lower: string -> string)
    requires |s| == 25
    ensures var r := Run(s, ListQuery(None, None, None, None, Some(3), Some(10)), lower);
      r.total == 25 && r.page == 3 && r.perPage == 10 && r.data == s[20..]
  {
    var q := ListQuery(None, None, None, None, Some(3), Some(10));
    assert Filtered(s, q, lower) == s;
    assert Ordered(s, q, lower) == s;
    assert PageNumber(q.page) == 3 && PerPage(q.perPage) == 10;
    assert Paginate(s, 3, 10) == s[20..];
  }
}
