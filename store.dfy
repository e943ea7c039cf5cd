/** The in-memory task store and the handlers that read and change it: POST,
    GET one, GET all, PUT, PATCH and DELETE on /tasks. Each handler is a
    method returning the response it sends; the record operations it performs
    are specified by the pure functions before the class. */
module Store {
  import opened Js
  import opened TaskModel
  import opened Validation
  import Query

  /** The response a handler sends: 201, 200, 204, 404, 400 with the
      collected errors, or 500 from the global error handler. */
  datatype Response =
    | Created(task: Task)
    | Ok(task: Task)
    | NoContent
    | NotFound
    | Invalid(errors: seq<FieldError>)
    | InternalError

  /** `tasks.findIndex(t => t.id === id)`, with `None` for -1: the first
      position holding that id. */
  function FindIndex(s: seq<Task>, id: string): (r: Option<nat>)
    ensures r.None? <==> forall k :: 0 <= k < |s| ==> s[k].id != id
    ensures r.Some? ==> r.value < |s| && s[r.value].id == id
    ensures r.Some? ==> forall k :: 0 <= k < r.value ==> s[k].id != id
  {
    if s == [] then None
    else if s[0].id == id then Some(0)
    else match FindIndex(s[1..], id)
      case None => None
      case Some(k) => Some(k + 1)
  }

  /** Ids are unique in `s`. */
  predicate UniqueIds(s: seq<Task>) {
    forall i, j :: 0 <= i < j < |s| ==> s[i].id != s[j].id
  }

  /** With unique ids, two stored records with the same id are the same record. */
  lemma SameIdSameTask(s: seq<Task>, a: Task, b: Task)
    requires UniqueIds(s) && a in s && b in s && a.id == b.id
    ensures a == b
  {
    var i :| 0 <= i < |s| && s[i] == a;
    var j :| 0 <= j < |s| && s[j] == b;
    assert !(i < j) && !(j < i);
  }

  // ------------------------------------------------------------ building records

  /** `payload.description?.trim() ?? ''`. */
  function DescriptionOf(p: Payload): (d: string)
    requires p.description.Some? ==> p.description.value.JStr?
    ensures IsTrimmed(d)
    ensures p.description.None? ==> d == ""
    ensures p.description.Some? ==> d == Trim(p.description.value.s)
  {
    match p.description
    case None => ""
    case Some(v) => TrimIsTrimmed(v.s); Trim(v.s)
  }

  /** `payload.completed ?? false`. */
  function CompletedOf(p: Payload): (c: bool)
    requires p.completed.Some? ==> p.completed.value.JBool?
    ensures c <==> p.completed == Some(JBool(true))
  {
    match p.completed
    case None => false
    case Some(v) => v.b
  }

  /** `payload.priority ?? 'medium'`. */
  function PriorityOf(p: Payload): (r: Priority)
    requires p.priority.Some? ==> ParsePriority(p.priority.value).Some?
    ensures p.priority.None? ==> r == Medium
    ensures p.priority.Some? ==> p.priority.value == JStr(PriorityName(r))
  {
    match p.priority
    case None => Medium
    case Some(v) => ParsePriority(v).value
  }

  /** The title the body sets: the trimmed title, which is a non-empty trimmed string. */
  function TitleOf(p: Payload): (title: string)
    requires p.title.Some? && IsNonBlankString(p.title.value)
    ensures title != "" && IsTrimmed(title)
    ensures title == Trim(p.title.value.s)
  {
    TrimIsTrimmed(p.title.value.s);
    Trim(p.title.value.s)
  }

  /** The due date a present or absent `dueDate` value yields:
      `dueDate ? new Date(dueDate).toISOString() : undefined`. */
  datatype DueDate = Due(date: Option<string>) | Throws

  function DueDateOf(v: Option<JsValue>, dates: DateLib): (r: DueDate)
    ensures r == Due(None) <==> v.None? || !Truthy(v.value)
    ensures r.Throws? <==> v.Some? && Truthy(v.value) && dates.toIso(v.value).None?
    ensures r.Due? && r.date.Some? ==> v.Some? && r.date == dates.toIso(v.value)
  {
    match v
    case None => Due(None)
    case Some(x) =>
      if !Truthy(x) then Due(None)
      else match dates.toIso(x)
        case None => Throws
        case Some(iso) => Due(Some(iso))
  }

  /** The record POST /tasks builds for an accepted body, or `None` when
      normalising the due date throws (the handler then answers 500 and
      stores nothing). */
  function NewTask(p: Payload, id: string, now: string, dates: DateLib): (r: Option<Task>)
    requires Acceptable(p, false, dates)
    ensures r.None? <==> DueDateOf(p.dueDate, dates).Throws?
    ensures r.Some? ==> WellFormed(r.value) && r.value.id == id
    ensures r.Some? ==> r.value.createdAt == now && r.value.updatedAt == now
    ensures r.Some? ==> r.value.completed == (p.completed == Some(JBool(true)))
    ensures r.Some? && p.description.None? ==> r.value.description == ""
    ensures r.Some? && p.priority.None? ==> r.value.priority == Medium
    ensures r.Some? && (p.dueDate.None? || !Truthy(p.dueDate.value)) ==> r.value.dueDate.None?
    ensures r.Some? ==> r.value.title == Trim(p.title.value.s)
    ensures r.Some? && p.description.Some? ==> r.value.description == Trim(p.description.value.s)
    ensures r.Some? && p.priority.Some? ==> p.priority.value == JStr(PriorityName(r.value.priority))
    ensures r.Some? && p.dueDate.Some? && Truthy(p.dueDate.value) ==> r.value.dueDate == dates.toIso(p.dueDate.value)
  {
    match DueDateOf(p.dueDate, dates)
    case Throws => None
    case Due(d) => Some(Task(id, TitleOf(p), DescriptionOf(p), CompletedOf(p), now, now, d, PriorityOf(p)))
  }

  /** What PUT leaves: `Done` with the fully replaced record, or, when
      normalising the due date throws, `Faulted` with the record as far as it
      had been assigned (title, description and completed already replaced). */
  datatype Edit = Done(task: Task) | Faulted(task: Task)

  /** PUT /tasks/:id on record `t`, assignment by assignment. */
  function Replace(t: Task, p: Payload, now: string, dates: DateLib): (r: Edit)
    requires Acceptable(p, false, dates)
    ensures r.task.id == t.id && r.task.createdAt == t.createdAt
    ensures WellFormed(r.task)
    ensures r.Faulted? <==> DueDateOf(p.dueDate, dates).Throws?
    ensures r.Faulted? ==> r.task.dueDate == t.dueDate && r.task.priority == t.priority
                           && r.task.updatedAt == t.updatedAt
    ensures r.Faulted? ==>
              r.task == t.(title := Trim(p.title.value.s), description := DescriptionOf(p), completed := CompletedOf(p))
  {
    var t1 := t.(title := TitleOf(p), description := DescriptionOf(p), completed := CompletedOf(p));
    match DueDateOf(p.dueDate, dates)
    case Throws => Faulted(t1)
    case Due(d) => Done(t1.(dueDate := d, priority := PriorityOf(p), updatedAt := now))
  }

  /** PATCH /tasks/:id on record `t`: each field the body holds is
      overwritten, the others are left alone. */
  function Merge(t: Task, p: Payload, now: string, dates: DateLib): (r: Edit)
    requires Acceptable(p, true, dates)
    ensures r.task.id == t.id && r.task.createdAt == t.createdAt
    ensures WellFormed(t) ==> WellFormed(r.task)
    ensures r.Faulted? <==> DueDateOf(p.dueDate, dates).Throws?
    ensures r.Faulted? ==> r.task == t.(
              title := if p.title.Some? then Trim(p.title.value.s) else t.title,
              description := if p.description.Some? then Trim(p.description.value.s) else t.description,
              completed := if p.completed.Some? then p.completed.value.b else t.completed)
  {
    var t1 := t.(
      title := if p.title.Some? then TitleOf(p) else t.title,
      description := if p.description.Some? then DescriptionOf(p) else t.description,
      completed := if p.completed.Some? then p.completed.value.b else t.completed);
    match DueDateOf(p.dueDate, dates)
    case Throws => Faulted(t1)
    case Due(d) =>
      Done(t1.(
        dueDate := if p.dueDate.Some? then d else t.dueDate,
        priority := if p.priority.Some? then PriorityOf(p) else t.priority,
        updatedAt := now))
  }

  /** A full replace ignores the record's old mutable fields: it is the record
      POST would build from the same body, keeping the id and creation time. */
  lemma ReplaceIsCreateKeepingIdentity(t: Task, p: Payload, now: string, dates: DateLib)
    requires Acceptable(p, false, dates)
    ensures Replace(t, p, now, dates).Done? <==> NewTask(p, t.id, now, dates).Some?
    ensures Replace(t, p, now, dates).Done? ==>
              Replace(t, p, now, dates).task == NewTask(p, t.id, now, dates).value.(createdAt := t.createdAt)
  {
  }

  /** PUT resets every field the body omits to its default, whatever it was before. */
  lemma ReplaceResetsOmitted(t: Task, p: Payload, now: string, dates: DateLib)
    requires Acceptable(p, false, dates) && Replace(t, p, now, dates).Done?
    ensures p.priority.None? ==> Replace(t, p, now, dates).task.priority == Medium
    ensures p.description.None? ==> Replace(t, p, now, dates).task.description == ""
    ensures p.completed.None? ==> !Replace(t, p, now, dates).task.completed
    ensures p.dueDate.None? ==> Replace(t, p, now, dates).task.dueDate.None?
    ensures Replace(t, p, now, dates).task.updatedAt == now
  {
  }

  /** PATCH changes only what the body holds, plus `updatedAt`. */
  lemma MergeOverwritesOnlyPresent(t: Task, p: Payload, now: string, dates: DateLib)
    requires Acceptable(p, true, dates) && Merge(t, p, now, dates).Done?
    ensures var u := Merge(t, p, now, dates).task;
      && (p.title.None? ==> u.title == t.title)
      && (p.title.Some? ==> u.title == Trim(p.title.value.s))
      && (p.description.None? ==> u.description == t.description)
      && (p.description.Some? ==> u.description == Trim(p.description.value.s))
      && (p.completed.None? ==> u.completed == t.completed)
      && (p.completed.Some? ==> JBool(u.completed) == p.completed.value)
      && (p.dueDate.None? ==> u.dueDate == t.dueDate)
      && (p.dueDate.Some? ==> u.dueDate == DueDateOf(p.dueDate, dates).date)
      && (p.priority.None? ==> u.priority == t.priority)
      && (p.priority.Some? ==> JStr(PriorityName(u.priority)) == p.priority.value)
      && u.updatedAt == now
  {
  }

  /** A PATCH of `{ completed: b }` alone changes exactly `completed` and `updatedAt`. */
  lemma PatchCompletedOnly(t: Task, b: bool, now: string, dates: DateLib)
    ensures var p := Payload(None, None, Some(JBool(b)), None, None);
      Validate(p, true, dates) == [] && Merge(t, p, now, dates) == Done(t.(completed := b, updatedAt := now))
  {
    var p := Payload(None, None, Some(JBool(b)), None, None);
    assert Acceptable(p, true, dates);
  }

  /** A PATCH whose body holds every field does what a PUT of that body does. */
  lemma MergeOfFullBodyIsReplace(t: Task, p: Payload, now: string, dates: DateLib)
    requires p.title.Some? && p.description.Some? && p.completed.Some? && p.dueDate.Some? && p.priority.Some?
    requires Validate(p, false, dates) == []
    ensures Validate(p, true, dates) == [] && Merge(t, p, now, dates) == Replace(t, p, now, dates)
  {
    ForUpdateRelaxesOnlyTitle(p, dates);
  }

  /** The JSON a handler sends for a task, read back as a request body
      (`dueDate: undefined` is left out of the JSON). */
  function AsPayload(t: Task): Payload {
    Payload(
      Some(JStr(t.title)),
      Some(JStr(t.description)),
      Some(JBool(t.completed)),
      match t.dueDate case None => None case Some(d) => Some(JStr(d)),
      Some(JStr(PriorityName(t.priority))))
  }

  /** The date library reads back the ISO text it produced for `t`'s due date. */
  predicate ReadsBackDueDate(t: Task, dates: DateLib) {
    t.dueDate.Some? ==>
      t.dueDate.value != "" && dates.parses(JStr(t.dueDate.value))
      && dates.toIso(JStr(t.dueDate.value)) == Some(t.dueDate.value)
  }

  /** The body PUT receives when a client sends back a task's JSON with the
      priority set to `priority`. */
  function OwnJsonWith(t: Task, priority: Priority): Payload {
    AsPayload(t).(priority := Some(JStr(PriorityName(priority))))
  }

  /** A stored task's own JSON, with any priority, passes the validator. */
  lemma OwnJsonAcceptable(t: Task, priority: Priority, dates: DateLib)
    requires WellFormed(t) && ReadsBackDueDate(t, dates)
    ensures Validate(OwnJsonWith(t, priority), false, dates) == []
  {
    OwnJsonFieldsAcceptable(t, priority, dates);
  }

  lemma OwnJsonFieldsAcceptable(t: Task, priority: Priority, dates: DateLib)
    requires WellFormed(t) && ReadsBackDueDate(t, dates)
    ensures Acceptable(OwnJsonWith(t, priority), false, dates)
  {
    var p := OwnJsonWith(t, priority);
    assert IsNonBlankString(p.title.value) by {
      TrimFixesTrimmed(t.title);
    }
    assert ParsePriority(p.priority.value).Some? by {
      PriorityRoundTrip(priority, JStr(PriorityName(priority)));
    }
    assert p.dueDate.Some? ==> dates.parses(p.dueDate.value) by {
      if t.dueDate.Some? { assert p.dueDate == Some(JStr(t.dueDate.value)); }
    }
  }

  /** Sending a stored task's own JSON back with PUT, with its priority
      possibly changed, changes only that priority and `updatedAt`. */
  lemma PutOwnJson(t: Task, priority: Priority, now: string, dates: DateLib)
    requires WellFormed(t) && ReadsBackDueDate(t, dates)
    ensures Validate(OwnJsonWith(t, priority), false, dates) == []
    ensures Replace(t, OwnJsonWith(t, priority), now, dates) == Done(t.(priority := priority, updatedAt := now))
  {
    var p := OwnJsonWith(t, priority);
    OwnJsonAcceptable(t, priority, dates);
    OwnJsonDueDate(t, priority, dates);
    var e := Replace(t, p, now, dates);
    assert e.Done?;
    TrimFixesTrimmed(t.title);
    TrimFixesTrimmed(t.description);
    assert e.task.title == t.title;
    assert e.task.description == t.description;
    assert e.task.completed == t.completed;
    assert e.task.dueDate == t.dueDate;
    PriorityRoundTrip(priority, JStr(PriorityName(priority)));
    assert e.task.priority == priority;
  }

  /** Sending a stored task's own JSON back with PUT and a new title changes
      only the title, to its trimmed value, and `updatedAt`. */
  lemma PutOwnJsonTitle(t: Task, title: string, now: string, dates: DateLib)
    requires WellFormed(t) && ReadsBackDueDate(t, dates) && IsNonBlankString(JStr(title))
    ensures Validate(AsPayload(t).(title := Some(JStr(title))), false, dates) == []
    ensures Replace(t, AsPayload(t).(title := Some(JStr(title))), now, dates)
              == Done(t.(title := Trim(title), updatedAt := now))
  {
    var p := AsPayload(t).(title := Some(JStr(title)));
    OwnJsonFieldsAcceptable(t, t.priority, dates);
    assert OwnJsonWith(t, t.priority) == AsPayload(t);
    assert Acceptable(p, false, dates);
    OwnJsonDueDate(t, t.priority, dates);
    assert DueDateOf(p.dueDate, dates) == Due(t.dueDate);
    TrimFixesTrimmed(t.description);
    PriorityRoundTrip(t.priority, JStr(PriorityName(t.priority)));
  }

  /** The same with a new description: it is stored trimmed, nothing else but
      `updatedAt` changes. */
  lemma PutOwnJsonDescription(t: Task, description: string, now: string, dates: DateLib)
    requires WellFormed(t) && ReadsBackDueDate(t, dates)
    ensures Validate(AsPayload(t).(description := Some(JStr(description))), false, dates) == []
    ensures Replace(t, AsPayload(t).(description := Some(JStr(description))), now, dates)
              == Done(t.(description := Trim(description), updatedAt := now))
  {
    var p := AsPayload(t).(description := Some(JStr(description)));
    OwnJsonFieldsAcceptable(t, t.priority, dates);
    assert OwnJsonWith(t, t.priority) == AsPayload(t);
    assert Acceptable(p, false, dates);
    OwnJsonDueDate(t, t.priority, dates);
    assert DueDateOf(p.dueDate, dates) == Due(t.dueDate);
    TrimFixesTrimmed(t.title);
    PriorityRoundTrip(t.priority, JStr(PriorityName(t.priority)));
  }

  /** The same with a new `completed` flag. */
  lemma PutOwnJsonCompleted(t: Task, completed: bool, now: string, dates: DateLib)
    requires WellFormed(t) && ReadsBackDueDate(t, dates)
    ensures Validate(AsPayload(t).(completed := Some(JBool(completed))), false, dates) == []
    ensures Replace(t, AsPayload(t).(completed := Some(JBool(completed))), now, dates)
              == Done(t.(completed := completed, updatedAt := now))
  {
    var p := AsPayload(t).(completed := Some(JBool(completed)));
    OwnJsonFieldsAcceptable(t, t.priority, dates);
    assert OwnJsonWith(t, t.priority) == AsPayload(t);
    assert Acceptable(p, false, dates);
    OwnJsonDueDate(t, t.priority, dates);
    assert DueDateOf(p.dueDate, dates) == Due(t.dueDate);
    TrimFixesTrimmed(t.title);
    TrimFixesTrimmed(t.description);
    PriorityRoundTrip(t.priority, JStr(PriorityName(t.priority)));
  }

  /** The same with a new due date the library accepts: PUT stores its
      normalised form, or faults when normalising it throws. */
  lemma PutOwnJsonDueDate(t: Task, dueDate: JsValue, now: string, dates: DateLib)
    requires WellFormed(t) && dates.parses(dueDate)
    ensures Validate(AsPayload(t).(dueDate := Some(dueDate)), false, dates) == []
    ensures DueDateOf(Some(dueDate), dates).Due? ==>
              Replace(t, AsPayload(t).(dueDate := Some(dueDate)), now, dates)
                == Done(t.(dueDate := DueDateOf(Some(dueDate), dates).date, updatedAt := now))
  {
    var p := AsPayload(t).(dueDate := Some(dueDate));
    assert IsNonBlankString(p.title.value) by {
      TrimFixesTrimmed(t.title);
    }
    assert ParsePriority(p.priority.value).Some? by {
      PriorityRoundTrip(t.priority, JStr(PriorityName(t.priority)));
    }
    assert Acceptable(p, false, dates);
    TrimFixesTrimmed(t.title);
    TrimFixesTrimmed(t.description);
    PriorityRoundTrip(t.priority, JStr(PriorityName(t.priority)));
  }

  lemma OwnJsonDueDate(t: Task, priority: Priority, dates: DateLib)
    requires ReadsBackDueDate(t, dates)
    ensures DueDateOf(OwnJsonWith(t, priority).dueDate, dates) == Due(t.dueDate)
  {
    var p := OwnJsonWith(t, priority);
    match t.dueDate {
      case None =>
        assert p.dueDate == None;
      case Some(d) =>
        assert p.dueDate == Some(JStr(d)) && Truthy(JStr(d));
    }
  }

  /** `tasks.splice(i, 1)` as a value: the list without position `i`. */
  function RemoveAt(s: seq<Task>, i: nat): (r: seq<Task>)
    requires i < |s|
    ensures |r| == |s| - 1
    ensures forall k :: 0 <= k < i ==> r[k] == s[k]
    ensures forall k :: i <= k < |r| ==> r[k] == s[k + 1]
    ensures multiset(r) + multiset{s[i]} == multiset(s)
  {
    assert s == s[..i] + [s[i]] + s[i + 1..];
    s[..i] + s[i + 1..]
  }

  /** Removing the record of a unique id leaves no record with that id, and
      keeps ids unique. */
  lemma RemovedIdIsGone(s: seq<Task>, i: nat)
    requires UniqueIds(s) && i < |s|
    ensures UniqueIds(RemoveAt(s, i))
    ensures FindIndex(RemoveAt(s, i), s[i].id).None?
  {
    var r := RemoveAt(s, i);
    forall k | 0 <= k < |r| ensures r[k].id != s[i].id {
      if k < i { assert r[k] == s[k]; } else { assert r[k] == s[k + 1]; }
    }
    forall a, b | 0 <= a < b < |r| ensures r[a].id != r[b].id {
      var a' := if a < i then a else a + 1;
      var b' := if b < i then b else b + 1;
      assert r[a] == s[a'] && r[b] == s[b'];
    }
  }

  /** Appending a record whose id no stored record has keeps ids unique. */
  lemma AppendFresh(s: seq<Task>, task: Task)
    requires UniqueIds(s) && forall t :: t in s ==> t.id != task.id
    ensures UniqueIds(s + [task])
    ensures forall t :: t in s + [task] <==> t in s || t == task
  {
    var r := s + [task];
    forall i, j | 0 <= i < j < |r| ensures r[i].id != r[j].id {
      assert r[i] == s[i];
      if j < |s| { assert r[j] == s[j]; } else { assert r[j] == task; assert s[i] in s; }
    }
  }

  /** What the store keeps true: ids are unique and were handed out by the
      id generator, and every record is well formed. */
  predicate Consistent(s: seq<Task>, issued: set<string>) {
    && UniqueIds(s)
    && forall t :: t in s ==> t.id in issued && WellFormed(t)
  }

  /** Overwriting a record with a well-formed one of the same id keeps the
      store consistent. */
  lemma UpdateKeepsConsistent(s: seq<Task>, issued: set<string>, i: nat, u: Task)
    requires Consistent(s, issued) && i < |s| && u.id == s[i].id && WellFormed(u)
    ensures Consistent(s[i := u], issued)
  {
    var r := s[i := u];
    forall a, b | 0 <= a < b < |r| ensures r[a].id != r[b].id {
      assert r[a].id == s[a].id && r[b].id == s[b].id;
    }
    assert s[i] in s;
    forall t | t in r ensures t.id in issued && WellFormed(t) {
      var k :| 0 <= k < |r| && r[k] == t;
      if k != i { assert s[k] == t; }
    }
  }

  /** The assignments of the PUT handler to the found record, one field at a
      time; they stop where normalising the due date throws. */
  method AssignReplaced(t0: Task, p: Payload, now: string, dates: DateLib) returns (e: Edit)
    requires Acceptable(p, false, dates)
    ensures e == Replace(t0, p, now, dates)
  {
    var t := t0;
    t := t.(title := TitleOf(p));
    t := t.(description := DescriptionOf(p));
    t := t.(completed := CompletedOf(p));
    var due := DueDateOf(p.dueDate, dates);
    if due.Throws? {
      return Faulted(t);
    }
    t := t.(dueDate := due.date);
    t := t.(priority := PriorityOf(p));
    t := t.(updatedAt := now);
    e := Done(t);
  }

  /** The assignments of the PATCH handler: each field the body holds, then
      `updatedAt`; they stop where normalising the due date throws. */
  method AssignMerged(t0: Task, p: Payload, now: string, dates: DateLib) returns (e: Edit)
    requires Acceptable(p, true, dates)
    ensures e == Merge(t0, p, now, dates)
  {
    var t := t0;
    if p.title.Some? {
      t := t.(title := TitleOf(p));
    }
    if p.description.Some? {
      t := t.(description := DescriptionOf(p));
    }
    if p.completed.Some? {
      t := t.(completed := p.completed.value.b);
    }
    if p.dueDate.Some? {
      var due := DueDateOf(p.dueDate, dates);
      if due.Throws? {
        return Faulted(t);
      }
      t := t.(dueDate := due.date);
    }
    if p.priority.Some? {
      t := t.(priority := PriorityOf(p));
    }
    t := t.(updatedAt := now);
    e := Done(t);
  }

  // ------------------------------------------------------------ the store

  /** The module-level `tasks` array and the route handlers over it. */
  class TaskStore {
    var tasks: seq<Task>
    /** Every id the id generator has handed out to a stored task. */
    ghost var issued: set<string>

    /** Ids are unique and come from the generator, and every record is well formed. */
    ghost predicate Valid()
      reads this
    {
      Consistent(tasks, issued)
    }

    constructor ()
      ensures Valid() && tasks == [] && issued == {}
    {
      tasks := [];
      issued := {};
    }

    /** POST /tasks. `id` is the generator's fresh id and `now` the clock. */
    method Create(p: Payload, id: string, now: string, dates: DateLib) returns (r: Response)
      requires Valid() && id !in issued
      modifies this
      ensures Valid()
      ensures Validate(p, false, dates) != [] ==>
                r == Invalid(Validate(p, false, dates)) && tasks == old(tasks) && issued == old(issued)
      ensures Validate(p, false, dates) == [] && NewTask(p, id, now, dates).None? ==>
                r == InternalError && tasks == old(tasks) && issued == old(issued)
      ensures Validate(p, false, dates) == [] && NewTask(p, id, now, dates).Some? ==>
                r == Created(NewTask(p, id, now, dates).value)
                && tasks == old(tasks) + [r.task] && issued == old(issued) + {id}
    {
      var errors := Validate(p, false, dates);
      if errors != [] {
        return Invalid(errors);
      }
      var built := NewTask(p, id, now, dates);
      if built.None? {
        return InternalError;
      }
      var task := built.value;
      AppendFresh(tasks, task);
      tasks := tasks + [task];
      issued := issued + {id};
      r := Created(task);
    }

    /** GET /tasks/:id. */
    method Get(id: string) returns (r: Response)
      ensures r.NotFound? <==> forall t :: t in tasks ==> t.id != id
      ensures r.NotFound? || r.Ok?
      ensures r.Ok? ==> r.task in tasks && r.task.id == id
      ensures r.Ok? ==> FindIndex(tasks, id).Some? && r.task == tasks[FindIndex(tasks, id).value]
    {
      var i := FindIndex(tasks, id);
      if i.None? {
        return NotFound;
      }
      r := Ok(tasks[i.value]);
    }

    /** GET /tasks. It changes nothing. */
    method List(q: Query.ListQuery, lower: string -> string) returns (r: Query.Listing)
      ensures r == Query.Run(tasks, q, lower)
      ensures r.total <= |tasks|
    {
      r := Query.Run(tasks, q, lower);
      Query.FilteredSpec(tasks, q, lower);
    }

    /** PUT /tasks/:id: 404 before validation, then 400, then the full replace. */
    method Put(id: string, p: Payload, now: string, dates: DateLib) returns (r: Response)
      requires Valid()
      modifies this
      ensures Valid() && issued == old(issued)
      ensures FindIndex(old(tasks), id).None? ==> r == NotFound && tasks == old(tasks)
      ensures FindIndex(old(tasks), id).Some? && Validate(p, false, dates) != [] ==>
                r == Invalid(Validate(p, false, dates)) && tasks == old(tasks)
      ensures FindIndex(old(tasks), id).Some? && Validate(p, false, dates) == [] ==>
                var i := FindIndex(old(tasks), id).value;
                var e := Replace(old(tasks)[i], p, now, dates);
                tasks == old(tasks)[i := e.task] && r == (if e.Done? then Ok(e.task) else InternalError)
    {
      var found := FindIndex(tasks, id);
      if found.None? {
        return NotFound;
      }
      var i := found.value;
      var errors := Validate(p, false, dates);
      if errors != [] {
        return Invalid(errors);
      }
      var e := AssignReplaced(tasks[i], p, now, dates);
      assert tasks[i] in tasks;
      UpdateKeepsConsistent(tasks, issued, i, e.task);
      tasks := tasks[i := e.task];
      r := if e.Done? then Ok(e.task) else InternalError;
    }

    /** PATCH /tasks/:id: 404 before validation, then 400, then the merge. */
    method Patch(id: string, p: Payload, now: string, dates: DateLib) returns (r: Response)
      requires Valid()
      modifies this
      ensures Valid() && issued == old(issued)
      ensures FindIndex(old(tasks), id).None? ==> r == NotFound && tasks == old(tasks)
      ensures FindIndex(old(tasks), id).Some? && Validate(p, true, dates) != [] ==>
                r == Invalid(Validate(p, true, dates)) && tasks == old(tasks)
      ensures FindIndex(old(tasks), id).Some? && Validate(p, true, dates) == [] ==>
                var i := FindIndex(old(tasks), id).value;
                var e := Merge(old(tasks)[i], p, now, dates);
                tasks == old(tasks)[i := e.task] && r == (if e.Done? then Ok(e.task) else InternalError)
    {
      var found := FindIndex(tasks, id);
      if found.None? {
        return NotFound;
      }
      var i := found.value;
      var errors := Validate(p, true, dates);
      if errors != [] {
        return Invalid(errors);
      }
      var e := AssignMerged(tasks[i], p, now, dates);
      assert tasks[i] in tasks;
      UpdateKeepsConsistent(tasks, issued, i, e.task);
      tasks := tasks[i := e.task];
      r := if e.Done? then Ok(e.task) else InternalError;
    }

    /** DELETE /tasks/:id: the record found is spliced out; afterwards no
      record has that id. */
    method Delete(id: string) returns (r: Response)
      requires Valid()
      modifies this
      ensures Valid() && issued == old(issued)
      ensures FindIndex(old(tasks), id).None? ==> r == NotFound && tasks == old(tasks)
      ensures FindIndex(old(tasks), id).Some? ==>
                r == NoContent && tasks == RemoveAt(old(tasks), FindIndex(old(tasks), id).value)
      ensures FindIndex(tasks, id).None?
    {
      var found := FindIndex(tasks, id);
      if found.None? {
        return NotFound;
      }
      var index := found.value;
      RemovedIdIsGone(tasks, index);
      tasks := RemoveAt(tasks, index);
      r := NoContent;
    }
  }
}
