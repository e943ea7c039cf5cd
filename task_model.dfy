/** The task record held by the store, and the shape of a request body. */
module TaskModel {
  import opened Js

  datatype Priority = Low | Medium | High

  /** The string a priority is stored and served as. */
  function PriorityName(p: Priority): string {
    match p
    case Low => "low"
    case Medium => "medium"
    case High => "high"
  }

  /** `['low', 'medium', 'high'].includes(v)`, giving the priority it names. */
  function ParsePriority(v: JsValue): (r: Option<Priority>)
    ensures r.Some? ==> v == JStr(PriorityName(r.value))
  {
    match v
    case JStr(s) =>
      if s == "low" then Some(Low)
      else if s == "medium" then Some(Medium)
      else if s == "high" then Some(High)
      else None
    case _ => None
  }

  /** A priority's name parses back to that priority, and only the three names parse. */
  lemma PriorityRoundTrip(p: Priority, v: JsValue)
    ensures ParsePriority(JStr(PriorityName(p))) == Some(p)
    ensures ParsePriority(v).Some? <==> v in {JStr("low"), JStr("medium"), JStr("high")}
  {
  }

  /** A stored task. `dueDate` is `None` where the record holds `undefined`. */
  datatype Task = Task(
    id: string,
    title: string,
    description: string,
    completed: bool,
    createdAt: string,
    updatedAt: string,
    dueDate: Option<string>,
    priority: Priority)

  /** The fields of a request body the handlers look at; `None` is an absent key.
      Any other key of the body is ignored by every handler. */
  datatype Payload = Payload(
    title: Option<JsValue>,
    description: Option<JsValue>,
    completed: Option<JsValue>,
    dueDate: Option<JsValue>,
    priority: Option<JsValue>)

  /** What every stored task satisfies: its title is non-empty and, like its
      description, already trimmed. */
  predicate WellFormed(t: Task) {
    t.title != "" && IsTrimmed(t.title) && IsTrimmed(t.description)
  }
}
