/** Request sequences a client can rely on, proved from the handlers'
    contracts alone. */
module Scenarios {
  import opened Js
  import opened TaskModel
  import opened Validation
  import opened Store

  /** A task created with an accepted body is then served by GET /tasks/:id. */
  method CreateThenGet(store: TaskStore, p: Payload, id: string, now: string, dates: DateLib)
    returns (created: Response, fetched: Response)
    requires store.Valid() && id !in store.issued
    requires Validate(p, false, dates) == [] && NewTask(p, id, now, dates).Some?
    modifies store
    ensures store.Valid()
    ensures created.Created? && created.task.id == id && fetched == Ok(created.task)
  {
    created := store.Create(p, id, now, dates);
    fetched := store.Get(id);
    assert created.task in store.tasks;
    SameIdSameTask(store.tasks, fetched.task, created.task);
  }

  /** After DELETE /tasks/:id, GET /tasks/:id answers 404. */
  method DeleteThenGet(store: TaskStore, id: string) returns (deleted: Response, fetched: Response)
    requires store.Valid()
    modifies store
    ensures store.Valid()
    ensures fetched == NotFound
  {
    deleted := store.Delete(id);
    fetched := store.Get(id);
  }
}
