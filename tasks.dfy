/** The task record as the board receives it from the backend, and lookups by id. */
module Tasks {
  import opened Wrappers

  /**
   * A task. `status` is a plain string, as the backend sends it: the board
   * compares it against 'todo', 'in_progress' and 'done' while the task form
   * offers 'in-progress'. `order` is the fractional sort key within a column.
   */
  datatype Task = Task(
    id: string,
    title: string,
    description: Option<string>,
    status: string,
    order: real,
    createdAt: string,
    updatedAt: string)

  /** `ts.findIndex(t => t.id === id)`: the first position holding `id`, or -1. */
  function FindIndex(ts: seq<Task>, id: string): (k: int)
    ensures -1 <= k < |ts|
    ensures k >= 0 ==> ts[k].id == id && forall j :: 0 <= j < k ==> ts[j].id != id
    ensures k == -1 <==> forall j :: 0 <= j < |ts| ==> ts[j].id != id
  {
    if ts == [] then -1
    else if ts[0].id == id then 0
    else
      var k := FindIndex(ts[1..], id);
      if k < 0 then -1 else k + 1
  }

  /** `ts.find(t => t.id === id)`: the first task holding `id`, if any. */
  function Find(ts: seq<Task>, id: string): (r: Option<Task>)
    ensures r.Some? ==> r.value in ts && r.value.id == id
    ensures r.Some? ==> exists k :: 0 <= k < |ts| && ts[k] == r.value && forall j :: 0 <= j < k ==> ts[j].id != id
    ensures r.None? <==> forall j :: 0 <= j < |ts| ==> ts[j].id != id
  {
    var k := FindIndex(ts, id);
    if k < 0 then None else Some(ts[k])
  }
}
