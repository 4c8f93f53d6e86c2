/** The task record and the pure list transformations the handlers of
    `TodoList` apply to it: the spread-append, the two id-matching `map`s, the
    id `filter` and the id `find`. */
module Tasks {
  import opened Wrappers
  import opened Seqs

  /** Identifier generated by the store; the client only compares it. */
  type Id = int

  /** One row of the `tasks` table as the client holds it. `period` is the
      text the store holds; the screen knows "daily", "weekly" and "monthly". */
  datatype Task = Task(id: Id, title: string, completed: bool, period: string)

  /** `tasks.map((t: Task) => t.id === id ? edit(t) : t)`: every task with the id is
      replaced by its edited copy, every other task stays where it was. */
  function MapMatching(ts: seq<Task>, id: Id, edit: Task -> Task): (r: seq<Task>)
    ensures |r| == |ts|
    ensures forall i :: 0 <= i < |ts| ==> r[i] == if ts[i].id == id then edit(ts[i]) else ts[i]
  {
    if ts == [] then []
    else [if ts[0].id == id then edit(ts[0]) else ts[0]] + MapMatching(ts[1..], id, edit)
  }

  /** The rename of a successful save: `{ ...task, title }` on the tasks with
      the id. */
  function Rename(ts: seq<Task>, id: Id, title: string): (r: seq<Task>)
    ensures |r| == |ts|
    ensures forall i :: 0 <= i < |ts| ==>
              r[i].id == ts[i].id && r[i].completed == ts[i].completed && r[i].period == ts[i].period
              && r[i].title == if ts[i].id == id then title else ts[i].title
  {
    MapMatching(ts, id, (t: Task) => t.(title := title))
  }

  /** The flip of a successful toggle: `{ ...task, completed: !task.completed }`
      on the tasks with the id. */
  function Toggle(ts: seq<Task>, id: Id): (r: seq<Task>)
    ensures |r| == |ts|
    ensures forall i :: 0 <= i < |ts| ==>
              r[i].id == ts[i].id && r[i].title == ts[i].title && r[i].period == ts[i].period
              && r[i].completed == (ts[i].completed != (ts[i].id == id))
  {
    MapMatching(ts, id, (t: Task) => t.(completed := !t.completed))
  }

  /** `tasks.filter(task => task.id !== id)`: exactly the tasks with another
      id, in their original order and multiplicity. */
  function Remove(ts: seq<Task>, id: Id): (r: seq<Task>)
    ensures Subseq(r, ts)
    ensures forall t :: multiset(r)[t] == if t.id != id then multiset(ts)[t] else 0
  {
    Filter(ts, (t: Task) => t.id != id)
  }

  /** `tasks.find((t: Task) => t.id === id)`: the first task with the id, or None
      (JavaScript's `undefined`) when no task has it. */
  function Find(ts: seq<Task>, id: Id): (r: Option<Task>)
    ensures r.None? <==> forall i :: 0 <= i < |ts| ==> ts[i].id != id
    ensures r.Some? ==> exists i :: 0 <= i < |ts| && ts[i] == r.value && r.value.id == id
                                    && forall j :: 0 <= j < i ==> ts[j].id != id
  {
    if ts == [] then None
    else if ts[0].id == id then Some(ts[0])
    else
      var r := Find(ts[1..], id);
      assert r.Some? ==> exists i :: 1 <= i < |ts| && ts[i] == r.value && r.value.id == id
                                     && forall j :: 0 <= j < i ==> ts[j].id != id;
      r
  }

  /** Toggling the same id twice restores the original list. */
  lemma ToggleTwice(ts: seq<Task>, id: Id)
    ensures Toggle(Toggle(ts, id), id) == ts
  {
    var once := Toggle(ts, id);
    var twice := Toggle(once, id);
    forall i | 0 <= i < |ts| ensures twice[i] == ts[i] {
      assert once[i].id == ts[i].id;
    }
  }

  /** Saving the same title twice is saving it once. */
  lemma RenameIdempotent(ts: seq<Task>, id: Id, title: string)
    ensures Rename(Rename(ts, id, title), id, title) == Rename(ts, id, title)
  {
    var once := Rename(ts, id, title);
    var twice := Rename(once, id, title);
    forall i | 0 <= i < |ts| ensures twice[i] == once[i] {
    }
  }

  /** After a delete no task with the id is left to find. */
  lemma RemoveLeavesNone(ts: seq<Task>, id: Id)
    ensures Find(Remove(ts, id), id) == None
  {
    var r := Remove(ts, id);
    forall i | 0 <= i < |r| ensures r[i].id != id {
      assert multiset(r)[r[i]] > 0;
    }
  }

  /** Deleting an id no task has leaves the list as it was. */
  lemma RemoveAbsent(ts: seq<Task>, id: Id)
    requires Find(ts, id) == None
    ensures Remove(ts, id) == ts
  {
    FilterKeepsAll(ts, (t: Task) => t.id != id);
  }

  /** Deleting the same id twice is deleting it once. */
  lemma RemoveIdempotent(ts: seq<Task>, id: Id)
    ensures Remove(Remove(ts, id), id) == Remove(ts, id)
  {
    RemoveLeavesNone(ts, id);
    RemoveAbsent(Remove(ts, id), id);
  }
}
