/**
 * The kanban board view: tasks are grouped into columns by status, the four
 * default columns always exist, a drag moves one task within or across
 * columns, and only a move across columns asks the server to change the
 * task's status.
 */
module Kanban {
  import opened Wrappers
  import opened Lists

  /** A task as the board lists it; only the status decides its column. */
  datatype Task = Task(taskId: string, title: string, status: string, priority: string)

  type Columns = map<string, seq<Task>>

  const DefaultColumns: seq<string> := ["To Do", "In Progress", "Review", "Done"]

  /** The test a task passes to belong in the column named `s`. */
  function StatusIs(s: string): Task -> bool {
    (t: Task) => t.status == s
  }

  /** The tasks of status `s`, in their order. */
  function WithStatus(tasks: seq<Task>, s: string): seq<Task> {
    Filter(tasks, StatusIs(s))
  }

  function Statuses(tasks: seq<Task>): set<string> {
    set t | t in tasks :: t.status
  }

  /**
   * The columns the board shows for a task list: one per status that occurs
   * and one per default column, each holding its tasks in list order.
   */
  function Grouped(tasks: seq<Task>): Columns {
    map s | s in Statuses(tasks) + DefaultSet() :: WithStatus(tasks, s)
  }

  function DefaultSet(): set<string> {
    set c | c in DefaultColumns
  }

  /** With no task list (absent, or not an array) the board is the four empty default columns. */
  function EmptyColumns(): (cols: Columns)
    ensures cols.Keys == DefaultSet()
    ensures forall c :: c in cols ==> cols[c] == []
  {
    map c | c in DefaultColumns :: []
  }

  /** The effect's result for what the task query returned. */
  function Organized(tasks: Option<seq<Task>>): Columns {
    if tasks.Some? then Grouped(tasks.value) else EmptyColumns()
  }

  /** Each status of the list keyed to its tasks in list order, and no other key. */
  ghost predicate Bucketed(tasks: seq<Task>, acc: Columns) {
    acc.Keys == Statuses(tasks) && forall s :: s in acc ==> acc[s] == WithStatus(tasks, s)
  }

  /** The `reduce`: each task is pushed onto the array of its status, created when missing. */
  method Bucket(tasks: seq<Task>) returns (acc: Columns)
    ensures Bucketed(tasks, acc)
  {
    acc := map[];
    var i := 0;
    while i < |tasks|
      invariant 0 <= i <= |tasks|
      invariant Bucketed(tasks[..i], acc)
    {
      var t := tasks[i];
      assert tasks[..i + 1] == tasks[..i] + [t];
      if t.status !in acc {
        FilterNone(tasks[..i], StatusIs(t.status));
        acc := acc[t.status := []];
      }
      acc := acc[t.status := acc[t.status] + [t]];
      forall s | s in acc ensures acc[s] == WithStatus(tasks[..i + 1], s) {
        FilterSnoc(tasks[..i], t, StatusIs(s));
      }
      i := i + 1;
    }
    assert tasks[..i] == tasks;
  }

  /** The `forEach`: each missing default column is added as an empty array. */
  method AddDefaults(tasks: seq<Task>, acc: Columns) returns (cols: Columns)
    requires Bucketed(tasks, acc)
    ensures cols == Grouped(tasks)
  {
    cols := AddMissing(tasks, acc, DefaultColumns);
    assert cols.Keys == Grouped(tasks).Keys;
  }

  /** Each name of `names` that is not yet a column is added with no tasks, which are its tasks. */
  method AddMissing(tasks: seq<Task>, acc: Columns, names: seq<string>) returns (cols: Columns)
    requires Bucketed(tasks, acc)
    ensures cols.Keys == Statuses(tasks) + (set c | c in names)
    ensures forall s :: s in cols ==> cols[s] == WithStatus(tasks, s)
  {
    cols := acc;
    var j := 0;
    while j < |names|
      invariant 0 <= j <= |names|
      invariant cols.Keys == Statuses(tasks) + (set c | c in names[..j])
      invariant forall s :: s in cols ==> cols[s] == WithStatus(tasks, s)
    {
      var c := names[j];
      assert names[..j + 1] == names[..j] + [c];
      if c !in cols {
        FilterNone(tasks, StatusIs(c));
        cols := cols[c := []];
      }
      j := j + 1;
    }
    assert names[..j] == names;
  }

  /** The effect's grouping of a task list. */
  method Group(tasks: seq<Task>) returns (cols: Columns)
    ensures cols == Grouped(tasks)
  {
    var acc := Bucket(tasks);
    cols := AddDefaults(tasks, acc);
  }

  /** Every default column is there, every task's status has a column, and no other column exists. */
  lemma GroupedColumns(tasks: seq<Task>)
    ensures forall c :: c in DefaultColumns ==> c in Grouped(tasks)
    ensures forall t :: t in tasks ==> t.status in Grouped(tasks)
    ensures forall s :: s in Grouped(tasks) ==> s in DefaultColumns || exists t :: t in tasks && t.status == s
  {
  }

  /** No task is lost or duplicated: each column's multiset is the task list's tasks of that status. */
  lemma GroupedConserves(tasks: seq<Task>, s: string, t: Task)
    requires s in Grouped(tasks)
    ensures multiset(Grouped(tasks)[s])[t] == if t.status == s then multiset(tasks)[t] else 0
  {
    FilterMultiset(tasks, StatusIs(s), t);
  }

  /** Each column lists its tasks in the order of the task list. */
  lemma GroupedKeepsOrder(tasks: seq<Task>, s: string)
    requires s in Grouped(tasks)
    ensures Subsequence(Grouped(tasks)[s], tasks)
  {
    FilterSubsequence(tasks, StatusIs(s));
  }

  /** An empty task list gives the same board as no task list at all. */
  lemma GroupedEmpty()
    ensures Grouped([]) == EmptyColumns()
  {
    assert Statuses([]) == {};
  }

  // ---------------------------------------------------------------------
  // onDragEnd
  // ---------------------------------------------------------------------

  /** A position on the board: a column and an index in it. */
  datatype Location = Location(droppableId: string, index: nat)

  /** What the drag-and-drop library reports at the end of a drag. */
  datatype DropResult = DropResult(source: Location, destination: Option<Location>, draggableId: string)

  /** A request the board sends to the server. */
  datatype Request =
    | UpdateStatus(taskId: string, newStatus: string)
    | CreateTask(input: TaskInput)

  /** The drop puts the task back where it was, or nowhere. */
  predicate NoMove(drop: DropResult) {
    drop.destination.None? || drop.destination.value == drop.source
  }

  predicate SameColumn(drop: DropResult)
    requires drop.destination.Some?
  {
    drop.destination.value.droppableId == drop.source.droppableId
  }

  /**
   * What the library guarantees for a drop that moves something: both
   * columns are on the board and the source index holds a task.
   */
  predicate Droppable(cols: Columns, drop: DropResult) {
    NoMove(drop) ||
    (drop.source.droppableId in cols && drop.destination.value.droppableId in cols &&
     drop.source.index < |cols[drop.source.droppableId]|)
  }

  /**
   * The columns after a drop. Both copies are spliced: the task leaves its
   * source index and is inserted at the destination index of its (possibly
   * the same) column.
   */
  function DragEnd(cols: Columns, drop: DropResult): Columns
    requires Droppable(cols, drop)
  {
    if NoMove(drop) then cols
    else
      var src, dst := drop.source, drop.destination.value;
      var moved := cols[src.droppableId][src.index];
      var rest := RemoveAt(cols[src.droppableId], src.index);
      if SameColumn(drop) then cols[src.droppableId := InsertAt(rest, dst.index, moved)]
      else cols[src.droppableId := rest][dst.droppableId := InsertAt(cols[dst.droppableId], dst.index, moved)]
  }

  /** The status update a drop asks for: one, for a move to another column. */
  function DragRequests(drop: DropResult): seq<Request> {
    if NoMove(drop) || SameColumn(drop) then []
    else [UpdateStatus(drop.draggableId, drop.destination.value.droppableId)]
  }

  /** A drop with no destination, or onto its own place, changes nothing and sends nothing. */
  lemma DropNowhere(cols: Columns, drop: DropResult)
    requires NoMove(drop)
    ensures DragEnd(cols, drop) == cols && DragRequests(drop) == []
  {
  }

  /**
   * A move within one column reorders only that column: it holds the same
   * tasks, the moved task sits at the destination index (or last, when the
   * index is past the end), nothing else changes and nothing is sent.
   */
  lemma MoveWithinColumn(cols: Columns, drop: DropResult)
    requires Droppable(cols, drop) && !NoMove(drop) && SameColumn(drop)
    ensures var id, after := drop.source.droppableId, DragEnd(cols, drop);
      after.Keys == cols.Keys &&
      multiset(after[id]) == multiset(cols[id]) &&
      after[id][Clamp(drop.destination.value.index, |cols[id]| - 1)] == cols[id][drop.source.index] &&
      (forall c :: c in cols && c != id ==> after[c] == cols[c]) &&
      DragRequests(drop) == []
  {
    var rest := RemoveAt(cols[drop.source.droppableId], drop.source.index);
    RemoveAtMultiset(cols[drop.source.droppableId], drop.source.index);
    InsertAtMultiset(rest, drop.destination.value.index, cols[drop.source.droppableId][drop.source.index]);
  }

  /**
   * A move across columns takes exactly the task at the source index out of
   * its column and inserts it at the destination index of the other; the two
   * columns hold the same tasks between them as before, every other column is
   * untouched, and the one request sent sets the task's status to the
   * destination column's name.
   */
  lemma MoveAcrossColumns(cols: Columns, drop: DropResult)
    requires Droppable(cols, drop) && !NoMove(drop) && !SameColumn(drop)
    ensures var src, dst, after := drop.source, drop.destination.value, DragEnd(cols, drop);
      var moved := cols[src.droppableId][src.index];
      after.Keys == cols.Keys &&
      after[src.droppableId] == RemoveAt(cols[src.droppableId], src.index) &&
      after[dst.droppableId][Clamp(dst.index, |cols[dst.droppableId]|)] == moved &&
      multiset(after[dst.droppableId]) == multiset(cols[dst.droppableId]) + multiset{moved} &&
      multiset(after[src.droppableId]) + multiset(after[dst.droppableId]) ==
        multiset(cols[src.droppableId]) + multiset(cols[dst.droppableId]) &&
      |after[src.droppableId]| + |after[dst.droppableId]| == |cols[src.droppableId]| + |cols[dst.droppableId]| &&
      (forall c :: c in cols && c != src.droppableId && c != dst.droppableId ==> after[c] == cols[c]) &&
      DragRequests(drop) == [UpdateStatus(drop.draggableId, dst.droppableId)]
  {
    var src, dst := drop.source, drop.destination.value;
    RemoveAtMultiset(cols[src.droppableId], src.index);
    InsertAtMultiset(cols[dst.droppableId], dst.index, cols[src.droppableId][src.index]);
  }

  /** The drop that undoes `drop`: from its destination back to its source. */
  function Reverse(drop: DropResult): DropResult
    requires drop.destination.Some?
  {
    DropResult(drop.destination.value, Some(drop.source), drop.draggableId)
  }

  /** A drop whose destination index lies within the column it lands in. */
  predicate LandsInRange(cols: Columns, drop: DropResult)
    requires Droppable(cols, drop) && !NoMove(drop)
  {
    drop.destination.value.index < |cols[drop.destination.value.droppableId]| + (if SameColumn(drop) then 0 else 1)
  }

  /** Dragging a task back within its column restores the board. */
  lemma DragBackWithin(cols: Columns, drop: DropResult)
    requires Droppable(cols, drop) && !NoMove(drop) && SameColumn(drop) && LandsInRange(cols, drop)
    ensures Droppable(DragEnd(cols, drop), Reverse(drop)) && DragEnd(DragEnd(cols, drop), Reverse(drop)) == cols
  {
    var src, dst, id := drop.source, drop.destination.value, drop.source.droppableId;
    var moved := cols[id][src.index];
    var rest := RemoveAt(cols[id], src.index);
    var after := DragEnd(cols, drop);
    assert after == cols[id := InsertAt(rest, dst.index, moved)];
    InsertRemove(rest, dst.index, moved);
    RemoveInsert(cols[id], src.index);
    assert DragEnd(after, Reverse(drop)) == after[id := InsertAt(rest, src.index, moved)];
  }

  /** Dragging a task back to the column it came from restores the board. */
  lemma DragBackAcross(cols: Columns, drop: DropResult)
    requires Droppable(cols, drop) && !NoMove(drop) && !SameColumn(drop) && LandsInRange(cols, drop)
    ensures Droppable(DragEnd(cols, drop), Reverse(drop)) && DragEnd(DragEnd(cols, drop), Reverse(drop)) == cols
  {
    var s, d := drop.source.droppableId, drop.destination.value.droppableId;
    var i, j := drop.source.index, drop.destination.value.index;
    var moved := cols[s][i];
    var rest := RemoveAt(cols[s], i);
    var finish := InsertAt(cols[d], j, moved);
    var after := cols[s := rest][d := finish];
    assert DragEnd(cols, drop) == after;
    assert finish[j] == moved && RemoveAt(finish, j) == cols[d] by {
      InsertRemove(cols[d], j, moved);
    }
    assert InsertAt(rest, i, moved) == cols[s] by {
      RemoveInsert(cols[s], i);
    }
    assert Droppable(after, Reverse(drop));
    var back := DragEnd(after, Reverse(drop));
    assert back == after[d := RemoveAt(finish, j)][s := InsertAt(rest, i, moved)];
  }

  // ---------------------------------------------------------------------
  // handleCreateTask
  // ---------------------------------------------------------------------

  /** The create-task form; every field starts as a string. */
  datatype TaskForm = TaskForm(title: string, description: string, status: string, priority: string,
                               dueDate: string, assignedUserId: string)

  /** The request body for a new task. */
  datatype TaskInput = TaskInput(boardId: string, title: string, description: string, status: string,
                                 priority: string, dueDate: string, assignedUserId: string)

  const DefaultBoard := "default"
  const DefaultBoardId := "default-board-id"

  /**
   * The task a submitted form creates: none without a title or a board id;
   * the `default` board stands for `default-board-id`, and an empty status
   * or priority falls back to `To Do` and `Medium`.
   */
  function TaskRequest(form: TaskForm, boardId: Option<string>): (r: Option<TaskInput>)
    ensures r.None? <==> form.title == [] || boardId.None? || boardId.value == []
    ensures r.Some? ==>
      r.value.title == form.title && r.value.description == form.description &&
      r.value.dueDate == form.dueDate && r.value.assignedUserId == form.assignedUserId &&
      r.value.boardId == (if boardId.value == DefaultBoard then DefaultBoardId else boardId.value) &&
      r.value.status == (if form.status == [] then "To Do" else form.status) &&
      r.value.priority == (if form.priority == [] then "Medium" else form.priority)
  {
    if form.title == [] || boardId.None? || boardId.value == [] then None
    else Some(TaskInput(
      if boardId.value == DefaultBoard then DefaultBoardId else boardId.value,
      form.title, form.description,
      if form.status == [] then "To Do" else form.status,
      if form.priority == [] then "Medium" else form.priority,
      form.dueDate, form.assignedUserId))
  }

  /**
   * A created task always has a non-empty title, status and priority, and
   * never names the `default` board; filling the form from it creates it
   * again unchanged.
   */
  lemma TaskRequestStable(form: TaskForm, boardId: Option<string>)
    requires TaskRequest(form, boardId).Some?
    ensures var t := TaskRequest(form, boardId).value;
      t.title != [] && t.status != [] && t.priority != [] && t.boardId != DefaultBoard &&
      TaskRequest(TaskForm(t.title, t.description, t.status, t.priority, t.dueDate, t.assignedUserId), Some(t.boardId)) == Some(t)
  {
  }

  /** The board view's state: the columns it shows and the requests it has sent. */
  class Board {
    var columns: Columns
    var sent: seq<Request>

    /** Before the first task query returns the board has no columns. */
    constructor ()
      ensures columns == map[] && sent == []
    {
      columns := map[];
      sent := [];
    }

    /** The effect run whenever the task query's data changes. */
    method Organize(tasks: Option<seq<Task>>)
      modifies this
      ensures columns == Organized(tasks) && sent == old(sent)
    {
      if tasks.Some? {
        columns := Group(tasks.value);
      } else {
        columns := EmptyColumns();
      }
    }

    /** `onDragEnd`: the columns are replaced by the spliced copies, then the status update is sent. */
    method OnDragEnd(drop: DropResult)
      requires Droppable(columns, drop)
      modifies this
      ensures columns == DragEnd(old(columns), drop)
      ensures sent == old(sent) + DragRequests(drop)
    {
      if drop.destination.None? || drop.destination.value == drop.source {
        return;
      }
      var src, dst := drop.source, drop.destination.value;
      var start := columns[src.droppableId];
      var moved := start[src.index];
      var startTasks := RemoveAt(start, src.index);
      if dst.droppableId == src.droppableId {
        columns := columns[src.droppableId := InsertAt(startTasks, dst.index, moved)];
        return;
      }
      var finishTasks := InsertAt(columns[dst.droppableId], dst.index, moved);
      columns := columns[src.droppableId := startTasks][dst.droppableId := finishTasks];
      sent := sent + [UpdateStatus(drop.draggableId, dst.droppableId)];
    }

    /** `handleCreateTask`: the request is sent only when the form and the route allow it. */
    method HandleCreateTask(form: TaskForm, boardId: Option<string>)
      modifies this
      ensures columns == old(columns)
      ensures sent == old(sent) + (if TaskRequest(form, boardId).Some? then [CreateTask(TaskRequest(form, boardId).value)] else [])
    {
      var r := TaskRequest(form, boardId);
      if r.Some? {
        sent := sent + [CreateTask(r.value)];
      }
    }
  }
}
