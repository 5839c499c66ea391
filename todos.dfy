/**
 * The ownership-scoped todo store: a table of todo records keyed by id,
 * and the six operations of the todo service (create, list, get by id,
 * replace, partial update, remove). Every operation on an existing id goes
 * through the same gate: an unknown id is not found, a record of another
 * user is forbidden, and only the owner's record is read or changed.
 */
module Todos {
  import opened Common

  datatype Priority = Low | Medium | High

  /** Todo ids are issued by the store, here from a counter. */
  type TodoId = nat

  /**
   * A stored todo. `dueDate` is a timestamp or `null`; `createdAt` is the
   * creation stamp the listing sorts on.
   */
  datatype Todo = Todo(
    id: TodoId,
    userId: UserId,
    title: string,
    description: string,
    dueDate: Option<int>,
    completed: bool,
    priority: Priority,
    createdAt: nat)

  /**
   * A date-like request field, by JavaScript truthiness: left out, `null`,
   * the empty string, or a truthy value (a date string or a `Date`) whose
   * `new Date(...)` is `stamp`.
   */
  datatype DateInput = Undefined | Null | Empty | At(stamp: int) {
    /** `value ? new Date(value) : null` */
    function ToDate(): (d: Option<int>)
      ensures d.Some? <==> At?
      ensures d.Some? ==> d.value == stamp
    {
      if At? then Some(stamp) else None
    }
  }

  /** The body of `create`; `None` is a field left out (or `null`, for the `??` defaults). */
  datatype CreateTodoDto = CreateTodoDto(
    title: string,
    description: Option<string>,
    dueDate: DateInput,
    completed: Option<bool>,
    priority: Option<Priority>)

  /**
   * The body of `replace`. Its request type requires title, completed and
   * priority, but nothing checks that at run time, so each may still be
   * left out (`None`); the store then leaves that column as it is.
   */
  datatype UpdateTodoDto = UpdateTodoDto(
    title: Option<string>,
    description: Option<string>,
    dueDate: DateInput,
    completed: Option<bool>,
    priority: Option<Priority>)

  /** The body of `updatePartial`: every field may be left out. */
  datatype PartialUpdateTodoDto = PartialUpdateTodoDto(
    title: Option<string>,
    description: Option<string>,
    dueDate: DateInput,
    completed: Option<bool>,
    priority: Option<Priority>)

  /** The query string of `list`; `completed` is the raw query text. */
  datatype ListQuery = ListQuery(
    completed: Option<string>,
    priority: Option<Priority>,
    title: Option<string>,
    dueFrom: DateInput,
    dueTo: DateInput)

  /** The partial update that changes nothing. */
  const EmptyPatch := PartialUpdateTodoDto(None, None, Undefined, None, None)

  /** The record `create` inserts for `userId`, with its defaults filled in. */
  function NewTodo(id: TodoId, userId: UserId, data: CreateTodoDto, createdAt: nat): (t: Todo)
    ensures t.id == id && t.createdAt == createdAt
    ensures t.userId == userId
    ensures t.title == data.title
    ensures data.description.None? ==> t.description == ""
    ensures data.description.Some? ==> t.description == data.description.value
    ensures t.dueDate.None? <==> !data.dueDate.At?
    ensures data.dueDate.At? ==> t.dueDate == Some(data.dueDate.stamp)
    ensures t.completed <==> data.completed == Some(true)
    ensures data.priority.None? ==> t.priority == Medium
    ensures data.priority.Some? ==> t.priority == data.priority.value
  {
    Todo(id, userId, data.title, data.description.GetOr(""), data.dueDate.ToDate(),
         data.completed.GetOr(false), data.priority.GetOr(Medium), createdAt)
  }

  /**
   * The record `replace` writes over `existing`: title, completed and
   * priority come from `data` when given (an `undefined` column is left
   * unchanged by the store); description and dueDate are always rewritten,
   * to `''` and `null` when left out.
   */
  function Overwrite(existing: Todo, data: UpdateTodoDto): (t: Todo)
    ensures t.id == existing.id && t.userId == existing.userId && t.createdAt == existing.createdAt
    ensures data.title.None? ==> t.title == existing.title
    ensures data.title.Some? ==> t.title == data.title.value
    ensures data.completed.None? ==> t.completed == existing.completed
    ensures data.completed.Some? ==> t.completed == data.completed.value
    ensures data.priority.None? ==> t.priority == existing.priority
    ensures data.priority.Some? ==> t.priority == data.priority.value
    ensures data.description.None? ==> t.description == ""
    ensures data.description.Some? ==> t.description == data.description.value
    ensures t.dueDate.None? <==> !data.dueDate.At?
    ensures data.dueDate.At? ==> t.dueDate == Some(data.dueDate.stamp)
  {
    existing.(
      title := data.title.GetOr(existing.title),
      description := data.description.GetOr(""),
      completed := data.completed.GetOr(existing.completed),
      priority := data.priority.GetOr(existing.priority),
      dueDate := data.dueDate.ToDate())
  }

  /**
   * The record `updatePartial` writes over `existing`: a field left out keeps
   * its stored value; a `dueDate` that is given but falsy clears the date.
   */
  function Merge(existing: Todo, data: PartialUpdateTodoDto): (t: Todo)
    ensures t.id == existing.id && t.userId == existing.userId && t.createdAt == existing.createdAt
    ensures data.title.None? ==> t.title == existing.title
    ensures data.title.Some? ==> t.title == data.title.value
    ensures data.description.None? ==> t.description == existing.description
    ensures data.description.Some? ==> t.description == data.description.value
    ensures data.completed.None? ==> t.completed == existing.completed
    ensures data.completed.Some? ==> t.completed == data.completed.value
    ensures data.priority.None? ==> t.priority == existing.priority
    ensures data.priority.Some? ==> t.priority == data.priority.value
    ensures data.dueDate.Undefined? ==> t.dueDate == existing.dueDate
    ensures data.dueDate.Null? || data.dueDate.Empty? ==> t.dueDate.None?
    ensures data.dueDate.At? ==> t.dueDate == Some(data.dueDate.stamp)
  {
    existing.(
      title := data.title.GetOr(existing.title),
      description := data.description.GetOr(existing.description),
      completed := data.completed.GetOr(existing.completed),
      priority := data.priority.GetOr(existing.priority),
      dueDate := if data.dueDate.Undefined? then existing.dueDate else data.dueDate.ToDate())
  }

  /** A partial update with nothing in it leaves the record as it is. */
  lemma MergeEmptyIsIdentity(existing: Todo)
    ensures Merge(existing, EmptyPatch) == existing
  {
  }

  /** Applying the same partial update twice is the same as applying it once. */
  lemma MergeIdempotent(existing: Todo, data: PartialUpdateTodoDto)
    ensures Merge(Merge(existing, data), data) == Merge(existing, data)
  {
  }

  /** The partial update that supplies every field the way `replace` does. */
  function FullPatch(data: UpdateTodoDto): (p: PartialUpdateTodoDto)
    ensures p.description.Some? && !p.dueDate.Undefined?
    ensures p.title.Some? <==> data.title.Some?
    ensures p.completed.Some? <==> data.completed.Some?
    ensures p.priority.Some? <==> data.priority.Some?
  {
    PartialUpdateTodoDto(
      data.title,
      Some(data.description.GetOr("")),
      if data.dueDate.Undefined? then Null else data.dueDate,
      data.completed,
      data.priority)
  }

  /**
   * A replace is a partial update that always supplies description and
   * dueDate, and supplies the other fields exactly when the body does.
   */
  lemma ReplaceIsFullMerge(existing: Todo, data: UpdateTodoDto)
    ensures Overwrite(existing, data) == Merge(existing, FullPatch(data))
  {
  }

  /** `create` is `replace` applied to a fresh record, with its defaults filled in. */
  lemma CreateIsReplaceWithDefaults(shell: Todo, data: CreateTodoDto)
    ensures NewTodo(shell.id, shell.userId, data, shell.createdAt)
         == Overwrite(shell, UpdateTodoDto(Some(data.title), data.description, data.dueDate,
                                           Some(data.completed.GetOr(false)),
                                           Some(data.priority.GetOr(Medium))))
  {
  }

  /**
   * A replace whose body carries title, completed and priority rewrites
   * every mutable field: what the old record held beyond its identity does
   * not matter.
   */
  lemma FullReplaceForgetsOldRecord(a: Todo, b: Todo, data: UpdateTodoDto)
    requires a.id == b.id && a.userId == b.userId && a.createdAt == b.createdAt
    requires data.title.Some? && data.completed.Some? && data.priority.Some?
    ensures Overwrite(a, data) == Overwrite(b, data)
  {
  }

  // ---------------------------------------------------------------------
  // Listing: the filter `list` builds and how the store evaluates it
  // ---------------------------------------------------------------------

  /** ASCII case folding, applied to both sides of the title filter. */
  function Lower(c: char): (l: char)
    ensures 'A' <= c <= 'Z' ==> l as int == c as int + 32
    ensures !('A' <= c <= 'Z') ==> l == c
  {
    if 'A' <= c <= 'Z' then (c as int + 32) as char else c
  }

  function LowerString(s: string): (r: string)
    ensures |r| == |s|
    ensures forall i :: 0 <= i < |s| ==> r[i] == Lower(s[i])
  {
    seq(|s|, i requires 0 <= i < |s| => Lower(s[i]))
  }

  /** `q` occurs in `s` as a contiguous piece. */
  predicate HasSubstring(s: string, q: string) {
    exists i :: 0 <= i <= |s| && q <= s[i..]
  }

  /** The store's `contains` with `mode: 'insensitive'`. */
  predicate ContainsInsensitive(text: string, q: string) {
    HasSubstring(LowerString(text), LowerString(q))
  }

  /** Inclusive bounds on `dueDate`; either may be missing. */
  datatype DateRange = DateRange(gte: Option<int>, lte: Option<int>)

  /** The `where` object `list` hands to the store. */
  datatype Where = Where(
    userId: UserId,
    completed: Option<bool>,
    priority: Option<Priority>,
    titleContains: Option<string>,
    dueDate: Option<DateRange>)

  /** A bound on a nullable column never admits `null`. */
  predicate InRange(d: Option<int>, r: DateRange) {
    && (r.gte.Some? ==> d.Some? && r.gte.value <= d.value)
    && (r.lte.Some? ==> d.Some? && d.value <= r.lte.value)
  }

  /** How the store evaluates a `where` object on one record. */
  predicate Matches(w: Where, t: Todo) {
    && t.userId == w.userId
    && (w.completed.Some? ==> t.completed == w.completed.value)
    && (w.priority.Some? ==> t.priority == w.priority.value)
    && (w.titleContains.Some? ==> ContainsInsensitive(t.title, w.titleContains.value))
    && (w.dueDate.Some? ==> InRange(t.dueDate, w.dueDate.value))
  }

  /**
   * What `list` promises about every todo it returns, stated directly on
   * the query: the caller owns it; `completed` filters only when it is the
   * text "true" or "false"; a given priority matches exactly; a non-empty
   * title is a case-insensitive substring; each given date bound holds.
   */
  predicate Admits(userId: UserId, q: ListQuery, t: Todo) {
    && t.userId == userId
    && (q.completed == Some("true") ==> t.completed)
    && (q.completed == Some("false") ==> !t.completed)
    && (q.priority.Some? ==> t.priority == q.priority.value)
    && (q.title.Some? && q.title.value != "" ==> ContainsInsensitive(t.title, q.title.value))
    && (q.dueFrom.At? ==> t.dueDate.Some? && q.dueFrom.stamp <= t.dueDate.value)
    && (q.dueTo.At? ==> t.dueDate.Some? && t.dueDate.value <= q.dueTo.stamp)
  }

  /** Builds the `where` object of `list` one condition at a time. */
  method BuildWhere(userId: UserId, query: ListQuery) returns (w: Where)
    ensures w.userId == userId
    ensures forall t :: Matches(w, t) <==> Admits(userId, query, t)
  {
    w := Where(userId, None, None, None, None);
    if query.completed.Some? {
      if query.completed.value == "true" || query.completed.value == "false" {
        w := w.(completed := Some(query.completed.value == "true"));
      }
    }
    if query.priority.Some? {
      w := w.(priority := query.priority);
    }
    if query.title.Some? && query.title.value != "" {
      w := w.(titleContains := query.title);
    }
    if query.dueFrom.At? || query.dueTo.At? {
      var range := DateRange(None, None);
      if query.dueFrom.At? {
        range := range.(gte := Some(query.dueFrom.stamp));
      }
      if query.dueTo.At? {
        range := range.(lte := Some(query.dueTo.stamp));
      }
      w := w.(dueDate := Some(range));
    }
  }

  /** `orderBy: { createdAt: 'desc' }`, with no two records created at once. */
  predicate NewestFirst(s: seq<Todo>) {
    forall i, j :: 0 <= i < j < |s| ==> s[i].createdAt > s[j].createdAt
  }

  // ---------------------------------------------------------------------
  // The service over the in-memory table
  // ---------------------------------------------------------------------

  class TodoService {
    /** The todo table, keyed by id. */
    var todos: map<TodoId, Todo>
    /** The next id to issue; it is also the creation stamp of the next todo. */
    var nextId: nat

    /** Every record sits under its own id, and ids and stamps come from the counter. */
    ghost predicate Valid()
      reads this
    {
      forall id :: id in todos ==> todos[id].id == id && todos[id].createdAt == id && id < nextId
    }

    constructor ()
      ensures Valid()
      ensures todos == map[] && nextId == 0
    {
      todos := map[];
      nextId := 0;
    }

    /**
     * Inserts the defaulted record owned by `userId`; no other record
     * changes.
     */
    method Create(userId: UserId, data: CreateTodoDto) returns (t: Todo)
      requires Valid()
      modifies this
      ensures Valid()
      ensures t == NewTodo(old(nextId), userId, data, old(nextId))
      ensures t.id !in old(todos)
      ensures todos == old(todos)[t.id := t]
      ensures nextId == old(nextId) + 1
    {
      t := NewTodo(nextId, userId, data, nextId);
      todos := todos[t.id := t];
      nextId := nextId + 1;
    }

    /**
     * Exactly the caller's todos that pass the query, newest first, each as
     * it is stored.
     */
    method List(userId: UserId, query: ListQuery) returns (r: seq<Todo>)
      requires Valid()
      ensures forall i :: 0 <= i < |r| ==> r[i].id in todos && todos[r[i].id] == r[i]
      ensures forall i :: 0 <= i < |r| ==> Admits(userId, query, r[i])
      ensures forall id :: id in todos && Admits(userId, query, todos[id]) ==> todos[id] in r
      ensures NewestFirst(r)
    {
      var w := BuildWhere(userId, query);
      r := FindMany(w);
    }

    /**
     * The store's `findMany` with `orderBy: { createdAt: 'desc' }`: walks
     * the stamps from the newest down, so the result comes out ordered.
     */
    method FindMany(w: Where) returns (r: seq<Todo>)
      requires Valid()
      ensures forall i :: 0 <= i < |r| ==> r[i].id in todos && todos[r[i].id] == r[i]
      ensures forall i :: 0 <= i < |r| ==> Matches(w, r[i])
      ensures forall id :: id in todos && Matches(w, todos[id]) ==> todos[id] in r
      ensures NewestFirst(r)
    {
      r := [];
      var k := nextId;
      while k > 0
        invariant k <= nextId
        invariant forall i :: 0 <= i < |r| ==> r[i].id in todos && todos[r[i].id] == r[i]
        invariant forall i :: 0 <= i < |r| ==> Matches(w, r[i]) && k <= r[i].createdAt
        invariant forall id :: id in todos && k <= id && Matches(w, todos[id]) ==> todos[id] in r
        invariant NewestFirst(r)
      {
        k := k - 1;
        if k in todos && Matches(w, todos[k]) {
          r := r + [todos[k]];
        }
      }
    }

    /**
     * `getById`, and the gate the other operations share: an unknown id is
     * not found, another user's record is forbidden (never not found), and
     * the owner gets the stored record unchanged.
     */
    function GetById(userId: UserId, id: TodoId): (r: Outcome<Todo>)
      reads this
      ensures r.NotFound? <==> id !in todos
      ensures r.Forbidden? <==> id in todos && todos[id].userId != userId
      ensures r.Ok? ==> id in todos && r.value == todos[id] && r.value.userId == userId
    {
      if id !in todos then NotFound
      else if todos[id].userId != userId then Forbidden
      else Ok(todos[id])
    }

    /** Full overwrite of the owner's record; refused ids leave the table unchanged. */
    method Replace(userId: UserId, id: TodoId, data: UpdateTodoDto) returns (r: Outcome<Todo>)
      requires Valid()
      modifies this
      ensures Valid()
      ensures nextId == old(nextId)
      ensures id !in old(todos) ==> r == NotFound && todos == old(todos)
      ensures id in old(todos) && old(todos)[id].userId != userId ==> r == Forbidden && todos == old(todos)
      ensures id in old(todos) && old(todos)[id].userId == userId ==>
                r == Ok(Overwrite(old(todos)[id], data)) && todos == old(todos)[id := r.value]
    {
      match GetById(userId, id)
      case NotFound => r := NotFound;
      case Forbidden => r := Forbidden;
      case Ok(existing) =>
        var updated := Overwrite(existing, data);
        todos := todos[id := updated];
        r := Ok(updated);
    }

    /** Field-by-field merge into the owner's record; refused ids leave the table unchanged. */
    method UpdatePartial(userId: UserId, id: TodoId, data: PartialUpdateTodoDto) returns (r: Outcome<Todo>)
      requires Valid()
      modifies this
      ensures Valid()
      ensures nextId == old(nextId)
      ensures id !in old(todos) ==> r == NotFound && todos == old(todos)
      ensures id in old(todos) && old(todos)[id].userId != userId ==> r == Forbidden && todos == old(todos)
      ensures id in old(todos) && old(todos)[id].userId == userId ==>
                r == Ok(Merge(old(todos)[id], data)) && todos == old(todos)[id := r.value]
    {
      match GetById(userId, id)
      case NotFound => r := NotFound;
      case Forbidden => r := Forbidden;
      case Ok(existing) =>
        var updated := Merge(existing, data);
        todos := todos[id := updated];
        r := Ok(updated);
    }

    /** Deletes the owner's record and answers `true`; refused ids leave the table unchanged. */
    method Remove(userId: UserId, id: TodoId) returns (r: Outcome<bool>)
      requires Valid()
      modifies this
      ensures Valid()
      ensures nextId == old(nextId)
      ensures id !in old(todos) ==> r == NotFound && todos == old(todos)
      ensures id in old(todos) && old(todos)[id].userId != userId ==> r == Forbidden && todos == old(todos)
      ensures id in old(todos) && old(todos)[id].userId == userId ==>
                r == Ok(true) && todos == old(todos) - {id}
    {
      match GetById(userId, id)
      case NotFound => r := NotFound;
      case Forbidden => r := Forbidden;
      case Ok(_) =>
        todos := todos - {id};
        r := Ok(true);
    }
  }

  /**
   * A client of the service: an empty partial update of one's own todo
   * answers the stored record and leaves the whole table as it was.
   */
  method EmptyUpdateChangesNothing(s: TodoService, userId: UserId, id: TodoId) returns (r: Outcome<Todo>)
    requires s.Valid()
    requires id in s.todos && s.todos[id].userId == userId
    modifies s
    ensures s.Valid()
    ensures r == Ok(old(s.todos[id])) && s.todos == old(s.todos)
  {
    r := s.UpdatePartial(userId, id, EmptyPatch);
    MergeEmptyIsIdentity(old(s.todos[id]));
  }

  /**
   * A client of the service: a todo created with only a title is not
   * completed, has medium priority, no description and no due date, and
   * every other user is forbidden to read it.
   */
  method CreateThenGetById(s: TodoService, owner: UserId, other: UserId, title: string) returns (t: Todo)
    requires s.Valid() && owner != other
    modifies s
    ensures s.Valid()
    ensures t.title == title && !t.completed && t.priority == Medium && t.description == "" && t.dueDate.None?
    ensures s.GetById(owner, t.id) == Ok(t)
    ensures s.GetById(other, t.id) == Forbidden
  {
    t := s.Create(owner, CreateTodoDto(title, None, Undefined, None, None));
  }
}
