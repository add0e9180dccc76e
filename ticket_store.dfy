/**
 * The `tickets` table and the operations of `server/models/Ticket.js`.
 *
 * The database is an in-memory table whose ids the store assigns (a SERIAL
 * column starting at 1). `updateTicket` and `getTickets` build their SQL from
 * pieces; the model keeps those pieces as data (`Assignment(f, k)` is the
 * text `f = $k`, `Condition(c, k)` is `c = $k`), gives them the meaning the
 * database gives them, and proves that what is built means what it should.
 */
module TicketStore {
  import opened Base
  import opened Js

  /** A row of `tickets` (the database's timestamps are not modelled). */
  datatype Ticket = Ticket(id: nat, userId: int, title: Value, description: Value, status: Value, priority: Value)

  /** A row as the table holds it: no column is `undefined`. */
  predicate Stored(t: Ticket) {
    t.title != Undefined && t.description != Undefined && t.status != Undefined && t.priority != Undefined
  }

  // ---------------------------------------------------------------- partial update

  /** The columns a partial update may set. */
  datatype Field = Title | Description | Status | Priority

  /** The four optional arguments of an update; `Undefined` means "not supplied". */
  datatype TicketFields = TicketFields(title: Value, description: Value, status: Value, priority: Value) {
    function Get(f: Field): Value {
      match f
      case Title => title
      case Description => description
      case Status => status
      case Priority => priority
    }
  }

  function FieldOf(t: Ticket, f: Field): Value {
    match f
    case Title => t.title
    case Description => t.description
    case Status => t.status
    case Priority => t.priority
  }

  function SetField(t: Ticket, f: Field, v: Value): (r: Ticket)
    ensures r.id == t.id && r.userId == t.userId
    ensures forall g :: FieldOf(r, g) == if g == f then v else FieldOf(t, g)
  {
    match f
    case Title => t.(title := v)
    case Description => t.(description := v)
    case Status => t.(status := v)
    case Priority => t.(priority := v)
  }

  /** Two rows are equal when their ids, owners and the four fields agree. */
  lemma TicketExtensionality(a: Ticket, b: Ticket)
    requires a.id == b.id && a.userId == b.userId
    requires forall f :: FieldOf(a, f) == FieldOf(b, f)
    ensures a == b
  {
    assert FieldOf(a, Title) == FieldOf(b, Title);
    assert FieldOf(a, Description) == FieldOf(b, Description);
    assert FieldOf(a, Status) == FieldOf(b, Status);
    assert FieldOf(a, Priority) == FieldOf(b, Priority);
  }

  /** `sup`, followed by `f` when its argument `v` is supplied. */
  function AddIfSupplied(sup: seq<Field>, v: Value, f: Field): (r: seq<Field>)
    ensures forall g :: g in r <==> g in sup || (g == f && v != Undefined)
  {
    if v != Undefined then sup + [f] else sup
  }

  /** The supplied fields, in the order `updateTicket` tests them: each once, none missing. */
  function Supplied(fields: TicketFields): (r: seq<Field>)
    ensures forall f :: f in r <==> fields.Get(f) != Undefined
    ensures forall i, j :: 0 <= i < j < |r| ==> r[i] != r[j]
  {
    AddIfSupplied(AddIfSupplied(AddIfSupplied(AddIfSupplied([],
      fields.title, Title), fields.description, Description), fields.status, Status), fields.priority, Priority)
  }

  /** The reference meaning of a partial update: every supplied field is replaced, the rest kept. */
  function Patched(t: Ticket, fields: TicketFields): (r: Ticket)
    ensures r.id == t.id && r.userId == t.userId
    ensures forall f :: FieldOf(r, f) == if fields.Get(f) != Undefined then fields.Get(f) else FieldOf(t, f)
  {
    Ticket(t.id, t.userId,
      if fields.title != Undefined then fields.title else t.title,
      if fields.description != Undefined then fields.description else t.description,
      if fields.status != Undefined then fields.status else t.status,
      if fields.priority != Undefined then fields.priority else t.priority)
  }

  /** The table after patching the row with that id; every other row and the order stay. */
  function PatchRows(rows: seq<Ticket>, id: nat, fields: TicketFields): (r: seq<Ticket>)
    ensures |r| == |rows|
    ensures forall i :: 0 <= i < |rows| ==> r[i] == if rows[i].id == id then Patched(rows[i], fields) else rows[i]
  {
    if rows == [] then []
    else [if rows[0].id == id then Patched(rows[0], fields) else rows[0]] + PatchRows(rows[1..], id, fields)
  }

  /** A bound query parameter. */
  datatype SqlParam = IntParam(n: int) | TextParam(v: Value)

  /** The text `field = $placeholder` of a SET list. */
  datatype Assignment = Assignment(field: Field, placeholder: nat)

  /** `UPDATE tickets SET <assignments> WHERE id = $idPlaceholder RETURNING *` */
  datatype UpdateStatement = UpdateStatement(assignments: seq<Assignment>, idPlaceholder: nat)

  datatype PreparedUpdate = PreparedUpdate(statement: UpdateStatement, values: seq<SqlParam>)

  /** `f1 = $1, f2 = $2, ...`: the k-th field set from the (k+1)-th parameter. */
  function SetList(sup: seq<Field>): (a: seq<Assignment>)
    ensures |a| == |sup|
    ensures forall k :: 0 <= k < |a| ==> a[k] == Assignment(sup[k], k + 1)
  {
    seq(|sup|, k requires 0 <= k < |sup| => Assignment(sup[k], k + 1))
  }

  /** The parameters for a SET list: the k-th is the argument of the k-th field. */
  function SetValues(sup: seq<Field>, fields: TicketFields): (vs: seq<SqlParam>)
    ensures |vs| == |sup|
    ensures forall k :: 0 <= k < |vs| ==> vs[k] == TextParam(fields.Get(sup[k]))
  {
    seq(|sup|, k requires 0 <= k < |sup| => TextParam(fields.Get(sup[k])))
  }

  /**
   * The statement `updateTicket` promises: the k-th assignment sets the k-th
   * supplied field from `$(k+1)`, the k-th value is that field's argument, and
   * the WHERE placeholder is the next number, bound to the ticket id.
   */
  ghost predicate PreparedFor(p: PreparedUpdate, id: nat, fields: TicketFields) {
    var sup := Supplied(fields);
    && p.statement.assignments == SetList(sup)
    && p.values == SetValues(sup, fields) + [IntParam(id)]
    && p.statement.idPlaceholder == |sup| + 1
  }

  /**
   * What the database needs to run an update: as many values as placeholders,
   * each placeholder bound (the SET ones to text, distinct from the id's), no column twice.
   */
  predicate Executable(p: PreparedUpdate) {
    var a := p.statement.assignments;
    && (forall k :: 0 <= k < |a| ==> 1 <= a[k].placeholder <= |p.values| && p.values[a[k].placeholder - 1].TextParam?)
    && (forall i, j :: 0 <= i < j < |a| ==> a[i].field != a[j].field)
    && 1 <= p.statement.idPlaceholder <= |p.values|
    && |p.values| == |a| + 1
    && (forall k :: 0 <= k < |a| ==> a[k].placeholder != p.statement.idPlaceholder)
  }

  /** The SET list applied to one row (its columns are distinct, so the order of application does not matter). */
  function ApplyAssignments(t: Ticket, a: seq<Assignment>, values: seq<SqlParam>): Ticket
    requires forall k :: 0 <= k < |a| ==> 1 <= a[k].placeholder <= |values| && values[a[k].placeholder - 1].TextParam?
  {
    if a == [] then t
    else
      var last := a[|a| - 1];
      SetField(ApplyAssignments(t, a[..|a| - 1], values), last.field, values[last.placeholder - 1].v)
  }

  /** What the database does with a prepared update: the rows whose id equals the WHERE parameter get the SET list. */
  function ExecuteUpdate(rows: seq<Ticket>, p: PreparedUpdate): seq<Ticket>
    requires Executable(p)
  {
    if rows == [] then []
    else
      var t := rows[0];
      var hit := IntParam(t.id) == p.values[p.statement.idPlaceholder - 1];
      [if hit then ApplyAssignments(t, p.statement.assignments, p.values) else t] + ExecuteUpdate(rows[1..], p)
  }

  /** A SET list built from `sup` gives each field of `sup` its argument and keeps the others. */
  lemma {:induction false} ApplySetList(t: Ticket, sup: seq<Field>, values: seq<SqlParam>, fields: TicketFields)
    requires |sup| <= |values|
    requires forall k :: 0 <= k < |sup| ==> values[k] == TextParam(fields.Get(sup[k]))
    ensures var r := ApplyAssignments(t, SetList(sup), values);
      && r.id == t.id && r.userId == t.userId
      && forall f :: FieldOf(r, f) == if f in sup then fields.Get(f) else FieldOf(t, f)
  {
    if sup != [] {
      var init := sup[..|sup| - 1];
      var a := SetList(sup);
      assert a[..|a| - 1] == SetList(init);
      ApplySetList(t, init, values, fields);
      assert sup == init + [sup[|sup| - 1]];
    }
  }

  /** The built statement is one the database can run. */
  lemma PreparedIsExecutable(p: PreparedUpdate, id: nat, fields: TicketFields)
    requires PreparedFor(p, id, fields)
    ensures Executable(p)
  {
    var sup := Supplied(fields);
    var a := p.statement.assignments;
    forall i, j | 0 <= i < j < |a| ensures a[i].field != a[j].field {
      assert a[i].field == sup[i] && a[j].field == sup[j];
    }
  }

  /** On the row it selects, the built statement performs the reference partial update. */
  lemma PreparedPatchesRow(t: Ticket, p: PreparedUpdate, id: nat, fields: TicketFields)
    requires PreparedFor(p, id, fields)
    ensures Executable(p)
    ensures ApplyAssignments(t, p.statement.assignments, p.values) == Patched(t, fields)
  {
    PreparedIsExecutable(p, id, fields);
    ApplySupplied(t, Supplied(fields), p.values, fields);
  }

  /** Applying the SET list of exactly the supplied fields is the reference partial update. */
  lemma ApplySupplied(t: Ticket, sup: seq<Field>, values: seq<SqlParam>, fields: TicketFields)
    requires forall f :: f in sup <==> fields.Get(f) != Undefined
    requires |values| == |sup| + 1
    requires forall k :: 0 <= k < |sup| ==> values[k] == TextParam(fields.Get(sup[k]))
    ensures ApplyAssignments(t, SetList(sup), values) == Patched(t, fields)
  {
    ApplySetList(t, sup, values, fields);
    TicketExtensionality(ApplyAssignments(t, SetList(sup), values), Patched(t, fields));
  }

  /** A statement built as `updateTicket` builds it runs, and does what the reference partial update says. */
  lemma {:induction false} PreparedUpdateExecutes(rows: seq<Ticket>, p: PreparedUpdate, id: nat, fields: TicketFields)
    requires PreparedFor(p, id, fields)
    ensures Executable(p)
    ensures ExecuteUpdate(rows, p) == PatchRows(rows, id, fields)
  {
    PreparedIsExecutable(p, id, fields);
    if rows != [] {
      PreparedUpdateExecutes(rows[1..], p, id, fields);
      PreparedPatchesRow(rows[0], p, id, fields);
      PreparedIdBound(p, id, fields);
      ExecuteUpdateHead(rows, p, id, Patched(rows[0], fields));
    }
  }

  /** The WHERE placeholder of the built statement is bound to the ticket id. */
  lemma PreparedIdBound(p: PreparedUpdate, id: nat, fields: TicketFields)
    requires PreparedFor(p, id, fields)
    ensures 1 <= p.statement.idPlaceholder <= |p.values|
    ensures p.values[p.statement.idPlaceholder - 1] == IntParam(id)
  {
  }

  /** One step of the database's execution: the first row gets the SET list exactly when its id is the bound one. */
  lemma ExecuteUpdateHead(rows: seq<Ticket>, p: PreparedUpdate, id: nat, patched: Ticket)
    requires rows != [] && Executable(p)
    requires p.values[p.statement.idPlaceholder - 1] == IntParam(id)
    requires rows[0].id == id ==> ApplyAssignments(rows[0], p.statement.assignments, p.values) == patched
    ensures ExecuteUpdate(rows, p) == [if rows[0].id == id then patched else rows[0]] + ExecuteUpdate(rows[1..], p)
  {
  }

  // ---------------------------------------------------------------- filtered query

  /** The columns `getTickets` can filter on. */
  datatype FilterColumn = UserIdColumn | StatusColumn | PriorityColumn

  /** The argument of `getTickets`: a user id (0 is falsy) and two optional strings. */
  datatype Filters = Filters(userId: int, status: Value, priority: Value) {
    /** The filter takes part only when its value is truthy. */
    predicate Active(c: FilterColumn) {
      match c
      case UserIdColumn => userId != 0
      case StatusColumn => Truthy(status)
      case PriorityColumn => Truthy(priority)
    }

    function Param(c: FilterColumn): SqlParam {
      match c
      case UserIdColumn => IntParam(userId)
      case StatusColumn => TextParam(status)
      case PriorityColumn => TextParam(priority)
    }
  }

  function AddIfActive(act: seq<FilterColumn>, on: bool, c: FilterColumn): (r: seq<FilterColumn>)
    ensures forall d :: d in r <==> d in act || (d == c && on)
  {
    if on then act + [c] else act
  }

  /** The truthy filters, in the order `getTickets` tests them. */
  function ActiveFilters(f: Filters): (r: seq<FilterColumn>)
    ensures forall c :: c in r <==> f.Active(c)
  {
    AddIfActive(AddIfActive(AddIfActive([],
      f.userId != 0, UserIdColumn), Truthy(f.status), StatusColumn), Truthy(f.priority), PriorityColumn)
  }

  /** The text `column = $placeholder` of a WHERE clause. */
  datatype Condition = Condition(column: FilterColumn, placeholder: nat)

  /** `SELECT * FROM tickets`, with ` WHERE c1 AND c2 ...` only when there are conditions. */
  datatype SelectStatement = SelectAll | SelectWhere(conditions: seq<Condition>)

  datatype PreparedSelect = PreparedSelect(statement: SelectStatement, values: seq<SqlParam>)

  /** `c1 = $1 AND c2 = $2 ...` */
  function WhereList(act: seq<FilterColumn>): (cs: seq<Condition>)
    ensures |cs| == |act|
    ensures forall k :: 0 <= k < |cs| ==> cs[k] == Condition(act[k], k + 1)
  {
    seq(|act|, k requires 0 <= k < |act| => Condition(act[k], k + 1))
  }

  function WhereValues(act: seq<FilterColumn>, f: Filters): (vs: seq<SqlParam>)
    ensures |vs| == |act|
    ensures forall k :: 0 <= k < |vs| ==> vs[k] == f.Param(act[k])
  {
    seq(|act|, k requires 0 <= k < |act| => f.Param(act[k]))
  }

  /** The statement `getTickets` promises: the k-th condition tests the k-th truthy filter against `$(k+1)`. */
  ghost predicate PreparedSelectFor(p: PreparedSelect, f: Filters) {
    var act := ActiveFilters(f);
    && p.values == WhereValues(act, f)
    && p.statement == if act == [] then SelectAll else SelectWhere(WhereList(act))
  }

  predicate SelectExecutable(p: PreparedSelect) {
    p.statement.SelectWhere? ==>
      forall k :: 0 <= k < |p.statement.conditions| ==> 1 <= p.statement.conditions[k].placeholder <= |p.values|
  }

  function ColumnParam(t: Ticket, c: FilterColumn): SqlParam {
    match c
    case UserIdColumn => IntParam(t.userId)
    case StatusColumn => TextParam(t.status)
    case PriorityColumn => TextParam(t.priority)
  }

  /** SQL `=`: NULL equals nothing. */
  predicate SqlEquals(a: SqlParam, b: SqlParam) {
    match (a, b)
    case (IntParam(x), IntParam(y)) => x == y
    case (TextParam(Str(x)), TextParam(Str(y))) => x == y
    case _ => false
  }

  predicate SatisfiesAll(t: Ticket, cs: seq<Condition>, values: seq<SqlParam>)
    requires forall k :: 0 <= k < |cs| ==> 1 <= cs[k].placeholder <= |values|
  {
    forall k :: 0 <= k < |cs| ==> SqlEquals(ColumnParam(t, cs[k].column), values[cs[k].placeholder - 1])
  }

  function SelectRows(rows: seq<Ticket>, cs: seq<Condition>, values: seq<SqlParam>): seq<Ticket>
    requires forall k :: 0 <= k < |cs| ==> 1 <= cs[k].placeholder <= |values|
  {
    if rows == [] then []
    else (if SatisfiesAll(rows[0], cs, values) then [rows[0]] else []) + SelectRows(rows[1..], cs, values)
  }

  /** What the database returns for a prepared SELECT. */
  function RunSelect(rows: seq<Ticket>, p: PreparedSelect): seq<Ticket>
    requires SelectExecutable(p)
  {
    match p.statement
    case SelectAll => rows
    case SelectWhere(cs) => SelectRows(rows, cs, p.values)
  }

  /** The reference meaning of the filters: every truthy filter must hold. */
  predicate Matches(t: Ticket, f: Filters) {
    && (f.userId != 0 ==> t.userId == f.userId)
    && (Truthy(f.status) ==> t.status == f.status)
    && (Truthy(f.priority) ==> t.priority == f.priority)
  }

  function FilterRows(rows: seq<Ticket>, f: Filters): (r: seq<Ticket>)
    ensures forall t :: t in r <==> t in rows && Matches(t, f)
  {
    if rows == [] then []
    else (if Matches(rows[0], f) then [rows[0]] else []) + FilterRows(rows[1..], f)
  }

  /** The row's column equals the filter's parameter under SQL `=`. */
  predicate ColumnHolds(t: Ticket, f: Filters, c: FilterColumn) {
    SqlEquals(ColumnParam(t, c), f.Param(c))
  }

  /** Matching, column by column: each truthy filter's column equals its parameter under SQL `=`. */
  lemma MatchesByColumn(t: Ticket, f: Filters)
    ensures Matches(t, f) <==> forall c :: f.Active(c) ==> ColumnHolds(t, f, c)
  {
    if forall c :: f.Active(c) ==> ColumnHolds(t, f, c) {
      assert f.Active(UserIdColumn) ==> ColumnHolds(t, f, UserIdColumn);
      assert f.Active(StatusColumn) ==> ColumnHolds(t, f, StatusColumn);
      assert f.Active(PriorityColumn) ==> ColumnHolds(t, f, PriorityColumn);
    }
  }

  /** The conditions built from `act` hold exactly when every column of `act` holds. */
  lemma SatisfiesByPosition(t: Ticket, act: seq<FilterColumn>, f: Filters)
    ensures SatisfiesAll(t, WhereList(act), WhereValues(act, f)) <==> forall c :: c in act ==> ColumnHolds(t, f, c)
  {
    var cs := WhereList(act);
    var vs := WhereValues(act, f);
    assert SatisfiesAll(t, cs, vs) <==> forall k :: 0 <= k < |act| ==> ColumnHolds(t, f, act[k]);
    if forall k :: 0 <= k < |act| ==> ColumnHolds(t, f, act[k]) {
      forall c | c in act
        ensures ColumnHolds(t, f, c)
      {
        var k :| 0 <= k < |act| && act[k] == c;
      }
    }
  }

  /** A row satisfies conditions built from exactly the truthy filters when it matches the filters. */
  lemma SatisfiesIffMatches(t: Ticket, act: seq<FilterColumn>, f: Filters)
    requires forall c :: c in act <==> f.Active(c)
    ensures SatisfiesAll(t, WhereList(act), WhereValues(act, f)) <==> Matches(t, f)
  {
    SatisfiesByPosition(t, act, f);
    MatchesByColumn(t, f);
  }

  lemma {:induction false} SelectRowsIsFilter(rows: seq<Ticket>, f: Filters)
    ensures var act := ActiveFilters(f);
      SelectRows(rows, WhereList(act), WhereValues(act, f)) == FilterRows(rows, f)
  {
    if rows != [] {
      SatisfiesIffMatches(rows[0], ActiveFilters(f), f);
      SelectRowsIsFilter(rows[1..], f);
    }
  }

  /** With no truthy filter, every row of every user is returned. */
  lemma {:induction false} AllMatchWithoutFilters(rows: seq<Ticket>, f: Filters)
    requires f.userId == 0 && !Truthy(f.status) && !Truthy(f.priority)
    ensures FilterRows(rows, f) == rows
  {
    if rows != [] {
      AllMatchWithoutFilters(rows[1..], f);
      assert rows == [rows[0]] + rows[1..];
    }
  }

  /** A query built as `getTickets` builds it returns exactly the rows that match every truthy filter. */
  lemma PreparedSelectReturnsMatches(rows: seq<Ticket>, p: PreparedSelect, f: Filters)
    requires PreparedSelectFor(p, f)
    ensures SelectExecutable(p)
    ensures RunSelect(rows, p) == FilterRows(rows, f)
  {
    if p.statement.SelectAll? {
      assert !f.Active(UserIdColumn) && !f.Active(StatusColumn) && !f.Active(PriorityColumn);
      AllMatchWithoutFilters(rows, f);
    } else {
      SelectRowsIsFilter(rows, f);
    }
  }

  // ---------------------------------------------------------------- lookups

  /** `SELECT * FROM tickets WHERE user_id = $1` */
  function OwnedBy(rows: seq<Ticket>, userId: int): (r: seq<Ticket>)
    ensures forall t :: t in r <==> t in rows && t.userId == userId
  {
    if rows == [] then []
    else (if rows[0].userId == userId then [rows[0]] else []) + OwnedBy(rows[1..], userId)
  }

  /** Listing by owner is the filtered query with only the (truthy) user id supplied. */
  lemma {:induction false} OwnedByIsFiltered(rows: seq<Ticket>, userId: int)
    requires userId != 0
    ensures OwnedBy(rows, userId) == FilterRows(rows, Filters(userId, Undefined, Undefined))
  {
    if rows != [] {
      OwnedByIsFiltered(rows[1..], userId);
    }
  }

  /** `rows[0]` of a query on `id`: the first row with that id. */
  function FirstWithId(rows: seq<Ticket>, id: nat): (r: Option<Ticket>)
    ensures r.Some? ==> r.value in rows && r.value.id == id
    ensures r.None? <==> forall t :: t in rows ==> t.id != id
  {
    if rows == [] then None
    else if rows[0].id == id then Some(rows[0])
    else FirstWithId(rows[1..], id)
  }

  /** The table after `DELETE FROM tickets WHERE id = $1`. */
  function WithoutId(rows: seq<Ticket>, id: nat): (r: seq<Ticket>)
    ensures forall t :: t in r <==> t in rows && t.id != id
    ensures |r| <= |rows|
  {
    if rows == [] then []
    else (if rows[0].id != id then [rows[0]] else []) + WithoutId(rows[1..], id)
  }

  /** The rows' ids are distinct. */
  ghost predicate UniqueIds(rows: seq<Ticket>) {
    forall i, j :: 0 <= i < j < |rows| ==> rows[i].id != rows[j].id
  }

  /** Below the head of a table with distinct ids, the ids are distinct and none is the head's. */
  lemma UniqueTail(rows: seq<Ticket>)
    requires rows != [] && UniqueIds(rows)
    ensures UniqueIds(rows[1..])
    ensures forall t :: t in rows[1..] ==> t.id != rows[0].id
  {
    forall i, j | 0 <= i < j < |rows[1..]| ensures rows[1..][i].id != rows[1..][j].id {
      assert rows[1..][i] == rows[i + 1] && rows[1..][j] == rows[j + 1];
    }
    forall t | t in rows[1..] ensures t.id != rows[0].id {
      var j :| 0 <= j < |rows[1..]| && rows[1..][j] == t;
      assert rows[j + 1] == t;
    }
  }

  lemma UniqueCons(x: Ticket, rest: seq<Ticket>)
    requires UniqueIds(rest) && forall t :: t in rest ==> t.id != x.id
    ensures UniqueIds([x] + rest)
  {
    var r := [x] + rest;
    forall i, j | 0 <= i < j < |r| ensures r[i].id != r[j].id {
      assert r[j] == rest[j - 1];
      if i > 0 { assert r[i] == rest[i - 1]; } else { assert r[j] in rest; }
    }
  }

  /** Deleting an id that is present removes exactly one row; an absent id changes nothing; ids stay distinct. */
  lemma {:induction false} WithoutIdRemovesOne(rows: seq<Ticket>, id: nat)
    requires UniqueIds(rows)
    ensures UniqueIds(WithoutId(rows, id))
    ensures FirstWithId(rows, id).Some? ==> |WithoutId(rows, id)| == |rows| - 1
    ensures FirstWithId(rows, id).None? ==> WithoutId(rows, id) == rows
  {
    if rows != [] {
      UniqueTail(rows);
      WithoutIdRemovesOne(rows[1..], id);
      var rest := WithoutId(rows[1..], id);
      if rows[0].id == id {
        assert FirstWithId(rows[1..], id).None?;
        assert WithoutId(rows, id) == rest;
      } else {
        UniqueCons(rows[0], rest);
        assert WithoutId(rows, id) == [rows[0]] + rest;
      }
      assert rows == [rows[0]] + rows[1..];
    }
  }

  // ---------------------------------------------------------------- statement builders

  /**
   * One `if (x !== undefined)` step of `updateTicket`: a supplied argument
   * adds `field = $paramCounter` and its value, and the counter moves on.
   */
  method PushIfSupplied(field: Field, v: Value, fieldsToUpdate: seq<Assignment>, values: seq<SqlParam>, paramCounter: nat,
                        ghost fields: TicketFields, ghost sup: seq<Field>)
    returns (fieldsToUpdate': seq<Assignment>, values': seq<SqlParam>, paramCounter': nat)
    requires v == fields.Get(field)
    requires fieldsToUpdate == SetList(sup) && values == SetValues(sup, fields) && paramCounter == |sup| + 1
    ensures var sup' := AddIfSupplied(sup, v, field);
      fieldsToUpdate' == SetList(sup') && values' == SetValues(sup', fields) && paramCounter' == |sup'| + 1
  {
    fieldsToUpdate', values', paramCounter' := fieldsToUpdate, values, paramCounter;
    if v != Undefined {
      fieldsToUpdate' := fieldsToUpdate + [Assignment(field, paramCounter)];
      values' := values + [TextParam(v)];
      paramCounter' := paramCounter + 1;
      assert (sup + [field])[..|sup|] == sup;
    }
  }

  /**
   * The SET-list builder of `updateTicket`: one assignment per argument that
   * is not `undefined`, with consecutively numbered placeholders, then the id;
   * with nothing to set it throws "No fields to update".
   */
  method PrepareUpdate(ticketId: nat, title: Value, description: Value, status: Value, priority: Value)
    returns (r: Result<PreparedUpdate>)
    ensures r.Error? <==> title == Undefined && description == Undefined && status == Undefined && priority == Undefined
    ensures r.Error? ==> r.message == "No fields to update"
    ensures r.Ok? ==> PreparedFor(r.value, ticketId, TicketFields(title, description, status, priority))
  {
    ghost var fields := TicketFields(title, description, status, priority);
    ghost var sup0: seq<Field> := [];
    var fieldsToUpdate: seq<Assignment> := [];
    var values: seq<SqlParam> := [];
    var paramCounter: nat := 1;

    fieldsToUpdate, values, paramCounter := PushIfSupplied(Title, title, fieldsToUpdate, values, paramCounter, fields, sup0);
    ghost var sup1 := AddIfSupplied(sup0, title, Title);
    fieldsToUpdate, values, paramCounter := PushIfSupplied(Description, description, fieldsToUpdate, values, paramCounter, fields, sup1);
    ghost var sup2 := AddIfSupplied(sup1, description, Description);
    fieldsToUpdate, values, paramCounter := PushIfSupplied(Status, status, fieldsToUpdate, values, paramCounter, fields, sup2);
    ghost var sup3 := AddIfSupplied(sup2, status, Status);
    fieldsToUpdate, values, paramCounter := PushIfSupplied(Priority, priority, fieldsToUpdate, values, paramCounter, fields, sup3);
    assert AddIfSupplied(sup3, priority, Priority) == Supplied(fields);

    if |fieldsToUpdate| == 0 {
      return Error("No fields to update");
    }

    values := values + [IntParam(ticketId)];
    r := Ok(PreparedUpdate(UpdateStatement(fieldsToUpdate, paramCounter), values));
  }

  /** One `if (x)` step of `getTickets`: a truthy filter pushes its value and `column = $<values.length>`. */
  method PushIfActive(column: FilterColumn, on: bool, param: SqlParam, conditions: seq<Condition>, values: seq<SqlParam>,
                      ghost f: Filters, ghost act: seq<FilterColumn>)
    returns (conditions': seq<Condition>, values': seq<SqlParam>)
    requires on == f.Active(column) && param == f.Param(column)
    requires conditions == WhereList(act) && values == WhereValues(act, f)
    ensures var act' := AddIfActive(act, on, column);
      conditions' == WhereList(act') && values' == WhereValues(act', f)
  {
    conditions', values' := conditions, values;
    if on {
      values' := values + [param];
      conditions' := conditions + [Condition(column, |values'|)];
      assert (act + [column])[..|act|] == act;
    }
  }

  /**
   * The WHERE builder of `getTickets`: a condition for each truthy filter, in
   * the order user id, status, priority, each numbered by the length of
   * `values` after its value is pushed; no WHERE at all when none is truthy.
   */
  method PrepareSelect(userId: int, status: Value, priority: Value) returns (p: PreparedSelect)
    ensures PreparedSelectFor(p, Filters(userId, status, priority))
  {
    ghost var f := Filters(userId, status, priority);
    var conditions: seq<Condition> := [];
    var values: seq<SqlParam> := [];

    conditions, values := PushIfActive(UserIdColumn, userId != 0, IntParam(userId), conditions, values, f, []);
    ghost var act1 := AddIfActive([], userId != 0, UserIdColumn);
    conditions, values := PushIfActive(StatusColumn, Truthy(status), TextParam(status), conditions, values, f, act1);
    ghost var act2 := AddIfActive(act1, Truthy(status), StatusColumn);
    conditions, values := PushIfActive(PriorityColumn, Truthy(priority), TextParam(priority), conditions, values, f, act2);
    assert AddIfActive(act2, Truthy(priority), PriorityColumn) == ActiveFilters(f);

    if |conditions| > 0 {
      p := PreparedSelect(SelectWhere(conditions), values);
    } else {
      p := PreparedSelect(SelectAll, values);
    }
  }

  // ---------------------------------------------------------------- the table

  class TicketTable {
    var rows: seq<Ticket>
    /** The next value of the id sequence. */
    var nextId: nat

    ghost predicate Valid()
      reads this
    {
      && nextId >= 1
      && (forall t :: t in rows ==> 1 <= t.id < nextId && Stored(t))
      && UniqueIds(rows)
    }

    constructor ()
      ensures Valid() && rows == [] && nextId == 1
    {
      rows := [];
      nextId := 1;
    }

    /** `INSERT ... RETURNING *`: one new row with a fresh id, returned. */
    method CreateTicket(userId: int, title: Value, description: Value, status: Value, priority: Value)
      returns (t: Ticket)
      requires Valid()
      modifies this
      ensures Valid()
      ensures t == Ticket(old(nextId), userId, ToSql(title), ToSql(description), ToSql(status), ToSql(priority))
      ensures rows == old(rows) + [t]
      ensures forall u :: u in old(rows) ==> u.id != t.id
    {
      t := Ticket(nextId, userId, ToSql(title), ToSql(description), ToSql(status), ToSql(priority));
      rows := rows + [t];
      nextId := nextId + 1;
    }

    /** `getTicketsByUser`: exactly the rows owned by `userId`, in table order. */
    method GetTicketsByUser(userId: int) returns (result: seq<Ticket>)
      ensures forall t :: t in result <==> t in rows && t.userId == userId
      ensures result == OwnedBy(rows, userId)
    {
      result := OwnedBy(rows, userId);
    }

    /**
     * `updateTicket`: throws "No fields to update" when nothing is supplied
     * and changes nothing; otherwise only the supplied columns of the row with
     * that id change, and that row is returned (`None` when there is none).
     */
    method UpdateTicket(ticketId: nat, title: Value, description: Value, status: Value, priority: Value)
      returns (r: Result<Option<Ticket>>)
      requires Valid()
      modifies this
      ensures Valid() && nextId == old(nextId)
      ensures r.Error? <==> title == Undefined && description == Undefined && status == Undefined && priority == Undefined
      ensures r.Error? ==> r.message == "No fields to update" && rows == old(rows)
      ensures r.Ok? ==> rows == PatchRows(old(rows), ticketId, TicketFields(title, description, status, priority))
      ensures r.Ok? ==> r.value == FirstWithId(rows, ticketId)
    {
      var prepared := PrepareUpdate(ticketId, title, description, status, priority);
      if prepared.Error? {
        return Error(prepared.message);
      }
      var fields := TicketFields(title, description, status, priority);
      PreparedUpdateExecutes(rows, prepared.value, ticketId, fields);
      PatchRowsKeepsValid(rows, ticketId, fields, nextId);
      rows := ExecuteUpdate(rows, prepared.value);
      r := Ok(FirstWithId(rows, ticketId));
    }

    /** `deleteTicket`: removes the row with that id and returns its prior contents, or `None` when absent. */
    method DeleteTicket(ticketId: nat) returns (deleted: Option<Ticket>)
      requires Valid()
      modifies this
      ensures Valid() && nextId == old(nextId)
      ensures deleted == FirstWithId(old(rows), ticketId)
      ensures rows == WithoutId(old(rows), ticketId)
      ensures deleted.None? ==> rows == old(rows)
      ensures deleted.Some? ==> |rows| == |old(rows)| - 1
    {
      deleted := FirstWithId(rows, ticketId);
      WithoutIdRemovesOne(rows, ticketId);
      rows := WithoutId(rows, ticketId);
    }

    /** `getTickets`: exactly the rows that satisfy every truthy filter, in table order. */
    method GetTickets(filters: Filters) returns (result: seq<Ticket>)
      ensures forall t :: t in result <==> t in rows && Matches(t, filters)
      ensures result == FilterRows(rows, filters)
    {
      var p := PrepareSelect(filters.userId, filters.status, filters.priority);
      PreparedSelectReturnsMatches(rows, p, filters);
      result := RunSelect(rows, p);
    }
  }

  /** A partial update keeps ids, owners and the table invariant (an update never writes `undefined`). */
  lemma PatchRowsKeepsValid(rows: seq<Ticket>, id: nat, fields: TicketFields, nextId: nat)
    requires forall t :: t in rows ==> 1 <= t.id < nextId && Stored(t)
    requires UniqueIds(rows)
    ensures var r := PatchRows(rows, id, fields);
      (forall t :: t in r ==> 1 <= t.id < nextId && Stored(t)) && UniqueIds(r)
  {
    var r := PatchRows(rows, id, fields);
    forall t | t in r ensures 1 <= t.id < nextId && Stored(t) {
      var i :| 0 <= i < |r| && r[i] == t;
      assert rows[i] in rows;
    }
  }
}
