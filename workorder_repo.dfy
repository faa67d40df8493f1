/** internal/repo/workorder_query.go: the `work_orders` table and its
    statements (create, take, assign, finalize), the filter and pagination
    arithmetic of the list query, and the dashboard counts. Each statement is
    one atomic step on a map keyed by order ID; `now` is the database's NOW()
    and every `fail` argument an error reported by the driver. */
module WorkOrderRepo {
  import opened Wrappers
  import opened GoStrings
  import opened Decimal
  import opened Models

  /** A `work_orders` row; NULL columns are None. */
  datatype Order = Order(
    id: nat, title: string, description: string, priority: string, status: string, unit: string,
    photoURL: string, requesterID: nat, assigneeID: Option<nat>, takenAt: Option<int>,
    completedAt: Option<int>, completedByID: Option<nat>, completionNote: string,
    createdAt: int, updatedAt: int)

  /** Errors of the repository functions: one reported by the driver, and the
      conditional take that changed no row ("tiket sudah diambil"). */
  datatype RepoError = DriverError | AlreadyTaken

  function ErrorText(e: RepoError): (s: string)
    ensures e.AlreadyTaken? ==> s == "tiket sudah diambil"
  {
    match e
    case DriverError => "driver error"
    case AlreadyTaken => "tiket sudah diambil"
  }

  /** No completed order lacks an assignee. */
  predicate CompletedAreAssigned(rows: map<nat, Order>)
  {
    forall k :: k in rows && rows[k].status == StatusCompleted ==> rows[k].assigneeID.Some?
  }

  class WorkOrderTable {
    var rows: map<nat, Order>
    /** The next AUTO_INCREMENT value. */
    var nextID: nat

    /** Every order is filed under its own ID, and IDs run from 1 below nextID. */
    predicate Valid()
      reads this
    {
      1 <= nextID && forall k :: k in rows ==> rows[k].id == k && 1 <= k < nextID
    }

    constructor ()
      ensures Valid() && rows == map[] && nextID == 1
    {
      rows := map[];
      nextID := 1;
    }

    /** INSERT of a new order with the next ID and status "Pending" whatever
        the draft's status; assignee, completion fields and note start empty. */
    method CreateWorkOrder(wo: Order, now: int, fail: bool) returns (id: nat, err: Option<RepoError>)
      requires Valid()
      modifies this
      ensures Valid()
      ensures fail ==> err == Some(DriverError) && id == 0 && rows == old(rows) && nextID == old(nextID)
      ensures !fail ==> err.None? && id == old(nextID) && id !in old(rows) && nextID == old(nextID) + 1
      ensures !fail ==>
                rows == old(rows)[id := Order(id, wo.title, wo.description, wo.priority, StatusPending, wo.unit,
                                              wo.photoURL, wo.requesterID, None, None, None, None, "", now, now)]
    {
      if fail {
        return 0, Some(DriverError);
      }
      id := nextID;
      rows := rows[id := Order(id, wo.title, wo.description, wo.priority, StatusPending, wo.unit,
                               wo.photoURL, wo.requesterID, None, None, None, None, "", now, now)];
      nextID := nextID + 1;
      err := None;
    }

    /** The conditional UPDATE ... WHERE id = ? AND assignee_id IS NULL: only
        an existing unassigned order is taken; when no row changes the error
        is AlreadyTaken and the table is as before. */
    method TakeWorkOrder(woID: nat, userID: nat, now: int, fail: bool) returns (err: Option<RepoError>)
      requires Valid()
      modifies this
      ensures Valid() && nextID == old(nextID)
      ensures fail ==> err == Some(DriverError) && rows == old(rows)
      ensures !fail && woID in old(rows) && old(rows)[woID].assigneeID.None? ==>
                err.None? &&
                rows == old(rows)[woID := old(rows)[woID].(status := StatusInProgress, assigneeID := Some(userID),
                                                          takenAt := Some(now), updatedAt := now)]
      ensures !fail && (woID !in old(rows) || old(rows)[woID].assigneeID.Some?) ==>
                err == Some(AlreadyTaken) && rows == old(rows)
      ensures err.None? <==> !fail && woID in old(rows) && old(rows)[woID].assigneeID.None?
    {
      if fail {
        return Some(DriverError);
      }
      if woID !in rows || rows[woID].assigneeID.Some? {
        return Some(AlreadyTaken);
      }
      rows := rows[woID := rows[woID].(status := StatusInProgress, assigneeID := Some(userID),
                                       takenAt := Some(now), updatedAt := now)];
      err := None;
    }

    /** The unconditional UPDATE: status "In Progress" and the given assignee,
        replacing any earlier one; a missing order changes nothing and is not
        an error. */
    method AssignWorkOrder(woID: nat, userID: nat, now: int, fail: bool) returns (err: Option<RepoError>)
      requires Valid()
      modifies this
      ensures Valid() && nextID == old(nextID)
      ensures err.Some? <==> fail
      ensures fail ==> err == Some(DriverError)
      ensures !fail && woID in old(rows) ==>
                rows == old(rows)[woID := old(rows)[woID].(status := StatusInProgress, assigneeID := Some(userID),
                                                          updatedAt := now)]
      ensures fail || woID !in old(rows) ==> rows == old(rows)
    {
      if fail {
        return Some(DriverError);
      }
      if woID in rows {
        rows := rows[woID := rows[woID].(status := StatusInProgress, assigneeID := Some(userID), updatedAt := now)];
      }
      err := None;
    }

    /** The UPDATE that completes an order: status "Completed", the note, the
        completion time and the completer; the assignee is left as it was. */
    method FinalizeWorkOrder(woID: nat, note: string, userID: nat, now: int, fail: bool)
      returns (err: Option<RepoError>)
      requires Valid()
      modifies this
      ensures Valid() && nextID == old(nextID)
      ensures err.Some? <==> fail
      ensures fail ==> err == Some(DriverError)
      ensures !fail && woID in old(rows) ==>
                rows == old(rows)[woID := old(rows)[woID].(status := StatusCompleted, completionNote := note,
                                                          completedAt := Some(now), completedByID := Some(userID),
                                                          updatedAt := now)]
      ensures fail || woID !in old(rows) ==> rows == old(rows)
    {
      if fail {
        return Some(DriverError);
      }
      if woID in rows {
        rows := rows[woID := rows[woID].(status := StatusCompleted, completionNote := note, completedAt := Some(now),
                                         completedByID := Some(userID), updatedAt := now)];
      }
      err := None;
    }
  }

  // ----- GetWorkOrders: filter clause, arguments, pagination ----------------

  /** A value bound to a `?` placeholder. */
  datatype SqlArg = Str(s: string) | Num(n: int)

  /** SQL text as fixed text and `?` placeholders. */
  datatype Frag = Text(t: string) | Hole

  type Sql = seq<Frag>

  function FragText(x: Frag): string
  {
    if x.Hole? then "?" else x.t
  }

  /** The characters of a fragment list, each Hole written as "?". */
  function Render(q: Sql): string
    decreases |q|
  {
    if |q| == 0 then "" else FragText(q[0]) + Render(q[1..])
  }

  /** The number of placeholders. */
  function Holes(q: Sql): nat
  {
    multiset(q)[Hole]
  }

  /** No fixed text contains a '?' of its own. */
  predicate PlainText(q: Sql)
  {
    forall i :: 0 <= i < |q| && q[i].Text? ==> '?' !in q[i].t
  }

  lemma {:induction false} RenderAppend(a: Sql, b: Sql)
    ensures Render(a + b) == Render(a) + Render(b)
    decreases |a|
  {
    if |a| > 0 {
      RenderAppend(a[1..], b);
      assert (a + b)[0] == a[0];
      assert (a + b)[1..] == a[1..] + b;
      assert Render(a + b) == FragText(a[0]) + Render(a[1..] + b);
      assert Render(a) == FragText(a[0]) + Render(a[1..]);
    } else {
      assert a + b == b;
    }
  }

  /** Rendered, a list whose texts are plain holds one '?' per placeholder. */
  lemma {:induction false} RenderedPlaceholders(q: Sql)
    requires PlainText(q)
    ensures Occurrences(Render(q), '?') == Holes(q)
    decreases |q|
  {
    if |q| > 0 {
      RenderedPlaceholders(q[1..]);
      var head := FragText(q[0]);
      assert q == [q[0]] + q[1..];
      assert multiset(q) == multiset([q[0]]) + multiset(q[1..]);
      assert multiset(head + Render(q[1..])) == multiset(head) + multiset(Render(q[1..]));
      if q[0].Text? {
        assert '?' !in multiset(head);
      } else {
        assert multiset(head)['?'] == 1;
      }
    }
  }

  /** `strings.Join` on fragment lists. */
  function JoinSql(parts: seq<Sql>, sep: Sql): Sql
    decreases |parts|
  {
    if |parts| == 0 then []
    else if |parts| == 1 then parts[0]
    else parts[0] + sep + JoinSql(parts[1..], sep)
  }

  /** Rendering a join is joining the renderings. */
  lemma {:induction false} RenderJoin(parts: seq<Sql>, sep: Sql)
    ensures Render(JoinSql(parts, sep)) ==
            JoinWith(seq(|parts|, i requires 0 <= i < |parts| => Render(parts[i])), Render(sep))
    decreases |parts|
  {
    var rs := seq(|parts|, i requires 0 <= i < |parts| => Render(parts[i]));
    if |parts| > 1 {
      RenderJoin(parts[1..], sep);
      assert rs[1..] == seq(|parts[1..]|, i requires 0 <= i < |parts[1..]| => Render(parts[1..][i]));
      RenderAppend(parts[0], sep);
      RenderAppend(parts[0] + sep, JoinSql(parts[1..], sep));
    }
  }

  /** The four query filters; a missing query parameter is "". */
  datatype Filters = Filters(status: string, unit: string, requesterUnit: string, date: string)

  /** One SQL condition with the values of its placeholders. */
  datatype Clause = Clause(cond: Sql, args: seq<SqlArg>)

  /** A clause whose texts are plain carries as many values as placeholders. */
  predicate Balanced(c: Clause)
  {
    PlainText(c.cond) && Holes(c.cond) == |c.args|
  }

  predicate AllBalanced(cs: seq<Clause>)
  {
    forall i :: 0 <= i < |cs| ==> Balanced(cs[i])
  }

  /** The condition of the status filter "active": both open statuses. */
  const ActiveCond: Sql := [Text("w.status IN ("), Hole, Text(", "), Hole, Text(")")]

  /** The condition of the date filter "today". */
  const TodayCond: Sql := [Text("DATE(w.created_at)"), Text(" = CURDATE()")]

  lemma ActiveCondBalanced()
    ensures PlainText(ActiveCond) && Holes(ActiveCond) == 2
  {
    assert multiset(ActiveCond)[Hole] == 2;
  }

  lemma TodayCondBalanced()
    ensures PlainText(TodayCond) && Holes(TodayCond) == 0
  {
    var date, today := "DATE(w.created_at)", " = CURDATE()";
    assert TodayCond == [Text(date), Text(today)];
    assert '?' !in date && '?' !in today;
    assert multiset(TodayCond)[Hole] == 0;
  }

  /** The status filter: "active" stands for the two open statuses. */
  function StatusClause(status: string): (cs: seq<Clause>)
    ensures |cs| <= 1 && (cs == [] <==> status == "") && AllBalanced(cs)
  {
    if status == "" then []
    else if status == "active" then
      ActiveCondBalanced();
      [Clause(ActiveCond, [Str(StatusPending), Str(StatusInProgress)])]
    else EqualsClause("w.status = ", status)
  }

  /** A filter comparing a column with the value, when the value is given;
      `lhs` is the column and the equals sign. */
  function EqualsClause(lhs: string, value: string): (cs: seq<Clause>)
    requires '?' !in lhs
    ensures |cs| <= 1 && (cs == [] <==> value == "") && AllBalanced(cs)
  {
    if value == "" then []
    else
      var cond := [Text(lhs), Hole];
      assert multiset(cond)[Hole] == 1;
      [Clause(cond, [Str(value)])]
  }

  /** The date filter: only "today" adds a condition, without placeholders. */
  function DateClause(date: string): (cs: seq<Clause>)
    ensures |cs| <= 1 && (cs == [] <==> date != "today") && AllBalanced(cs)
  {
    if date == "today" then
      TodayCondBalanced();
      [Clause(TodayCond, [])]
    else []
  }

  /** The conditions of a filter set, in the fixed order status, unit,
      requester unit, date. */
  function Clauses(f: Filters): (cs: seq<Clause>)
    ensures |cs| <= 4 && AllBalanced(cs)
    ensures cs == [] <==> f.status == "" && f.unit == "" && f.requesterUnit == "" && f.date != "today"
  {
    var a := StatusClause(f.status);
    var b := EqualsClause("w.unit = ", f.unit);
    var c := EqualsClause("req.unit = ", f.requesterUnit);
    var d := DateClause(f.date);
    assert forall i :: |a| <= i < |a| + |b| ==> (a + b)[i] == b[i - |a|];
    assert forall i :: |a + b| <= i < |a + b| + |c| ==> (a + b + c)[i] == c[i - |a + b|];
    assert forall i :: |a + b + c| <= i < |a + b + c| + |d| ==> (a + b + c + d)[i] == d[i - |a + b + c|];
    a + b + c + d
  }

  function Conditions(cs: seq<Clause>): (conds: seq<Sql>)
    ensures |conds| == |cs|
    ensures forall i :: 0 <= i < |cs| ==> conds[i] == cs[i].cond
  {
    seq(|cs|, i requires 0 <= i < |cs| => cs[i].cond)
  }

  /** The arguments of the clauses, concatenated in order. */
  function Args(cs: seq<Clause>): seq<SqlArg>
    decreases |cs|
  {
    if |cs| == 0 then [] else cs[0].args + Args(cs[1..])
  }

  /** " WHERE " and the conditions joined with " AND ", or nothing at all when
      there is no condition. */
  function WhereClause(conds: seq<Sql>): (w: Sql)
    ensures w == [] <==> conds == []
  {
    if |conds| == 0 then [] else [Text(" WHERE ")] + JoinSql(conds, [Text(" AND ")])
  }

  /** Joining balanced clauses with a plain, placeholder-free separator keeps
      the placeholders and the values in step. */
  lemma {:induction false} JoinedPlaceholders(cs: seq<Clause>, sep: Sql)
    requires AllBalanced(cs)
    requires PlainText(sep) && Holes(sep) == 0
    ensures PlainText(JoinSql(Conditions(cs), sep))
    ensures Holes(JoinSql(Conditions(cs), sep)) == |Args(cs)|
    decreases |cs|
  {
    if |cs| == 1 {
      assert Args(cs) == cs[0].args + Args(cs[1..]);
      assert Balanced(cs[0]);
    } else if |cs| > 1 {
      assert AllBalanced(cs[1..]) by {
        forall i | 0 <= i < |cs[1..]| ensures Balanced(cs[1..][i]) { assert cs[1..][i] == cs[i + 1]; }
      }
      JoinedPlaceholders(cs[1..], sep);
      assert Conditions(cs)[1..] == Conditions(cs[1..]);
      assert Balanced(cs[0]);
      var rest := JoinSql(Conditions(cs[1..]), sep);
      var whole := cs[0].cond + sep + rest;
      assert JoinSql(Conditions(cs), sep) == whole;
      assert multiset(whole) == multiset(cs[0].cond) + multiset(sep) + multiset(rest);
      forall i | 0 <= i < |whole| && whole[i].Text? ensures '?' !in whole[i].t {
        if i < |cs[0].cond| {
          assert whole[i] == cs[0].cond[i];
        } else if i < |cs[0].cond| + |sep| {
          assert whole[i] == sep[i - |cs[0].cond|];
        } else {
          assert whole[i] == rest[i - |cs[0].cond| - |sep|];
        }
      }
    }
  }

  /** The WHERE clause of balanced clauses is plain text with exactly one
      placeholder per argument, and renders to exactly that many '?'. */
  lemma WherePlaceholders(cs: seq<Clause>)
    requires AllBalanced(cs)
    ensures var w := WhereClause(Conditions(cs));
            PlainText(w) && Holes(w) == |Args(cs)| && Occurrences(Render(w), '?') == |Args(cs)|
  {
    var w := WhereClause(Conditions(cs));
    if |cs| > 0 {
      var sep := [Text(" AND ")];
      assert multiset(sep)[Hole] == 0;
      JoinedPlaceholders(cs, sep);
      var joined := JoinSql(Conditions(cs), sep);
      assert w == [Text(" WHERE ")] + joined;
      assert multiset(w) == multiset([Text(" WHERE ")]) + multiset(joined);
      assert multiset([Text(" WHERE ")])[Hole] == 0;
      forall i | 0 <= i < |w| && w[i].Text? ensures '?' !in w[i].t {
        if i > 0 { assert w[i] == joined[i - 1]; }
      }
    } else {
      assert Args(cs) == [];
    }
    RenderedPlaceholders(w);
  }

  /** With every filter absent the WHERE clause is empty; with status
      "active" alone it is the two-valued IN condition over the two open
      statuses. */
  lemma WhereClauseCases()
    ensures WhereClause(Conditions(Clauses(Filters("", "", "", "")))) == []
    ensures WhereClause(Conditions(Clauses(Filters("active", "", "", "")))) == [Text(" WHERE ")] + ActiveCond
    ensures Args(Clauses(Filters("active", "", "", ""))) == [Str(StatusPending), Str(StatusInProgress)]
  {
    var cs := Clauses(Filters("active", "", "", ""));
    assert cs == [Clause(ActiveCond, [Str(StatusPending), Str(StatusInProgress)])];
    assert Args(cs) == cs[0].args + Args(cs[1..]);
  }

  /** Rendering one fragment in front of others. */
  lemma RenderCons(x: Frag, q: Sql)
    ensures Render([x] + q) == FragText(x) + Render(q)
  {
    assert ([x] + q)[1..] == q;
  }

  /** The "active" WHERE clause as text. */
  lemma ActiveWhereText()
    ensures Render([Text(" WHERE ")] + ActiveCond) == " WHERE " + "w.status IN (" + "?" + ", " + "?" + ")"
  {
    var t5: Sql := [Text(")")];
    var t4 := [Hole] + t5;
    var t3 := [Text(", ")] + t4;
    var t2 := [Hole] + t3;
    var t1 := [Text("w.status IN (")] + t2;
    var t0 := [Text(" WHERE ")] + t1;
    assert t0 == [Text(" WHERE ")] + ActiveCond;
    RenderCons(Text(")"), []);
    assert [Text(")")] + [] == t5;
    RenderCons(Hole, t5);
    RenderCons(Text(", "), t4);
    RenderCons(Hole, t3);
    RenderCons(Text("w.status IN ("), t2);
    RenderCons(Text(" WHERE "), t1);
  }

  /** The filter-building statements of GetWorkOrders: one append per present
      filter, in source order. */
  method BuildFilter(f: Filters) returns (conditions: seq<Sql>, args: seq<SqlArg>)
    ensures conditions == Conditions(Clauses(f)) && args == Args(Clauses(f))
  {
    conditions, args := [], [];
    if f.status != "" {
      if f.status == "active" {
        conditions := conditions + [ActiveCond];
        args := args + [Str(StatusPending), Str(StatusInProgress)];
      } else {
        conditions := conditions + [[Text("w.status = "), Hole]];
        args := args + [Str(f.status)];
      }
    }
    StatusView(f.status);
    ghost var cs := StatusClause(f.status);
    ghost var prev, prevArgs := conditions, args;
    if f.unit != "" {
      conditions := conditions + [[Text("w.unit = "), Hole]];
      args := args + [Str(f.unit)];
    }
    EqualsStep(prev, prevArgs, cs, "w.unit = ", f.unit);
    cs := cs + EqualsClause("w.unit = ", f.unit);
    prev, prevArgs := conditions, args;
    if f.requesterUnit != "" {
      conditions := conditions + [[Text("req.unit = "), Hole]];
      args := args + [Str(f.requesterUnit)];
    }
    EqualsStep(prev, prevArgs, cs, "req.unit = ", f.requesterUnit);
    cs := cs + EqualsClause("req.unit = ", f.requesterUnit);
    prev := conditions;
    if f.date == "today" {
      conditions := conditions + [TodayCond];
    }
    DateStep(prev, args, cs, f.date);
    assert Clauses(f) == cs + DateClause(f.date);
  }

  /** An equality filter extends the conditions and values built so far
      exactly as it extends the clause list. */
  lemma EqualsStep(conditions: seq<Sql>, args: seq<SqlArg>, cs: seq<Clause>, lhs: string, value: string)
    requires '?' !in lhs
    requires conditions == Conditions(cs) && args == Args(cs)
    ensures (if value == "" then conditions else conditions + [[Text(lhs), Hole]]) ==
              Conditions(cs + EqualsClause(lhs, value))
    ensures (if value == "" then args else args + [Str(value)]) == Args(cs + EqualsClause(lhs, value))
  {
    EqualsView(lhs, value);
    ConditionsAppend(cs, EqualsClause(lhs, value));
    ArgsAppend(cs, EqualsClause(lhs, value));
  }

  /** The date filter completes the clause list of the filter set. */
  lemma DateStep(conditions: seq<Sql>, args: seq<SqlArg>, cs: seq<Clause>, date: string)
    requires conditions == Conditions(cs) && args == Args(cs)
    ensures (if date == "today" then conditions + [TodayCond] else conditions) == Conditions(cs + DateClause(date))
    ensures args == Args(cs + DateClause(date))
  {
    DateView(date);
    ConditionsAppend(cs, DateClause(date));
    ArgsAppend(cs, DateClause(date));
  }

  /** The conditions and values of each filter's clause, spelled out. */
  lemma StatusView(status: string)
    ensures Conditions(StatusClause(status)) ==
              (if status == "" then [] else if status == "active" then [ActiveCond]
               else [[Text("w.status = "), Hole]])
    ensures Args(StatusClause(status)) ==
              (if status == "" then [] else if status == "active" then [Str(StatusPending), Str(StatusInProgress)]
               else [Str(status)])
  {
    OneClause(StatusClause(status));
  }

  lemma EqualsView(lhs: string, value: string)
    requires '?' !in lhs
    ensures Conditions(EqualsClause(lhs, value)) == (if value == "" then [] else [[Text(lhs), Hole]])
    ensures Args(EqualsClause(lhs, value)) == (if value == "" then [] else [Str(value)])
  {
    OneClause(EqualsClause(lhs, value));
  }

  lemma DateView(date: string)
    ensures Conditions(DateClause(date)) ==
              (if date == "today" then [TodayCond] else [])
    ensures Args(DateClause(date)) == []
  {
    OneClause(DateClause(date));
  }

  /** A list of at most one clause holds just that clause's condition and values. */
  lemma OneClause(cs: seq<Clause>)
    requires |cs| <= 1
    ensures Conditions(cs) == (if cs == [] then [] else [cs[0].cond])
    ensures Args(cs) == (if cs == [] then [] else cs[0].args)
  {
    if cs != [] {
      assert Args(cs) == cs[0].args + Args(cs[1..]);
      assert Args(cs[1..]) == [];
    }
  }

  /** Conditions of consecutive clause lists concatenate. */
  lemma ConditionsAppend(a: seq<Clause>, b: seq<Clause>)
    ensures Conditions(a + b) == Conditions(a) + Conditions(b)
  {
    assert forall i :: 0 <= i < |b| ==> (a + b)[|a| + i] == b[i];
  }

  /** Values of consecutive clause lists concatenate. */
  lemma {:induction false} ArgsAppend(a: seq<Clause>, b: seq<Clause>)
    ensures Args(a + b) == Args(a) + Args(b)
    decreases |a|
  {
    if |a| > 0 {
      ArgsAppend(a[1..], b);
      assert (a + b)[0] == a[0];
      assert (a + b)[1..] == a[1..] + b;
    } else {
      assert a + b == b;
    }
  }

  /** Go's 64-bit signed arithmetic: the representative of x modulo 2^64 in
      [IntMin, IntMax]. */
  function Wrap64(x: int): (r: int)
    ensures IntMin <= r <= IntMax
    ensures (r - x) % UintModulus == 0
    ensures IntMin <= x <= IntMax ==> r == x
  {
    (x - IntMin) % UintModulus + IntMin
  }

  /** offset := (page - 1) * limit, in 64-bit arithmetic. */
  function Offset(page: int, limit: int): (offset: int)
    ensures 0 <= (page - 1) * limit <= IntMax ==> offset == (page - 1) * limit
  {
    Wrap64((page - 1) * limit)
  }

  /** Pages from page 1 on start at row 0 and follow one another without gaps. */
  lemma OffsetsTile(page: int, limit: int)
    requires 1 <= page && 1 <= limit && page * limit <= IntMax
    ensures Offset(1, limit) == 0
    ensures Offset(page + 1, limit) == Offset(page, limit) + limit
  {
    assert 0 <= (page - 1) * limit <= page * limit;
  }

  /** An extreme page number overflows the product into a negative offset. */
  lemma OffsetOverflows()
    ensures Offset(0x2000_0000_0000_0001, 4) == IntMin
  {
  }

  /** ceil(totalItems / limit), as the float division and Ceil compute it for
      counts within float precision. */
  function TotalPages(totalItems: nat, limit: int): (pages: nat)
    requires limit >= 1
    ensures pages * limit >= totalItems
    ensures pages > 0 ==> (pages - 1) * limit < totalItems
    ensures totalItems == 0 <==> pages == 0
  {
    (totalItems + limit - 1) / limit
  }

  datatype PaginationMeta = PaginationMeta(currentPage: int, totalPages: int, totalItems: int, limit: int)

  /** The text appended after the SELECT list: the WHERE clause, the order and
      the LIMIT/OFFSET placeholders. */
  function ListSuffix(where: Sql): Sql
  {
    where + ListTail
  }

  /** The order and the LIMIT/OFFSET placeholders of the list query. */
  const ListTail: Sql := [Text(" ORDER BY w.created_at"), Text(" DESC LIMIT "), Hole, Text(" OFFSET "), Hole]

  const CountSelect: string := "SELECT COUNT(*) FROM work_orders w LEFT JOIN users req ON w.requester_id = req.id"

  /** The rows whose scan succeeded, in order. */
  function Successes(scans: seq<Option<Order>>): (wos: seq<Order>)
    ensures |wos| <= |scans|
    ensures forall o :: o in wos <==> Some(o) in scans
  {
    if |scans| == 0 then []
    else
      var init := Successes(scans[..|scans| - 1]);
      assert forall x :: x in scans <==> x in scans[..|scans| - 1] || x == scans[|scans| - 1];
      match scans[|scans| - 1]
      case Some(o) => init + [o]
      case None => init
  }

  /** Placeholders of a concatenation add up, and plain text stays plain. */
  lemma HolesAppend(a: Sql, b: Sql)
    ensures Holes(a + b) == Holes(a) + Holes(b)
    ensures PlainText(a) && PlainText(b) ==> PlainText(a + b)
  {
    assert multiset(a + b) == multiset(a) + multiset(b);
    if PlainText(a) && PlainText(b) {
      forall i | 0 <= i < |a + b| && (a + b)[i].Text? ensures '?' !in (a + b)[i].t {
        if i < |a| { assert (a + b)[i] == a[i]; } else { assert (a + b)[i] == b[i - |a|]; }
      }
    }
  }

  lemma ListTailHoles()
    ensures Holes(ListTail) == 2
  {
    assert multiset(ListTail)[Hole] == 2;
  }

  lemma ListTailPlain()
    ensures PlainText(ListTail)
  {
    var order, desc, offset := " ORDER BY w.created_at", " DESC LIMIT ", " OFFSET ";
    assert ListTail == [Text(order), Text(desc), Hole, Text(offset), Hole];
    assert '?' !in order && '?' !in desc && '?' !in offset;
  }

  lemma ListTailBalanced()
    ensures PlainText(ListTail) && Holes(ListTail) == 2
  {
    ListTailHoles();
    ListTailPlain();
  }

  /** The list query's suffix adds the LIMIT and OFFSET placeholders to
      those of a plain WHERE clause, and renders with one '?' for each. */
  lemma ListPlaceholders(where: Sql)
    requires PlainText(where)
    ensures PlainText(ListSuffix(where)) && Holes(ListSuffix(where)) == Holes(where) + 2
    ensures Occurrences(Render(ListSuffix(where)), '?') == Holes(where) + 2
  {
    ListTailBalanced();
    HolesAppend(where, ListTail);
    RenderedPlaceholders(where + ListTail);
  }

  lemma QueryPlaceholders(cs: seq<Clause>)
    requires AllBalanced(cs)
    ensures var where := WhereClause(Conditions(cs));
            Holes([Text(CountSelect)] + where) == |Args(cs)| &&
            Holes(ListSuffix(where)) == |Args(cs)| + 2 &&
            Occurrences(Render(ListSuffix(where)), '?') == |Args(cs)| + 2
  {
    var where := WhereClause(Conditions(cs));
    WherePlaceholders(cs);
    HolesAppend([Text(CountSelect)], where);
    assert multiset([Text(CountSelect)])[Hole] == 0;
    ListPlaceholders(where);
  }

  /** GetWorkOrders. The statements' results are inputs: `totalItems` is the
      COUNT(*) answer and `scans` the rows the list query returned (None where
      a row failed to scan). It returns the count query, the text after the
      select list of the list query, the list query's arguments, the orders
      and the page metadata; the first failing statement ends it with an
      error and nothing else. */
  method GetWorkOrders(f: Filters, page: int, limit: int, totalItems: nat, scans: seq<Option<Order>>,
                       countFails: bool, listFails: bool)
    returns (countQuery: Sql, listSuffix: Sql, args: seq<SqlArg>, wos: seq<Order>,
             meta: PaginationMeta, err: bool)
    requires limit >= 1
    ensures err <==> countFails || listFails
    ensures var where := WhereClause(Conditions(Clauses(f)));
            countQuery == [Text(CountSelect)] + where && listSuffix == ListSuffix(where)
    ensures Holes(countQuery) == |Args(Clauses(f))|
    ensures !err ==> args == Args(Clauses(f)) + [Num(limit), Num(Offset(page, limit))]
    ensures !err ==> Holes(listSuffix) == |args| && Occurrences(Render(listSuffix), '?') == |args|
    ensures !err ==> wos == Successes(scans) &&
                     meta == PaginationMeta(page, TotalPages(totalItems, limit), totalItems, limit)
    ensures err ==> wos == [] && meta == PaginationMeta(0, 0, 0, 0)
  {
    var conditions, filterArgs := BuildFilter(f);
    var whereClause := WhereClause(conditions);
    QueryPlaceholders(Clauses(f));
    countQuery := [Text(CountSelect)] + whereClause;
    listSuffix := whereClause + ListTail;
    args := filterArgs;
    wos := [];
    meta := PaginationMeta(0, 0, 0, 0);
    if countFails {
      return countQuery, listSuffix, args, wos, meta, true;
    }
    var offset := Offset(page, limit);
    args := args + [Num(limit), Num(offset)];
    if listFails {
      return countQuery, listSuffix, args, [], meta, true;
    }
    wos := ScanRows(scans);
    meta := PaginationMeta(page, TotalPages(totalItems, limit), totalItems, limit);
    err := false;
  }

  /** The `for rows.Next()` loop: every row that scans is appended, a row that
      fails to scan is skipped. */
  method ScanRows(scans: seq<Option<Order>>) returns (wos: seq<Order>)
    ensures wos == Successes(scans)
  {
    wos := [];
    var i := 0;
    while i < |scans|
      invariant 0 <= i <= |scans|
      invariant wos == Successes(scans[..i])
    {
      assert scans[..i + 1][..i] == scans[..i];
      if scans[i].Some? {
        wos := wos + [scans[i].value];
      }
      i := i + 1;
    }
    assert scans[..|scans|] == scans;
  }

  // ----- GetDashboardStats ------------------------------------------------------

  datatype DashboardStats = DashboardStats(incoming: nat, outgoing: nat, pending: nat, inProgress: nat)

  /** Orders addressed to `unit` with the given status: the conditional sums
      of the first dashboard query. */
  function OrdersOfUnitWith(rows: map<nat, Order>, unit: string, status: string): set<nat>
  {
    set k | k in rows && rows[k].unit == unit && rows[k].status == status
  }

  /** Orders addressed to `unit`: the COUNT(*) of the first dashboard query. */
  function OrdersOfUnit(rows: map<nat, Order>, unit: string): set<nat>
  {
    set k | k in rows && rows[k].unit == unit
  }

  /** Orders whose requester belongs to `unit`: the second dashboard query,
      whose inner join drops orders whose requester has no users row. */
  function OrdersFromUnit(rows: map<nat, Order>, users: map<nat, User>, unit: string): set<nat>
  {
    set k | k in rows && rows[k].requesterID in users && users[rows[k].requesterID].unit == unit
  }

  lemma SubsetSize(a: set<nat>, b: set<nat>)
    requires a <= b
    ensures |a| <= |b|
  {
    assert b == a + (b - a);
  }

  /** GetDashboardStats: orders addressed to `unit` (all, pending, in
      progress), and orders raised by members of `unit`. */
  function GetDashboardStats(rows: map<nat, Order>, users: map<nat, User>, unit: string): (s: DashboardStats)
    ensures s.pending + s.inProgress <= s.incoming <= |rows|
    ensures s.incoming == |OrdersOfUnit(rows, unit)|
    ensures s.pending == |OrdersOfUnitWith(rows, unit, StatusPending)|
    ensures s.inProgress == |OrdersOfUnitWith(rows, unit, StatusInProgress)|
    ensures s.outgoing == |OrdersFromUnit(rows, users, unit)|
    ensures s.outgoing <= |rows|
  {
    var incoming := OrdersOfUnit(rows, unit);
    var pending := OrdersOfUnitWith(rows, unit, StatusPending);
    var inProgress := OrdersOfUnitWith(rows, unit, StatusInProgress);
    var outgoing := OrdersFromUnit(rows, users, unit);
    assert StatusPending[0] != StatusInProgress[0];
    assert pending !! inProgress;
    SubsetSize(pending + inProgress, incoming);
    SubsetSize(incoming, rows.Keys);
    SubsetSize(outgoing, rows.Keys);
    DashboardStats(|incoming|, |outgoing|, |pending|, |inProgress|)
  }
}
