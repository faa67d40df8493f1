/** internal/controller/workorder_controller.go: the guard chains in front of
    the work-order statements. Each handler checks the caller, the URL ID and
    the order in a fixed order, answers the first failing check without
    touching the table, and otherwise runs one repository statement. */
module WorkOrderController {
  import opened Wrappers
  import opened Models
  import opened Helpers
  import opened WorkOrderRepo

  /** The outcome of a guard: go on, or answer with a status and error text. */
  datatype Check = Proceed | Stop(status: int, error: string)

  /** The JSON body of a new request. */
  datatype OrderInput = OrderInput(title: string, description: string, priority: string, unit: string, photoURL: string)

  /** `role == global.RoleAdmin` on the context value: only the string "Admin". */
  predicate IsAdmin(ctx: Context)
  {
    "role" in ctx && ctx["role"] == StrVal(RoleAdmin)
  }

  /** GetWorkOrderById: the joined SELECT finds the row, and scanning the
      requester's name and unit (LEFT JOIN, no COALESCE) fails on NULL, so an
      order whose requester has no users row is not found either. */
  predicate Visible(rows: map<nat, Order>, users: map<nat, User>, id: nat)
  {
    id in rows && rows[id].requesterID in users
  }

  /** The checks of CreateWorkOrder after the caller is known. A non-admin
      caller's `canCRUD` is asserted to be a bool: when it is missing or of
      another type the assertion panics and Gin's recovery answers 500. */
  function CreateGuard(user: User, ctx: Context, input: OrderInput): (c: Check)
    ensures c.Proceed? <==>
              (IsAdmin(ctx) || ("canCRUD" in ctx && ctx["canCRUD"] == BoolVal(true))) &&
              input.unit != "" && input.unit != user.unit
    ensures !IsAdmin(ctx) && ("canCRUD" !in ctx || !ctx["canCRUD"].BoolVal?) ==> c == Stop(500, "")
    ensures !IsAdmin(ctx) && "canCRUD" in ctx && ctx["canCRUD"] == BoolVal(false) ==>
              c == Stop(403, "Permission denied")
    ensures c.Stop? && c.status == 400 ==>
              (input.unit == "" ==> c.error == "Unit must be selected") &&
              (input.unit != "" ==> c.error == "You cannot create a request for your own unit" && input.unit == user.unit)
  {
    if !IsAdmin(ctx) && ("canCRUD" !in ctx || !ctx["canCRUD"].BoolVal?) then Stop(500, "")
    else if !IsAdmin(ctx) && !ctx["canCRUD"].b then Stop(403, "Permission denied")
    else if input.unit == "" then Stop(400, "Unit must be selected")
    else if input.unit == user.unit then Stop(400, "You cannot create a request for your own unit")
    else Proceed
  }

  /** The checks of TakeRequest on a found order: the caller's own unit first,
      then the status. */
  function TakeGuard(user: User, order: Order): (c: Check)
    ensures c.Proceed? <==> order.unit == user.unit && order.status != StatusCompleted
    ensures order.unit != user.unit ==> c == Stop(403, "You cannot take a request assigned to another unit.")
    ensures order.unit == user.unit && order.status == StatusCompleted ==> c == Stop(400, "Request already completed")
  {
    if order.unit != user.unit then Stop(403, "You cannot take a request assigned to another unit.")
    else if order.status == StatusCompleted then Stop(400, "Request already completed")
    else Proceed
  }

  /** The checks of AssignStaff on a found order: the order's unit, the
      assignee's existence and unit, then the status. */
  function AssignGuard(admin: User, order: Order, assignee: Option<User>): (c: Check)
    ensures c.Proceed? <==>
              order.unit == admin.unit && assignee.Some? && assignee.value.unit == admin.unit &&
              order.status != StatusCompleted
    ensures order.unit != admin.unit ==> c == Stop(403, "You cannot assign staff to a request for another unit.")
    ensures order.unit == admin.unit && assignee.None? ==> c == Stop(404, "Staff member not found")
    ensures order.unit == admin.unit && assignee.Some? && assignee.value.unit != admin.unit ==>
              c == Stop(400, "Assignee must be from the same unit")
    ensures (order.unit == admin.unit && assignee.Some? && assignee.value.unit == admin.unit &&
             order.status == StatusCompleted) ==> c == Stop(400, "Request already completed")
  {
    if order.unit != admin.unit then Stop(403, "You cannot assign staff to a request for another unit.")
    else if assignee.None? then Stop(404, "Staff member not found")
    else if assignee.value.unit != admin.unit then Stop(400, "Assignee must be from the same unit")
    else if order.status == StatusCompleted then Stop(400, "Request already completed")
    else Proceed
  }

  /** The checks of FinalizeOrder on a found order: the unit, an assignee, and
      the caller being that assignee or an admin. The status is not checked. */
  function FinalizeGuard(user: User, order: Order, ctx: Context): (c: Check)
    ensures c.Proceed? <==>
              order.unit == user.unit && order.assigneeID.Some? &&
              (order.assigneeID.value == user.id || IsAdmin(ctx))
    ensures c.Proceed? ==> order.assigneeID.Some?
    ensures order.unit != user.unit ==> c == Stop(403, "You cannot finalize a request belonging to another unit.")
    ensures order.unit == user.unit && order.assigneeID.None? ==> c == Stop(400, "Request has not been assigned yet")
    ensures (order.unit == user.unit && order.assigneeID.Some? && order.assigneeID.value != user.id &&
             !IsAdmin(ctx)) ==> c == Stop(403, "Access denied")
  {
    if order.unit != user.unit then Stop(403, "You cannot finalize a request belonging to another unit.")
    else if order.assigneeID.None? then Stop(400, "Request has not been assigned yet")
    else if order.assigneeID.value != user.id && !IsAdmin(ctx) then Stop(403, "Access denied")
    else Proceed
  }

  /** The order a new request becomes: status Pending, the caller as
      requester, nothing assigned or completed. */
  function NewOrder(id: nat, input: OrderInput, requesterID: nat, now: int): (o: Order)
    ensures o.id == id && o.status == StatusPending && o.requesterID == requesterID && o.unit == input.unit
    ensures o.assigneeID.None? && o.completedAt.None? && o.completedByID.None? && o.takenAt.None?
  {
    Order(id, input.title, input.description, input.priority, StatusPending, input.unit, input.photoURL,
          requesterID, None, None, None, None, "", now, now)
  }

  /** CreateWorkOrder. `createFails` is a failed INSERT and `readFails` a
      failed fetch of the new row, which is then already stored. */
  method CreateWorkOrder(table: WorkOrderTable, users: map<nat, User>, ctx: Context, input: OrderInput,
                         now: int, createFails: bool, readFails: bool)
    returns (resp: Response<Order>)
    requires table.Valid()
    modifies table
    ensures table.Valid()
    ensures var who := GetCurrentUser(ctx, users);
            who.Failure? ==> resp == Failure(who.status, who.error) && table.rows == old(table.rows)
    ensures var who := GetCurrentUser(ctx, users);
            who.Success? ==>
              var g := CreateGuard(who.data, ctx, input);
              (g.Stop? ==> resp == Failure(g.status, g.error) && table.rows == old(table.rows)) &&
              (g.Proceed? && createFails ==>
                 resp == Failure(500, "Failed to create request") && table.rows == old(table.rows)) &&
              (g.Proceed? && !createFails ==>
                 table.rows == old(table.rows)[old(table.nextID) := NewOrder(old(table.nextID), input, who.data.id, now)] &&
                 (readFails ==> resp == Failure(500, "Request created but failed to retrieve details")) &&
                 (!readFails ==> resp == Success(201, table.rows[old(table.nextID)])))
    ensures resp.Success? ==>
              resp.data.status == StatusPending && resp.data.requesterID == GetCurrentUser(ctx, users).data.id &&
              resp.data.unit == input.unit && resp.data.unit != GetCurrentUser(ctx, users).data.unit
    ensures CompletedAreAssigned(old(table.rows)) ==> CompletedAreAssigned(table.rows)
  {
    var who := GetCurrentUser(ctx, users);
    if who.Failure? {
      return Failure(who.status, who.error);
    }
    var user := who.data;
    var g := CreateGuard(user, ctx, input);
    if g.Stop? {
      return Failure(g.status, g.error);
    }
    var draft := NewOrder(0, input, user.id, now);
    var id, err := table.CreateWorkOrder(draft, now, createFails);
    if err.Some? {
      return Failure(500, "Failed to create request");
    }
    assert table.rows[id] == NewOrder(id, input, user.id, now);
    if readFails {
      return Failure(500, "Request created but failed to retrieve details");
    }
    resp := Success(201, table.rows[id]);
  }

  /** TakeRequest: caller, ID, lookup, TakeGuard, then the conditional take,
      which answers 409 when the order already has an assignee. */
  method TakeRequest(table: WorkOrderTable, users: map<nat, User>, ctx: Context, idParam: string,
                     now: int, takeFails: bool)
    returns (resp: Response<string>)
    requires table.Valid()
    modifies table
    ensures table.Valid() && table.nextID == old(table.nextID)
    ensures var who := GetCurrentUser(ctx, users);
            who.Failure? ==> resp == Failure(who.status, who.error)
    ensures GetCurrentUser(ctx, users).Success? && ParseID(idParam).Failure? ==>
              resp == Failure(400, "Invalid ID format")
    ensures GetCurrentUser(ctx, users).Success? && ParseID(idParam).Success? ==>
              var user := GetCurrentUser(ctx, users).data;
              var id := ParseID(idParam).data;
              (!Visible(old(table.rows), users, id) ==> resp == Failure(404, "Request not found")) &&
              (Visible(old(table.rows), users, id) ==>
                 var order := old(table.rows)[id];
                 var g := TakeGuard(user, order);
                 (g.Stop? ==> resp == Failure(g.status, g.error)) &&
                 (g.Proceed? && (takeFails || order.assigneeID.Some?) ==>
                    resp == Failure(409, "Failed to take request. It may have been taken by someone else.")) &&
                 (g.Proceed? && !takeFails && order.assigneeID.None? ==>
                    resp == Success(200, "Request taken successfully") &&
                    table.rows == old(table.rows)[id := order.(status := StatusInProgress, assigneeID := Some(user.id),
                                                               takenAt := Some(now), updatedAt := now)]))
    ensures resp.Failure? ==> table.rows == old(table.rows)
    ensures CompletedAreAssigned(old(table.rows)) ==> CompletedAreAssigned(table.rows)
  {
    var who := GetCurrentUser(ctx, users);
    if who.Failure? {
      return Failure(who.status, who.error);
    }
    var user := who.data;
    var parsed := ParseID(idParam);
    if parsed.Failure? {
      return Failure(parsed.status, parsed.error);
    }
    var orderID := parsed.data;
    if !Visible(table.rows, users, orderID) {
      return Failure(404, "Request not found");
    }
    var order := table.rows[orderID];
    var g := TakeGuard(user, order);
    if g.Stop? {
      return Failure(g.status, g.error);
    }
    var err := table.TakeWorkOrder(orderID, user.id, now, takeFails);
    if err.Some? {
      return Failure(409, "Failed to take request. It may have been taken by someone else.");
    }
    resp := Success(200, "Request taken successfully");
  }

  /** AssignStaff: caller, ID, lookup, AssignGuard (with the assignee looked up
      in the users table), then the unconditional assignment. */
  method AssignStaff(table: WorkOrderTable, users: map<nat, User>, ctx: Context, idParam: string,
                     assigneeID: nat, now: int, assignFails: bool)
    returns (resp: Response<string>)
    requires table.Valid()
    modifies table
    ensures table.Valid() && table.nextID == old(table.nextID)
    ensures var who := GetCurrentUser(ctx, users);
            who.Failure? ==> resp == Failure(who.status, who.error)
    ensures GetCurrentUser(ctx, users).Success? && ParseID(idParam).Failure? ==>
              resp == Failure(400, "Invalid ID format")
    ensures GetCurrentUser(ctx, users).Success? && ParseID(idParam).Success? ==>
              var admin := GetCurrentUser(ctx, users).data;
              var id := ParseID(idParam).data;
              (!Visible(old(table.rows), users, id) ==> resp == Failure(404, "Request not found")) &&
              (Visible(old(table.rows), users, id) ==>
                 var order := old(table.rows)[id];
                 var g := AssignGuard(admin, order, if assigneeID in users then Some(users[assigneeID]) else None);
                 (g.Stop? ==> resp == Failure(g.status, g.error)) &&
                 (g.Proceed? && assignFails ==> resp == Failure(500, "Failed to assign staff")) &&
                 (g.Proceed? && !assignFails ==>
                    resp == Success(200, "Staff assigned successfully") &&
                    table.rows == old(table.rows)[id := order.(status := StatusInProgress, assigneeID := Some(assigneeID),
                                                               updatedAt := now)]))
    ensures resp.Success? ==> assigneeID in users
    ensures resp.Failure? ==> table.rows == old(table.rows)
    ensures CompletedAreAssigned(old(table.rows)) ==> CompletedAreAssigned(table.rows)
  {
    var who := GetCurrentUser(ctx, users);
    if who.Failure? {
      return Failure(who.status, who.error);
    }
    var admin := who.data;
    var parsed := ParseID(idParam);
    if parsed.Failure? {
      return Failure(parsed.status, parsed.error);
    }
    var orderID := parsed.data;
    if !Visible(table.rows, users, orderID) {
      return Failure(404, "Request not found");
    }
    var order := table.rows[orderID];
    var assignee := if assigneeID in users then Some(users[assigneeID]) else None;
    var g := AssignGuard(admin, order, assignee);
    if g.Stop? {
      return Failure(g.status, g.error);
    }
    var err := table.AssignWorkOrder(orderID, assigneeID, now, assignFails);
    if err.Some? {
      return Failure(500, "Failed to assign staff");
    }
    resp := Success(200, "Staff assigned successfully");
  }

  /** FinalizeOrder: caller, ID, the optional note (an unreadable body means
      no note), lookup, FinalizeGuard, then the completing update. */
  method FinalizeOrder(table: WorkOrderTable, users: map<nat, User>, ctx: Context, idParam: string,
                       note: Option<string>, now: int, finalizeFails: bool)
    returns (resp: Response<string>)
    requires table.Valid()
    modifies table
    ensures table.Valid() && table.nextID == old(table.nextID)
    ensures var who := GetCurrentUser(ctx, users);
            who.Failure? ==> resp == Failure(who.status, who.error)
    ensures GetCurrentUser(ctx, users).Success? && ParseID(idParam).Failure? ==>
              resp == Failure(400, "Invalid ID format")
    ensures GetCurrentUser(ctx, users).Success? && ParseID(idParam).Success? ==>
              var user := GetCurrentUser(ctx, users).data;
              var id := ParseID(idParam).data;
              (!Visible(old(table.rows), users, id) ==> resp == Failure(404, "Request not found")) &&
              (Visible(old(table.rows), users, id) ==>
                 var order := old(table.rows)[id];
                 var g := FinalizeGuard(user, order, ctx);
                 (g.Stop? ==> resp == Failure(g.status, g.error)) &&
                 (g.Proceed? && finalizeFails ==> resp == Failure(500, "Failed to finalize request")) &&
                 (g.Proceed? && !finalizeFails ==>
                    resp == Success(200, "Request finalized successfully") &&
                    table.rows == old(table.rows)[id := order.(status := StatusCompleted,
                                                               completionNote := if note.Some? then note.value else "",
                                                               completedAt := Some(now), completedByID := Some(user.id),
                                                               updatedAt := now)]))
    ensures resp.Success? ==>
              var id := ParseID(idParam).data;
              id in table.rows && table.rows[id].status == StatusCompleted && table.rows[id].assigneeID.Some?
    ensures resp.Failure? ==> table.rows == old(table.rows)
    ensures CompletedAreAssigned(old(table.rows)) ==> CompletedAreAssigned(table.rows)
  {
    var who := GetCurrentUser(ctx, users);
    if who.Failure? {
      return Failure(who.status, who.error);
    }
    var user := who.data;
    var parsed := ParseID(idParam);
    if parsed.Failure? {
      return Failure(parsed.status, parsed.error);
    }
    var orderID := parsed.data;
    var text := if note.Some? then note.value else "";
    if !Visible(table.rows, users, orderID) {
      return Failure(404, "Request not found");
    }
    var order := table.rows[orderID];
    var g := FinalizeGuard(user, order, ctx);
    if g.Stop? {
      return Failure(g.status, g.error);
    }
    var err := table.FinalizeWorkOrder(orderID, text, user.id, now, finalizeFails);
    if err.Some? {
      return Failure(500, "Failed to finalize request");
    }
    resp := Success(200, "Request finalized successfully");
  }
}
