/** Sequences of requests against fresh tables: what the session table and
    the work-order table promise across several handlers, not just one. */
module Scenarios {
  import opened Wrappers
  import opened GoTime
  import opened Decimal
  import opened TokenCodec
  import opened SessionStore
  import opened Models
  import opened Helpers
  import opened AuthMiddleware
  import opened AuthController
  import opened WorkOrderRepo
  import opened WorkOrderController
  import opened UserController

  /** Access tokens issued at least a second apart differ: their `exp`
      claims are different whole seconds. */
  lemma LaterAccessTokenDiffers(lib: JwtLib, key: seq<char>, u: User, t1: int, t2: int)
    requires Consistent(lib)
    requires GenerateAllTokens(lib, key, u.id, u.role, u.canCRUD, t1).err.None?
    requires GenerateAllTokens(lib, key, u.id, u.role, u.canCRUD, t2).err.None?
    requires t1 + NanosPerSecond <= t2
    ensures GenerateAllTokens(lib, key, u.id, u.role, u.canCRUD, t1).access !=
            GenerateAllTokens(lib, key, u.id, u.role, u.canCRUD, t2).access
  {
    var c1 := AccessClaims(u.id, u.role, u.canCRUD, t1 + AccessTTL);
    var c2 := AccessClaims(u.id, u.role, u.canCRUD, t2 + AccessTTL);
    assert UnixSeconds(t1 + AccessTTL) < UnixSeconds(t2 + AccessTTL);
    assert c1["exp"] != c2["exp"];
    SignedTokensDetermineClaims(lib, key, c1, c2);
  }

  /** A second login of the same user, a second or more after the first and
      while the first access token has not expired, revokes that token: the
      middleware refuses it as logged out and lets the new one through. */
  method SecondLoginRevokesFirst(lib: JwtLib, key: seq<char>, u: User, password: string,
                                 compare: (string, string) -> bool, t1: int, t2: int, verb: string, ctx: Context)
    returns (first: Gate, second: Gate)
    requires Consistent(lib) && compare(u.passwordHash, password)
    requires GenerateAllTokens(lib, key, u.id, u.role, u.canCRUD, t1).err.None?
    requires GenerateAllTokens(lib, key, u.id, u.role, u.canCRUD, t2).err.None?
    requires t1 + NanosPerSecond <= t2 && t2 + NanosPerSecond <= t1 + AccessTTL
    requires verb != "OPTIONS"
    ensures first == Halt(401, "Session expired or logged out")
    ensures second == Pass(ctx["userID" := UintVal(u.id)]["role" := StrVal(u.role)]["canCRUD" := BoolVal(u.canCRUD)])
  {
    var store := new TokenStore();
    var r1 := LoginHandler(store, lib, key, Some(u), password, compare, t1, false);
    var r2 := LoginHandler(store, lib, key, Some(u), password, compare, t2, false);
    LaterAccessTokenDiffers(lib, key, u, t1, t2);
    IssuedTokenReadsBack(lib, key, u.id, u.role, u.canCRUD, t1, t2, verb);
    IssuedTokenReadsBack(lib, key, u.id, u.role, u.canCRUD, t2, t2, verb);
    first := Authenticate(store, Request(verb, "Bearer " + r1.data.accessToken), ctx, lib, key, t2, false);
    second := Authenticate(store, Request(verb, "Bearer " + r2.data.accessToken), ctx, lib, key, t2, false);
  }

  /** After logout, the access token that was accepted just before is refused,
      although it has not expired. */
  method LogoutEndsSession(lib: JwtLib, key: seq<char>, u: User, password: string,
                           compare: (string, string) -> bool, t1: int, t2: int, verb: string, ctx: Context)
    returns (before: Gate, logout: Response<string>, after: Gate)
    requires Consistent(lib) && compare(u.passwordHash, password)
    requires GenerateAllTokens(lib, key, u.id, u.role, u.canCRUD, t1).err.None?
    requires t1 <= t2 && t2 + NanosPerSecond <= t1 + AccessTTL
    requires verb != "OPTIONS"
    ensures before.Pass?
    ensures logout == Success(200, "Successfully logged out")
    ensures after == Halt(401, "Session expired or logged out")
  {
    var store := new TokenStore();
    var r := LoginHandler(store, lib, key, Some(u), password, compare, t1, false);
    IssuedTokenReadsBack(lib, key, u.id, u.role, u.canCRUD, t1, t2, verb);
    var req := Request(verb, "Bearer " + r.data.accessToken);
    before := Authenticate(store, req, ctx, lib, key, t2, false);
    logout := LogoutHandler(store, before.ctx, false);
    after := Authenticate(store, req, ctx, lib, key, t2, false);
  }

  /** A refresh token issued at `now` parses, without the method check, to
      its own claims at any moment at least a second before its expiry. */
  lemma IssuedRefreshTokenParses(lib: JwtLib, key: seq<char>, u: User, now: int, later: int)
    requires Consistent(lib)
    requires GenerateAllTokens(lib, key, u.id, u.role, u.canCRUD, now).err.None?
    requires later + NanosPerSecond <= now + RefreshTTL
    ensures var all := GenerateAllTokens(lib, key, u.id, u.role, u.canCRUD, now);
            Parse(lib, key, all.refresh, false, later) == Parsed(RefreshClaims(u.id, now + RefreshTTL)) &&
            UserIDClaim(RefreshClaims(u.id, now + RefreshTTL)) == Some(u.id)
  {
    var all := GenerateAllTokens(lib, key, u.id, u.role, u.canCRUD, now);
    var c := RefreshClaims(u.id, now + RefreshTTL);
    assert lib.sign(key, c) == Some(all.refresh);
    assert c["exp"] == Number(UnixSeconds(now + RefreshTTL));
    assert c["user_id"] == Number(u.id);
  }

  /** Refresh leaves the refresh token in place: after one refresh the same
      refresh token is accepted again, and each refresh's access token is the
      one the session table then holds. */
  method RefreshTwice(lib: JwtLib, key: seq<char>, u: User, password: string,
                      compare: (string, string) -> bool, users: map<nat, User>, t1: int, t2: int, t3: int)
    returns (r1: Response<RefreshData>, r2: Response<RefreshData>)
    requires Consistent(lib) && SignsAll(lib, key) && compare(u.passwordHash, password)
    requires WellKeyed(users) && u.id in users && users[u.id] == u
    requires t1 <= t2 <= t3 && t3 + NanosPerSecond <= t1 + RefreshTTL
    ensures r1.Success? && r2.Success?
    ensures r1.data == RefreshData(GenerateAccessTokenOnly(lib, key, u.id, u.role, u.canCRUD, t2).token,
                                   UnixSeconds(t2 + AccessTTL))
    ensures r2.data == RefreshData(GenerateAccessTokenOnly(lib, key, u.id, u.role, u.canCRUD, t3).token,
                                   UnixSeconds(t3 + AccessTTL))
  {
    var store := new TokenStore();
    var login := LoginHandler(store, lib, key, Some(u), password, compare, t1, false);
    var refresh := login.data.refreshToken;
    IssuedRefreshTokenParses(lib, key, u, t1, t2);
    IssuedRefreshTokenParses(lib, key, u, t1, t3);
    r1 := RefreshHandler(store, lib, key, refresh, users, t2, t2, false, false);
    r2 := RefreshHandler(store, lib, key, refresh, users, t3, t3, false, false);
  }

  /** Two staff members of the order's unit take the same new order: the
      first wins, the second is told it is already taken, and the order
      keeps the first as its assignee. */
  method TakeRace(draft: Order, a: nat, b: nat, t1: int, t2: int, t3: int)
    returns (first: Option<RepoError>, second: Option<RepoError>, holder: Option<nat>)
    ensures first.None? && second == Some(AlreadyTaken) && holder == Some(a)
  {
    var table := new WorkOrderTable();
    var id, err := table.CreateWorkOrder(draft, t1, false);
    first := table.TakeWorkOrder(id, a, t2, false);
    second := table.TakeWorkOrder(id, b, t3, false);
    holder := table.rows[id].assigneeID;
  }

  /** Create, assign, finalize: the order ends Completed with the assignee,
      the note, the completer and the completion time, and a later
      conditional take of it changes nothing. */
  method OrderLifecycle(draft: Order, staff: nat, admin: nat, other: nat, note: string,
                        t1: int, t2: int, t3: int, t4: int)
    returns (finished: Order, retake: Option<RepoError>, after: Order)
    ensures finished.status == StatusCompleted && finished.assigneeID == Some(staff)
    ensures finished.completionNote == note && finished.completedByID == Some(admin)
    ensures finished.completedAt == Some(t3) && finished.takenAt.None?
    ensures retake == Some(AlreadyTaken) && after == finished
  {
    var table := new WorkOrderTable();
    var id, err := table.CreateWorkOrder(draft, t1, false);
    err := table.AssignWorkOrder(id, staff, t2, false);
    err := table.FinalizeWorkOrder(id, note, admin, t3, false);
    finished := table.rows[id];
    retake := table.TakeWorkOrder(id, other, t4, false);
    after := table.rows[id];
  }

  /** Through the handlers: a request raised from another unit, assigned by
      the unit's admin to a staff member and finalized by that staff member,
      is refused to the same staff member's take as already completed. */
  method CompletedRequestRefusesTake(requester: User, admin: User, staff: User, input: OrderInput,
                                     note: Option<string>, t1: int, t2: int, t3: int, t4: int)
    returns (created: Response<Order>, assignment: Response<string>, finalization: Response<string>,
             taken: Response<string>)
    requires requester.id != admin.id && requester.id != staff.id && admin.id != staff.id
    requires admin.unit == input.unit && staff.unit == input.unit && requester.unit != input.unit
    requires input.unit != ""
    ensures created.Success? && created.data.status == StatusPending
    ensures assignment == Success(200, "Staff assigned successfully")
    ensures finalization == Success(200, "Request finalized successfully")
    ensures taken == Failure(400, "Request already completed")
  {
    var table := new WorkOrderTable();
    var users := map[requester.id := requester, admin.id := admin, staff.id := staff];
    var asRequester: Context := map["userID" := UintVal(requester.id), "canCRUD" := BoolVal(true)];
    var asAdmin: Context := map["userID" := UintVal(admin.id), "role" := StrVal(RoleAdmin)];
    var asStaff: Context := map["userID" := UintVal(staff.id)];
    assert GetCurrentUser(asRequester, users) == Success(200, requester);
    assert CreateGuard(requester, asRequester, input).Proceed?;
    created := CreateWorkOrder(table, users, asRequester, input, t1, false, false);
    var order := NewOrder(1, input, requester.id, t1);
    assert table.rows == map[1 := order];
    var idParam := FormatInt(1);
    ParseIDOfDecimal(1);
    assert GetCurrentUser(asAdmin, users) == Success(200, admin);
    assert Visible(table.rows, users, 1);
    assert AssignGuard(admin, order, Some(staff)).Proceed?;
    assignment := AssignStaff(table, users, asAdmin, idParam, staff.id, t2, false);
    var assignedOrder := order.(status := StatusInProgress, assigneeID := Some(staff.id), updatedAt := t2);
    assert table.rows == map[1 := assignedOrder];
    assert GetCurrentUser(asStaff, users) == Success(200, staff);
    assert Visible(table.rows, users, 1);
    assert FinalizeGuard(staff, assignedOrder, asStaff).Proceed?;
    finalization := FinalizeOrder(table, users, asStaff, idParam, note, t3, false);
    assert table.rows[1].status == StatusCompleted && table.rows[1].unit == input.unit;
    assert Visible(table.rows, users, 1);
    taken := TakeRequest(table, users, asStaff, idParam, t4, false);
  }

  /** UpdateMe with a new password, on a fresh table holding `u`: with the
      UPDATE as written the handler answers 200 yet the stored hash stays
      `u`'s; with the corrected UPDATE the new hash is stored. */
  method NewPasswordLostByUpdateMe(u: User, input: UserRequest, hash: string -> Option<string>)
    returns (lostResp: Response<User>, lost: User, keptResp: Response<User>, kept: User)
    requires input.password != "" && hash(input.password).Some?
    requires hash(input.password).value != "" && hash(input.password).value != u.passwordHash
    ensures lostResp.Success? && lostResp.status == 200 && keptResp.Success? && keptResp.status == 200
    ensures lost.passwordHash == u.passwordHash != hash(input.password).value
    ensures kept.passwordHash == hash(input.password).value
  {
    var ctx: Context := map["userID" := UintVal(1)];
    var table := new UserTable();
    var id, err := table.CreateUser(u, false);
    var removed;
    lostResp, removed := UpdateMe(table, ctx, input, hash, AsWritten, false);
    lost := table.rows[id];
    table := new UserTable();
    id, err := table.CreateUser(u, false);
    keptResp, removed := UpdateMe(table, ctx, input, hash, Corrected, false);
    kept := table.rows[id];
  }

  /** The admin's UpdateUser with a new e-mail, on a fresh table holding `u`:
      as written it answers 200 and keeps `u`'s e-mail; corrected, it stores
      the new one. */
  method NewEmailLostByUpdateUser(u: User, input: UserRequest, hash: string -> Option<string>)
    returns (lostResp: Response<User>, lost: User, keptResp: Response<User>, kept: User)
    requires input.password == "" && input.email != u.email
    ensures lostResp.Success? && lostResp.status == 200 && keptResp.Success? && keptResp.status == 200
    ensures lost.email == u.email != input.email
    ensures kept.email == input.email
  {
    ParseIDOfDecimal(1);
    var table := new UserTable();
    var id, err := table.CreateUser(u, false);
    var removed;
    lostResp, removed := UpdateUser(table, FormatInt(1), input, hash, AsWritten, false);
    lost := table.rows[id];
    table := new UserTable();
    id, err := table.CreateUser(u, false);
    keptResp, removed := UpdateUser(table, FormatInt(1), input, hash, Corrected, false);
    kept := table.rows[id];
  }
}
