/** internal/controller/helpers.go: reading the caller from the request
    context, URL ID parsing and pagination clamping. */
module Helpers {
  import opened Wrappers
  import opened Decimal
  import opened Models

  /** getUserID: the context's "userID" when it holds a `uint`; otherwise 0
      and false (a missing key and a value of another type alike). */
  function GetUserID(ctx: Context): (r: (nat, bool))
    ensures r.1 <==> "userID" in ctx && ctx["userID"].UintVal?
    ensures r.1 ==> r.0 == ctx["userID"].n
    ensures !r.1 ==> r.0 == 0
  {
    if "userID" in ctx && ctx["userID"].UintVal? then (ctx["userID"].n, true) else (0, false)
  }

  /** getCurrentUser: 401 when the context names no user and 401 when the
      users table has no such row; otherwise that row. */
  function GetCurrentUser(ctx: Context, users: map<nat, User>): (r: Response<User>)
    ensures r.Success? <==> GetUserID(ctx).1 && GetUserID(ctx).0 in users
    ensures r.Success? ==> r.data == users[GetUserID(ctx).0]
    ensures !GetUserID(ctx).1 ==> r == Failure(401, "Unauthorized")
    ensures GetUserID(ctx).1 && GetUserID(ctx).0 !in users ==> r == Failure(401, "User not found")
  {
    var (userID, exists_) := GetUserID(ctx);
    if !exists_ then Failure(401, "Unauthorized")
    else if userID !in users then Failure(401, "User not found")
    else Success(200, users[userID])
  }

  /** parseID: only integers of at least 1 are IDs, returned unchanged. */
  function ParseID(param: string): (r: Response<nat>)
    ensures r.Success? <==> Atoi(param).Some? && Atoi(param).value >= 1
    ensures r.Success? ==> r.data >= 1 && r.data == Atoi(param).value
    ensures r.Failure? ==> r == Failure(400, "Invalid ID format")
  {
    match Atoi(param)
    case Some(id) => if id < 1 then Failure(400, "Invalid ID format") else Success(200, id)
    case None => Failure(400, "Invalid ID format")
  }

  /** Every ID from 1 to the largest `int`, written in decimal, parses to itself. */
  lemma ParseIDOfDecimal(n: nat)
    requires 1 <= n <= IntMax
    ensures ParseID(FormatInt(n)) == Success(200, n)
  {
    AtoiFormatInt(n);
  }

  datatype PaginationParams = PaginationParams(page: int, limit: int)

  /** `c.DefaultQuery(key, d)`: the query value when the key is present (even
      when empty), `d` otherwise. */
  function DefaultQuery(query: Option<string>, d: string): string
  {
    if query.Some? then query.value else d
  }

  /** getPaginationParams: page defaults to 1 and limit to 10 whenever the
      value is missing, not an integer or below 1; a limit above 100 is cut
      to 100. */
  function GetPaginationParams(pageQuery: Option<string>, limitQuery: Option<string>): (p: PaginationParams)
    ensures p.page >= 1 && 1 <= p.limit <= 100
    ensures var page := Atoi(DefaultQuery(pageQuery, "1"));
            (page.Some? && page.value >= 1 ==> p.page == page.value) &&
            (page.None? || page.value < 1 ==> p.page == 1)
    ensures var limit := Atoi(DefaultQuery(limitQuery, "10"));
            (limit.Some? && 1 <= limit.value <= 100 ==> p.limit == limit.value) &&
            (limit.Some? && limit.value > 100 ==> p.limit == 100) &&
            (limit.None? || limit.value < 1 ==> p.limit == 10)
  {
    var page := Atoi(DefaultQuery(pageQuery, "1"));
    var page' := if page.None? || page.value < 1 then 1 else page.value;
    var limit := Atoi(DefaultQuery(limitQuery, "10"));
    var limit' := if limit.None? || limit.value < 1 then 10 else limit.value;
    PaginationParams(page', if limit' > 100 then 100 else limit')
  }

  /** Without query parameters the defaults are page 1 and limit 10. */
  lemma PaginationDefaults()
    ensures GetPaginationParams(None, None) == PaginationParams(1, 10)
  {
    AtoiFormatInt(1);
    AtoiFormatInt(10);
    assert FormatInt(1) == "1";
    assert FormatInt(10) == "10";
  }
}
