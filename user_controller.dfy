/** internal/controller/user_controller.go: old-avatar clean-up, profile and
    account updates, availability and account creation, over a `users` table
    (the write statements of internal/repo/user_query.go). Password hashing is
    a parameter: `hash(p)` is bcrypt's result, None when it fails. */
module UserController {
  import opened Wrappers
  import opened GoStrings
  import opened Decimal
  import opened Models
  import opened Helpers
  import opened FileHelper

  // ----- deleteOldAvatar ----------------------------------------------------------

  /** The text after the last '/' of a URL. */
  function LastSegment(url: string): (name: string)
    ensures '/' !in name && |name| <= |url| && url[|url| - |name|..] == name
  {
    LastPieceIsSuffix(url, '/');
    var parts := Split(url, '/');
    parts[|parts| - 1]
  }

  /** deleteOldAvatar: the file it removes, if any. Only URLs containing
      "/uploads/avatar/" are considered; the name after the last '/' must not
      be "", "." or ".."; the file is that name inside uploads/avatar. */
  function AvatarFileToDelete(url: string): (path: Option<string>)
    ensures !Contains(url, "/" + DirUploads + "/" + DirAvatar + "/") ==> path.None?
    ensures path.Some? <==>
              Contains(url, "/" + DirUploads + "/" + DirAvatar + "/") && LastSegment(url) !in {"", ".", ".."}
    ensures path.Some? ==> path.value == DirUploads + "/" + DirAvatar + "/" + LastSegment(url)
  {
    if !Contains(url, "/" + DirUploads + "/" + DirAvatar + "/") then None
    else
      var fileName := LastSegment(url);
      if fileName == "" || fileName == "." || fileName == ".." then None
      else Some(DirUploads + "/" + DirAvatar + "/" + fileName)
  }

  /** A removed file is always a direct child of uploads/avatar: its path has
      exactly the three elements "uploads", "avatar" and a name that is not
      "", "." or "..". */
  lemma AvatarPathIsDirectChild(url: string)
    requires AvatarFileToDelete(url).Some?
    ensures var name := LastSegment(url);
            Split(AvatarFileToDelete(url).value, '/') == ["uploads", "avatar", name] &&
            name != "" && name != "." && name != ".."
  {
    var name := LastSegment(url);
    SplitWithoutSeparator(name, '/');
    SplitAfterFirst("avatar", '/', name);
    SplitAfterFirst("uploads", '/', "avatar" + "/" + name);
    assert "uploads" + "/" + "avatar" + "/" + name == "uploads" + ['/'] + ("avatar" + ['/'] + name);
  }

  /** A URL ending in "/uploads/avatar/" and a plain file name has that
      file deleted. */
  lemma AvatarUrlDeletion(prefix: string, name: string)
    requires '/' !in name && |name| > 2
    ensures AvatarFileToDelete(prefix + "/uploads/avatar/" + name) == Some("uploads/avatar/" + name)
  {
    var url := prefix + "/uploads/avatar/" + name;
    assert "/" + DirUploads + "/" + DirAvatar + "/" == "/uploads/avatar/";
    ContainsInfix(prefix, "/uploads/avatar/", name);
    var front := prefix + "/uploads/avatar";
    assert url == front + ['/'] + name;
    LastPieceAfter(front, '/', name);
    assert LastSegment(url) == name;
    assert DirUploads + "/" + DirAvatar + "/" == "uploads/avatar/";
  }

  /** A generated avatar name, for any extension without a slash, served
      under any base URL, is the file deleteOldAvatar removes. */
  lemma GeneratedAvatarDeletable(base: string, nowNano: int, ext: string)
    requires '/' !in ext
    ensures AvatarFileToDelete(base + ("/uploads/" + DirAvatar + "/" + UploadName(nowNano, DirAvatar, ext)))
              == Some("uploads/avatar/" + UploadName(nowNano, DirAvatar, ext))
  {
    var name := UploadName(nowNano, DirAvatar, ext);
    assert '/' !in DirAvatar;
    assert "/uploads/" + DirAvatar + "/" == "/uploads/avatar/";
    AvatarUrlDeletion(base, name);
    assert base + ("/uploads/" + DirAvatar + "/" + name) == base + "/uploads/avatar/" + name;
  }

  /** Where SaveUploadedFile puts an accepted avatar, and that its extension
      holds no slash. */
  lemma StoredAvatarPath(file: FileHeader, sniffed: Option<string>, nowNano: int)
    requires SaveUploadedFile(file, DefaultImageConfig(DirAvatar), false, sniffed, nowNano, false).Stored?
    ensures '/' !in ToLower(Ext(file.filename))
    ensures SaveUploadedFile(file, DefaultImageConfig(DirAvatar), false, sniffed, nowNano, false).path
              == "/uploads/" + DirAvatar + "/" + UploadName(nowNano, DirAvatar, ToLower(Ext(file.filename)))
  {
    assert ToLower(Ext(file.filename)) in DefaultImageConfig(DirAvatar).allowedExts;
  }

  /** An avatar stored by SaveUploadedFile and then served under any base URL
      is exactly the file deleteOldAvatar later removes. */
  lemma UploadedAvatarIsDeletable(base: string, file: FileHeader, sniffed: Option<string>, nowNano: int)
    requires SaveUploadedFile(file, DefaultImageConfig(DirAvatar), false, sniffed, nowNano, false).Stored?
    ensures var name := UploadName(nowNano, DirAvatar, ToLower(Ext(file.filename)));
            var path := SaveUploadedFile(file, DefaultImageConfig(DirAvatar), false, sniffed, nowNano, false).path;
            AvatarFileToDelete(base + path) == Some("uploads/avatar/" + name)
  {
    var ext := ToLower(Ext(file.filename));
    StoredAvatarPath(file, sniffed, nowNano);
    GeneratedAvatarDeletable(base, nowNano, ext);
  }

  // ----- Availability ----------------------------------------------------------------

  datatype Availability = Online | Busy | Away | Offline

  function AvailabilityText(a: Availability): (s: string)
  {
    match a
    case Online => AvailOnline
    case Busy => AvailBusy
    case Away => AvailAway
    case Offline => AvailOffline
  }

  /** The `validStatuses` lookup: exactly the four names, case-sensitive. */
  function ParseAvailability(s: string): (a: Option<Availability>)
    ensures a.Some? ==> AvailabilityText(a.value) == s
  {
    if s == AvailOnline then Some(Online)
    else if s == AvailBusy then Some(Busy)
    else if s == AvailAway then Some(Away)
    else if s == AvailOffline then Some(Offline)
    else None
  }

  /** Parsing and printing are inverse: a string is accepted exactly when it
      is the name of a status, and then it parses to that status. */
  lemma AvailabilityRoundTrip(s: string, a: Availability)
    ensures ParseAvailability(s) == Some(a) <==> s == AvailabilityText(a)
  {
    match a
    case Online =>
    case Busy => assert AvailOnline != AvailBusy;
    case Away => assert AvailOnline != AvailAway && AvailBusy != AvailAway;
    case Offline => assert AvailOnline != AvailOffline && AvailBusy != AvailOffline && AvailAway != AvailOffline;
  }

  // ----- The users table -------------------------------------------------------------

  /** The JSON body of a user create or update. */
  datatype UserRequest = UserRequest(name: string, email: string, password: string, role: string, unit: string,
                                     phone: string, canCRUD: bool, avatarURL: string)

  /** GetUserByID: every column except the password hash, which stays "". */
  function Profile(u: User): (p: User)
    ensures p.passwordHash == "" && p == u.(passwordHash := "")
  {
    u.(passwordHash := "")
  }

  /** The UPDATE of internal/repo/user_query.go as written: only name, unit,
      phone, role, can_crud and avatar_url are written; the stored e-mail and
      password hash are kept whatever the handler set. */
  function PersistedAsWritten(stored: User, u: User): (r: User)
    ensures r.email == stored.email && r.passwordHash == stored.passwordHash
    ensures r == u.(id := stored.id, email := stored.email, availability := stored.availability,
                    passwordHash := stored.passwordHash)
  {
    stored.(name := u.name, unit := u.unit, phone := u.phone, role := u.role, canCRUD := u.canCRUD,
            avatarURL := u.avatarURL)
  }

  /** A password change made by UpdateMe or UpdateUser is lost by the UPDATE
      as written. */
  lemma PasswordChangeLost()
    ensures var stored := User(1, "a", "a@x.id", "Staff", "IT", "", "", "Online", false, "old-hash");
            var edited := Profile(stored).(passwordHash := "new-hash");
            PersistedAsWritten(stored, edited).passwordHash == "old-hash" != edited.passwordHash
  {
  }

  /** The UPDATE the handlers rely on: every editable column including the
      e-mail, and the password hash whenever the handler set one (a "" hash is
      the GetUserByID projection, not a new password). */
  function Persisted(stored: User, u: User): (r: User)
    ensures r.email == u.email
    ensures u.passwordHash != "" ==> r.passwordHash == u.passwordHash
    ensures u.passwordHash == "" ==> r.passwordHash == stored.passwordHash
    ensures r == u.(id := stored.id, availability := stored.availability, passwordHash := r.passwordHash)
  {
    stored.(name := u.name, email := u.email, unit := u.unit, phone := u.phone, role := u.role,
            canCRUD := u.canCRUD, avatarURL := u.avatarURL,
            passwordHash := if u.passwordHash != "" then u.passwordHash else stored.passwordHash)
  }

  /** Which users UPDATE the table runs: the statement of
      internal/repo/user_query.go as written, or the corrected one. */
  datatype UserUpdate = AsWritten | Corrected

  /** The row an UPDATE of `stored` with the handler's `u` leaves behind. */
  function Updated(q: UserUpdate, stored: User, u: User): (r: User)
    ensures q.AsWritten? ==> r.email == stored.email && r.passwordHash == stored.passwordHash
    ensures q.Corrected? ==> r.email == u.email &&
                             r.passwordHash == (if u.passwordHash != "" then u.passwordHash else stored.passwordHash)
    ensures r.id == stored.id && r.availability == stored.availability
    ensures r.name == u.name && r.unit == u.unit && r.phone == u.phone && r.role == u.role &&
            r.canCRUD == u.canCRUD && r.avatarURL == u.avatarURL
  {
    match q
    case AsWritten => PersistedAsWritten(stored, u)
    case Corrected => Persisted(stored, u)
  }

  class UserTable {
    var rows: map<nat, User>
    /** The next AUTO_INCREMENT value. */
    var nextID: nat

    predicate Valid()
      reads this
    {
      1 <= nextID && WellKeyed(rows) && forall k :: k in rows ==> k < nextID
    }

    constructor ()
      ensures Valid() && rows == map[] && nextID == 1
    {
      rows := map[];
      nextID := 1;
    }

    /** INSERT with the next ID; the statement itself writes availability
        'Online', whatever the struct holds. */
    method CreateUser(u: User, fail: bool) returns (id: nat, err: bool)
      requires Valid()
      modifies this
      ensures Valid()
      ensures err == fail
      ensures fail ==> id == 0 && rows == old(rows) && nextID == old(nextID)
      ensures !fail ==>
                id == old(nextID) && id !in old(rows) && nextID == old(nextID) + 1 &&
                rows == old(rows)[id := u.(id := id, availability := AvailOnline)]
    {
      if fail {
        return 0, true;
      }
      id := nextID;
      rows := rows[id := u.(id := id, availability := AvailOnline)];
      nextID := nextID + 1;
      err := false;
    }

    /** UPDATE ... WHERE id = ?, as written (`q` is AsWritten) or corrected:
        a missing row changes nothing and is not an error. */
    method UpdateUser(id: nat, u: User, q: UserUpdate, fail: bool) returns (err: bool)
      requires Valid()
      modifies this
      ensures Valid() && nextID == old(nextID) && err == fail
      ensures !fail && id in old(rows) ==>
                rows == old(rows)[id := if q.AsWritten? then PersistedAsWritten(old(rows)[id], u)
                                        else Persisted(old(rows)[id], u)]
      ensures fail || id !in old(rows) ==> rows == old(rows)
    {
      if fail {
        return true;
      }
      if id in rows {
        rows := rows[id := Updated(q, rows[id], u)];
      }
      err := false;
    }

    /** UPDATE users SET availability = ? WHERE id = ?. */
    method UpdateAvailability(id: nat, status: string, fail: bool) returns (err: bool)
      requires Valid()
      modifies this
      ensures Valid() && nextID == old(nextID) && err == fail
      ensures !fail && id in old(rows) ==> rows == old(rows)[id := old(rows)[id].(availability := status)]
      ensures fail || id !in old(rows) ==> rows == old(rows)
    {
      if fail {
        return true;
      }
      if id in rows {
        rows := rows[id := rows[id].(availability := status)];
      }
      err := false;
    }
  }

  // ----- Handlers -------------------------------------------------------------------

  /** The file the avatar edit removes: the old one, when a new non-empty
      avatar differs from a non-empty old one. */
  function AvatarRemoval(old_: string, new_: string): (path: Option<string>)
    ensures path.Some? ==> new_ != "" && old_ != "" && old_ != new_ && path == AvatarFileToDelete(old_)
    ensures new_ == "" || old_ == "" || old_ == new_ ==> path.None?
  {
    if new_ != "" && old_ != "" && old_ != new_ then AvatarFileToDelete(old_) else None
  }

  /** UpdateMe. `removed` is the file deleteOldAvatar removes (the removal
      happens before hashing, so also when a later step fails). Name and phone
      are always overwritten, the avatar only by a non-empty value, the
      password only by a non-empty one, and only when the UPDATE is corrected:
      as written, it answers 200 and keeps the old hash. The e-mail, role,
      unit and rights are kept. */
  method UpdateMe(table: UserTable, ctx: Context, input: UserRequest, hash: string -> Option<string>,
                  q: UserUpdate, updateFails: bool)
    returns (resp: Response<User>, removed: Option<string>)
    requires table.Valid()
    modifies table
    ensures table.Valid() && table.nextID == old(table.nextID)
    ensures var who := GetCurrentUser(ctx, old(table.rows));
            who.Failure? ==> resp == Failure(who.status, who.error) && removed.None?
    ensures var who := GetCurrentUser(ctx, old(table.rows));
            who.Success? ==> removed == AvatarRemoval(who.data.avatarURL, input.avatarURL)
    ensures var who := GetCurrentUser(ctx, old(table.rows));
            who.Success? && input.password != "" && hash(input.password).None? ==>
              resp == Failure(500, "Failed to hash password")
    ensures var who := GetCurrentUser(ctx, old(table.rows));
            who.Success? && (input.password == "" || hash(input.password).Some?) && updateFails ==>
              resp == Failure(500, "Failed to update profile")
    ensures var who := GetCurrentUser(ctx, old(table.rows));
            who.Success? && (input.password == "" || hash(input.password).Some?) && !updateFails ==>
              resp.Success? && resp.status == 200
    ensures resp.Failure? ==> table.rows == old(table.rows)
    ensures resp.Success? ==>
              var id := GetUserID(ctx).0;
              var before := old(table.rows)[id];
              id in old(table.rows) && table.rows.Keys == old(table.rows).Keys &&
              (forall k :: k in table.rows && k != id ==> table.rows[k] == old(table.rows)[k]) &&
              table.rows[id].name == input.name && table.rows[id].phone == input.phone &&
              table.rows[id].avatarURL == (if input.avatarURL != "" then input.avatarURL else before.avatarURL) &&
              table.rows[id].passwordHash ==
                (if q.Corrected? && input.password != "" && hash(input.password).value != ""
                 then hash(input.password).value else before.passwordHash) &&
              table.rows[id].email == before.email && table.rows[id].role == before.role &&
              table.rows[id].unit == before.unit && table.rows[id].canCRUD == before.canCRUD &&
              table.rows[id].availability == before.availability
    ensures resp.Success? ==> resp.data.id == GetUserID(ctx).0 && resp.data.name == input.name
  {
    removed := None;
    var who := GetCurrentUser(ctx, table.rows);
    if who.Failure? {
      return Failure(who.status, who.error), None;
    }
    var user := Profile(who.data);
    user := user.(name := input.name, phone := input.phone);
    if input.avatarURL != "" {
      if user.avatarURL != "" && user.avatarURL != input.avatarURL {
        removed := AvatarFileToDelete(user.avatarURL);
      }
      user := user.(avatarURL := input.avatarURL);
    }
    if input.password != "" {
      var hashed := hash(input.password);
      if hashed.None? {
        return Failure(500, "Failed to hash password"), removed;
      }
      user := user.(passwordHash := hashed.value);
    }
    var err := table.UpdateUser(user.id, user, q, updateFails);
    if err {
      return Failure(500, "Failed to update profile"), removed;
    }
    resp := Success(200, user);
  }

  /** UpdateUser (admin): the account named in the URL gets the body's name,
      role, unit, phone and rights, and the e-mail only when the UPDATE is
      corrected; avatar and password as in UpdateMe. */
  method UpdateUser(table: UserTable, idParam: string, input: UserRequest, hash: string -> Option<string>,
                    q: UserUpdate, updateFails: bool)
    returns (resp: Response<User>, removed: Option<string>)
    requires table.Valid()
    modifies table
    ensures table.Valid() && table.nextID == old(table.nextID)
    ensures ParseID(idParam).Failure? ==> resp == Failure(400, "Invalid ID format") && removed.None?
    ensures ParseID(idParam).Success? && ParseID(idParam).data !in old(table.rows) ==>
              resp == Failure(404, "User not found") && removed.None?
    ensures ParseID(idParam).Success? && ParseID(idParam).data in old(table.rows) ==>
              removed == AvatarRemoval(old(table.rows)[ParseID(idParam).data].avatarURL, input.avatarURL) &&
              (input.password != "" && hash(input.password).None? ==> resp == Failure(500, "Failed to hash password")) &&
              ((input.password == "" || hash(input.password).Some?) && updateFails ==>
                 resp == Failure(500, "Failed to update user")) &&
              ((input.password == "" || hash(input.password).Some?) && !updateFails ==>
                 resp.Success? && resp.status == 200)
    ensures resp.Failure? ==> table.rows == old(table.rows)
    ensures resp.Success? ==>
              var id := ParseID(idParam).data;
              var before := old(table.rows)[id];
              id in old(table.rows) && table.rows.Keys == old(table.rows).Keys &&
              (forall k :: k in table.rows && k != id ==> table.rows[k] == old(table.rows)[k]) &&
              table.rows[id].name == input.name &&
              table.rows[id].email == (if q.Corrected? then input.email else before.email) &&
              table.rows[id].role == input.role && table.rows[id].unit == input.unit &&
              table.rows[id].phone == input.phone && table.rows[id].canCRUD == input.canCRUD &&
              table.rows[id].avatarURL == (if input.avatarURL != "" then input.avatarURL else before.avatarURL) &&
              table.rows[id].passwordHash ==
                (if q.Corrected? && input.password != "" && hash(input.password).value != ""
                 then hash(input.password).value else before.passwordHash) &&
              table.rows[id].availability == before.availability
  {
    removed := None;
    var parsed := ParseID(idParam);
    if parsed.Failure? {
      return Failure(parsed.status, parsed.error), None;
    }
    var userID := parsed.data;
    if userID !in table.rows {
      return Failure(404, "User not found"), None;
    }
    var user := Profile(table.rows[userID]);
    user := user.(name := input.name, email := input.email, role := input.role, unit := input.unit,
                  phone := input.phone, canCRUD := input.canCRUD);
    if input.avatarURL != "" {
      if user.avatarURL != "" && user.avatarURL != input.avatarURL {
        removed := AvatarFileToDelete(user.avatarURL);
      }
      user := user.(avatarURL := input.avatarURL);
    }
    if input.password != "" {
      var hashed := hash(input.password);
      if hashed.None? {
        return Failure(500, "Failed to hash password"), removed;
      }
      user := user.(passwordHash := hashed.value);
    }
    var err := table.UpdateUser(user.id, user, q, updateFails);
    if err {
      return Failure(500, "Failed to update user"), removed;
    }
    resp := Success(200, user);
  }

  /** UpdateAvailability: the ID, a non-empty status (the binding's
      `required`), one of the four names, then the UPDATE, which succeeds
      also for an ID without a row. */
  method UpdateAvailability(table: UserTable, idParam: string, status: string, updateFails: bool)
    returns (resp: Response<string>)
    requires table.Valid()
    modifies table
    ensures table.Valid() && table.nextID == old(table.nextID)
    ensures ParseID(idParam).Failure? ==> resp == Failure(400, "Invalid ID format")
    ensures ParseID(idParam).Success? && status == "" ==> resp == Failure(400, "Invalid input")
    ensures ParseID(idParam).Success? && status != "" && ParseAvailability(status).None? ==>
              resp == Failure(400, "Invalid status. Must be: Online, Busy, Away, or Offline")
    ensures ParseID(idParam).Success? && ParseAvailability(status).Some? ==>
              resp == (if updateFails then Failure(500, "Failed to update availability")
                       else Success(200, "Availability updated successfully"))
    ensures resp.Failure? ==> table.rows == old(table.rows)
    ensures resp.Success? ==>
              ParseAvailability(status).Some? &&
              var id := ParseID(idParam).data;
              (id in old(table.rows) ==> table.rows == old(table.rows)[id := old(table.rows)[id].(availability := status)]) &&
              (id !in old(table.rows) ==> table.rows == old(table.rows))
  {
    var parsed := ParseID(idParam);
    if parsed.Failure? {
      return Failure(parsed.status, parsed.error);
    }
    if status == "" {
      return Failure(400, "Invalid input");
    }
    if ParseAvailability(status).None? {
      return Failure(400, "Invalid status. Must be: Online, Busy, Away, or Offline");
    }
    var err := table.UpdateAvailability(parsed.data, status, updateFails);
    if err {
      return Failure(500, "Failed to update availability");
    }
    resp := Success(200, "Availability updated successfully");
  }

  /** The avatar a new account gets: the given one, or the default image under
      the base URL. */
  function InitialAvatar(given: string, env: Option<string>): (url: string)
    ensures given != "" ==> url == given
    ensures given == "" ==> url == GetBaseURL(env) + "/uploads/default-avatar.jpg"
  {
    if given != "" then given else GetBaseURL(env) + "/" + DirUploads + "/default-avatar.jpg"
  }

  /** CreateUser (admin). The answer shows availability "Offline" while the
      stored row says "Online". */
  method CreateUser(table: UserTable, input: UserRequest, hash: string -> Option<string>, env: Option<string>,
                    createFails: bool)
    returns (resp: Response<User>)
    requires table.Valid()
    modifies table
    ensures table.Valid()
    ensures hash(input.password).None? ==>
              resp == Failure(500, "Failed to hash password") && table.rows == old(table.rows)
    ensures hash(input.password).Some? && createFails ==>
              resp == Failure(500, "Failed to create user") && table.rows == old(table.rows)
    ensures hash(input.password).Some? && !createFails ==>
              var id := old(table.nextID);
              var shown := User(id, input.name, input.email, input.role, input.unit, input.phone,
                                InitialAvatar(input.avatarURL, env), AvailOffline, input.canCRUD,
                                hash(input.password).value);
              resp == Success(201, shown) && id !in old(table.rows) &&
              table.rows == old(table.rows)[id := shown.(availability := AvailOnline)]
  {
    var hashed := hash(input.password);
    if hashed.None? {
      return Failure(500, "Failed to hash password");
    }
    var avatar := GetBaseURL(env) + "/" + DirUploads + "/default-avatar.jpg";
    if input.avatarURL != "" {
      avatar := input.avatarURL;
    }
    var newUser := User(0, input.name, input.email, input.role, input.unit, input.phone, avatar, AvailOffline,
                        input.canCRUD, hashed.value);
    var id, err := table.CreateUser(newUser, createFails);
    if err {
      return Failure(500, "Failed to create user");
    }
    resp := Success(201, newUser.(id := id));
  }
}
