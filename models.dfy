/** Records and constants of internal/models/models.go and global/constants.go,
    and the request context the middleware fills in. */
module Models {

  const RoleAdmin: string := "Admin"
  const RoleStaff: string := "Staff"

  const StatusPending: string := "Pending"
  const StatusInProgress: string := "In Progress"
  const StatusCompleted: string := "Completed"

  const AvailOnline: string := "Online"
  const AvailBusy: string := "Busy"
  const AvailAway: string := "Away"
  const AvailOffline: string := "Offline"

  const DirUploads: string := "uploads"
  const DirAvatar: string := "avatar"
  const DirWorkOrder: string := "workorder"

  /** 2 << 20 bytes. */
  const MaxFileSize: int := 2 * 1_048_576

  /** A `users` row. */
  datatype User = User(
    id: nat, name: string, email: string, role: string, unit: string, phone: string,
    avatarURL: string, availability: string, canCRUD: bool, passwordHash: string)

  /** Every user is filed under its own ID. */
  predicate WellKeyed(users: map<nat, User>)
  {
    forall k :: k in users ==> users[k].id == k
  }

  /** A value stored in the request context with `c.Set`. */
  datatype CtxValue = UintVal(n: nat) | StrVal(s: string) | BoolVal(b: bool)

  type Context = map<string, CtxValue>
}
