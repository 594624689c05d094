/**
 * The records the portal passes around: users, activity-log entries,
 * user requests and administrator notifications.
 */
module Types {

  datatype Option<+T> = None | Some(value: T) {
    function GetOr(default: T): T {
      if Some? then value else default
    }
  }

  /** Status of one relay attempt: `sending` until the relay call resolves. */
  datatype LogStatus = Sending | Success | Error

  function LogStatusName(s: LogStatus): string {
    match s
    case Sending => "sending"
    case Success => "success"
    case Error => "error"
  }

  /** One entry of the activity log; `userId` names the sending account. */
  datatype LogEntry = LogEntry(
    id: string,
    userId: string,
    message: string,
    status: LogStatus,
    timestamp: string,
    error: Option<string>)

  datatype UserRole = RoleAdmin | RoleUser

  function RoleName(r: UserRole): string {
    match r
    case RoleAdmin => "admin"
    case RoleUser => "user"
  }

  /**
   * An account. `aocBalance` is the credit balance the admin panel and the
   * dashboard read although the shared type does not declare it.
   */
  datatype User = User(
    id: string,
    role: UserRole,
    isSuspended: bool,
    dailyLimit: int,
    messageCount: int,
    lastCountReset: string,
    aocBalance: int)

  /** A partial update of a user (every field but the id may be given). */
  datatype Patch = Patch(
    role: Option<UserRole>,
    isSuspended: Option<bool>,
    dailyLimit: Option<int>,
    messageCount: Option<int>,
    lastCountReset: Option<string>,
    aocBalance: Option<int>)

  const NoChange := Patch(None, None, None, None, None, None)

  datatype RequestStatus = Pending | Approved | Denied

  function RequestStatusName(s: RequestStatus): string {
    match s
    case Pending => "pending"
    case Approved => "approved"
    case Denied => "denied"
  }

  /** A request sent by a user to the administrators; `timestamp` in epoch milliseconds. */
  datatype UserRequest = UserRequest(
    id: string,
    fromUserId: string,
    message: string,
    timestamp: int,
    status: RequestStatus)

  /** An administrator notification; no target means a broadcast. */
  datatype AppNotification = AppNotification(
    id: string,
    message: string,
    targetUserId: Option<string>,
    timestamp: int,
    isRead: bool)

  lemma NamesAreDistinct()
    ensures forall a: LogStatus, b: LogStatus :: LogStatusName(a) == LogStatusName(b) ==> a == b
    ensures forall a: UserRole, b: UserRole :: RoleName(a) == RoleName(b) ==> a == b
    ensures forall a: RequestStatus, b: RequestStatus :: RequestStatusName(a) == RequestStatusName(b) ==> a == b
    ensures {LogStatusName(Sending), LogStatusName(Success), LogStatusName(Error)} == {"sending", "success", "error"}
    ensures {RoleName(RoleAdmin), RoleName(RoleUser)} == {"admin", "user"}
    ensures {RequestStatusName(Pending), RequestStatusName(Approved), RequestStatusName(Denied)}
         == {"pending", "approved", "denied"}
  {
  }
}
