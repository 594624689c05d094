/**
 * The portal's session controller: the cached user records, the session
 * account, the activity log (entries by id plus a newest-first id list), the
 * send gate with its daily quota, login with the daily reset, user creation
 * and removal, the per-user log viewer and the rule that keeps the session
 * copy in step with the cached record.
 *
 * The server's users table is part of the state (`db`), so every reply the
 * portal reacts to is computed by the `Server` handlers rather than guessed.
 * "Today", timestamps, fresh log ids and what the webhook endpoint answers
 * are parameters of the operations.
 */
module App {

  import opened Types
  import Strings
  import Json
  import Webhook
  import Server
  import Sorting
  import AdminPanel

  datatype View = MainView | AdminView

  /** What a dialog shows: a text, or one user's activity log. */
  datatype ModalBody =
    | Text(text: string)
    | Logs(logOrder: seq<string>, logData: map<string, LogEntry>)

  /**
   * The dialog's confirm action. The removal closure keeps the activity log
   * as it was when the dialog was opened, since it reads that value rather
   * than the current one.
   */
  datatype ModalAction =
    | NoAction
    | RemoveUserAction(uid: string, capturedLogData: map<string, LogEntry>)

  datatype Modal = Modal(isOpen: bool, title: string, body: ModalBody, onConfirm: ModalAction)

  datatype State = State(
    db: map<string, User>,
    users: map<string, User>,
    currentUser: Option<User>,
    authError: Option<string>,
    logData: map<string, LogEntry>,
    logOrder: seq<string>,
    isLoading: bool,
    view: View,
    modal: Modal)

  const ClosedModal := Modal(false, "", Text(""), NoAction)

  /** The state when the user table has been loaded and nobody is logged in. */
  function Initial(db: map<string, User>): State {
    State(db, db, None, None, map[], [], false, MainView, ClosedModal)
  }

  // ---------------------------------------------------------------------------
  // Texts

  const ErrorTitle := "Error"
  const SuspendedTitle := "Account Suspended"
  const SuspendedText := "Your account is currently suspended. You cannot send messages. Please contact an administrator."
  const LimitTitle := "Daily Limit Reached"
  const InvalidUidError := "Invalid UID. Please try again."
  const EmptyIdError := "User ID cannot be empty."
  const ConfirmTitle := "Confirm Deletion"
  const PrivacyTitle := "Privacy Notice"
  const PrivacyText := "Logs for admin accounts are private and cannot be viewed."
  const UpdateFailedPrefix := "Failed to update user: "
  const AddFailedPrefix := "Failed to add user: "
  const RemoveFailedPrefix := "Failed to remove user: "
  const UpdateFailedDefault := "Failed to update user"
  const CreateFailedDefault := "Failed to create user"
  const DeleteFailedDefault := "Failed to delete user"

  function LimitText(limit: int): string {
    "You have reached your daily message limit of " + Json.IntToString(limit) + ". Please try again tomorrow."
  }

  function ExistsText(uid: string): string {
    "User with ID \"" + uid + "\" already exists."
  }

  function ConfirmText(uid: string): string {
    "Are you sure you want to permanently remove user \"" + uid + "\"? This action cannot be undone."
  }

  function LogsTitle(uid: string): string {
    "Message Logs for " + uid
  }

  /** The text of a fresh log entry: the first 50 characters of the message, quoted. */
  function SendingText(message: string): (r: string)
    ensures |r| == 14 + (if |message| < 50 then |message| else 50)
    ensures Strings.StartsWith(r, "Sending: \"")
    ensures r[10..|r| - 4] == message[..if |message| < 50 then |message| else 50]
    ensures r[|r| - 4..] == "...\""
  {
    var t := Strings.Take(message, 50);
    var r := "Sending: \"" + t + "...\"";
    assert r[..10] == "Sending: \"";
    assert r[10..|r| - 4] == t;
    assert r[|r| - 4..] == "...\"";
    r
  }

  function Open(s: State, title: string, body: ModalBody, action: ModalAction): State {
    s.(modal := Modal(true, title, body, action))
  }

  function ErrorModal(text: string): Modal {
    Modal(true, ErrorTitle, Text(text), NoAction)
  }

  // ---------------------------------------------------------------------------
  // Invariants

  /** Every record is stored under its own id. */
  predicate KeyedById(m: map<string, User>) {
    forall k :: k in m ==> m[k].id == k
  }

  /**
   * The log's id list names exactly the stored entries, each once, and every
   * entry is stored under its own id.
   */
  predicate LogConsistent(logData: map<string, LogEntry>, logOrder: seq<string>) {
    && Sorting.Distinct(logOrder)
    && (forall i :: 0 <= i < |logOrder| ==> logOrder[i] in logData)
    && (forall id :: id in logData ==> id in logOrder && logData[id].id == id)
  }

  predicate Invariant(s: State) {
    KeyedById(s.db) && KeyedById(s.users) && LogConsistent(s.logData, s.logOrder)
  }

  lemma InitialInvariant(db: map<string, User>)
    requires KeyedById(db)
    ensures Invariant(Initial(db))
  {
  }

  // ---------------------------------------------------------------------------
  // updateUser

  /** `{ ...user, ...updates }`: every given field overrides, the balance included. */
  function Merged(u: User, p: Patch): User {
    u.(
      role := p.role.GetOr(u.role),
      isSuspended := p.isSuspended.GetOr(u.isSuspended),
      dailyLimit := p.dailyLimit.GetOr(u.dailyLimit),
      messageCount := p.messageCount.GetOr(u.messageCount),
      lastCountReset := p.lastCountReset.GetOr(u.lastCountReset),
      aocBalance := p.aocBalance.GetOr(u.aocBalance))
  }

  /** The optimistic local update: only a patch that sets a role is applied before the reply. */
  function Optimistic(users: map<string, User>, uid: string, updates: Patch): map<string, User> {
    if updates.role.Some? && uid in users then users[uid := Merged(users[uid], updates)] else users
  }

  /**
   * A role change of a known user shows at once; nothing else, and no other
   * user, changes.
   */
  lemma OptimisticEffect(users: map<string, User>, uid: string, updates: Patch)
    ensures var r := Optimistic(users, uid, updates);
      && r.Keys == users.Keys
      && (forall k :: k in users && k != uid ==> r[k] == users[k])
      && (updates.role.None? ==> r == users)
      && (updates.role.Some? && uid in users ==>
            r[uid].role == updates.role.value && r[uid].id == users[uid].id
            && (AdminPanel.IsAdmin(r[uid]) <==> updates.role.value == RoleAdmin))
  {
  }

  /** Where the optimistic copy and the server agree: every mapped field; only the balance differs. */
  lemma OptimisticAgreesWithServer(u: User, updates: Patch)
    ensures Server.Patched(u, updates) == Merged(u, updates.(aocBalance := None))
    ensures Merged(u, updates).aocBalance == updates.aocBalance.GetOr(u.aocBalance)
  {
  }

  /**
   * `updateUser`: the optimistic step, then the PUT. A 2xx reply stores the
   * returned row; any other reply opens an error dialog and reloads the
   * cache from the server.
   */
  function UpdateUserSpec(s: State, uid: string, updates: Patch): State {
    var users := Optimistic(s.users, uid, updates);
    var h := Server.PutOutcome(s.db, uid, updates);
    if Webhook.IsOk(h.reply.status) then
      s.(db := h.db, users := users[uid := h.reply.user.value])
    else
      s.(db := h.db, users := h.db,
         modal := ErrorModal(UpdateFailedPrefix + h.reply.error.GetOr(UpdateFailedDefault)))
  }

  /**
   * After `updateUser` the cached record of that user is the server's: the
   * patched row when the id exists and a mapped field was given, and
   * otherwise the cache is the server's table again.
   */
  lemma UpdateUserEffect(s: State, uid: string, updates: Patch)
    ensures var r := UpdateUserSpec(s, uid, updates);
      && r.currentUser == s.currentUser && r.logData == s.logData && r.logOrder == s.logOrder
      && r.view == s.view && r.authError == s.authError
      && (Server.MapsAField(updates) && uid in s.db ==>
            && r.db == s.db[uid := Server.Patched(s.db[uid], updates)]
            && uid in r.users && r.users[uid] == Server.Patched(s.db[uid], updates)
            && (forall k :: k in s.users && k != uid ==> k in r.users && r.users[k] == s.users[k])
            && r.modal == s.modal)
      && (!Server.MapsAField(updates) || uid !in s.db ==>
            && r.db == s.db && r.users == s.db
            && r.modal.isOpen && r.modal.title == ErrorTitle)
  {
    OptimisticEffect(s.users, uid, updates);
  }

  /**
   * A balance-only adjustment from the admin panel never reaches the table:
   * the server maps no balance column, answers 400, and the portal shows the
   * error and reloads its cache.
   */
  lemma BalanceUpdateIsRejected(s: State, uid: string, balance: int)
    ensures UpdateUserSpec(s, uid, AdminPanel.BalancePatch(balance))
         == s.(users := s.db, modal := ErrorModal(UpdateFailedPrefix + Server.NoFieldsError))
  {
  }

  lemma {:induction false} UpdateUserKeepsInvariant(s: State, uid: string, updates: Patch)
    requires Invariant(s)
    ensures Invariant(UpdateUserSpec(s, uid, updates))
  {
    var r := UpdateUserSpec(s, uid, updates);
    var users := Optimistic(s.users, uid, updates);
    assert KeyedById(users);
    if Server.MapsAField(updates) && uid in s.db {
      assert Server.Patched(s.db[uid], updates).id == uid;
    }
  }

  // ---------------------------------------------------------------------------
  // updateLog

  function UpdateLogSpec(s: State, id: string, status: LogStatus, error: Option<string>): State {
    if id in s.logData then
      s.(logData := s.logData[id := s.logData[id].(status := status, error := error)])
    else s
  }

  /** `updateLog` rewrites the status and error of one existing entry and nothing else. */
  lemma UpdateLogEffect(s: State, id: string, status: LogStatus, error: Option<string>)
    ensures var r := UpdateLogSpec(s, id, status, error);
      && r.logData.Keys == s.logData.Keys
      && (forall k :: k in s.logData && k != id ==> r.logData[k] == s.logData[k])
      && (id in s.logData ==>
            && r.logData[id].status == status && r.logData[id].error == error
            && r.logData[id].id == s.logData[id].id && r.logData[id].userId == s.logData[id].userId
            && r.logData[id].message == s.logData[id].message
            && r.logData[id].timestamp == s.logData[id].timestamp)
      && r == s.(logData := r.logData)
  {
  }

  // ---------------------------------------------------------------------------
  // handleSendMessage

  function ResetPatch(today: string): Patch {
    NoChange.(messageCount := Some(0), lastCountReset := Some(today))
  }

  /**
   * The reset writes exactly the count and the date columns, with 0 and
   * today's date as the values and the id after them.
   */
  lemma ResetIssuesQuery(today: string, id: string)
    ensures var d := Server.Whitelisted(ResetPatch(today));
      && Server.Columns(d) == ["message_count", "last_count_reset"]
      && Server.Values(d) + [Server.VStr(id)] == [Server.VInt(0), Server.VStr(today), Server.VStr(id)]
      && Server.QueryText(Server.BuildQuery(Server.Columns(d)))
         == "UPDATE users SET " + "message_count = $1, last_count_reset = $2" + " WHERE id = " + "$3" + " RETURNING *"
  {
    var d := Server.Whitelisted(ResetPatch(today));
    assert d == [("message_count", Server.VInt(0)), ("last_count_reset", Server.VStr(today))];
    var columns := Server.Columns(d);
    assert columns == ["message_count", "last_count_reset"];
    Server.ResetQueryText();
  }

  function CountPatch(count: int): Patch {
    NoChange.(messageCount := Some(count))
  }

  /** The result of the checks made before anything is logged. */
  datatype Gated =
    | Refused(state: State)
    | Admitted(state: State, local: User)

  /**
   * The gate: the session account must be cached and not suspended; unless
   * the limit is bypassed, a stale date is reset (locally and on the server)
   * and the daily limit is checked against the local copy.
   */
  function Gate(s: State, bypass: bool, today: string): (g: Gated)
    ensures g.Admitted? ==>
      && s.currentUser.Some? && s.currentUser.value.id in s.users
      && !s.users[s.currentUser.value.id].isSuspended
  {
    if s.currentUser.None? || s.currentUser.value.id !in s.users then Refused(s)
    else
      var user := s.users[s.currentUser.value.id];
      if user.isSuspended then Refused(Open(s, SuspendedTitle, Text(SuspendedText), NoAction))
      else if bypass then Admitted(s, user)
      else
        var stale := user.lastCountReset != today;
        var local := if stale then user.(messageCount := 0, lastCountReset := today) else user;
        var s1 := if stale then UpdateUserSpec(s, user.id, ResetPatch(today)) else s;
        if local.messageCount >= local.dailyLimit then
          Refused(Open(s1, LimitTitle, Text(LimitText(local.dailyLimit)), NoAction))
        else Admitted(s1, local)
  }

  /** The new entry, logged with status `sending` before the relay call. */
  function Enqueue(s: State, senderId: string, tempId: string, message: string, timestamp: string): State {
    s.(isLoading := true,
       logData := s.logData[tempId := LogEntry(tempId, senderId, SendingText(message), Sending, timestamp, None)],
       logOrder := [tempId] + s.logOrder)
  }

  datatype Sent = Sent(state: State, ok: bool)

  /** What the relay outcome does: the entry's final status, and the count from the local copy plus one. */
  function Complete(s: State, tempId: string, local: User, bypass: bool, outcome: Webhook.Outcome): Sent {
    match outcome
    case Delivered =>
      var s1 := UpdateLogSpec(s, tempId, Success, None);
      var s2 := if bypass then s1 else UpdateUserSpec(s1, local.id, CountPatch(local.messageCount + 1));
      Sent(s2.(isLoading := false), true)
    case Failed(message) =>
      Sent(UpdateLogSpec(s, tempId, Error, Some(message)).(isLoading := false), false)
  }

  function SendSpec(s: State, url: string, message: string, bypass: bool, today: string,
                    tempId: string, timestamp: string, delivery: Webhook.Delivery): Sent
  {
    match Gate(s, bypass, today)
    case Refused(s1) => Sent(s1, false)
    case Admitted(s1, local) =>
      Complete(Enqueue(s1, s.currentUser.value.id, tempId, message, timestamp), tempId, local, bypass,
               Webhook.WrittenOutcome(url, delivery))
  }

  /** The session account as the gate reads it from the cache. */
  function SessionRecord(s: State): User
    requires s.currentUser.Some? && s.currentUser.value.id in s.users
  {
    s.users[s.currentUser.value.id]
  }

  /** The local copy the limit check and the increment use. */
  function LocalCopy(user: User, today: string): (u: User)
    ensures u.id == user.id && u.dailyLimit == user.dailyLimit && u.lastCountReset == today
    ensures user.lastCountReset == today ==> u == user
    ensures user.lastCountReset != today ==> u.messageCount == 0
  {
    if user.lastCountReset != today then user.(messageCount := 0, lastCountReset := today) else user
  }

  /** Without a session (or a cached record for it) nothing happens and the send fails. */
  lemma SendWithoutSession(s: State, url: string, message: string, bypass: bool, today: string,
                           tempId: string, timestamp: string, delivery: Webhook.Delivery)
    requires s.currentUser.None? || s.currentUser.value.id !in s.users
    ensures SendSpec(s, url, message, bypass, today, tempId, timestamp, delivery) == Sent(s, false)
  {
  }

  /** A suspended account's send fails with only the dialog changed: no entry, no counter. */
  lemma SendSuspended(s: State, url: string, message: string, bypass: bool, today: string,
                      tempId: string, timestamp: string, delivery: Webhook.Delivery)
    requires s.currentUser.Some? && s.currentUser.value.id in s.users
    requires SessionRecord(s).isSuspended
    ensures var r := SendSpec(s, url, message, bypass, today, tempId, timestamp, delivery);
      && !r.ok
      && r.state == s.(modal := Modal(true, SuspendedTitle, Text(SuspendedText), NoAction))
  {
  }

  /**
   * A send over the limit (counted after the daily reset) fails without a
   * log entry; a stale date has been reset on the server before the check.
   * The account's role plays no part.
   */
  lemma SendOverLimit(s: State, url: string, message: string, today: string,
                      tempId: string, timestamp: string, delivery: Webhook.Delivery)
    requires s.currentUser.Some? && s.currentUser.value.id in s.users
    requires !SessionRecord(s).isSuspended
    requires LocalCopy(SessionRecord(s), today).messageCount >= SessionRecord(s).dailyLimit
    ensures var user := SessionRecord(s);
      var r := SendSpec(s, url, message, false, today, tempId, timestamp, delivery);
      && !r.ok
      && r.state.logData == s.logData && r.state.logOrder == s.logOrder
      && r.state.modal == Modal(true, LimitTitle, Text(LimitText(user.dailyLimit)), NoAction)
      && (user.lastCountReset == today ==> r.state.db == s.db && r.state.users == s.users)
      && (user.lastCountReset != today ==> r.state.db == Server.PutOutcome(s.db, user.id, ResetPatch(today)).db)
      && (user.lastCountReset != today ==>
            r.state.users == UpdateUserSpec(s, user.id, ResetPatch(today)).users)
      && (user.lastCountReset != today && user.id in s.db ==>
            r.state.db[user.id].messageCount == 0 && r.state.db[user.id].lastCountReset == today)
  {
    var user := SessionRecord(s);
    if user.lastCountReset != today {
    }
  }

  /** No exemption for administrators: an admin at the limit is refused like anyone else. */
  lemma AdminsAreLimited(s: State, url: string, message: string, tempId: string, timestamp: string,
                         delivery: Webhook.Delivery)
    requires s.currentUser.Some? && s.currentUser.value.id in s.users
    requires SessionRecord(s).role == RoleAdmin && !SessionRecord(s).isSuspended
    requires SessionRecord(s).messageCount >= SessionRecord(s).dailyLimit
    ensures !SendSpec(s, url, message, false, SessionRecord(s).lastCountReset, tempId, timestamp, delivery).ok
  {
    SendOverLimit(s, url, message, SessionRecord(s).lastCountReset, tempId, timestamp, delivery);
  }

  /**
   * A bypass send skips the reset and the limit: the accounts are left as
   * they are (on the server and in the cache), one entry is logged, and the
   * result is the relay outcome.
   */
  lemma SendBypass(s: State, url: string, message: string, today: string,
                   tempId: string, timestamp: string, delivery: Webhook.Delivery)
    requires s.currentUser.Some? && s.currentUser.value.id in s.users
    requires !SessionRecord(s).isSuspended
    ensures var r := SendSpec(s, url, message, true, today, tempId, timestamp, delivery);
      && r.state.db == s.db && r.state.users == s.users
      && r.state.logOrder == [tempId] + s.logOrder
      && (r.ok <==> Webhook.WrittenOutcome(url, delivery).Delivered?)
  {
  }

  /** Whether the gate lets the send through. */
  predicate Allowed(s: State, bypass: bool, today: string)
    requires s.currentUser.Some? && s.currentUser.value.id in s.users
  {
    !SessionRecord(s).isSuspended
    && (bypass || LocalCopy(SessionRecord(s), today).messageCount < SessionRecord(s).dailyLimit)
  }

  /** The entry a send ends with, by relay outcome. */
  function FinalEntry(senderId: string, tempId: string, message: string, timestamp: string,
                      outcome: Webhook.Outcome): LogEntry
  {
    match outcome
    case Delivered => LogEntry(tempId, senderId, SendingText(message), Success, timestamp, None)
    case Failed(m) => LogEntry(tempId, senderId, SendingText(message), Error, timestamp, Some(m))
  }

  lemma GateAdmits(s: State, bypass: bool, today: string)
    requires s.currentUser.Some? && s.currentUser.value.id in s.users
    ensures Gate(s, bypass, today).Admitted? <==> Allowed(s, bypass, today)
    ensures Allowed(s, bypass, today) ==>
      && Gate(s, bypass, today).local == (if bypass then SessionRecord(s) else LocalCopy(SessionRecord(s), today))
      && Gate(s, bypass, today).state.logData == s.logData
      && Gate(s, bypass, today).state.logOrder == s.logOrder
      && Gate(s, bypass, today).state.currentUser == s.currentUser
    ensures Allowed(s, bypass, today) && !bypass && SessionRecord(s).lastCountReset != today ==>
      Gate(s, bypass, today).state.db == Server.PutOutcome(s.db, SessionRecord(s).id, ResetPatch(today)).db
    ensures Allowed(s, bypass, today) && (bypass || SessionRecord(s).lastCountReset == today) ==>
      Gate(s, bypass, today).state.db == s.db && Gate(s, bypass, today).state.users == s.users
  {
    var user := SessionRecord(s);
    if !bypass && user.lastCountReset != today {
      UpdateUserEffect(s, user.id, ResetPatch(today));
    }
  }

  /** An admitted send is the gate, the queued entry and the completion, in that order. */
  lemma SendAdmitted(s: State, url: string, message: string, bypass: bool, today: string,
                     tempId: string, timestamp: string, delivery: Webhook.Delivery)
    requires s.currentUser.Some? && s.currentUser.value.id in s.users
    requires Allowed(s, bypass, today)
    ensures Gate(s, bypass, today).Admitted?
    ensures SendSpec(s, url, message, bypass, today, tempId, timestamp, delivery)
         == Complete(Enqueue(Gate(s, bypass, today).state, s.currentUser.value.id, tempId, message, timestamp),
                     tempId, Gate(s, bypass, today).local, bypass, Webhook.WrittenOutcome(url, delivery))
  {
    GateAdmits(s, bypass, today);
  }

  /**
   * The completion: the entry takes its final status, the send succeeds
   * exactly on delivery, and only a delivered, counted send touches an account.
   */
  lemma CompleteEffect(s: State, tempId: string, local: User, bypass: bool, outcome: Webhook.Outcome)
    ensures var r := Complete(s, tempId, local, bypass, outcome);
      && (r.ok <==> outcome.Delivered?)
      && !r.state.isLoading
      && r.state.logOrder == s.logOrder && r.state.currentUser == s.currentUser
      && r.state.logData == UpdateLogSpec(s, tempId, if outcome.Delivered? then Success else Error,
                                          if outcome.Delivered? then None else Some(outcome.message)).logData
      && (outcome.Failed? || bypass ==> r.state.db == s.db && r.state.users == s.users)
      && (outcome.Delivered? && !bypass && local.id in s.db ==>
            r.state.db == s.db[local.id := Server.Patched(s.db[local.id], CountPatch(local.messageCount + 1))])
  {
    if outcome.Delivered? && !bypass {
      var s1 := UpdateLogSpec(s, tempId, Success, None);
      UpdateUserEffect(s1, local.id, CountPatch(local.messageCount + 1));
    }
  }

  /**
   * An allowed send logs exactly one entry under the fresh id, at the head of
   * the list, for the session account, with the message's first 50
   * characters; it ends `success` or `error` with the relay's error text, and
   * the send succeeds exactly when the relay did.
   */
  lemma SendLogsOneEntry(s: State, url: string, message: string, bypass: bool, today: string,
                         tempId: string, timestamp: string, delivery: Webhook.Delivery)
    requires s.currentUser.Some? && s.currentUser.value.id in s.users
    requires Allowed(s, bypass, today)
    ensures var r := SendSpec(s, url, message, bypass, today, tempId, timestamp, delivery);
      var outcome := Webhook.WrittenOutcome(url, delivery);
      && r.state.logOrder == [tempId] + s.logOrder
      && r.state.logData == s.logData[tempId := FinalEntry(s.currentUser.value.id, tempId, message, timestamp, outcome)]
      && (r.ok <==> outcome.Delivered?)
      && !r.state.isLoading
  {
    SendAdmitted(s, url, message, bypass, today, tempId, timestamp, delivery);
    GateAdmits(s, bypass, today);
    var g := Gate(s, bypass, today);
    var q := Enqueue(g.state, s.currentUser.value.id, tempId, message, timestamp);
    CompleteEffect(q, tempId, g.local, bypass, Webhook.WrittenOutcome(url, delivery));
  }

  /** Before the relay call the entry is `sending` and the portal is busy. */
  lemma EnqueuedEntryIsSending(s: State, senderId: string, tempId: string, message: string, timestamp: string)
    ensures var q := Enqueue(s, senderId, tempId, message, timestamp);
      && q.isLoading && q.logOrder[0] == tempId && tempId in q.logData
      && q.logData[tempId].status == Sending && q.logData[tempId].userId == senderId
      && q.logData[tempId].error.None?
  {
  }

  /**
   * After a delivered, counted send the server's count is the local copy's
   * count plus one: one more than the cached count on a fresh day, whatever
   * the server held, and 1 after a reset. Only a reset writes the date.
   */
  lemma SendSuccessCounts(s: State, url: string, message: string, today: string,
                          tempId: string, timestamp: string, delivery: Webhook.Delivery)
    requires s.currentUser.Some? && s.currentUser.value.id in s.users
    requires Allowed(s, false, today)
    requires Webhook.WrittenOutcome(url, delivery).Delivered?
    requires SessionRecord(s).id in s.db
    ensures var r := SendSpec(s, url, message, false, today, tempId, timestamp, delivery);
      var user := SessionRecord(s);
      && r.ok
      && user.id in r.state.db
      && r.state.db[user.id].messageCount == LocalCopy(user, today).messageCount + 1
      && (user.lastCountReset == today ==> r.state.db[user.id].messageCount == user.messageCount + 1)
      && (user.lastCountReset == today ==> r.state.db[user.id].lastCountReset == s.db[user.id].lastCountReset)
      && (user.lastCountReset != today ==>
            r.state.db[user.id].messageCount == 1 && r.state.db[user.id].lastCountReset == today)
  {
    var user := SessionRecord(s);
    SendAdmitted(s, url, message, false, today, tempId, timestamp, delivery);
    GateAdmits(s, false, today);
    var g := Gate(s, false, today);
    var local := LocalCopy(user, today);
    assert g.local == local;
    if user.lastCountReset != today {
      UpdateUserEffect(s, user.id, ResetPatch(today));
      assert g.state.db == s.db[user.id := Server.Patched(s.db[user.id], ResetPatch(today))];
    } else {
      assert g.state == s;
    }
    assert user.id in g.state.db;
    var q := Enqueue(g.state, s.currentUser.value.id, tempId, message, timestamp);
    assert q.db == g.state.db;
    CompleteEffect(q, tempId, g.local, false, Webhook.WrittenOutcome(url, delivery));
    var r := SendSpec(s, url, message, false, today, tempId, timestamp, delivery);
    assert r.state.db == q.db[user.id := Server.Patched(q.db[user.id], CountPatch(local.messageCount + 1))];
  }

  /** A failed relay leaves every account where the gate left it, and the send fails. */
  lemma SendFailureKeepsCounts(s: State, url: string, message: string, bypass: bool, today: string,
                               tempId: string, timestamp: string, delivery: Webhook.Delivery)
    requires s.currentUser.Some? && s.currentUser.value.id in s.users
    requires Allowed(s, bypass, today)
    requires Webhook.WrittenOutcome(url, delivery).Failed?
    ensures var r := SendSpec(s, url, message, bypass, today, tempId, timestamp, delivery);
      var g := Gate(s, bypass, today);
      && !r.ok
      && r.state.db == g.state.db && r.state.users == g.state.users
      && (bypass || SessionRecord(s).lastCountReset == today ==> r.state.db == s.db && r.state.users == s.users)
      && (!bypass && SessionRecord(s).lastCountReset != today ==>
            r.state.db == Server.PutOutcome(s.db, SessionRecord(s).id, ResetPatch(today)).db)
      && (!bypass && SessionRecord(s).lastCountReset != today && SessionRecord(s).id in s.db ==>
            r.state.db[SessionRecord(s).id].messageCount == 0
            && r.state.db[SessionRecord(s).id].lastCountReset == today)
  {
    GateAdmits(s, bypass, today);
    SendAdmitted(s, url, message, bypass, today, tempId, timestamp, delivery);
    var g := Gate(s, bypass, today);
    var q := Enqueue(g.state, s.currentUser.value.id, tempId, message, timestamp);
    CompleteEffect(q, tempId, g.local, bypass, Webhook.WrittenOutcome(url, delivery));
  }

  lemma GateKeepsInvariant(s: State, bypass: bool, today: string)
    requires Invariant(s)
    ensures Invariant(Gate(s, bypass, today).state)
  {
    if s.currentUser.Some? && s.currentUser.value.id in s.users {
      var user := SessionRecord(s);
      if !user.isSuspended && !bypass && user.lastCountReset != today {
        UpdateUserKeepsInvariant(s, user.id, ResetPatch(today));
      }
    }
  }

  /** Queuing under a fresh id keeps the log's id list and its entries in step. */
  lemma EnqueueKeepsInvariant(s: State, senderId: string, tempId: string, message: string, timestamp: string)
    requires Invariant(s)
    requires tempId !in s.logData
    ensures Invariant(Enqueue(s, senderId, tempId, message, timestamp))
  {
    var q := Enqueue(s, senderId, tempId, message, timestamp);
    assert tempId !in s.logOrder;
    forall i, j | 0 <= i < j < |q.logOrder| ensures q.logOrder[i] != q.logOrder[j] {
      assert q.logOrder[j] == s.logOrder[j - 1];
      if i > 0 {
        assert q.logOrder[i] == s.logOrder[i - 1];
      }
    }
    forall i | 0 <= i < |q.logOrder| ensures q.logOrder[i] in q.logData {
      if i > 0 {
        assert q.logOrder[i] == s.logOrder[i - 1];
      }
    }
  }

  lemma CompleteKeepsInvariant(s: State, tempId: string, local: User, bypass: bool, outcome: Webhook.Outcome)
    requires Invariant(s)
    ensures Invariant(Complete(s, tempId, local, bypass, outcome).state)
  {
    var status := if outcome.Delivered? then Success else Error;
    var error := if outcome.Delivered? then None else Some(outcome.message);
    var s1 := UpdateLogSpec(s, tempId, status, error);
    assert Invariant(s1);
    if outcome.Delivered? && !bypass {
      UpdateUserKeepsInvariant(s1, local.id, CountPatch(local.messageCount + 1));
    }
  }

  /** A send under a fresh id keeps the portal's invariant, whatever the gate and the relay decide. */
  lemma SendKeepsInvariant(s: State, url: string, message: string, bypass: bool, today: string,
                           tempId: string, timestamp: string, delivery: Webhook.Delivery)
    requires Invariant(s)
    requires tempId !in s.logData
    ensures Invariant(SendSpec(s, url, message, bypass, today, tempId, timestamp, delivery).state)
  {
    GateKeepsInvariant(s, bypass, today);
    var g := Gate(s, bypass, today);
    if g.Admitted? {
      GateAdmits(s, bypass, today);
      var q := Enqueue(g.state, s.currentUser.value.id, tempId, message, timestamp);
      EnqueueKeepsInvariant(g.state, s.currentUser.value.id, tempId, message, timestamp);
      CompleteKeepsInvariant(q, tempId, g.local, bypass, Webhook.WrittenOutcome(url, delivery));
    }
  }

  // ---------------------------------------------------------------------------
  // handleLogin and handleLogout

  /**
   * `handleLogin`: an unknown id sets the error; a known one with a stale
   * date is reset on the server and the session takes the reloaded record.
   */
  function LoginSpec(s: State, uid: string, today: string): State {
    var s0 := s.(isLoading := true, authError := None);
    if uid in s0.users then
      var user := s0.users[uid];
      var s1 :=
        if user.lastCountReset != today then
          var t := UpdateUserSpec(s0, uid, ResetPatch(today));
          t.(users := t.db, currentUser := if uid in t.db then Some(t.db[uid]) else None)
        else s0.(currentUser := Some(user));
      s1.(view := MainView, isLoading := false)
    else
      s0.(authError := Some(InvalidUidError), isLoading := false)
  }

  /** An unknown id changes nothing but the error. */
  lemma LoginUnknown(s: State, uid: string, today: string)
    requires uid !in s.users
    ensures LoginSpec(s, uid, today) == s.(authError := Some(InvalidUidError), isLoading := false)
  {
  }

  /**
   * A known id logs in on the main view with the error cleared; a stale
   * date makes the session account the server's record reset to 0 and today.
   */
  lemma LoginKnown(s: State, uid: string, today: string)
    requires uid in s.users
    ensures var r := LoginSpec(s, uid, today);
      && r.view == MainView && r.authError.None? && !r.isLoading
      && r.logData == s.logData && r.logOrder == s.logOrder
      && (s.users[uid].lastCountReset == today ==>
            r.currentUser == Some(s.users[uid]) && r.users == s.users && r.db == s.db)
      && (s.users[uid].lastCountReset != today && uid in s.db ==>
            && r.currentUser == Some(s.db[uid].(messageCount := 0, lastCountReset := today))
            && r.db == s.db[uid := s.db[uid].(messageCount := 0, lastCountReset := today)]
            && r.users == r.db)
      && (s.users[uid].lastCountReset != today && uid !in s.db ==> r.currentUser.None? && r.users == s.db)
  {
    var s0 := s.(isLoading := true, authError := None);
    UpdateUserEffect(s0, uid, ResetPatch(today));
  }

  function LogoutSpec(s: State): State {
    s.(currentUser := None, authError := None, view := MainView)
  }

  lemma LoginKeepsInvariant(s: State, uid: string, today: string)
    requires Invariant(s)
    ensures Invariant(LoginSpec(s, uid, today))
  {
    var s0 := s.(isLoading := true, authError := None);
    UpdateUserKeepsInvariant(s0, uid, ResetPatch(today));
  }

  // ---------------------------------------------------------------------------
  // handleAddUser

  function AddUserSpec(s: State, uid: string, today: string): State {
    if uid == "" then s.(modal := ErrorModal(EmptyIdError))
    else if uid in s.users then s.(modal := ErrorModal(ExistsText(uid)))
    else
      var h := Server.Post(s.db, Some(uid), today);
      if Webhook.IsOk(h.reply.status) then
        s.(db := h.db, users := s.users[h.reply.user.value.id := h.reply.user.value])
      else
        s.(db := h.db, modal := ErrorModal(AddFailedPrefix + h.reply.error.GetOr(CreateFailedDefault)))
  }

  /**
   * An empty or cached id is refused with a dialog and nothing stored; a new
   * id is created on the server with the defaults and cached; an id the
   * server already has (but the cache does not) fails with the server's error.
   */
  lemma AddUserEffect(s: State, uid: string, today: string)
    ensures var r := AddUserSpec(s, uid, today);
      && r.currentUser == s.currentUser && r.logData == s.logData && r.logOrder == s.logOrder
      && (uid == "" ==> r == s.(modal := ErrorModal(EmptyIdError)))
      && (uid != "" && uid in s.users ==> r == s.(modal := ErrorModal(ExistsText(uid))))
      && (uid != "" && uid !in s.users && uid !in s.db ==>
            && r.db == s.db[uid := Server.NewUser(uid, today)]
            && r.users == s.users[uid := Server.NewUser(uid, today)]
            && r.modal == s.modal)
      && (uid != "" && uid !in s.users && uid in s.db ==>
            r == s.(modal := ErrorModal(AddFailedPrefix + Server.CreateFailedError)))
  {
  }

  lemma AddUserKeepsInvariant(s: State, uid: string, today: string)
    requires Invariant(s)
    ensures Invariant(AddUserSpec(s, uid, today))
  {
  }

  // ---------------------------------------------------------------------------
  // handleRemoveUser and its confirm action

  function RemoveUserSpec(s: State, uid: string): State {
    Open(s, ConfirmTitle, Text(ConfirmText(uid)), RemoveUserAction(uid, s.logData))
  }

  /** The ids of the entries of `logData` sent by `uid`. */
  function OwnedLogs(logData: map<string, LogEntry>, uid: string): set<string> {
    set id | id in logData && logData[id].userId == uid
  }

  /** The `logOrder` filter: keeps the ids not in the removed set. */
  function KeepsId(removed: set<string>): string -> bool {
    id => id !in removed
  }

  function CloseModalSpec(s: State): State {
    s.(modal := s.modal.(isOpen := false))
  }

  /**
   * The dialog's confirm button: for a removal, the DELETE, then the user
   * and the log entries it owned (as the log stood when the dialog opened)
   * are dropped and the dialog closes. Without a confirm action, or with the
   * dialog closed, nothing happens.
   */
  function ConfirmSpec(s: State): State {
    if !s.modal.isOpen || s.modal.onConfirm.NoAction? then s
    else
      var uid := s.modal.onConfirm.uid;
      var h := Server.Delete(s.db, uid);
      if !Webhook.IsOk(h.reply.status) && h.reply.status != 204 then
        s.(db := h.db, modal := ErrorModal(RemoveFailedPrefix + h.reply.error.GetOr(DeleteFailedDefault)))
      else
        var owned := OwnedLogs(s.modal.onConfirm.capturedLogData, uid);
        CloseModalSpec(s.(db := h.db, users := s.users - {uid}, logData := s.logData - owned,
                          logOrder := Sorting.Filter(s.logOrder, KeepsId(owned))))
  }

  /** Removing an id the server does not have only reports the error. */
  lemma RemoveUnknown(s: State, uid: string)
    requires uid !in s.db
    ensures ConfirmSpec(RemoveUserSpec(s, uid))
         == s.(modal := ErrorModal(RemoveFailedPrefix + Server.NotFoundError))
  {
  }

  /**
   * Removing a user drops the record on the server and in the cache, and
   * exactly the log entries it owned from both the entries and the id list;
   * every other entry is kept unchanged and the id list keeps its order.
   */
  lemma RemoveCascade(s: State, uid: string)
    requires uid in s.db
    ensures var r := ConfirmSpec(RemoveUserSpec(s, uid));
      && r.db == s.db - {uid}
      && r.users == s.users - {uid}
      && (forall id :: id in r.logData <==> id in s.logData && s.logData[id].userId != uid)
      && (forall id :: id in r.logData ==> r.logData[id] == s.logData[id])
      && (forall id :: id in r.logOrder <==> id in s.logOrder && (id in s.logData ==> s.logData[id].userId != uid))
      && Sorting.Subsequence(r.logOrder, s.logOrder)
      && !r.modal.isOpen && r.currentUser == s.currentUser
  {
    var owned := OwnedLogs(s.logData, uid);
    Sorting.FilterMembers(s.logOrder, KeepsId(owned));
  }

  /**
   * With entries logged after the dialog opened, those stay: only the
   * entries owned at opening time are dropped.
   */
  lemma RemoveUsesOpeningLog(s: State, uid: string, later: LogEntry, laterId: string)
    requires uid in s.db && laterId !in s.logData && later.userId == uid
    ensures var asked := RemoveUserSpec(s, uid);
      var r := ConfirmSpec(asked.(logData := asked.logData[laterId := later]));
      laterId in r.logData
  {
  }

  lemma {:induction false} ConfirmKeepsInvariant(s: State)
    requires Invariant(s)
    ensures Invariant(ConfirmSpec(s))
  {
    if s.modal.isOpen && s.modal.onConfirm.RemoveUserAction? {
      var uid := s.modal.onConfirm.uid;
      var owned := OwnedLogs(s.modal.onConfirm.capturedLogData, uid);
      var order := Sorting.Filter(s.logOrder, KeepsId(owned));
      Sorting.FilterMembers(s.logOrder, KeepsId(owned));
      Sorting.FilterDistinct(s.logOrder, KeepsId(owned));
      var data := s.logData - owned;
      assert LogConsistent(data, order) by {
        forall i | 0 <= i < |order| ensures order[i] in data {
          assert order[i] in order;
        }
      }
    }
  }

  // ---------------------------------------------------------------------------
  // handleViewUserLogs

  /** The test of the per-user filter: the entry exists and belongs to `uid`. */
  function OwnedBy(logData: map<string, LogEntry>, uid: string): string -> bool {
    id => id in logData && logData[id].userId == uid
  }

  function UserLogOrder(logOrder: seq<string>, logData: map<string, LogEntry>, uid: string): seq<string> {
    Sorting.Filter(logOrder, OwnedBy(logData, uid))
  }

  /** The `reduce` that collects the entries of the listed ids. */
  function Collect(ids: seq<string>, logData: map<string, LogEntry>): (m: map<string, LogEntry>)
    ensures forall id :: id in m <==> id in ids && id in logData
    ensures forall id :: id in m ==> m[id] == logData[id]
  {
    if ids == [] then map[]
    else
      var last := ids[|ids| - 1];
      var m := Collect(ids[..|ids| - 1], logData);
      assert forall id :: id in ids <==> id in ids[..|ids| - 1] || id == last by {
        assert ids == ids[..|ids| - 1] + [last];
      }
      if last in logData then m[last := logData[last]] else m
  }

  function ViewLogsSpec(s: State, userToView: User): State {
    if userToView.role == RoleAdmin then Open(s, PrivacyTitle, Text(PrivacyText), NoAction)
    else
      var order := UserLogOrder(s.logOrder, s.logData, userToView.id);
      Open(s, LogsTitle(userToView.id), Logs(order, Collect(order, s.logData)), NoAction)
  }

  /**
   * Admin logs are never shown. For anyone else the dialog lists exactly
   * that user's entries, newest first as in the main list, with their data.
   */
  lemma ViewLogsEffect(s: State, userToView: User)
    ensures var r := ViewLogsSpec(s, userToView);
      && r == s.(modal := r.modal)
      && r.modal.isOpen
      && (userToView.role == RoleAdmin ==> r.modal == Modal(true, PrivacyTitle, Text(PrivacyText), NoAction))
      && (userToView.role != RoleAdmin ==>
            && r.modal.title == LogsTitle(userToView.id)
            && r.modal.body.Logs?
            && (forall id :: id in r.modal.body.logOrder <==>
                  id in s.logOrder && id in s.logData && s.logData[id].userId == userToView.id)
            && Sorting.Subsequence(r.modal.body.logOrder, s.logOrder)
            && (forall id :: id in r.modal.body.logData <==> id in r.modal.body.logOrder)
            && (forall id :: id in r.modal.body.logData ==> r.modal.body.logData[id] == s.logData[id]))
  {
    Sorting.FilterMembers(s.logOrder, OwnedBy(s.logData, userToView.id));
  }

  // ---------------------------------------------------------------------------
  // The reconciliation effect

  function ReconcileSpec(s: State): State {
    if s.currentUser.None? then s
    else
      var c := s.currentUser.value;
      if c.id in s.users then
        if s.users[c.id] != c then s.(currentUser := Some(s.users[c.id])) else s
      else LogoutSpec(s)
  }

  /**
   * Afterwards the session copy is the cached record of its id, or the
   * session has ended because that record is gone.
   */
  lemma ReconcileEffect(s: State)
    requires s.currentUser.Some?
    ensures var r := ReconcileSpec(s);
      var id := s.currentUser.value.id;
      && (id in s.users ==> r == s.(currentUser := Some(s.users[id])))
      && (id !in s.users ==> r.currentUser.None? && r.view == MainView && r.authError.None?)
      && r.users == s.users && r.db == s.db && r.logData == s.logData && r.logOrder == s.logOrder
  {
  }

  /** With records keyed by id, running the effect again changes nothing. */
  lemma ReconcileIdempotent(s: State)
    requires KeyedById(s.users)
    ensures ReconcileSpec(ReconcileSpec(s)) == ReconcileSpec(s)
  {
  }

  // ---------------------------------------------------------------------------
  // The component

  class Portal {
    var db: map<string, User>
    var users: map<string, User>
    var currentUser: Option<User>
    var authError: Option<string>
    var logData: map<string, LogEntry>
    var logOrder: seq<string>
    var isLoading: bool
    var view: View
    var modal: Modal

    function Snapshot(): State
      reads this
    {
      State(db, users, currentUser, authError, logData, logOrder, isLoading, view, modal)
    }

    constructor (table: map<string, User>)
      ensures Snapshot() == Initial(table)
    {
      db := table;
      users := table;
      currentUser := None;
      authError := None;
      logData := map[];
      logOrder := [];
      isLoading := false;
      view := MainView;
      modal := ClosedModal;
    }

    method OpenModal(title: string, body: ModalBody, action: ModalAction)
      modifies this
      ensures Snapshot() == Open(old(Snapshot()), title, body, action)
    {
      modal := Modal(true, title, body, action);
    }

    method CloseModal()
      modifies this
      ensures Snapshot() == CloseModalSpec(old(Snapshot()))
    {
      modal := modal.(isOpen := false);
    }

    /** `fetchUsers`: the cache becomes the server's table. */
    method FetchUsers()
      modifies this
      ensures Snapshot() == old(Snapshot()).(users := old(db))
    {
      users := db;
    }

    method UpdateUser(uid: string, updates: Patch)
      modifies this
      ensures Snapshot() == UpdateUserSpec(old(Snapshot()), uid, updates)
    {
      if updates.role.Some? && uid in users {
        users := users[uid := Merged(users[uid], updates)];
      }
      var h := Server.Put(db, uid, updates);
      Server.PutClosedForm(db, uid, updates);
      db := h.db;
      if Webhook.IsOk(h.reply.status) {
        users := users[uid := h.reply.user.value];
      } else {
        OpenModal(ErrorTitle, Text(UpdateFailedPrefix + h.reply.error.GetOr(UpdateFailedDefault)), NoAction);
        FetchUsers();
      }
    }

    method UpdateLog(id: string, status: LogStatus, error: Option<string>)
      modifies this
      ensures Snapshot() == UpdateLogSpec(old(Snapshot()), id, status, error)
    {
      if id in logData {
        var entry := logData[id];
        logData := logData[id := entry.(status := status, error := error)];
      }
    }

    /** The checks `handleSendMessage` makes before anything is logged. */
    method PassGate(bypass: bool, today: string) returns (admitted: bool, local: User)
      modifies this
      ensures var g := Gate(old(Snapshot()), bypass, today);
        && Snapshot() == g.state
        && (admitted <==> g.Admitted?)
        && (admitted ==> local == g.local)
    {
      if currentUser.None? || currentUser.value.id !in users {
        return false, User("", RoleUser, false, 0, 0, "", 0);
      }
      var user := users[currentUser.value.id];
      if user.isSuspended {
        OpenModal(SuspendedTitle, Text(SuspendedText), NoAction);
        return false, user;
      }
      if !bypass {
        if user.lastCountReset != today {
          user := user.(messageCount := 0, lastCountReset := today);
          UpdateUser(user.id, ResetPatch(today));
        }
        if user.messageCount >= user.dailyLimit {
          OpenModal(LimitTitle, Text(LimitText(user.dailyLimit)), NoAction);
          return false, user;
        }
      }
      return true, user;
    }

    /** The entry's final status and, for a delivered counted send, the increment from the local copy. */
    method Finish(tempId: string, local: User, bypass: bool, outcome: Webhook.Outcome) returns (ok: bool)
      modifies this
      ensures Sent(Snapshot(), ok) == Complete(old(Snapshot()), tempId, local, bypass, outcome)
    {
      match outcome {
        case Delivered =>
          UpdateLog(tempId, Success, None);
          if !bypass {
            UpdateUser(local.id, CountPatch(local.messageCount + 1));
          }
          isLoading := false;
          ok := true;
        case Failed(errorMessage) =>
          UpdateLog(tempId, Error, Some(errorMessage));
          isLoading := false;
          ok := false;
      }
    }

    method HandleSendMessage(url: string, message: string, bypass: bool, today: string,
                             tempId: string, timestamp: string, delivery: Webhook.Delivery)
      returns (ok: bool)
      modifies this
      ensures Sent(Snapshot(), ok) == SendSpec(old(Snapshot()), url, message, bypass, today, tempId, timestamp, delivery)
    {
      var start := Snapshot();
      var admitted, local := PassGate(bypass, today);
      if !admitted {
        return false;
      }
      var sender := start.currentUser.value.id;
      var gated := Snapshot();
      isLoading := true;
      logData := logData[tempId := LogEntry(tempId, sender, SendingText(message), Sending, timestamp, None)];
      logOrder := [tempId] + logOrder;
      assert Snapshot() == Enqueue(gated, sender, tempId, message, timestamp);
      var _, outcome := Webhook.SendMessage(url, message, delivery);
      ok := Finish(tempId, local, bypass, outcome);
    }

    method HandleLogin(uid: string, today: string)
      modifies this
      ensures Snapshot() == LoginSpec(old(Snapshot()), uid, today)
    {
      isLoading := true;
      authError := None;
      if uid in users {
        var user := users[uid];
        if user.lastCountReset != today {
          UpdateUser(uid, ResetPatch(today));
          var record := db;
          users := record;
          currentUser := if uid in record then Some(record[uid]) else None;
        } else {
          currentUser := Some(user);
        }
        view := MainView;
      } else {
        authError := Some(InvalidUidError);
      }
      isLoading := false;
    }

    method HandleLogout()
      modifies this
      ensures Snapshot() == LogoutSpec(old(Snapshot()))
    {
      currentUser := None;
      authError := None;
      view := MainView;
    }

    method HandleAddUser(uid: string, today: string)
      modifies this
      ensures Snapshot() == AddUserSpec(old(Snapshot()), uid, today)
    {
      if uid == "" {
        OpenModal(ErrorTitle, Text(EmptyIdError), NoAction);
        return;
      }
      if uid in users {
        OpenModal(ErrorTitle, Text(ExistsText(uid)), NoAction);
        return;
      }
      var h := Server.Post(db, Some(uid), today);
      db := h.db;
      if Webhook.IsOk(h.reply.status) {
        var newUser := h.reply.user.value;
        users := users[newUser.id := newUser];
      } else {
        OpenModal(ErrorTitle, Text(AddFailedPrefix + h.reply.error.GetOr(CreateFailedDefault)), NoAction);
      }
    }

    method HandleRemoveUser(uid: string)
      modifies this
      ensures Snapshot() == RemoveUserSpec(old(Snapshot()), uid)
    {
      OpenModal(ConfirmTitle, Text(ConfirmText(uid)), RemoveUserAction(uid, logData));
    }

    /** The dialog's confirm button. */
    method Confirm()
      modifies this
      ensures Snapshot() == ConfirmSpec(old(Snapshot()))
    {
      if !modal.isOpen || modal.onConfirm.NoAction? {
        return;
      }
      var uid := modal.onConfirm.uid;
      var captured := modal.onConfirm.capturedLogData;
      var h := Server.Delete(db, uid);
      db := h.db;
      if !Webhook.IsOk(h.reply.status) && h.reply.status != 204 {
        OpenModal(ErrorTitle, Text(RemoveFailedPrefix + h.reply.error.GetOr(DeleteFailedDefault)), NoAction);
        return;
      }
      users := users - {uid};
      var owned := OwnedLogs(captured, uid);
      var nextData := logData;
      var remaining := owned;
      while remaining != {}
        invariant remaining <= owned
        invariant nextData == logData - (owned - remaining)
        decreases |remaining|
      {
        var id :| id in remaining;
        nextData := nextData - {id};
        remaining := remaining - {id};
      }
      logData := nextData;
      logOrder := Sorting.Filter(logOrder, KeepsId(owned));
      CloseModal();
    }

    method HandleViewUserLogs(userToView: User)
      modifies this
      ensures Snapshot() == ViewLogsSpec(old(Snapshot()), userToView)
    {
      if userToView.role == RoleAdmin {
        OpenModal(PrivacyTitle, Text(PrivacyText), NoAction);
        return;
      }
      var userLogOrder := UserLogOrder(logOrder, logData, userToView.id);
      var userLogData := map[];
      for i := 0 to |userLogOrder|
        invariant userLogData == Collect(userLogOrder[..i], logData)
      {
        var id := userLogOrder[i];
        assert userLogOrder[..i + 1][..i] == userLogOrder[..i];
        if id in logData {
          userLogData := userLogData[id := logData[id]];
        }
      }
      assert userLogOrder[..|userLogOrder|] == userLogOrder;
      OpenModal(LogsTitle(userToView.id), Logs(userLogOrder, userLogData), NoAction);
    }

    /** The effect that runs after the cache or the session changes. */
    method Reconcile()
      modifies this
      ensures Snapshot() == ReconcileSpec(old(Snapshot()))
    {
      if currentUser.Some? {
        var c := currentUser.value;
        if c.id in users && users[c.id] != c {
          currentUser := Some(users[c.id]);
        }
        if c.id !in users {
          HandleLogout();
        }
      }
    }
  }
}
