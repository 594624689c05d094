/**
 * The administrator panel's rules: the pending balance inputs and the balance
 * adjustment they drive, the order of the user table, the split of user
 * requests into pending and resolved, the notification form and the row
 * controls an administrator may not use on their own account.
 */
module AdminPanel {

  import opened Types
  import Strings
  import Sorting

  predicate IsAdmin(u: User) {
    u.role == RoleAdmin
  }

  // ---------------------------------------------------------------------------
  // The user table order

  /**
   * The table comparator read as "may come first": an admin before a
   * non-admin, otherwise by id.
   */
  predicate UserBefore(a: User, b: User) {
    if IsAdmin(a) && !IsAdmin(b) then true
    else if !IsAdmin(a) && IsAdmin(b) then false
    else Strings.LexLe(a.id, b.id)
  }

  lemma UserBeforeIsTotalPreorder()
    ensures Sorting.TotalPreorder(UserBefore)
  {
    forall a: User, b: User ensures UserBefore(a, b) || UserBefore(b, a) {
      Strings.LexLeTotal(a.id, b.id);
    }
    forall a: User, b: User, c: User | UserBefore(a, b) && UserBefore(b, c) ensures UserBefore(a, c) {
      if IsAdmin(a) == IsAdmin(b) && IsAdmin(b) == IsAdmin(c) {
        Strings.LexLeTransitive(a.id, b.id, c.id);
      }
    }
  }

  /** `sortedUsers`: a sorted copy of the list handed to the panel. */
  function SortedUsers(users: seq<User>): seq<User> {
    Sorting.Sort(users, UserBefore)
  }

  /** The table shows every user once, admins first, each group by ascending id. */
  lemma SortedUsersOrder(users: seq<User>)
    ensures multiset(SortedUsers(users)) == multiset(users)
    ensures |SortedUsers(users)| == |users|
    ensures forall i, j :: 0 <= i < j < |SortedUsers(users)| && IsAdmin(SortedUsers(users)[j])
              ==> IsAdmin(SortedUsers(users)[i])
    ensures forall i, j :: 0 <= i < j < |SortedUsers(users)|
              && IsAdmin(SortedUsers(users)[i]) == IsAdmin(SortedUsers(users)[j])
              ==> Strings.LexLe(SortedUsers(users)[i].id, SortedUsers(users)[j].id)
  {
    UserBeforeIsTotalPreorder();
    Sorting.SortCorrect(users, UserBefore);
    var r := SortedUsers(users);
    forall i, j | 0 <= i < j < |r| ensures UserBefore(r[i], r[j]) {
    }
  }

  // ---------------------------------------------------------------------------
  // Pending and resolved requests

  predicate IsPending(r: UserRequest) {
    r.status == Pending
  }

  predicate IsResolved(r: UserRequest) {
    r.status != Pending
  }

  function PendingRequests(requests: seq<UserRequest>): seq<UserRequest> {
    Sorting.Filter(requests, IsPending)
  }

  function ResolvedRequests(requests: seq<UserRequest>): seq<UserRequest> {
    Sorting.Filter(requests, IsResolved)
  }

  /**
   * Every request lands in exactly one of the two lists, and each list keeps
   * the order of the requests it holds.
   */
  lemma RequestsPartition(requests: seq<UserRequest>)
    ensures multiset(PendingRequests(requests)) + multiset(ResolvedRequests(requests)) == multiset(requests)
    ensures |PendingRequests(requests)| + |ResolvedRequests(requests)| == |requests|
    ensures forall r :: r in PendingRequests(requests) <==> r in requests && r.status == Pending
    ensures forall r :: r in ResolvedRequests(requests) <==> r in requests && r.status != Pending
    ensures Sorting.Subsequence(PendingRequests(requests), requests)
    ensures Sorting.Subsequence(ResolvedRequests(requests), requests)
  {
    Sorting.FilterPartition(requests, IsPending, IsResolved);
    Sorting.FilterMembers(requests, IsPending);
    Sorting.FilterMembers(requests, IsResolved);
  }

  // ---------------------------------------------------------------------------
  // Balance adjustment

  /** The position of the first user with that id, or `|users|` when there is none. */
  function FindIndex(users: seq<User>, uid: string): (k: nat)
    ensures k <= |users|
    ensures forall i :: 0 <= i < k ==> users[i].id != uid
    ensures k < |users| ==> users[k].id == uid
  {
    if users == [] then 0
    else if users[0].id == uid then 0
    else
      var k := FindIndex(users[1..], uid);
      assert forall i :: 1 <= i < k + 1 ==> users[i] == users[1..][i - 1];
      k + 1
  }

  /** `users.find(u => u.id === uid)`: the first user with that id. */
  function Find(users: seq<User>, uid: string): (r: Option<User>)
    ensures r.None? <==> forall i :: 0 <= i < |users| ==> users[i].id != uid
    ensures r.Some? ==> r.value.id == uid && r.value == users[FindIndex(users, uid)]
  {
    var k := FindIndex(users, uid);
    if k < |users| then Some(users[k]) else None
  }

  /** `balanceChanges[uid]`, with `""` for a user that has no pending input. */
  function PendingInput(balanceChanges: map<string, string>, uid: string): string {
    if uid in balanceChanges then balanceChanges[uid] else ""
  }

  /** Every pending amount is a string of digits (possibly empty). */
  predicate DigitsOnly(balanceChanges: map<string, string>) {
    forall uid :: uid in balanceChanges ==> Strings.AllDigits(balanceChanges[uid])
  }

  function Max0(n: int): (m: int)
    ensures m >= 0 && m >= n && (m == n || m == 0)
  {
    if n < 0 then 0 else n
  }

  /** The patch sent for a balance adjustment: only `aocBalance` changes. */
  function BalancePatch(balance: int): Patch {
    NoChange.(aocBalance := Some(balance))
  }

  /**
   * The `onUpdateUser` call `handleModifyBalance` makes, if any: nothing for an
   * unknown user, an empty input or an amount that is not a positive number.
   */
  function ModifyBalanceCall(users: seq<User>, balanceChanges: map<string, string>, uid: string, isAdding: bool)
    : Option<(string, Patch)>
  {
    var user := Find(users, uid);
    var amountStr := PendingInput(balanceChanges, uid);
    if user.None? || amountStr == "" then None
    else
      var amount := Strings.ParseInt(amountStr);
      if amount.None? || amount.value <= 0 then None
      else
        var newBalance := if isAdding then user.value.aocBalance + amount.value
                          else user.value.aocBalance - amount.value;
        Some((uid, BalancePatch(Max0(newBalance))))
  }

  /**
   * The adjustment is refused exactly in the three cases; otherwise it moves
   * the balance of the first user with that id by the amount, never below 0.
   */
  lemma ModifyBalanceEffect(users: seq<User>, balanceChanges: map<string, string>, uid: string, isAdding: bool)
    ensures var c := ModifyBalanceCall(users, balanceChanges, uid, isAdding);
      && (c.None? <==>
            || (forall i :: 0 <= i < |users| ==> users[i].id != uid)
            || PendingInput(balanceChanges, uid) == ""
            || Strings.ParseInt(PendingInput(balanceChanges, uid)).None?
            || Strings.ParseInt(PendingInput(balanceChanges, uid)).value <= 0)
      && (c.Some? ==>
            var balance := Find(users, uid).value.aocBalance;
            var amount := Strings.ParseInt(PendingInput(balanceChanges, uid)).value;
            && c.value.0 == uid
            && c.value.1 == NoChange.(aocBalance := c.value.1.aocBalance)
            && c.value.1.aocBalance.Some?
            && c.value.1.aocBalance.value >= 0
            && (isAdding ==> c.value.1.aocBalance.value == Max0(balance + amount))
            && (isAdding && balance >= 0 ==> c.value.1.aocBalance.value == balance + amount)
            && (!isAdding ==> c.value.1.aocBalance.value == Max0(balance - amount))
            && (!isAdding && amount <= balance ==> c.value.1.aocBalance.value == balance - amount))
  {
  }

  /** For a digits-only input the amount is the decimal value of the input. */
  lemma DigitsAmount(balanceChanges: map<string, string>, uid: string)
    requires DigitsOnly(balanceChanges)
    requires PendingInput(balanceChanges, uid) != ""
    ensures Strings.ParseInt(PendingInput(balanceChanges, uid))
         == Some(Strings.DigitsValue(PendingInput(balanceChanges, uid)) as int)
  {
    Strings.ParseIntOfDigits(PendingInput(balanceChanges, uid));
  }

  /**
   * The disabled state of the `+` and `-` buttons. `parseInt` of a string
   * with no digits is `NaN`, and `NaN <= 0` is false, so such an input leaves
   * the buttons enabled.
   */
  predicate AdjustDisabled(balanceChanges: map<string, string>, uid: string) {
    var input := PendingInput(balanceChanges, uid);
    input == "" ||
      var n := Strings.ParseInt(input);
      n.Some? && n.value <= 0
  }

  /**
   * With digits-only inputs, an enabled button for a listed user always leads
   * to an update, and a disabled one never would.
   */
  lemma EnabledButtonAdjusts(users: seq<User>, balanceChanges: map<string, string>, uid: string, isAdding: bool)
    requires DigitsOnly(balanceChanges)
    requires exists i :: 0 <= i < |users| && users[i].id == uid
    ensures !AdjustDisabled(balanceChanges, uid) <==> ModifyBalanceCall(users, balanceChanges, uid, isAdding).Some?
  {
    if PendingInput(balanceChanges, uid) != "" {
      DigitsAmount(balanceChanges, uid);
    }
  }

  // ---------------------------------------------------------------------------
  // Notification form

  /** The `onSendNotification` call: none for an empty message; an empty target is a broadcast. */
  function NotificationCall(message: string, targetId: string): (r: Option<(string, Option<string>)>)
    ensures r.None? <==> message == ""
    ensures r.Some? ==> r.value.0 == message
    ensures r.Some? ==> (r.value.1.None? <==> targetId == "")
    ensures r.Some? && r.value.1.Some? ==> r.value.1.value == targetId
  {
    if message == "" then None
    else Some((message, if targetId != "" then Some(targetId) else None))
  }

  // ---------------------------------------------------------------------------
  // Row controls

  /** What an administrator can do on one row of the user table. */
  datatype RowEvent =
    | ChooseRole(role: UserRole)
    | ToggleSuspended(checked: bool)
    | EditLimit(text: string)
    | ViewLogs
    | Remove

  /** The parent callback a row control invokes. */
  datatype Callback =
    | UpdateUser(uid: string, updates: Patch)
    | ViewUserLogs(user: User)
    | RemoveUser(uid: string)

  /** The control's `disabled` attribute. */
  predicate RowControlDisabled(current: User, row: User, e: RowEvent) {
    match e
    case ChooseRole(_) => row.id == current.id
    case ToggleSuspended(_) => row.id == current.id
    case EditLimit(_) => IsAdmin(row)
    case ViewLogs => IsAdmin(row)
    case Remove => row.id == current.id
  }

  /** The callback an event on an enabled control makes; a disabled control makes none. */
  function RowCall(current: User, row: User, e: RowEvent): (r: Option<Callback>)
    ensures r.None? <==> RowControlDisabled(current, row, e)
  {
    if RowControlDisabled(current, row, e) then None
    else match e
      case ChooseRole(role) => Some(UpdateUser(row.id, NoChange.(role := Some(role))))
      case ToggleSuspended(checked) => Some(UpdateUser(row.id, NoChange.(isSuspended := Some(checked))))
      // `parseInt(value, 10) || 0`: NaN and 0 both give 0
      case EditLimit(text) => Some(UpdateUser(row.id, NoChange.(dailyLimit := Some(Strings.ParseInt(text).GetOr(0)))))
      case ViewLogs => Some(ViewUserLogs(row))
      case Remove => Some(RemoveUser(row.id))
  }

  /**
   * No control on the acting administrator's own row changes their role or
   * suspension or removes them; every callback a row makes is about that row.
   */
  lemma NoSelfHarm(current: User, row: User, e: RowEvent)
    ensures var r := RowCall(current, row, e);
      && (r.Some? && r.value.UpdateUser? ==> r.value.uid == row.id)
      && (r.Some? && r.value.RemoveUser? ==> r.value.uid == row.id && row.id != current.id)
      && (r.Some? && r.value.UpdateUser? && (r.value.updates.role.Some? || r.value.updates.isSuspended.Some?) ==>
            row.id != current.id)
      && (r.Some? && r.value.UpdateUser? ==> r.value.updates.aocBalance.None?)
  {
  }

  /** A typed daily limit is sent as its value, anything unreadable as 0; admin rows have no limit control. */
  lemma EditLimitValue(current: User, row: User, text: string)
    ensures IsAdmin(row) ==> RowCall(current, row, EditLimit(text)).None?
    ensures !IsAdmin(row) && Strings.AllDigits(text) && text != [] ==>
      RowCall(current, row, EditLimit(text))
        == Some(UpdateUser(row.id, NoChange.(dailyLimit := Some(Strings.DigitsValue(text) as int))))
    ensures !IsAdmin(row) && Strings.ParseInt(text).None? ==>
      RowCall(current, row, EditLimit(text)) == Some(UpdateUser(row.id, NoChange.(dailyLimit := Some(0))))
  {
    if Strings.AllDigits(text) && text != [] {
      Strings.ParseIntOfDigits(text);
    }
  }

  // ---------------------------------------------------------------------------
  // The panel's own state

  class Panel {
    var newUserId: string
    var notificationMessage: string
    var notificationTargetId: string
    var balanceChanges: map<string, string>

    constructor ()
      ensures newUserId == "" && notificationMessage == "" && notificationTargetId == ""
      ensures balanceChanges == map[]
    {
      newUserId := "";
      notificationMessage := "";
      notificationTargetId := "";
      balanceChanges := map[];
    }

    predicate Valid()
      reads this
    {
      DigitsOnly(balanceChanges)
    }

    /** `handleAddUserSubmit`: hands the typed id to the parent and clears the field. */
    method HandleAddUserSubmit() returns (uid: string)
      modifies this
      ensures uid == old(newUserId) && newUserId == ""
      ensures notificationMessage == old(notificationMessage)
      ensures notificationTargetId == old(notificationTargetId)
      ensures balanceChanges == old(balanceChanges)
    {
      uid := newUserId;
      newUserId := "";
    }

    /** `handleSendNotification`: the call made, and both fields cleared after it. */
    method HandleSendNotification() returns (call: Option<(string, Option<string>)>)
      modifies this
      ensures call == NotificationCall(old(notificationMessage), old(notificationTargetId))
      ensures call.None? ==>
        notificationMessage == old(notificationMessage) && notificationTargetId == old(notificationTargetId)
      ensures call.Some? ==> notificationMessage == "" && notificationTargetId == ""
      ensures newUserId == old(newUserId) && balanceChanges == old(balanceChanges)
    {
      if notificationMessage == "" {
        return None;
      }
      var target := if notificationTargetId != "" then Some(notificationTargetId) else None;
      call := Some((notificationMessage, target));
      notificationMessage := "";
      notificationTargetId := "";
    }

    /** `handleBalanceChange`: the input is kept only when it is all digits. */
    method HandleBalanceChange(uid: string, value: string)
      requires Valid()
      modifies this
      ensures Valid()
      ensures balanceChanges == if Strings.AllDigits(value) then old(balanceChanges)[uid := value]
                                else old(balanceChanges)
      ensures newUserId == old(newUserId)
      ensures notificationMessage == old(notificationMessage)
      ensures notificationTargetId == old(notificationTargetId)
    {
      if Strings.AllDigits(value) {
        balanceChanges := balanceChanges[uid := value];
      }
    }

    /**
     * `handleModifyBalance`: the update it asks for, after which only that
     * user's pending input is emptied.
     */
    method HandleModifyBalance(users: seq<User>, uid: string, isAdding: bool)
      returns (call: Option<(string, Patch)>)
      requires Valid()
      modifies this
      ensures Valid()
      ensures call == ModifyBalanceCall(users, old(balanceChanges), uid, isAdding)
      ensures balanceChanges == if call.Some? then old(balanceChanges)[uid := ""] else old(balanceChanges)
      ensures newUserId == old(newUserId)
      ensures notificationMessage == old(notificationMessage)
      ensures notificationTargetId == old(notificationTargetId)
    {
      var user := Find(users, uid);
      var amountStr := PendingInput(balanceChanges, uid);
      if user.None? || amountStr == "" {
        return None;
      }
      var amount := Strings.ParseInt(amountStr);
      if amount.None? || amount.value <= 0 {
        return None;
      }
      var newBalance := if isAdding then user.value.aocBalance + amount.value
                        else user.value.aocBalance - amount.value;
      call := Some((uid, BalancePatch(Max0(newBalance))));
      balanceChanges := balanceChanges[uid := ""];
    }
  }

  /** Clearing one input after an adjustment leaves every other user's input as it was. */
  lemma ClearingTouchesOnlyThatUser(balanceChanges: map<string, string>, uid: string, other: string)
    requires other != uid
    ensures PendingInput(balanceChanges[uid := ""], other) == PendingInput(balanceChanges, other)
    ensures PendingInput(balanceChanges[uid := ""], uid) == ""
  {
  }
}
