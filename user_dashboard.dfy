/**
 * The user dashboard's rules: the fixed table of daily-limit purchases and
 * when a purchase is offered, the request form, and the newest-first order
 * of notifications and requests.
 */
module UserDashboard {

  import opened Types
  import Strings
  import Sorting

  /** `amount` more messages per day for `cost` credits. */
  datatype PurchaseOption = PurchaseOption(amount: nat, cost: nat)

  const LimitPurchaseOptions: seq<PurchaseOption> := [PurchaseOption(50, 20), PurchaseOption(300, 100)]

  /** A purchase button is disabled when the balance does not cover the cost, and always for admins. */
  predicate PurchaseDisabled(user: User, option: PurchaseOption) {
    user.aocBalance < option.cost || user.role == RoleAdmin
  }

  /** The `onPurchaseLimit(cost, amount)` call a click on the option's button makes. */
  function ChoosePurchase(user: User, option: PurchaseOption): (r: Option<(nat, nat)>)
    ensures r.None? <==> PurchaseDisabled(user, option)
    ensures r.Some? ==> r.value == (option.cost, option.amount)
  {
    if PurchaseDisabled(user, option) then None else Some((option.cost, option.amount))
  }

  /** The purchases a user is offered: which of the two options are enabled at which balance. */
  lemma OffersByBalance(user: User)
    ensures user.role == RoleAdmin ==>
      forall i :: 0 <= i < |LimitPurchaseOptions| ==> ChoosePurchase(user, LimitPurchaseOptions[i]).None?
    ensures user.role == RoleUser && user.aocBalance < 20 ==>
      forall i :: 0 <= i < |LimitPurchaseOptions| ==> ChoosePurchase(user, LimitPurchaseOptions[i]).None?
    ensures user.role == RoleUser && 20 <= user.aocBalance < 100 ==>
      ChoosePurchase(user, LimitPurchaseOptions[0]) == Some((20, 50))
      && ChoosePurchase(user, LimitPurchaseOptions[1]).None?
    ensures user.role == RoleUser && 100 <= user.aocBalance ==>
      ChoosePurchase(user, LimitPurchaseOptions[0]) == Some((20, 50))
      && ChoosePurchase(user, LimitPurchaseOptions[1]) == Some((100, 300))
  {
  }

  /** The request to send for the typed text: none when it is only whitespace, else the text as typed. */
  function RequestToSend(requestMessage: string): (r: Option<string>)
    ensures r.None? <==> Strings.Blank(requestMessage)
    ensures r.Some? ==> r.value == requestMessage
  {
    Strings.TrimEmptyIffBlank(requestMessage);
    if Strings.Trim(requestMessage) == "" then None else Some(requestMessage)
  }

  class Dashboard {
    var requestMessage: string

    constructor ()
      ensures requestMessage == ""
    {
      requestMessage := "";
    }

    /** `handleSendRequestSubmit`: a request is sent and the field cleared, or nothing happens. */
    method HandleSendRequestSubmit() returns (sent: Option<string>)
      modifies this
      ensures sent == RequestToSend(old(requestMessage))
      ensures requestMessage == if sent.Some? then "" else old(requestMessage)
    {
      if Strings.Trim(requestMessage) == "" {
        return None;
      }
      sent := Some(requestMessage);
      requestMessage := "";
    }
  }

  /**
   * The comparators `b.timestamp - a.timestamp`, read as "may come first":
   * the later (or equal) timestamp first.
   */
  predicate NotificationNewer(a: AppNotification, b: AppNotification) {
    b.timestamp - a.timestamp <= 0
  }

  predicate RequestNewer(a: UserRequest, b: UserRequest) {
    b.timestamp - a.timestamp <= 0
  }

  function SortedNotifications(notifications: seq<AppNotification>): seq<AppNotification> {
    Sorting.Sort(notifications, NotificationNewer)
  }

  function SortedRequests(requests: seq<UserRequest>): seq<UserRequest> {
    Sorting.Sort(requests, RequestNewer)
  }

  /** Notifications are shown all of them, newest first. */
  lemma SortedNotificationsNewestFirst(notifications: seq<AppNotification>)
    ensures multiset(SortedNotifications(notifications)) == multiset(notifications)
    ensures |SortedNotifications(notifications)| == |notifications|
    ensures forall i, j :: 0 <= i < j < |SortedNotifications(notifications)| ==>
      SortedNotifications(notifications)[i].timestamp >= SortedNotifications(notifications)[j].timestamp
  {
    Sorting.SortCorrect(notifications, NotificationNewer);
    var r := SortedNotifications(notifications);
    forall i, j | 0 <= i < j < |r| ensures r[i].timestamp >= r[j].timestamp {
      assert NotificationNewer(r[i], r[j]);
    }
  }

  /** Requests are shown all of them, newest first. */
  lemma SortedRequestsNewestFirst(requests: seq<UserRequest>)
    ensures multiset(SortedRequests(requests)) == multiset(requests)
    ensures |SortedRequests(requests)| == |requests|
    ensures forall i, j :: 0 <= i < j < |SortedRequests(requests)| ==>
      SortedRequests(requests)[i].timestamp >= SortedRequests(requests)[j].timestamp
  {
    Sorting.SortCorrect(requests, RequestNewer);
    var r := SortedRequests(requests);
    forall i, j | 0 <= i < j < |r| ensures r[i].timestamp >= r[j].timestamp {
      assert RequestNewer(r[i], r[j]);
    }
  }
}
