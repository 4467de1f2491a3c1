/** The moderation menu on each row of the institutions table. Each tab
    lists the institutions in one status and offers a fixed set of target
    statuses; choosing one sends a status-change request for that row. */
module ActionColumns {
  import opened Wrappers
  import opened Types
  import AuthStore

  /** The institutions page's tabs: registered, pending and suspended. */
  datatype Tab = Registered | PendingTab | SuspendedTab

  /** The status whose accounts a tab lists, which is also the current
      status of every row the tab's menu is shown on. */
  function ListedStatus(tab: Tab): (status: AccountStatus)
    ensures status != BANNED && status != INACTIVE
  {
    match tab
    case Registered => ACTIVE
    case PendingTab => PENDING
    case SuspendedTab => SUSPENDED
  }

  /** The menu's buttons, as the target status each one requests, in
      menu order: `activeActions`, `pendingActions`, `suspendedActions`. */
  function Targets(tab: Tab): (targets: seq<AccountStatus>)
    ensures forall i :: 0 <= i < |targets| ==> targets[i] != ListedStatus(tab) && targets[i] != INACTIVE
    ensures forall i, j :: 0 <= i < j < |targets| ==> targets[i] != targets[j]
  {
    match tab
    case Registered => [SUSPENDED, BANNED, PENDING]
    case PendingTab => [ACTIVE, SUSPENDED]
    case SuspendedTab => [ACTIVE, BANNED]
  }

  /** The moderation policy: the statuses an account in a given status
      may be moved to from this interface. */
  function AllowedTargets(current: AccountStatus): set<AccountStatus>
  {
    match current
    case ACTIVE => {SUSPENDED, PENDING, BANNED}
    case PENDING => {ACTIVE, SUSPENDED}
    case SUSPENDED => {ACTIVE, BANNED}
    case BANNED => {}
    case INACTIVE => {}
  }

  /** The record `handleChangeStatus` hands to the update mutation. */
  datatype StatusRequest = StatusRequest(token: AuthStore.Token, accountId: int, status: AccountStatus)

  /** Pressing button `button` of the menu on `row`, with the store's token
      read as the cell renders. Every button is disabled while the row's
      update is in flight, and a press then sends nothing. */
  function Press(tab: Tab, button: nat, isPending: bool, store: AuthStore.Store, row: Account): (r: Option<StatusRequest>)
    reads store
    ensures r.Some? <==> !isPending && button < |Targets(tab)|
    ensures r.Some? ==> r.value.accountId == row.id && r.value.token == store.token
    ensures r.Some? ==> r.value.status == Targets(tab)[button]
  {
    if isPending || button >= |Targets(tab)| then None
    else Some(StatusRequest(store.token, row.id, Targets(tab)[button]))
  }

  /** Each tab's buttons are exactly the policy's targets for the status it
      lists; so no tab offers its own status and none offers INACTIVE. */
  lemma TargetsArePolicy(tab: Tab)
    ensures forall s :: s in Targets(tab) <==> s in AllowedTargets(ListedStatus(tab))
    ensures ListedStatus(tab) !in Targets(tab)
    ensures INACTIVE !in Targets(tab)
  {
  }

  /** Whatever a moderator presses on a tab, the request carries the row's
      own id, the store's token, and a status the policy allows for the
      row's current status. */
  lemma PressRespectsPolicy(tab: Tab, button: nat, isPending: bool, store: AuthStore.Store, row: Account)
    requires row.status == ListedStatus(tab)
    ensures var r := Press(tab, button, isPending, store, row);
      r.Some? ==>
        r.value.status in AllowedTargets(row.status) &&
        r.value.status != row.status &&
        r.value.accountId == row.id &&
        r.value.token == store.token
  {
  }

  /** Conversely every allowed target has a button that requests it when
      nothing is pending. */
  lemma EveryAllowedTargetOffered(tab: Tab, s: AccountStatus, store: AuthStore.Store, row: Account)
    requires s in AllowedTargets(ListedStatus(tab))
    ensures exists b: nat :: Press(tab, b, false, store, row) == Some(StatusRequest(store.token, row.id, s))
  {
    TargetsArePolicy(tab);
    var b :| 0 <= b < |Targets(tab)| && Targets(tab)[b] == s;
    assert Press(tab, b, false, store, row) == Some(StatusRequest(store.token, row.id, s));
  }
}
