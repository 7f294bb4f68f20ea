/**
 * app/admin/index.tsx: the admin dashboard. It holds the user list and the
 * `loading`, `refreshing` and `error` flags; `fetchUsers` loads the list
 * (the database's answer is an input, already in its `created_at` order),
 * `onRefresh` raises `refreshing` and starts a fetch, and the screen shows
 * the total, the number of active subscriptions and one card per user.
 */
module AdminDashboard {
  import opened Wrappers
  import opened AdminUser

  /** `users.filter(u => u.subscription_status === 'active')`. */
  function ActiveUsers(users: seq<UserRow>): (r: seq<UserRow>)
    ensures |r| <= |users|
    ensures forall u :: u in r <==> u in users && IsActive(u)
  {
    if users == [] then []
    else (if IsActive(users[0]) then [users[0]] else []) + ActiveUsers(users[1..])
  }

  /** The "Active Subscriptions" figure. */
  function ActiveCount(users: seq<UserRow>): nat
  {
    |ActiveUsers(users)|
  }

  /** Counting distributes over a split of the list. */
  lemma {:induction false} ActiveCountAppend(a: seq<UserRow>, b: seq<UserRow>)
    ensures ActiveCount(a + b) == ActiveCount(a) + ActiveCount(b)
  {
    if a == [] {
      assert a + b == b;
    } else {
      assert (a + b)[1..] == a[1..] + b;
      ActiveCountAppend(a[1..], b);
    }
  }

  /**
   * The active figure never exceeds the total; it equals the total exactly
   * when every user is active and is zero exactly when none is.
   */
  lemma {:induction false} ActiveCountBounds(users: seq<UserRow>)
    ensures ActiveCount(users) <= |users|
    ensures ActiveCount(users) == |users| <==> forall i :: 0 <= i < |users| ==> IsActive(users[i])
    ensures ActiveCount(users) == 0 <==> forall i :: 0 <= i < |users| ==> !IsActive(users[i])
  {
    if users != [] {
      ActiveCountBounds(users[1..]);
      assert forall i :: 1 <= i < |users| ==> users[i] == users[1..][i - 1];
      assert forall i :: 0 <= i < |users[1..]| ==> users[1..][i] == users[i + 1];
    }
  }

  /** Adding one user raises the active figure by one exactly when that user is active. */
  lemma ActiveCountSnoc(users: seq<UserRow>, u: UserRow)
    ensures ActiveCount(users + [u]) == ActiveCount(users) + (if IsActive(u) then 1 else 0)
  {
    ActiveCountAppend(users, [u]);
    assert [u][1..] == [];
  }

  /** What one user card shows: e-mail, status with its badge style, and the end date or `N/A`. */
  datatype UserCard = UserCard(email: string, status: string, badge: BadgeStyle, endsText: string)

  function Card(row: UserRow): (c: UserCard)
    ensures c.badge == ActiveBadge <==> row.subscriptionStatus == "active"
    ensures row.subscriptionEndDate.None? ==> c.endsText == "N/A"
    ensures row.subscriptionEndDate.Some? && row.subscriptionEndDate.value != "" ==> c.endsText == row.subscriptionEndDate.value
  {
    UserCard(row.email, row.subscriptionStatus, Badge(row), EndDateText(row, "N/A"))
  }

  /** What the screen renders, less its layout. */
  datatype DashboardView = LoadingView | ErrorView(text: string) | ListView(total: nat, active: nat, refreshing: bool)

  function View(loading: bool, error: string, refreshing: bool, users: seq<UserRow>): DashboardView
  {
    if loading then LoadingView
    else if error != "" then ErrorView(error)
    else ListView(|users|, ActiveCount(users), refreshing)
  }

  class Dashboard {
    var users: seq<UserRow>
    var loading: bool
    var refreshing: bool
    var error: string

    /** The first render: no users, loading, not refreshing, no error. */
    constructor ()
      ensures users == [] && loading && !refreshing && error == ""
    {
      users := [];
      loading := true;
      refreshing := false;
      error := "";
    }

    function Screen(): DashboardView
      reads this
    {
      View(loading, error, refreshing, users)
    }

    /**
     * `fetchUsers` once the database answers (on mount, after a pull to
     * refresh, and from the Retry button): the data, or an empty list when
     * there is none, replaces the users and leaves `error` as it was; a
     * failure keeps the users and records its message. Either way both
     * `loading` and `refreshing` end.
     */
    method FetchUsers(result: FetchResult<Option<seq<UserRow>>>)
      modifies this
      ensures !loading && !refreshing
      ensures result.Fetched? && result.data.Some? ==> users == result.data.value && error == old(error)
      ensures result.Fetched? && result.data.None? ==> users == [] && error == old(error)
      ensures result.FetchFailed? ==> users == old(users) && error == ErrorText(result.failure, "Failed to fetch users")
      ensures old(error) != "" && result.Fetched? ==> Screen() == ErrorView(old(error))
    {
      match result {
        case Fetched(data) =>
          users := if data.Some? then data.value else [];
        case FetchFailed(f) =>
          error := ErrorText(f, "Failed to fetch users");
      }
      loading := false;
      refreshing := false;
    }

    /** `onRefresh`: raises `refreshing` and starts a fetch, whose answer is `FetchUsers`. */
    method OnRefresh()
      modifies this
      ensures refreshing
      ensures users == old(users) && loading == old(loading) && error == old(error)
    {
      refreshing := true;
    }
  }

  /** A pull to refresh shows the spinner until the fetch answers, then hides it. */
  method RefreshCycle(d: Dashboard, result: FetchResult<Option<seq<UserRow>>>) returns (during: bool, after: bool)
    modifies d
    ensures during && !after
  {
    d.OnRefresh();
    during := d.refreshing;
    d.FetchUsers(result);
    after := d.refreshing;
  }

  /** A failed load followed by a Retry that succeeds still shows the first error, not the list. */
  method FailThenRetry(message: string, data: seq<UserRow>) returns (v: DashboardView)
    requires message != ""
    ensures v == ErrorView(message)
  {
    var d := new Dashboard();
    d.FetchUsers(FetchFailed(ErrorWithMessage(message)));
    d.FetchUsers(Fetched(Some(data)));
    v := d.Screen();
  }

  /** Once loaded without error, the figures shown are the list's length and its active count. */
  lemma ListFigures(refreshing: bool, users: seq<UserRow>)
    ensures View(false, "", refreshing, users) == ListView(|users|, ActiveCount(users), refreshing)
    ensures View(false, "", refreshing, users).active <= View(false, "", refreshing, users).total
  {
    ActiveCountBounds(users);
  }
}
