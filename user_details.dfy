/**
 * app/admin/user-details.tsx: one user's subscription record. The screen
 * holds `user`, `loading` and `error`; `fetchUserDetails` loads the row,
 * `extendSubscription(months)` sets the status to `active` and moves the end
 * date `months` calendar months past its base, `cancelSubscription` sets the
 * status to `cancelled`. The database's answers are inputs; the clock is the
 * `today` parameter.
 */
module UserDetails {
  import opened Wrappers
  import opened Calendar
  import opened DateText
  import opened AdminUser

  /** The fields an update writes: the status, and the end date when it writes one. */
  datatype SubscriptionUpdate = SubscriptionUpdate(status: string, endDate: Option<Date>)

  /** An `Alert.alert(title, message)`. */
  datatype Alert = Alert(title: string, message: string)

  const CancelUpdate: SubscriptionUpdate := SubscriptionUpdate("cancelled", None)

  /** The months the three extend buttons pass. */
  const ExtendChoices: seq<int> := [1, 3, 6]

  /**
   * The date an extension counts from: the stored end date when the row has
   * a non-empty one (None when it is not a date, an Invalid Date), otherwise
   * today.
   */
  function ExtensionBase(user: Option<UserRow>, today: Date): Option<Date>
  {
    if user.Some? && user.value.subscriptionEndDate.Some? && user.value.subscriptionEndDate.value != ""
    then StoredDate(user.value.subscriptionEndDate.value)
    else Some(today)
  }

  /** The payload `extendSubscription(months)` sends, when its base is a date. */
  function ExtendUpdate(user: Option<UserRow>, today: Date, months: int): (u: Option<SubscriptionUpdate>)
    requires IsValidDate(today)
    ensures u.Some? ==> u.value.endDate.Some? && IsValidDate(u.value.endDate.value)
  {
    match ExtensionBase(user, today)
    case Some(base) =>
      AddMonthsTarget(base, months);
      Some(SubscriptionUpdate("active", Some(AddMonths(base, months))))
    case None => None
  }

  /** The text `toISOString` stores for a date: its `full-date`, a `T`, then a time part. */
  function IsoText(d: Date, timePart: string): (s: string)
    requires IsValidDate(d) && 0 <= d.year <= 9999
    ensures StoredDate(s) == Some(d)
  {
    StoredDateRoundTrip(d, timePart);
    FormatFullDate(d) + "T" + timePart
  }

  /** The row as the database holds it after an update succeeds. */
  function ApplyUpdate(row: UserRow, u: SubscriptionUpdate, timePart: string): (r: UserRow)
    requires u.endDate.Some? ==> IsValidDate(u.endDate.value) && 0 <= u.endDate.value.year <= 9999
  {
    row.(subscriptionStatus := u.status,
         subscriptionEndDate := if u.endDate.Some? then Some(IsoText(u.endDate.value, timePart)) else row.subscriptionEndDate)
  }

  /**
   * An extension sets the status to `active` and moves the end date to
   * `months` calendar months after the base: the stored end date when the
   * row has one, whatever today is, and today otherwise.
   */
  lemma ExtendSpec(row: UserRow, today: Date, months: int)
    requires IsValidDate(today)
    ensures row.subscriptionEndDate.None? || row.subscriptionEndDate == Some("") ==>
      ExtendUpdate(Some(row), today, months) == Some(SubscriptionUpdate("active", Some(AddMonths(today, months))))
    ensures forall d :: row.subscriptionEndDate.Some? && StoredDate(row.subscriptionEndDate.value) == Some(d) ==>
      ExtendUpdate(Some(row), today, months) == Some(SubscriptionUpdate("active", Some(AddMonths(d, months))))
    ensures row.subscriptionEndDate.Some? && row.subscriptionEndDate.value != "" && StoredDate(row.subscriptionEndDate.value).None? ==>
      ExtendUpdate(Some(row), today, months).None?
  {
    if row.subscriptionEndDate.Some? && row.subscriptionEndDate.value == "" {
      assert StoredDate("") == None;
    }
  }

  /**
   * An end date already in the past is still the base: a subscription that
   * ended in January 2020, extended by six months on 15 October 2026, ends
   * in July 2020, still in the past.
   */
  lemma PastEndStaysPast(row: UserRow, timePart: string)
    requires row.subscriptionEndDate == Some(IsoText(Date(2020, 1, 15), timePart))
    ensures ExtendUpdate(Some(row), Date(2026, 10, 15), 6) == Some(SubscriptionUpdate("active", Some(Date(2020, 7, 15))))
    ensures Before(Date(2020, 7, 15), Date(2026, 10, 15))
  {
    assert AddMonths(Date(2020, 1, 15), 6) == Date(2020, 7, 15);
  }

  /** Each of the offered extensions moves a date strictly forward. */
  lemma {:induction false} ChoicesAdvance(base: Date)
    requires IsValidDate(base)
    ensures forall i :: 0 <= i < |ExtendChoices| ==> ExtendChoices[i] >= 1 && Before(base, AddMonths(base, ExtendChoices[i]))
  {
    AddMonthsAdvances(base, 1);
    AddMonthsAdvances(base, 3);
    AddMonthsAdvances(base, 6);
  }

  /** Two stored extensions add up: the second counts from the end date the first wrote. */
  lemma ExtensionsChain(row: UserRow, today: Date, m1: int, m2: int, timePart: string)
    requires IsValidDate(today)
    requires ExtendUpdate(Some(row), today, m1).Some?
    requires 0 <= ExtendUpdate(Some(row), today, m1).value.endDate.value.year <= 9999
    ensures var u1 := ExtendUpdate(Some(row), today, m1).value;
      ExtendUpdate(Some(ApplyUpdate(row, u1, timePart)), today, m2)
        == Some(SubscriptionUpdate("active", Some(AddMonths(u1.endDate.value, m2))))
  {
    var u1 := ExtendUpdate(Some(row), today, m1).value;
    var r := ApplyUpdate(row, u1, timePart);
    assert r.subscriptionEndDate == Some(IsoText(u1.endDate.value, timePart));
  }

  /** A cancellation writes only the status: the end date stays as it was. */
  lemma CancelKeepsEndDate(row: UserRow, timePart: string)
    ensures ApplyUpdate(row, CancelUpdate, timePart).subscriptionStatus == "cancelled"
    ensures ApplyUpdate(row, CancelUpdate, timePart).subscriptionEndDate == row.subscriptionEndDate
    ensures ApplyUpdate(row, CancelUpdate, timePart).id == row.id
  {
  }

  /** What the screen renders, less its layout. */
  datatype DetailsView = LoadingView | ErrorView(text: string) | DetailsShown(row: UserRow)

  function View(loading: bool, error: string, user: Option<UserRow>): (v: DetailsView)
  {
    if loading then LoadingView
    else if error != "" || user.None? then ErrorView(if error != "" then error else "User not found")
    else DetailsShown(user.value)
  }

  /** Once loaded, a recorded error hides the details, whatever row is held. */
  lemma ErrorHidesDetails(error: string, user: Option<UserRow>)
    ensures View(false, error, user).DetailsShown? <==> error == "" && user.Some?
    ensures error != "" ==> View(false, error, user) == ErrorView(error)
    ensures error == "" && user.None? ==> View(false, error, user) == ErrorView("User not found")
  {
  }

  /** The confirmation the cancel button asks for. */
  datatype ConfirmAnswer = No | Yes

  class DetailsScreen {
    const userId: string
    var user: Option<UserRow>
    var loading: bool
    var error: string

    /** The screen's first render: no row, loading, no error. */
    constructor (userId: string)
      ensures this.userId == userId && user == None && loading && error == ""
    {
      this.userId := userId;
      user := None;
      loading := true;
      error := "";
    }

    function Screen(): DetailsView
      reads this
    {
      View(loading, error, user)
    }

    /**
     * `fetchUserDetails` once the database answers: a row replaces the held
     * one and leaves `error` as it was; a failure keeps the row and records
     * its message. Either way loading ends.
     */
    method FetchUserDetails(result: FetchResult<UserRow>)
      modifies this
      ensures !loading
      ensures result.Fetched? ==> user == Some(result.data) && error == old(error)
      ensures result.FetchFailed? ==> user == old(user) && error == ErrorText(result.failure, "Failed to fetch user details")
      ensures old(error) != "" && result.Fetched? ==> Screen() == ErrorView(old(error))
    {
      match result {
        case Fetched(row) =>
          user := Some(row);
        case FetchFailed(f) =>
          error := ErrorText(f, "Failed to fetch user details");
      }
      loading := false;
    }

    /**
     * `extendSubscription(months)`: builds the payload from the base date;
     * an Invalid Date base throws before anything is sent. A sent update
     * that fails shows the error alert; one that succeeds shows the success
     * alert and reloads the row (`refetch` is the database's answer).
     */
    method ExtendSubscription(months: int, today: Date, updateFails: bool, refetch: FetchResult<UserRow>)
      returns (sent: Option<SubscriptionUpdate>, alert: Alert)
      requires IsValidDate(today)
      modifies this
      ensures sent == ExtendUpdate(old(user), today, months)
      ensures sent.Some? ==> sent.value.status == "active"
      ensures alert == (if sent.Some? && !updateFails then Alert("Success", "Subscription extended successfully")
                        else Alert("Error", "Failed to extend subscription"))
      ensures sent.None? || updateFails ==> user == old(user) && loading == old(loading) && error == old(error)
      ensures sent.Some? && !updateFails && refetch.Fetched? ==> user == Some(refetch.data) && !loading && error == old(error)
      ensures sent.Some? && !updateFails && refetch.FetchFailed? ==>
        user == old(user) && !loading && error == ErrorText(refetch.failure, "Failed to fetch user details")
    {
      sent := ExtendUpdate(user, today, months);
      if sent.None? || updateFails {
        alert := Alert("Error", "Failed to extend subscription");
        return;
      }
      alert := Alert("Success", "Subscription extended successfully");
      FetchUserDetails(refetch);
    }

    /** `cancelSubscription`: sends the status-only update, then alerts and reloads as an extension does. */
    method CancelSubscription(updateFails: bool, refetch: FetchResult<UserRow>) returns (sent: SubscriptionUpdate, alert: Alert)
      modifies this
      ensures sent == CancelUpdate && sent.endDate.None?
      ensures alert == (if updateFails then Alert("Error", "Failed to cancel subscription")
                        else Alert("Success", "Subscription cancelled successfully"))
      ensures updateFails ==> user == old(user) && loading == old(loading) && error == old(error)
      ensures !updateFails && refetch.Fetched? ==> user == Some(refetch.data) && !loading && error == old(error)
      ensures !updateFails && refetch.FetchFailed? ==>
        user == old(user) && !loading && error == ErrorText(refetch.failure, "Failed to fetch user details")
    {
      sent := CancelUpdate;
      if updateFails {
        alert := Alert("Error", "Failed to cancel subscription");
        return;
      }
      alert := Alert("Success", "Subscription cancelled successfully");
      FetchUserDetails(refetch);
    }

    /** The cancel button: only a "Yes" in its confirmation sends the cancellation. */
    method PressCancel(answer: ConfirmAnswer, updateFails: bool, refetch: FetchResult<UserRow>)
      returns (sent: Option<SubscriptionUpdate>, alert: Option<Alert>)
      modifies this
      ensures answer == No ==> sent == None && alert == None && user == old(user) && loading == old(loading) && error == old(error)
      ensures answer == Yes ==> sent == Some(CancelUpdate) && alert.Some?
    {
      if answer == No {
        sent, alert := None, None;
        return;
      }
      var u, a := CancelSubscription(updateFails, refetch);
      sent, alert := Some(u), Some(a);
    }
  }

  /** A failed load followed by a successful reload still shows the first error, not the row. */
  method FailThenReload(userId: string, message: string, row: UserRow) returns (v: DetailsView)
    requires message != ""
    ensures v == ErrorView(message)
  {
    var s := new DetailsScreen(userId);
    s.FetchUserDetails(FetchFailed(ErrorWithMessage(message)));
    s.FetchUserDetails(Fetched(row));
    v := s.Screen();
  }

  /** The status line and the end-date line of the details card. */
  lemma DetailsDisplay(row: UserRow)
    ensures Badge(row) == ActiveBadge <==> row.subscriptionStatus == "active"
    ensures row.subscriptionEndDate.None? ==> EndDateText(row, "No active subscription") == "No active subscription"
  {
  }
}
