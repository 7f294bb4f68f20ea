/**
 * The `users` row as the two admin screens (app/admin/index.tsx and
 * app/admin/user-details.tsx) read it, the way both turn a caught failure
 * into a message, and the display rules they share.
 */
module AdminUser {
  import opened Wrappers
  import opened Calendar
  import opened DateText

  /** A `users` row: `subscription_end_date` may be null. */
  datatype UserRow = UserRow(
    id: string,
    email: string,
    subscriptionStatus: string,
    subscriptionEndDate: Option<string>,
    createdAt: string)

  /** What a `catch` receives: an `Error` with its message, or any other thrown value. */
  datatype Failure = ErrorWithMessage(message: string) | OtherThrown

  /** The answer of a database call: its data, or the failure it threw. */
  datatype FetchResult<T> = Fetched(data: T) | FetchFailed(failure: Failure)

  /** `err instanceof Error ? err.message : fallback`. */
  function ErrorText(f: Failure, fallback: string): (text: string)
    ensures f.ErrorWithMessage? ==> text == f.message
    ensures f.OtherThrown? ==> text == fallback
  {
    match f
    case ErrorWithMessage(m) => m
    case OtherThrown => fallback
  }

  /** The subscription counts as active only when its status is exactly `active`. */
  predicate IsActive(row: UserRow)
  {
    row.subscriptionStatus == "active"
  }

  /** The status badge's style. */
  datatype BadgeStyle = ActiveBadge | InactiveBadge

  function Badge(row: UserRow): (b: BadgeStyle)
    ensures b == ActiveBadge <==> IsActive(row)
  {
    if IsActive(row) then ActiveBadge else InactiveBadge
  }

  /** `row.subscription_end_date || placeholder`: null and the empty text are both falsy. */
  function EndDateText(row: UserRow, placeholder: string): (text: string)
    ensures row.subscriptionEndDate.None? ==> text == placeholder
    ensures row.subscriptionEndDate.Some? && row.subscriptionEndDate.value == "" ==> text == placeholder
    ensures row.subscriptionEndDate.Some? && row.subscriptionEndDate.value != "" ==> text == row.subscriptionEndDate.value
  {
    match row.subscriptionEndDate
    case Some(s) => if s != "" then s else placeholder
    case None => placeholder
  }

  /**
   * `new Date(text)` for the stored end dates: a `full-date`, alone or
   * followed by a `T` and a time (whose value is not modelled); anything
   * else is an Invalid Date.
   */
  function StoredDate(text: string): (r: Option<Date>)
    ensures r.Some? ==> IsValidDate(r.value) && 0 <= r.value.year <= 9999
  {
    if |text| == 10 then ParseFullDate(text)
    else if |text| > 10 && text[10] == 'T' then ParseFullDate(text[..10])
    else None
  }

  /** A date written as a `full-date` with any time part is read back as that date. */
  lemma StoredDateRoundTrip(d: Date, timePart: string)
    requires IsValidDate(d) && 0 <= d.year <= 9999
    ensures StoredDate(FormatFullDate(d)) == Some(d)
    ensures StoredDate(FormatFullDate(d) + "T" + timePart) == Some(d)
  {
    FullDateRoundTrip(d);
    var s := FormatFullDate(d) + "T" + timePart;
    assert s[..10] == FormatFullDate(d);
  }
}
