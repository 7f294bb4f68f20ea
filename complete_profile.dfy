/**
 * app/complete-profile.tsx: the profile-completion screen. It resolves the
 * display pattern of the birth date from the active locale, reads the
 * masked input strictly against that pattern, keeps only dates in the
 * window (now - 120 years, now], and stores the date as an RFC 3339
 * `full-date`. Around that sit the form rules (trimmed names, `required`
 * before `invalidDate`, an edit clears only its own field's error) and the
 * submit handler, whose database update is an input here: it succeeds or it
 * fails. "Now" is a parameter wherever the screen reads the clock.
 */
module CompleteProfile {
  import opened Wrappers
  import opened JsText
  import opened Calendar
  import opened DateText
  import opened I18nJs
  import LocaleCatalog
  import LegacyI18n

  /** `localeFormats`: the field order of each supported locale's display pattern. */
  const LocaleFormats: map<string, FieldOrder> := map["en" := MonthFirst, "pt" := DayFirst, "es" := DayFirst]

  /** `currentLocale`: the active locale when it has a pattern, English otherwise. */
  function CurrentLocale(locale: string): (r: string)
    ensures r in LocaleFormats
  {
    if locale in LocaleFormats then locale else "en"
  }

  /** `dateFormat`: the pattern of the current locale. */
  function DateFormat(locale: string): FieldOrder
  {
    LocaleFormats[CurrentLocale(locale)]
  }

  /** English reads month first, Portuguese and Spanish day first, and every other locale as English does. */
  lemma DateFormatResolution(locale: string)
    ensures PatternText(DateFormat("en")) == "MM/dd/yyyy"
    ensures PatternText(DateFormat("pt")) == "dd/MM/yyyy" && PatternText(DateFormat("es")) == "dd/MM/yyyy"
    ensures DateFormat(locale) == DayFirst <==> locale == "pt" || locale == "es"
    ensures locale !in {"en", "pt", "es"} ==> CurrentLocale(locale) == "en" && DateFormat(locale) == DateFormat("en")
  {
  }

  /**
   * The lower bound of the window: a copy of now with its year moved back
   * 120 years (29 February moves on to 1 March when that year has none),
   * at now's time of day.
   */
  function MinDate(now: Instant): (m: Instant)
    requires IsValidInstant(now)
    ensures IsValidInstant(m) && m.msOfDay == now.msOfDay
    ensures !(now.date.month == 2 && now.date.day == 29) ==>
      m.date == Date(now.date.year - 120, now.date.month, now.date.day)
    ensures now.date.month == 2 && now.date.day == 29 ==>
      m.date == (if IsLeapYear(now.date.year - 120) then Date(now.date.year - 120, 2, 29) else Date(now.date.year - 120, 3, 1))
  {
    SetFullYearSpec(now.date, now.date.year - 120);
    Instant(SetFullYear(now.date, now.date.year - 120), now.msOfDay)
  }

  /**
   * The window check on a parsed date, which `parse` returns at midnight:
   * not after now, and not before the lower bound.
   */
  predicate InWindow(d: Date, now: Instant)
    requires IsValidInstant(now)
  {
    !InstantBefore(now, Midnight(d)) && !InstantBefore(Midnight(d), MinDate(now))
  }

  /**
   * Exactly which dates the window admits: those from the lower bound's
   * date up to today, where the lower bound's own date passes only when
   * now is itself midnight.
   */
  lemma InWindowBounds(d: Date, now: Instant)
    requires IsValidInstant(now)
    ensures var lo := MinDate(now).date;
      InWindow(d, now) <==> (AtOrBefore(d, now.date) && (Before(lo, d) || (d == lo && now.msOfDay == 0)))
  {
  }

  /**
   * `validateDate`: the date the input names under the current pattern, if
   * it exists on the calendar and lies in the window.
   */
  function ValidateDate(s: string, locale: string, now: Instant): (r: Option<Date>)
    requires IsValidInstant(now)
    ensures r.Some? ==> IsValidDate(r.value) && 1 <= r.value.year <= 9999
    ensures r.Some? ==> AtOrBefore(r.value, now.date) && AtOrBefore(MinDate(now).date, r.value)
    ensures r.Some? ==> r == ParsePattern(s, DateFormat(locale))
    ensures ParsePattern(s, DateFormat(locale)).Some? && InWindow(ParsePattern(s, DateFormat(locale)).value, now) ==> r.Some?
  {
    match ParsePattern(s, DateFormat(locale))
    case None => None
    case Some(d) => if InWindow(d, now) then Some(d) else None
  }

  /** Strictness: an accepted input has the pattern's shape and its fields are the date's month, day and year. */
  lemma ValidateDateShape(s: string, locale: string, now: Instant)
    requires IsValidInstant(now)
    requires ValidateDate(s, locale, now).Some?
    ensures var d := ValidateDate(s, locale, now).value;
      exists f :: WellShaped(s, f)
        && DecimalValue(f.year) == d.year
        && MonthDay(DecimalValue(f.first), DecimalValue(f.second), DateFormat(locale)) == (d.month, d.day)
  {
    ParsePatternAccepts(s, DateFormat(locale));
  }

  /** `formatDateForDB`: the `yyyy-MM-dd` form. */
  function FormatDateForDB(d: Date): (s: string)
    requires IsValidDate(d) && 1 <= d.year <= 9999
    ensures |s| == 10 && IsFullDate(s) && ParseFullDate(s) == Some(d)
  {
    FullDateRoundTrip(d);
    FormatFullDate(d)
  }

  /** The stored form of an accepted input is a `full-date` that names the very date the input names. */
  lemma StoredDateRoundTrip(s: string, locale: string, now: Instant)
    requires IsValidInstant(now)
    requires ValidateDate(s, locale, now).Some?
    ensures var stored := FormatDateForDB(ValidateDate(s, locale, now).value);
      ParseFullDate(stored) == ParsePattern(s, DateFormat(locale))
      && FormatDateForDB(ParseFullDate(stored).value) == stored
  {
  }

  /** A fixed "now" for the examples: 15 October 2026 at the given time of day. */
  function Oct15(ms: int): Instant
  {
    Instant(Date(2026, 10, 15), ms)
  }

  /** Reads a well-shaped text through its fields. */
  lemma ParseLiteral(s: string, f: Fields, o: FieldOrder)
    requires WellShaped(s, f)
    ensures var md := MonthDay(DecimalValue(f.first), DecimalValue(f.second), o);
      var y := DecimalValue(f.year);
      ParsePattern(s, o) == if y > 0 && 1 <= md.0 <= 12 && 1 <= md.1 <= DaysInMonth(y, md.0) then Some(Date(y, md.0, md.1)) else None
  {
    ScanFieldsComplete(s, f);
  }

  /** Any date whose day could be a month reads as a different date under the other order. */
  lemma OrderMatters(d: Date)
    requires IsValidDate(d) && 1 <= d.year <= 9999 && d.day <= 12
    ensures ParsePattern(FormatPattern(d, MonthFirst), MonthFirst) == Some(d)
    ensures ParsePattern(FormatPattern(d, MonthFirst), DayFirst) == Some(Date(d.year, d.day, d.month))
  {
    PatternRoundTrip(d, MonthFirst);
    var e := Date(d.year, d.day, d.month);
    assert IsValidDate(e) by {
      assert DaysInMonth(e.year, e.month) >= 28;
    }
    assert FormatPattern(d, MonthFirst) == FormatPattern(e, DayFirst);
    PatternRoundTrip(e, DayFirst);
  }

  /** The numbers the example fields denote. */
  lemma SampleFieldValues()
    ensures DecimalValue("2020") == 2020 && DecimalValue("01") == 1 && DecimalValue("02") == 2
    ensures DecimalValue("31") == 31 && DecimalValue("13") == 13
  {
    FourDigitValue("2020");
    TwoDigitValue("01");
    TwoDigitValue("02");
    TwoDigitValue("31");
    TwoDigitValue("13");
  }

  /** "01/02/2020" is 2 January 2020 in English ... */
  lemma EnglishReadsMonthFirst()
    ensures ParsePattern("01/02/2020", DateFormat("en")) == Some(Date(2020, 1, 2))
  {
    SampleFieldValues();
    ParseLiteral("01/02/2020", Fields("01", "02", "2020", ""), MonthFirst);
  }

  /** ... and 1 February 2020 in Portuguese ... */
  lemma PortugueseReadsDayFirst()
    ensures ParsePattern("01/02/2020", DateFormat("pt")) == Some(Date(2020, 2, 1))
  {
    SampleFieldValues();
    ParseLiteral("01/02/2020", Fields("01", "02", "2020", ""), DayFirst);
  }

  /**
   * The stored form of a date whose fields are read from digit runs of the
   * stored widths is those very runs: "01/02/2020" is stored as
   * "2020-01-02" in English and as "2020-02-01" in Portuguese.
   */
  lemma StoredFromDigits(y: string, m: string, d: string)
    requires |y| == 4 && |m| == 2 && |d| == 2 && AllDigits(y) && AllDigits(m) && AllDigits(d)
    requires IsValidDate(Date(DecimalValue(y), DecimalValue(m), DecimalValue(d))) && DecimalValue(y) >= 1
    ensures (FourDigitBound(y);
      FormatDateForDB(Date(DecimalValue(y), DecimalValue(m), DecimalValue(d))) == y + "-" + m + "-" + d)
  {
    FourDigitBound(y);
    PadExact(y, 4);
    PadExact(m, 2);
    PadExact(d, 2);
  }

  /**
   * A text of two-digit fields is stored with its digits in the pattern's
   * order: `a/b/y` becomes `y-a-b` when the month comes first and `y-b-a`
   * when the day does.
   */
  lemma StoredInPatternOrder(s: string, f: Fields, o: FieldOrder)
    requires WellShaped(s, f) && |f.first| == 2 && |f.second| == 2 && |f.year| == 4
    requires ParsePattern(s, o).Some?
    ensures FormatDateForDB(ParsePattern(s, o).value)
      == if o == MonthFirst then f.year + "-" + f.first + "-" + f.second else f.year + "-" + f.second + "-" + f.first
  {
    ParseLiteral(s, f, o);
    if o == MonthFirst {
      StoredFromDigits(f.year, f.first, f.second);
    } else {
      StoredFromDigits(f.year, f.second, f.first);
    }
  }

  /** 31 February does not exist, so Portuguese rejects it whatever the clock says. */
  lemma FebruaryThirtyFirstRejected(now: Instant)
    requires IsValidInstant(now)
    ensures ValidateDate("31/02/2020", "pt", now) == None
  {
    SampleFieldValues();
    ParseLiteral("31/02/2020", Fields("31", "02", "2020", ""), DayFirst);
  }

  /** Nor is there a thirteenth month. */
  lemma MonthThirteenRejected(now: Instant)
    requires IsValidInstant(now)
    ensures ValidateDate("13/13/2020", "pt", now) == None
  {
    SampleFieldValues();
    ParseLiteral("13/13/2020", Fields("13", "13", "2020", ""), DayFirst);
  }

  /**
   * Today passes, tomorrow does not; the day exactly 120 years back passes
   * at midnight and at no later time of day; the day after it always does.
   */
  lemma WindowEdges(ms: int)
    requires 0 <= ms < MsPerDay
    ensures InWindow(Date(2026, 10, 15), Oct15(ms)) && !InWindow(Date(2026, 10, 16), Oct15(ms))
    ensures InWindow(Date(1906, 10, 15), Oct15(ms)) <==> ms == 0
    ensures InWindow(Date(1906, 10, 16), Oct15(ms)) && !InWindow(Date(1906, 10, 14), Oct15(ms))
  {
  }

  /**
   * Round trip: a date typed in the current locale's pattern is accepted,
   * as that very date, exactly when it lies in the window.
   */
  lemma ValidateRoundTrip(d: Date, locale: string, now: Instant)
    requires IsValidInstant(now)
    requires IsValidDate(d) && 1 <= d.year <= 9999
    ensures ValidateDate(FormatPattern(d, DateFormat(locale)), locale, now) == if InWindow(d, now) then Some(d) else None
  {
    PatternRoundTrip(d, DateFormat(locale));
  }

  /**
   * The validator itself at the window's edges on 15 October 2026: the day
   * after the date 120 years back is accepted at any time of day, today is
   * accepted, and tomorrow is rejected, in every locale.
   */
  lemma ValidateAtWindowEdges(ms: int, locale: string, dayAfterBound: Date, today: Date, tomorrow: Date)
    requires 0 <= ms < MsPerDay
    requires dayAfterBound == Date(1906, 10, 16) && today == Date(2026, 10, 15) && tomorrow == Date(2026, 10, 16)
    ensures ValidateDate(FormatPattern(dayAfterBound, DateFormat(locale)), locale, Oct15(ms)) == Some(dayAfterBound)
    ensures ValidateDate(FormatPattern(today, DateFormat(locale)), locale, Oct15(ms)) == Some(today)
    ensures ValidateDate(FormatPattern(tomorrow, DateFormat(locale)), locale, Oct15(ms)) == None
  {
    WindowEdges(ms);
    ValidateRoundTrip(dayAfterBound, locale, Oct15(ms));
    ValidateRoundTrip(today, locale, Oct15(ms));
    ValidateRoundTrip(tomorrow, locale, Oct15(ms));
  }

  /** On 29 February 2020 the bound is 1 March 1900, so 28 February 1900 is out although 120 years have not passed. */
  lemma LeapDayBound()
    ensures MinDate(Instant(Date(2020, 2, 29), 0)).date == Date(1900, 3, 1)
    ensures !InWindow(Date(1900, 2, 28), Instant(Date(2020, 2, 29), 0))
  {
  }

  /** Trailing blanks are allowed ... */
  lemma TrailingBlankAllowed()
    ensures ParsePattern("01/02/2020 ", DayFirst) == Some(Date(2020, 2, 1))
  {
    SampleFieldValues();
    ParseLiteral("01/02/2020 ", Fields("01", "02", "2020", " "), DayFirst);
  }

  /** ... leading ones are not, and the form checks the trimmed text but parses the raw one. */
  lemma LeadingBlankRejected(now: Instant)
    requires IsValidInstant(now)
    ensures Trim(" 01/02/2020") != []
    ensures ValidateDate(" 01/02/2020", "pt", now) == None
  {
    assert TakeDigits(" 01/02/2020", 2).0 == [];
    TrimSpec(" 01/02/2020");
    assert !IsWhitespace(" 01/02/2020"[1]);
  }

  /** The validation messages, by catalog key. */
  datatype ErrorKey = Required | InvalidDate

  function ErrorKeyPath(e: ErrorKey): (k: KeyPath)
    ensures |k| == 2 && k[0] == "validations"
  {
    match e
    case Required => ["validations", "required"]
    case InvalidDate => ["validations", "invalidDate"]
  }

  /** Both messages are strings in every locale of the catalog the provider serves ... */
  lemma ErrorKeysTranslated(locale: string, e: ErrorKey)
    requires locale in LocaleCatalog.Catalog
    ensures Has(LocaleCatalog.Catalog, locale, ErrorKeyPath(e))
  {
    LocaleCatalog.ProfileKeysInEveryLocale(locale, "validations", ErrorKeyPath(e)[1]);
  }

  /** ... and absent from every locale of the older catalog in utils/i18n.ts. */
  lemma ErrorKeysMissingFromLegacy(locale: string, e: ErrorKey)
    ensures Resolve(LegacyI18n.LegacyCatalog, locale, "en", true, ErrorKeyPath(e)) == None
  {
    LegacyI18n.ValidationKeysMissing(locale, "en", true, ErrorKeyPath(e)[1]);
  }

  /** The form's `errors` object: a message key per field, or none. */
  datatype FieldErrors = FieldErrors(firstName: Option<ErrorKey>, lastName: Option<ErrorKey>, birthDate: Option<ErrorKey>)

  const NoErrors: FieldErrors := FieldErrors(None, None, None)

  /** The errors `validateForm` finds. */
  function FormErrors(firstName: string, lastName: string, birthDate: string, locale: string, now: Instant): FieldErrors
    requires IsValidInstant(now)
  {
    FieldErrors(
      if Trim(firstName) == [] then Some(Required) else None,
      if Trim(lastName) == [] then Some(Required) else None,
      if Trim(birthDate) == [] then Some(Required)
      else if ValidateDate(birthDate, locale, now).None? then Some(InvalidDate)
      else None)
  }

  /** The form is valid exactly when both names and the birth date have non-blank text and the date passes. */
  lemma FormValidIff(firstName: string, lastName: string, birthDate: string, locale: string, now: Instant)
    requires IsValidInstant(now)
    ensures FormErrors(firstName, lastName, birthDate, locale, now) == NoErrors
      <==> (!IsBlank(firstName) && !IsBlank(lastName) && !IsBlank(birthDate)
        && ValidateDate(birthDate, locale, now).Some?)
  {
    TrimSpec(firstName);
    TrimSpec(lastName);
    TrimSpec(birthDate);
  }

  /** A blank birth date is reported as required, never as invalid; only a non-blank one is checked as a date. */
  lemma RequiredBeforeInvalid(firstName: string, lastName: string, birthDate: string, locale: string, now: Instant)
    requires IsValidInstant(now)
    ensures var e := FormErrors(firstName, lastName, birthDate, locale, now);
      (e.birthDate == Some(Required) <==> IsBlank(birthDate))
      && (e.birthDate == Some(InvalidDate) <==> !IsBlank(birthDate) && ValidateDate(birthDate, locale, now).None?)
      && (e.firstName == Some(Required) <==> IsBlank(firstName))
      && (e.lastName == Some(Required) <==> IsBlank(lastName))
  {
    TrimSpec(firstName);
    TrimSpec(lastName);
    TrimSpec(birthDate);
  }

  /** The `users` row update the screen sends. */
  datatype ProfileUpdate = ProfileUpdate(userId: string, firstName: string, lastName: string, birthDate: string, profileCompleted: bool)

  /** How `handleSubmit` ends. */
  datatype SubmitOutcome =
    | Blocked                      // the form did not validate; nothing is sent
    | DateRejected                 // the date failed a second check at submit time
    | Saved(update: ProfileUpdate) // the update went through; the app routes to `/(app)`
    | SaveFailed(update: ProfileUpdate, alertTitle: KeyPath, alertMessage: KeyPath)

  /** The keys of the failure alert's title and message. */
  const AlertTitle: KeyPath := ["errors", "title"]
  const AlertMessage: KeyPath := ["errors", "profileUpdate"]

  /** Neither alert key resolves in any locale, so the failure alert shows no translated text. */
  lemma AlertUntranslated(locale: string)
    ensures LocaleCatalog.Lookup(locale, AlertTitle) == None
    ensures LocaleCatalog.Lookup(locale, AlertMessage) == None
  {
    LocaleCatalog.AlertKeysMissing(locale, "title");
    LocaleCatalog.AlertKeysMissing(locale, "profileUpdate");
  }

  /** The update for a date that passed: trimmed names, the stored form of the date, the completion flag. */
  function UpdateFor(userId: string, firstName: string, lastName: string, d: Date): ProfileUpdate
    requires IsValidDate(d) && 1 <= d.year <= 9999
  {
    ProfileUpdate(userId, Trim(firstName), Trim(lastName), FormatDateForDB(d), true)
  }

  /** What a valid form sends: non-blank trimmed names and a `full-date` naming the date typed in. */
  lemma UpdatePayload(userId: string, firstName: string, lastName: string, birthDate: string, locale: string, now: Instant)
    requires IsValidInstant(now)
    requires FormErrors(firstName, lastName, birthDate, locale, now) == NoErrors
    ensures ValidateDate(birthDate, locale, now).Some?
    ensures var u := UpdateFor(userId, firstName, lastName, ValidateDate(birthDate, locale, now).value);
      u.userId == userId && u.profileCompleted
      && u.firstName != [] && u.firstName == Trim(u.firstName)
      && u.lastName != [] && u.lastName == Trim(u.lastName)
      && IsFullDate(u.birthDate) && ParseFullDate(u.birthDate) == ParsePattern(birthDate, DateFormat(locale))
  {
    FormValidIff(firstName, lastName, birthDate, locale, now);
    TrimSpec(firstName);
    TrimSpec(lastName);
    TrimIdempotent(firstName);
    TrimIdempotent(lastName);
  }

  /** The screen's state. `userId` comes from the route and `locale` from the translation context. */
  class ProfileForm {
    const userId: string
    const locale: string
    var firstName: string
    var lastName: string
    var birthDate: string
    var loading: bool
    var errors: FieldErrors

    constructor (userId: string, locale: string)
      ensures this.userId == userId && this.locale == locale
      ensures firstName == "" && lastName == "" && birthDate == "" && !loading && errors == NoErrors
    {
      this.userId := userId;
      this.locale := locale;
      firstName := "";
      lastName := "";
      birthDate := "";
      loading := false;
      errors := NoErrors;
    }

    /** Typing a first name clears the first-name error and no other. */
    method EditFirstName(text: string)
      modifies this
      ensures firstName == text && errors == old(errors).(firstName := None)
      ensures lastName == old(lastName) && birthDate == old(birthDate) && loading == old(loading)
    {
      firstName := text;
      errors := errors.(firstName := None);
    }

    /** Typing a last name clears the last-name error and no other. */
    method EditLastName(text: string)
      modifies this
      ensures lastName == text && errors == old(errors).(lastName := None)
      ensures firstName == old(firstName) && birthDate == old(birthDate) && loading == old(loading)
    {
      lastName := text;
      errors := errors.(lastName := None);
    }

    /** Typing in the masked date field clears the birth-date error and no other. */
    method EditBirthDate(text: string)
      modifies this
      ensures birthDate == text && errors == old(errors).(birthDate := None)
      ensures firstName == old(firstName) && lastName == old(lastName) && loading == old(loading)
    {
      birthDate := text;
      errors := errors.(birthDate := None);
    }

    /** `validateForm`: builds the errors field by field, commits them, and reports whether there were none. */
    method ValidateForm(now: Instant) returns (ok: bool)
      requires IsValidInstant(now)
      modifies this
      ensures errors == FormErrors(firstName, lastName, birthDate, locale, now)
      ensures ok <==> errors == NoErrors
      ensures firstName == old(firstName) && lastName == old(lastName) && birthDate == old(birthDate)
      ensures loading == old(loading)
    {
      var newErrors := NoErrors;
      if Trim(firstName) == [] {
        newErrors := newErrors.(firstName := Some(Required));
      }
      if Trim(lastName) == [] {
        newErrors := newErrors.(lastName := Some(Required));
      }
      if Trim(birthDate) == [] {
        newErrors := newErrors.(birthDate := Some(Required));
      } else {
        var validDate := ValidateDate(birthDate, locale, now);
        if validDate.None? {
          newErrors := newErrors.(birthDate := Some(InvalidDate));
        }
      }
      errors := newErrors;
      ok := newErrors == NoErrors;
    }

    /**
     * `handleSubmit`. `checkNow` is the clock at validation, `submitNow` at
     * the second date check; `updateFails` is the database's answer.
     * The `errors` the date rejection spreads is the value from before
     * validation, as the handler's closure captured it.
     */
    method HandleSubmit(checkNow: Instant, submitNow: Instant, updateFails: bool) returns (outcome: SubmitOutcome)
      requires IsValidInstant(checkNow) && IsValidInstant(submitNow)
      modifies this
      ensures firstName == old(firstName) && lastName == old(lastName) && birthDate == old(birthDate)
      ensures outcome.Blocked? <==> FormErrors(firstName, lastName, birthDate, locale, checkNow) != NoErrors
      ensures outcome.Blocked? ==> errors == FormErrors(firstName, lastName, birthDate, locale, checkNow) && loading == old(loading)
      ensures !outcome.Blocked? ==> !loading
      ensures outcome.DateRejected? <==> !outcome.Blocked? && ValidateDate(birthDate, locale, submitNow).None?
      ensures outcome.DateRejected? ==> errors == old(errors).(birthDate := Some(InvalidDate))
      ensures outcome.Saved? || outcome.SaveFailed? ==>
        ValidateDate(birthDate, locale, submitNow).Some? && errors == NoErrors
        && outcome.update == UpdateFor(userId, firstName, lastName, ValidateDate(birthDate, locale, submitNow).value)
      ensures outcome.Saved? <==> !outcome.Blocked? && !outcome.DateRejected? && !updateFails
      ensures outcome.SaveFailed? ==> outcome.alertTitle == AlertTitle && outcome.alertMessage == AlertMessage
    {
      var capturedErrors := errors;
      var valid := ValidateForm(checkNow);
      if !valid {
        return Blocked;
      }
      loading := true;
      var validDate := ValidateDate(birthDate, locale, submitNow);
      if validDate.None? {
        errors := capturedErrors.(birthDate := Some(InvalidDate));
        loading := false;
        return DateRejected;
      }
      var update := UpdateFor(userId, firstName, lastName, validDate.value);
      if updateFails {
        outcome := SaveFailed(update, AlertTitle, AlertMessage);
      } else {
        outcome := Saved(update);
      }
      loading := false;
    }
  }

  /** With one reading of the clock, a form that validates is never rejected at submit time. */
  lemma OneClockNeverRejects(firstName: string, lastName: string, birthDate: string, locale: string, now: Instant)
    requires IsValidInstant(now)
    requires FormErrors(firstName, lastName, birthDate, locale, now) == NoErrors
    ensures ValidateDate(birthDate, locale, now).Some?
  {
    FormValidIff(firstName, lastName, birthDate, locale, now);
  }

  /**
   * The placeholder shows the label followed by the pattern. With the
   * older catalog's English label, the label asks for day first while the
   * English pattern reads month first.
   */
  function Placeholder(caption: string, locale: string): string
  {
    caption + " (" + PatternText(DateFormat(locale)) + ")"
  }

  lemma LegacyLabelContradictsPattern()
    ensures LegacyI18n.EndsWithDayFirstHint("Date of Birth (DD/MM/YYYY)")
    ensures Placeholder("Date of Birth (DD/MM/YYYY)", "en") == "Date of Birth (DD/MM/YYYY) (MM/dd/yyyy)"
    ensures DateFormat("en") == MonthFirst
  {
    LegacyI18n.BirthDateLabelsDayFirst();
  }
}
