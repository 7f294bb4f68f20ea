# fit-pro client core in Dafny

A model of the core of the fit-pro mobile client: the profile-completion
screen that reads a birth date typed in the locale's pattern and stores it,
the two translation modules (the provider-based `utils/i18n.tsx` and the
older `utils/i18n.ts`), the language switcher, the start-up routing check,
and the two admin screens that list users and manage a subscription.

Modules, in dependency order:

- `Wrappers` — `Option`.
- `JsText` — `String.prototype.trim`, digit runs, zero padding.
- `Calendar` — proleptic Gregorian dates, local instants (a date plus the
  milliseconds since its midnight), `setFullYear` and `setMonth` with the
  JavaScript `Date` overflow rules.
- `DateText` — date-fns `parse`/`isValid` for `MM/dd/yyyy` and
  `dd/MM/yyyy` (greedy one-or-two-digit month and day, one-to-four-digit
  year, trailing whitespace only), `format` for the same patterns, and the
  RFC 3339 `full-date` (section 5.6 of RFC 3339) used for storage.
- `I18nJs` — the part of the i18n-js `I18n` object both translation modules
  use: nested catalogs, `locale`, `defaultLocale`, `enableFallback`, `t`.
- `LocaleCatalog` — `utils/i18n.tsx`: its catalog (the keys the modelled
  screens read), start-up, `LanguageProvider`, the context and its hook.
- `LegacyI18n` — `utils/i18n.ts`: its catalog, `setupI18n`, its hook.
- `CompleteProfile` — `app/complete-profile.tsx`.
- `LanguageSwitcher` — `components/LanguageSwitcher.tsx`.
- `AdminUser`, `AdminDashboard`, `UserDetails` — the `users` row and
  `app/admin/index.tsx`, `app/admin/user-details.tsx`.
- `RootLayout` — `checkAuth` in `app/_layout.tsx`.

Screens whose state the source updates in place (`ProfileForm`,
`Dashboard`, `DetailsScreen`, `Switcher`, `LanguageProvider`, `I18n`) are
classes whose methods state their whole new state; the pure rules they
apply are functions with lemmas about them. The clock ("now", "today"), the
host's language, and every database or authentication answer are
parameters.

## Model

| member | source | states |
|---|---|---|
| JsText.TrimSpec | app/complete-profile.tsx:65-73 | `trim` removes only blank margins: the result is a slice with blank text on both sides, starts and ends with a non-blank character, and is empty exactly for blank input |
| JsText.TrimIdempotent | app/complete-profile.tsx:103-104 | a trimmed name trimmed again is unchanged |
| JsText.PadNumberValue | app/complete-profile.tsx:58-60 | zero padding of the date fields never changes the number they denote |
| Calendar.DaysInMonth | app/complete-profile.tsx:42-46 | 31 days in the long months, 30 in the short ones, 29 in February exactly in leap years, 28 otherwise |
| Calendar.Normalize | app/admin/user-details.tsx:47 | a day that fits stays put; an overflowing day carries into the next month with the surplus |
| Calendar.SetFullYearSpec | app/complete-profile.tsx:50-51 | moving a date to another year keeps it valid and keeps month and day, except 29 February, which becomes 1 March when the target year has none |
| Calendar.LeapDayMovedBack | app/complete-profile.tsx:50-51 | 29 February 2020 moved to 1900 is 1 March 1900 |
| Calendar.AddMonthsTarget | app/admin/user-details.tsx:47 | `setMonth(getMonth() + k)` lands exactly k months on and keeps the day when it fits that month, otherwise carries the surplus on |
| Calendar.AddMonthsAdvances | app/admin/user-details.tsx:47 | adding one month or more moves a date strictly forward |
| Calendar.MonthEndOverflow | app/admin/user-details.tsx:47 | 31 January plus a month is 3 March (2 March in a leap year); 30 November plus three months is 2 March |
| Calendar.MonthIndexOrder | app/admin/user-details.tsx:47 | an earlier month position means an earlier date |
| DateText.TakeDigits | app/complete-profile.tsx:42-44 | the greedy digit matcher splits the input into a run of at most `max` digits and the rest, and stops short only at a non-digit |
| DateText.ScanFieldsComplete | app/complete-profile.tsx:42-44 | every text of shape `D{1,2}/D{1,2}/D{1,4}` plus trailing blanks is split into exactly its own fields |
| DateText.ParsePattern | app/complete-profile.tsx:42-46 | an accepted input names a date that exists, with a year from 1 to 9999 |
| DateText.ParsePatternAccepts | app/complete-profile.tsx:42-46 | strictness: an accepted input has the pattern's shape and its fields are the date's month, day and year in the pattern's order |
| DateText.ParsePatternComplete | app/complete-profile.tsx:42-46 | conversely, every well-shaped input whose fields form a real date with a positive year is accepted as that date |
| DateText.PatternRoundTrip | app/complete-profile.tsx:42-46 | a date formatted in a pattern parses back to itself under that pattern |
| DateText.ParseFullDate | app/complete-profile.tsx:58-60 | a `full-date` that is read names an existing date with a four-digit year |
| DateText.FullDateRoundTrip | app/complete-profile.tsx:58-60 | the `yyyy-MM-dd` text of a date is 10 characters long and reads back as that date |
| DateText.FullDateCanonical | app/complete-profile.tsx:58-60 | a `full-date` read and written again is the same text |
| DateText.PadExact | app/complete-profile.tsx:58-60 | a digit run of exactly the field's width is the padded text of its own value |
| I18nJs.FindAppend | utils/i18n.tsx:338-341 | looking up a key is looking up its prefix and then the rest inside what was found |
| I18nJs.LeafHasNoChildren | utils/i18n.tsx:338-341 | a key that runs past a string is missing |
| I18nJs.Resolve | utils/i18n.tsx:304-307 | `t` finds the key in the active locale when it is there; otherwise, only with fallback enabled, in the default locale; otherwise nothing |
| I18nJs.I18n.constructor | utils/i18n.tsx:5 | a new translator starts on English, default English, no fallback |
| LocaleCatalog.CatalogLocales | utils/i18n.tsx:5-302 | the catalog defines exactly `en`, `pt` and `es` |
| LocaleCatalog.StartUp | utils/i18n.tsx:304-307 | start-up sets the host's language code, supported or not, enables fallback and makes English the default |
| LocaleCatalog.LookupFallsBackToEnglish | utils/i18n.tsx:304-307 | after start-up a key missing from the active locale is read in English |
| LocaleCatalog.UnsupportedLocaleReadsEnglish | utils/i18n.tsx:304-307 | a host language without a catalog reads every key exactly as English does |
| LocaleCatalog.EnglishValidationStrings | utils/i18n.tsx:11-17 | English has `validations.required` and `validations.invalidDate` as strings |
| LocaleCatalog.EnglishCompleteProfileStrings | utils/i18n.tsx:42-50 | English has every `completeProfile` string |
| LocaleCatalog.PortugueseValidationStrings | utils/i18n.tsx:98-104 | Portuguese has both validation strings |
| LocaleCatalog.PortugueseCompleteProfileStrings | utils/i18n.tsx:129-137 | Portuguese has every `completeProfile` string |
| LocaleCatalog.SpanishValidationStrings | utils/i18n.tsx:220-226 | Spanish has both validation strings |
| LocaleCatalog.SpanishCompleteProfileStrings | utils/i18n.tsx:251-259 | Spanish has every `completeProfile` string |
| LocaleCatalog.ProfileStringsFound | utils/i18n.tsx:338-341 | in a tree holding those strings, each of the screen's keys resolves to a string |
| LocaleCatalog.ProfileKeysInEveryLocale | utils/i18n.tsx:5-302 | every key the profile-completion screen reads is a string in every locale, so it never falls back |
| LocaleCatalog.NoErrorsNamespace | utils/i18n.tsx:5-302 | no locale has a top-level `errors` namespace (the catalog's is `err`) |
| LocaleCatalog.AlertKeysMissing | app/complete-profile.tsx:115-118 | `errors.title` and `errors.profileUpdate` resolve to nothing in any locale, fallback included |
| LocaleCatalog.QuizQuestions | utils/i18n.tsx:79-91 | where each locale keeps its quiz questions |
| LocaleCatalog.FindQuestion | utils/i18n.tsx:79-91 | a question field is found exactly when the question number exists |
| LocaleCatalog.PortugueseQuizComplete | utils/i18n.tsx:166-213 | Portuguese defines questions 1 to 11, each with a text and options |
| LocaleCatalog.QuizLengths | utils/i18n.tsx:288-300 | English and Spanish define only questions 1 and 2 |
| LocaleCatalog.ThirdQuestionMissing | utils/i18n.tsx:288-300 | question 3 resolves in Portuguese but not in Spanish, even with the fallback to English |
| LocaleCatalog.ProfileTitleIn | utils/i18n.tsx:143-152 | a `screens.profile.title` string is found under that key |
| LocaleCatalog.ProfileTitles | utils/i18n.tsx:143-152 | the profile title is "Profile" in English and "Perfil" in Portuguese |
| LocaleCatalog.LanguageProvider.constructor | utils/i18n.tsx:321-322 | the provider's state starts as the shared object's locale |
| LocaleCatalog.LanguageProvider.ChangeLocale | utils/i18n.tsx:324-328 | `changeLocale` sets both the shared object and the state, keeping them equal, and changes nothing else |
| LocaleCatalog.SetLocale | utils/i18n.tsx:315-318 | `setLocale` is `changeLocale` under a provider and does nothing outside one |
| LocaleCatalog.SwitchToPortuguese | utils/i18n.tsx:321-343 | after switching to Portuguese under the provider, `t` reads the profile title as "Perfil" |
| LocaleCatalog.SetLocaleOutsideProvider | utils/i18n.tsx:315-318 | outside a provider a request for another locale leaves the locale as it was |
| LegacyI18n.LegacyLocales | utils/i18n.ts:4-253 | the older catalog also defines exactly `en`, `pt` and `es` |
| LegacyI18n.CreateShared | utils/i18n.ts:4 | the shared object starts on English with no fallback |
| LegacyI18n.SetupI18n | utils/i18n.ts:255-260 | `setupI18n` sets the host language, enables fallback and makes English the default |
| LegacyI18n.UnsetLookupIsEnglish | utils/i18n.ts:4 | without `setupI18n`, a key is found exactly when English has it |
| LegacyI18n.UseTranslation | utils/i18n.ts:262-265 | the hook's `locale` is the shared locale at the moment of the call |
| LegacyI18n.SetLocale | utils/i18n.ts:266-268 | the hook's `setLocale` assigns the shared locale and nothing else |
| LegacyI18n.StaleSnapshot | utils/i18n.ts:262-269 | a hook result taken before `setLocale` keeps reporting the old locale |
| LegacyI18n.RequiredAndInvalidDateAbsent | utils/i18n.ts:10-14 | no locale of the older catalog has `validations.required` or `validations.invalidDate` |
| LegacyI18n.ValidationKeysMissing | utils/i18n.ts:10-14 | so those keys resolve to nothing under any locale and fallback settings |
| LegacyI18n.TopLevelProfileIn | utils/i18n.ts:48-61 | a top-level `profile.title` is found there and not under `screens` |
| LegacyI18n.ProfileAtTopLevel | utils/i18n.ts:48-61 | the profile title sits at top level in every locale, so `screens.profile.title` is missing |
| LegacyI18n.BirthDateIn | utils/i18n.ts:39-47 | the `completeProfile.birthDate` label is found under that key |
| LegacyI18n.BirthDateLabels | utils/i18n.ts:44 | the birth-date label of each locale |
| LegacyI18n.BirthDateLabelsDayFirst | utils/i18n.ts:44 | all three labels, the English one included, ask for day first |
| CompleteProfile.CurrentLocale | app/complete-profile.tsx:38 | the current locale always has a pattern |
| CompleteProfile.DateFormatResolution | app/complete-profile.tsx:10-39 | English is `MM/dd/yyyy`, Portuguese and Spanish `dd/MM/yyyy`; day first exactly for `pt` and `es`; any other locale reads as English |
| CompleteProfile.MinDate | app/complete-profile.tsx:49-51 | the lower bound is now's month and day 120 years back, at now's time of day; when now is 29 February it is 29 February of that year if it is a leap year and 1 March otherwise |
| CompleteProfile.InWindowBounds | app/complete-profile.tsx:48-53 | the window admits exactly the dates up to today and after the bound's date, and the bound's date itself only when now is midnight |
| CompleteProfile.ValidateDate | app/complete-profile.tsx:41-56 | an accepted date is the parse of the input, exists, has a year from 1 to 9999 and lies between the bound's date and today; conversely, an input whose parse is a date in the window is accepted |
| CompleteProfile.ValidateRoundTrip | app/complete-profile.tsx:41-56 | a date typed in the current locale's pattern is accepted, as that date, exactly when it lies in the window |
| CompleteProfile.ValidateAtWindowEdges | app/complete-profile.tsx:41-56 | on 15 October 2026, in every locale, the validator accepts 16 October 1906 at any time of day and today, and rejects tomorrow |
| CompleteProfile.ValidateDateShape | app/complete-profile.tsx:41-56 | an accepted input has the pattern's shape and names the returned date field by field |
| CompleteProfile.FormatDateForDB | app/complete-profile.tsx:58-60 | the stored form is a 10-character `full-date` that reads back as the date |
| CompleteProfile.StoredDateRoundTrip | app/complete-profile.tsx:41-60 | the stored form of an accepted input names the very date the input names, and is canonical |
| CompleteProfile.ParseLiteral | app/complete-profile.tsx:41-46 | a well-shaped text is accepted exactly when its fields form a real date with a positive year |
| CompleteProfile.OrderMatters | app/complete-profile.tsx:38-46 | any date whose day could be a month reads as another date under the other pattern |
| CompleteProfile.EnglishReadsMonthFirst | app/complete-profile.tsx:38-46 | "01/02/2020" is 2 January 2020 in English |
| CompleteProfile.PortugueseReadsDayFirst | app/complete-profile.tsx:38-46 | "01/02/2020" is 1 February 2020 in Portuguese |
| CompleteProfile.StoredFromDigits | app/complete-profile.tsx:58-60 | the stored form of a date read from runs of the stored widths is those very runs |
| CompleteProfile.StoredInPatternOrder | app/complete-profile.tsx:41-60 | an input `a/b/y` of two-digit fields is stored as `y-a-b` under the month-first pattern and as `y-b-a` under the day-first one |
| CompleteProfile.FebruaryThirtyFirstRejected | app/complete-profile.tsx:41-46 | "31/02/2020" is rejected in Portuguese whatever the clock |
| CompleteProfile.MonthThirteenRejected | app/complete-profile.tsx:41-46 | "13/13/2020" is rejected in Portuguese whatever the clock |
| CompleteProfile.WindowEdges | app/complete-profile.tsx:48-53 | on 15 October 2026 today passes and tomorrow fails; 15 October 1906 passes only at midnight; the day after passes and the day before fails |
| CompleteProfile.LeapDayBound | app/complete-profile.tsx:49-53 | on 29 February 2020 the bound is 1 March 1900 and 28 February 1900 is rejected |
| CompleteProfile.TrailingBlankAllowed | app/complete-profile.tsx:42-44 | a trailing blank is accepted |
| CompleteProfile.LeadingBlankRejected | app/complete-profile.tsx:73-78 | a leading blank passes the required check (trimmed text) but fails the date check (raw text) |
| CompleteProfile.ErrorKeyPath | app/complete-profile.tsx:66-78 | both messages are keys under `validations` |
| CompleteProfile.ErrorKeysTranslated | app/complete-profile.tsx:66-78 | both validation messages resolve in every locale of the provider's catalog |
| CompleteProfile.ErrorKeysMissingFromLegacy | utils/i18n.ts:10-14 | neither validation message exists in the older catalog |
| CompleteProfile.FormValidIff | app/complete-profile.tsx:62-84 | the form is valid exactly when both names and the birth date are non-blank and the date is accepted |
| CompleteProfile.RequiredBeforeInvalid | app/complete-profile.tsx:65-80 | each field's error is `required` exactly when its text is blank; the birth date is `invalidDate` exactly when non-blank and rejected |
| CompleteProfile.AlertUntranslated | app/complete-profile.tsx:115-118 | the failure alert's title and message keys resolve to nothing in any locale |
| CompleteProfile.UpdatePayload | app/complete-profile.tsx:98-107 | a valid form sends its user id, non-blank trimmed names, a `full-date` naming the typed date and the completion flag |
| CompleteProfile.ProfileForm.constructor | app/complete-profile.tsx:27-36 | the form starts empty, not loading, with no errors |
| CompleteProfile.ProfileForm.EditFirstName | app/complete-profile.tsx:136-139 | typing a first name clears its own error and no other |
| CompleteProfile.ProfileForm.EditLastName | app/complete-profile.tsx:153-156 | typing a last name clears its own error and no other |
| CompleteProfile.ProfileForm.EditBirthDate | app/complete-profile.tsx:171-174 | typing a date clears its own error and no other |
| CompleteProfile.ProfileForm.ValidateForm | app/complete-profile.tsx:62-84 | commits the form's errors and reports whether there are none |
| CompleteProfile.ProfileForm.HandleSubmit | app/complete-profile.tsx:86-122 | blocked exactly when the form is invalid; rejected at submit exactly when the second date check fails, restoring the captured errors plus `invalidDate`; otherwise sends the valid update and ends saved or with the failure alert; loading ends on every path after validation |
| CompleteProfile.OneClockNeverRejects | app/complete-profile.tsx:87-96 | with one reading of the clock a validated form is never rejected at submit |
| CompleteProfile.LegacyLabelContradictsPattern | app/complete-profile.tsx:168 | the older English label asks for day first while the English pattern is month first |
| LanguageSwitcher.OptionsAreTheCatalogLocales | components/LanguageSwitcher.tsx:6-19 | the modal lists three distinct languages, exactly the catalog's locales |
| LanguageSwitcher.CurrentFlag | components/LanguageSwitcher.tsx:32 | the button shows one of the table's flags, and that flag belongs to the current locale and to no other |
| LanguageSwitcher.ActiveCount | components/LanguageSwitcher.tsx:54 | no option is marked exactly when the locale is not listed |
| LanguageSwitcher.ExactlyOneActive | components/LanguageSwitcher.tsx:49-65 | a supported locale marks exactly one option, any other none |
| LanguageSwitcher.Switcher.constructor | components/LanguageSwitcher.tsx:23 | the modal starts closed |
| LanguageSwitcher.Switcher.PressCurrentLanguage | components/LanguageSwitcher.tsx:28 | the flag button opens the modal |
| LanguageSwitcher.Switcher.RequestClose | components/LanguageSwitcher.tsx:41 | the close request closes the modal and keeps the locale |
| LanguageSwitcher.Switcher.PressOverlay | components/LanguageSwitcher.tsx:45 | a press on the overlay closes the modal and keeps the locale |
| LanguageSwitcher.Switcher.Select | components/LanguageSwitcher.tsx:56-59 | choosing a language closes the modal and, under a provider, makes it the locale of both the provider and the shared object, leaving the default locale and the fallback setting as they were |
| LanguageSwitcher.ChooseSpanish | components/LanguageSwitcher.tsx:49-65 | after choosing Spanish the modal is closed and exactly one option is marked |
| AdminUser.ErrorText | app/admin/index.tsx:30 | an `Error`'s message is shown; any other thrown value shows the fallback |
| AdminUser.Badge | app/admin/index.tsx:100 | the active style exactly for status `active` |
| AdminUser.EndDateText | app/admin/index.tsx:106 | a null or empty end date shows the placeholder, any other shows itself |
| AdminUser.StoredDate | app/admin/user-details.tsx:43-45 | a stored end date that reads names an existing date |
| AdminUser.StoredDateRoundTrip | app/admin/user-details.tsx:53 | a date written as a `full-date`, alone or with a time part, reads back as that date |
| AdminDashboard.ActiveUsers | app/admin/index.tsx:79 | the filter keeps exactly the active users and is no longer than the list |
| AdminDashboard.ActiveCountAppend | app/admin/index.tsx:79 | the active count of two lists joined is the sum of their counts |
| AdminDashboard.ActiveCountBounds | app/admin/index.tsx:74-79 | the active figure is at most the total, equals it exactly when all are active, and is zero exactly when none is |
| AdminDashboard.ActiveCountSnoc | app/admin/index.tsx:79 | one more user adds one to the figure exactly when that user is active |
| AdminDashboard.Card | app/admin/index.tsx:96-107 | the card's badge is active exactly for `active`; a null end date shows `N/A` |
| AdminDashboard.Dashboard.constructor | app/admin/index.tsx:15-18 | the dashboard starts loading with no users and no error |
| AdminDashboard.Dashboard.FetchUsers | app/admin/index.tsx:20-35 | data, or an empty list, replaces the users and keeps the error; a failure keeps the users and records its message; loading and refreshing end; an earlier error still hides the list |
| AdminDashboard.Dashboard.OnRefresh | app/admin/index.tsx:41-44 | a pull raises `refreshing` and changes nothing else |
| AdminDashboard.RefreshCycle | app/admin/index.tsx:41-44 | the spinner shows during a refresh and is gone once the fetch answers |
| AdminDashboard.FailThenRetry | app/admin/index.tsx:54-63 | a failed load followed by a successful Retry still shows the first error |
| AdminDashboard.ListFigures | app/admin/index.tsx:72-82 | the list shows the total and the active count, the second never above the first |
| UserDetails.ExtendUpdate | app/admin/user-details.tsx:41-55 | an update that is sent carries a valid end date |
| UserDetails.IsoText | app/admin/user-details.tsx:53 | the stored ISO text reads back as the date written |
| UserDetails.ExtendSpec | app/admin/user-details.tsx:41-55 | an extension counts from today when there is no end date, from the stored end date when it reads, and sends nothing when it does not |
| UserDetails.PastEndStaysPast | app/admin/user-details.tsx:43-47 | an end date in January 2020 extended by six months on 15 October 2026 ends in July 2020, still in the past |
| UserDetails.ChoicesAdvance | app/admin/user-details.tsx:137-151 | each of the offered extensions moves the end date strictly forward |
| UserDetails.ExtensionsChain | app/admin/user-details.tsx:43-55 | a second extension counts from the end date the first one stored |
| UserDetails.CancelKeepsEndDate | app/admin/user-details.tsx:66-73 | a cancellation writes the status `cancelled` and leaves the end date and the id alone |
| UserDetails.ErrorHidesDetails | app/admin/user-details.tsx:84-104 | the details show exactly when there is no error and a row; an error shows itself; no row shows "User not found" |
| UserDetails.DetailsScreen.constructor | app/admin/user-details.tsx:16-18 | the screen starts loading with no row and no error |
| UserDetails.DetailsScreen.FetchUserDetails | app/admin/user-details.tsx:24-39 | a row replaces the held one and keeps the error; a failure keeps the row and records its message; loading ends; an earlier error still hides the row |
| UserDetails.DetailsScreen.ExtendSubscription | app/admin/user-details.tsx:41-64 | sends the extension payload, or nothing when the base is not a date; shows the error alert on any failure and changes nothing; on success shows the success alert and reloads |
| UserDetails.DetailsScreen.CancelSubscription | app/admin/user-details.tsx:66-82 | sends the status-only cancellation; shows the error alert on failure and changes nothing; on success shows the success alert and reloads |
| UserDetails.DetailsScreen.PressCancel | app/admin/user-details.tsx:158-166 | only a "Yes" to the confirmation sends the cancellation; "No" changes nothing |
| UserDetails.FailThenReload | app/admin/user-details.tsx:24-39 | a failed load followed by a successful reload still shows the first error |
| UserDetails.DetailsDisplay | app/admin/user-details.tsx:115-122 | the status is styled active exactly for `active`; a null end date shows "No active subscription" |
| RootLayout.CheckAuth | app/_layout.tsx:19-47 | every run makes exactly one `router.replace` |
| RootLayout.AuthRouteWhen | app/_layout.tsx:19-47 | the sign-in group is chosen exactly when there is no session, the session lookup throws, or the profile query fails |
| RootLayout.CompleteProfileRouteWhen | app/_layout.tsx:34-38 | the profile form, for the session's user, is chosen exactly when the profile's flag is not `true`, including a null flag and no profile |
| RootLayout.AppRouteWhen | app/_layout.tsx:39-40 | the app is reached exactly when there is a session and the profile is marked complete |
| RootLayout.NoSessionIgnoresProfile | app/_layout.tsx:21-25 | without a session the profile answer plays no part |

## Left out

- Text of the catalogs: only the keys the modelled screens read are
  carried, each locale's quiz question texts and options are reduced to
  placeholders, and the other screens' strings are not modelled.
- i18n-js's text for a missing key and its interpolation of `params`: a
  missing key is `None`, and no catalog string the model carries has a
  placeholder.
- Time zones, `toISOString`'s time part (a free parameter here) and
  `toLocaleDateString` for "Member Since": dates are local calendar dates
  plus a time of day; years beyond 9999 are not written as ISO text.
- `new Date(text)` for a stored end date is modelled only for a
  `full-date`, alone or followed by `T` and a time; any other text counts
  as an Invalid Date.
- React rendering, effects and re-render propagation: screens are state
  plus a view function; intermediate states between an `await` and its
  answer are not modelled, and `fetchUserDetails` does not raise `loading`
  again before a reload.
- The screens import `../utils/i18n`, which names both `utils/i18n.ts` and
  `utils/i18n.tsx`; the screens are modelled against the provider-based
  `utils/i18n.tsx`, which `app/_layout.tsx` mounts, and the older module is
  modelled on its own.
- `locale in localeFormats` also holds for inherited property names such as
  `toString`; the model treats only the three table keys as present.
- Network, database and authentication calls are inputs; the list order
  from `.order('created_at')` is whatever the input list is.
- types/supabase.ts is not part of this model.
- `router.replace`, `router.push` and `router.back` are taken never to
  throw; an `Error` with an empty message leaves the error text empty, as
  the source does, and nothing more is said about that case.
- LanguageSwitcher.CurrentFlag: requires a table locale; for any other
  locale the source's lookup fails at render time, which is not modelled.
- Translation of the validation messages: the form stores the message key,
  not the translated text.
