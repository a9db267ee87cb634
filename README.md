# AIMeet scheduling core in Dafny

A verified model of the decision logic of AIMeet, an AI receptionist that chats
with a business's visitors and books appointments for them. The model covers:

- **Slot generation and booking** (`availability.dfy`, module `Availability`).
  - `getAvailableSlots` resolves the service, with the fallback to the first active service.
  - It reads the weekday's active business-hours rows and the day's scheduled or confirmed appointments.
  - `generateSlotsForPeriod` then walks each window in steps of `min(15, duration + buffer)` minutes. It keeps the starts that conflict with nothing and lie after "now".
  - `findOrCreateCustomer` and `createAppointment` work on an in-memory store (`Availability.Store`). Its sequences stand for the Supabase tables.
  - Instants are whole minutes. "Now" is a parameter. A query error is a boolean parameter.
- **The rate limiter** (`rate_limit.dfy`): the fixed-window counter map of `RateLimiter.check`, its expiry sweep and `checkRateLimit`'s defaults. Times are milliseconds.
- **The plan table and subscription gating** (`plans.dfy`, `limits.dfy`): the usage count is a parameter.
- **The request schemas** (`schemas.dfy`): the zod constraints as predicates, and `safeValidateRequest`.
- **The widget and setup helpers**:
  - the setup page's `generateSlug` (`slug.dfy`);
  - the booking form's validation, submit gate and error clearing (`booking_form.dfy`);
  - the time-slot picker's morning/afternoon/evening grouping (`time_slot_picker.dfy`);
  - the date picker's month grid, selectable window, click guard and month navigation (`date_picker.dfy`).
- `wrappers.dfy` (`Option`, `Result`) and `seqs.dfy` (an order-preserving `Filter` with its lemmas) are shared helpers.

The model follows the code as written, including its quirks:

- A returned slot's end includes the buffer, while a stored appointment's end does not.
- Booking makes no conflict re-check.
- A malformed time yields an empty window.
- An hours-query error reads as a closed day.
- An email with surrounding spaces is refused.
- A phone number needs no digit.

## Model

| member | source | states |
|---|---|---|
| `Availability.SplitColon` | lib/scheduling/availability.ts:136-137 | `split(':')` yields at least one piece and no piece holds ':' |
| `Availability.SplitColonJoins` | lib/scheduling/availability.ts:136-137 | joining the pieces with ':' gives back the input, so splitting loses nothing |
| `Availability.SplitColonAt` | lib/scheduling/availability.ts:136 | the text before the first ':' is the first piece and the rest splits on its own |
| `Availability.SplitColonNone` | lib/scheduling/availability.ts:136 | a string without ':' splits into itself alone |
| `Availability.ClockMinutesOfWellFormed` | lib/scheduling/availability.ts:136-144 | "HH:MM" or "HH:MM:SS" sets the clock to HH*60+MM minutes after midnight; seconds are ignored |
| `Availability.ClockMinutesWithoutColon` | lib/scheduling/availability.ts:136-141 | a time without ':' leaves the minute undefined, so the window start is NaN |
| `Availability.ClockMinutesRejectsBadHour` | lib/scheduling/availability.ts:136-141 | an hour piece that is not a run of digits makes the time NaN |
| `Availability.ConflictIsHalfOpenOverlap` | lib/scheduling/availability.ts:153-165 | for positive-length intervals the three-clause conflict test is exactly half-open overlap `s < aEnd && e > aStart` |
| `Availability.TouchingIsNoConflict` | lib/scheduling/availability.ts:160-164 | a slot ending where an appointment starts, or starting where one ends, is no conflict |
| `Availability.SlotInterval` | lib/scheduling/availability.ts:147 | the step is at most 15 and at most the span, and equals one of them |
| `Availability.GridStep` | lib/scheduling/availability.ts:177 | a start is on the grid from `cur` iff it is `cur` or on the grid from `cur + step` |
| `Availability.GridAtLeast` | lib/scheduling/availability.ts:149-177 | with a positive step, every grid point lies at or after the window start |
| `Availability.SlotsFromExactly` | lib/scheduling/availability.ts:149-178 | a slot is produced iff its start is on the grid, it fits the window (`start + span <= end`), its end is `start + span`, it conflicts with no appointment and it starts after now |
| `Availability.SlotsFromStartAtLeast` | lib/scheduling/availability.ts:149-177 | no produced slot starts before the current candidate |
| `Availability.PrependAscending` | lib/scheduling/availability.ts:170-177 | pushing the current candidate before later ascending slots keeps the list ascending |
| `Availability.SlotsFromAscending` | lib/scheduling/availability.ts:149-178 | the slots of one window come out in strictly increasing start order |
| `Availability.BookedSlotIsFree` | lib/scheduling/availability.ts:149-174 | booking a produced start for a duration no longer than the span overlaps none of the positive-length appointments checked |
| `Availability.SlotsFromOffered` | lib/scheduling/availability.ts:149-177 | an offered candidate that fits the window is emitted before the candidates that follow it |
| `Availability.SlotsFromSkipped` | lib/scheduling/availability.ts:149-177 | a candidate that fits but conflicts or is not in the future is passed over |
| `Availability.GenerateSlotsForPeriod` | lib/scheduling/availability.ts:126-181 | the stepping loop returns exactly the slots `WindowSlots` describes, which `SlotsFromExactly` characterises |
| `Availability.StepKeepsPrefix` | lib/scheduling/availability.ts:149-177 | one pass of the loop body keeps the emitted slots followed by the remaining candidates' slots equal to the window's slots |
| `Availability.ResolveServiceCases` | lib/scheduling/availability.ts:32-68 | one exact (id, business) row wins; otherwise the first active service of the business; no result iff neither exists, which throws 'Service not found' |
| `Availability.RowsSlotsMembership` | lib/scheduling/availability.ts:109-118 | the concatenated result holds a slot iff some hours row's window produces it |
| `Availability.ClosedDayHasNoSlots` | lib/scheduling/availability.ts:83-85 | with no active hours row for the weekday, or a failing hours query, the listing is callable whatever the service spans and gives `[]` once the service resolves |
| `Availability.FailedAppointmentsQueryFails` | lib/scheduling/availability.ts:100-102 | with the service resolved and an active hours row for the weekday, a failing appointments query fails the listing with "Failed to fetch appointments", whatever the spans |
| `Availability.WindowSlotsExactly` | lib/scheduling/availability.ts:136-178 | a window admits a slot iff both times parse and the slot is on the window's grid, fits, is free and is in the future |
| `Availability.ActiveRowsSlotsSound` | lib/scheduling/availability.ts:109-118 | a slot produced by the weekday's active windows is admitted by one of those rows |
| `Availability.ActiveRowsSlotsComplete` | lib/scheduling/availability.ts:109-118 | a slot admitted by an active row of the weekday is produced by the windows |
| `Availability.ActiveRowsSlotsExactly` | lib/scheduling/availability.ts:109-118 | both directions: the active windows produce a slot iff an active row of the weekday admits it |
| `Availability.AvailableSlotsExactly` | lib/scheduling/availability.ts:23-121 | a successful listing holds a slot iff an active row of that weekday admits it, against the day's scheduled/confirmed appointments |
| `Availability.OfferedSlotIsFree` | lib/scheduling/availability.ts:88-118 | an offered start, booked for the service's duration, overlaps none of the day's considered appointments |
| `Availability.ResolvedSpanPositive` | lib/scheduling/availability.ts:107 | a table whose every service has a positive `duration + buffer` meets the listing's precondition for any business, service, day and query outcome |
| `Availability.BeforeAt` | lib/scheduling/availability.ts:210 | `email.split('@')[0]` is a prefix without '@', followed by '@' when shorter than the email |
| `Availability.UniqueKeysAtMostOne` | lib/scheduling/availability.ts:193-198 | with at most one row per (business, email), the lookup finds at most one row |
| `Availability.FindOrCreateFindsExisting` | lib/scheduling/availability.ts:193-202 | an existing (business, email) row's id is returned and the store is unchanged |
| `Availability.FindOrCreateInsertsOne` | lib/scheduling/availability.ts:205-214 | a missing key appends exactly one row with a fresh id, the key, the name defaulting to the email's local part and the phone to null |
| `Availability.FindOrCreateKeepsInvariants` | lib/scheduling/availability.ts:186-228 | keys stay unique and ids stay below the next fresh id |
| `Availability.FindOrCreateIdempotent` | lib/scheduling/availability.ts:186-228 | a second call with the same key returns the same id and changes nothing |
| `Availability.BusinessTimezone` | lib/scheduling/availability.ts:241-248 | the timezone is never empty: the business's, else 'America/New_York' |
| `Availability.BookedDuration` | lib/scheduling/availability.ts:265 | the booked duration is the service's, or 30 when that is 0 |
| `Availability.BookAppendsOneScheduled` | lib/scheduling/availability.ts:233-298 | an unknown service throws; otherwise exactly one `scheduled` row is appended with `end = start + (duration \|\| 30)`, the business's timezone and a fresh id, and nothing else changes |
| `Availability.BookingTwiceDoubleBooks` | lib/scheduling/availability.ts:268-281 | two bookings of the same start both succeed and overlap: there is no re-check |
| `Availability.BookingOfferedSlotAvoidsConsidered` | lib/scheduling/availability.ts:264-281 | booking an offered start overlaps none of the appointments the listing considered |
| `Availability.Store.constructor` | lib/scheduling/availability.ts:4-7 | a store over the given businesses, services and hours, with no customers or appointments |
| `Availability.Store.GetAvailableSlots` | lib/scheduling/availability.ts:106-120 | the loop over the hours rows returns `AvailableSlots` of the current tables and changes nothing |
| `Availability.Store.FindOrCreateCustomer` | lib/scheduling/availability.ts:186-228 | the customer table and id counter become `FindOrCreate` of the old ones; the store stays valid |
| `Availability.Store.CreateAppointment` | lib/scheduling/availability.ts:233-298 | the appointment table and id counter become `Book` of the old ones; the store stays valid |
| `RateLimit.StepCases` | lib/rate-limit.ts:27-59 | a missing or expired entry restarts at count 1 until `now + windowMs`; below the limit the count grows by one and the reset instant stays; at the limit the call is denied with 0 remaining and the entry unchanged |
| `RateLimit.ResetInstantIsInsideWindow` | lib/rate-limit.ts:31 | an entry whose reset instant equals now is still counted, not restarted |
| `RateLimit.StepKeepsCountInRange` | lib/rate-limit.ts:31-59 | for `limit >= 1` a stored count stays within 1..limit |
| `RateLimit.WithinWindowBound` | lib/rate-limit.ts:45-59 | inside an open window at most `limit - count` further calls are allowed |
| `RateLimit.AtMostLimitPerWindow` | lib/rate-limit.ts:31-59 | at most `limit` calls are allowed per window per identifier |
| `RateLimit.Unexpired` | lib/rate-limit.ts:14-18 | the kept entries are exactly those with `resetTime >= now`, unchanged |
| `RateLimit.RateLimiter.constructor` | lib/rate-limit.ts:6-7 | the limiter starts with no entries |
| `RateLimit.RateLimiter.Check` | lib/rate-limit.ts:22-60 | the decision is `Step`'s, only this identifier's entry changes, and counts stay within the limit |
| `RateLimit.RateLimiter.Sweep` | lib/rate-limit.ts:12-19 | the sweep deletes exactly the expired entries |
| `RateLimit.CheckRateLimit` | lib/rate-limit.ts:78-84 | `check` with a limit of 60 and a window of 60000 ms unless given |
| `Plans.Rank` | lib/stripe/plans.ts:4-62 | the tier order STARTER < PROFESSIONAL < ENTERPRISE, ranks 0..2 |
| `Plans.RankIsInjective` | lib/stripe/plans.ts:4-62 | no two tiers share a rank |
| `Plans.PricesIncrease` | lib/stripe/plans.ts:8-45 | prices 19, 29, 50 strictly increase with the tier; every plan is monthly |
| `Plans.LimitsIncrease` | lib/stripe/plans.ts:17-60 | ENTERPRISE is unlimited (-1) everywhere; STARTER's finite limits are positive and below PROFESSIONAL's |
| `Plans.PlanNamesDistinct` | lib/stripe/plans.ts:6-43 | the plan names are pairwise different |
| `SubscriptionLimits.NatToString` | lib/subscription/limits.ts:68 | a number in the message is a non-empty run of decimal digits |
| `SubscriptionLimits.NatToStringValue` | lib/subscription/limits.ts:68 | the digits in the message read back as the limit itself, so `${limit}` names the value checked |
| `SubscriptionLimits.NextPlanIsOneTierUp` | lib/subscription/limits.ts:105-110 | the suggested plan is Starter without a plan, else one tier up, ENTERPRISE pointing at itself |
| `SubscriptionLimits.CheckSubscriptionLimit` | lib/subscription/limits.ts:6-69 | the limit is the plan's or 10; allowed iff the limit is -1 or usage is below it; the message is absent iff allowed and otherwise names the limit and the next plan |
| `SubscriptionLimits.AllowedIsDownwardClosed` | lib/subscription/limits.ts:60 | lower usage never turns an allowed request into a denial |
| `SubscriptionLimits.UpgradeKeepsAllowance` | lib/subscription/limits.ts:12-60 | a higher paid tier allows whatever a lower one does; ENTERPRISE allows everything |
| `SubscriptionLimits.FreeTierAllowsMoreServicesThanStarter` | lib/subscription/limits.ts:13 | the free tier's flat 10 lets a business with 7 services add more, while STARTER (5) refuses |
| `SubscriptionLimits.FeatureAccessByTier` | lib/subscription/limits.ts:75-100 | access iff there is a plan at or above the feature's minimum tier (ENTERPRISE for API access and custom AI, PROFESSIONAL otherwise); no plan gets nothing |
| `SubscriptionLimits.GetPlanName` | lib/subscription/limits.ts:115-118 | 'Free' without a plan, otherwise the plan's name |
| `SubscriptionLimits.PlanNameIsInjective` | lib/subscription/limits.ts:115-118 | different plans, and no plan, get different names |
| `SubscriptionLimits.CanCreateResource` | lib/subscription/limits.ts:123-133 | the same `allowed` and `message` as the limit check |
| `Schemas.CheckoutPlan` | lib/validation/schemas.ts:11-13 | a checkout request names a plan iff its type is STARTER, PROFESSIONAL or ENTERPRISE, and names that one |
| `Schemas.HoursAreNotRangeChecked` | lib/validation/schemas.ts:60-65 | "99:99" passes, as does a closing time before the opening time |
| `Schemas.ValidatedClockParses` | lib/validation/schemas.ts:62-63 | a time accepted by the schema always parses in slot generation, to at most 99*60+99 minutes |
| `Schemas.ServiceDurationBounds` | lib/validation/schemas.ts:19-20 | for every input: an accepted service has a whole duration of 5..480 and, when given, a whole buffer of 0..120, so fractional or out-of-range values are refused |
| `Schemas.WholeDurationsAccepted` | lib/validation/schemas.ts:16-24 | conversely, a whole duration and buffer are accepted iff they lie in 5..480 and 0..120 |
| `Schemas.ColorPattern` | lib/validation/schemas.ts:48 | for every string: it matches iff it is '#' followed by exactly six hex digits of either case |
| `Schemas.ColorExamples` | lib/validation/schemas.ts:48 | examples only: "#1a2B3c" matches; a short, a long, an unprefixed and a non-hex string do not |
| `Schemas.StoredService` | lib/validation/schemas.ts:19-20 | a row built from an input the schema accepts keeps the validated duration and buffer exactly (an absent buffer as 0); the program itself never applies this schema before writing a service |
| `Schemas.ValidServiceSpanPositive` | lib/validation/schemas.ts:19-20 | a valid service spans 5..600 minutes and steps by at least 5 |
| `Schemas.ValidServicesHavePositiveSpans` | lib/validation/schemas.ts:16-24 | a table built only from schema-accepted inputs would meet slot generation's positive-span precondition; this is a validation the program never performs on the service write path |
| `Schemas.SafeValidateRequest` | lib/validation/schemas.ts:83-92 | success with the parsed data exactly when parsing succeeds, else failure with the parser's error; never throws |
| `Schemas.ValidateRequest` | lib/validation/schemas.ts:73-75 | the parsed data, or the parser's error raised, agreeing with `safeValidateRequest` |
| `Slug.LowerChar` | app/dashboard/setup/page.tsx:94 | ASCII capitals move down by 32 to the lower-case letter; everything else stays |
| `Slug.ToLower` | app/dashboard/setup/page.tsx:94 | lower-casing keeps the length and maps each character |
| `Slug.CollapseRunsShape` | app/dashboard/setup/page.tsx:95 | after collapsing, only a-z, 0-9 and '-' remain, never "--", and a leading '-' comes only from a leading separator |
| `Slug.CollapseWord` | app/dashboard/setup/page.tsx:95 | a run of letters and digits passes through the replacement unchanged |
| `Slug.TrimDashesShape` | app/dashboard/setup/page.tsx:96 | trimming a collapsed string leaves no '-' at either end |
| `Slug.GenerateSlugIsSlug` | app/dashboard/setup/page.tsx:92-97 | the slug holds only a-z, 0-9 and '-', never two adjacent '-', and no '-' at either end |
| `Slug.AlnumsCons` | app/dashboard/setup/page.tsx:95 | the letters and digits of `c + s` are `c`'s (if any) followed by `s`'s |
| `Slug.SkipRunKeepsAlnums` | app/dashboard/setup/page.tsx:95 | a separator run carries no letters or digits |
| `Slug.CollapseRunsKeepsAlnums` | app/dashboard/setup/page.tsx:95 | collapsing keeps the letters and digits in order |
| `Slug.TrimDashesKeepsAlnums` | app/dashboard/setup/page.tsx:96 | trimming removes only dashes |
| `Slug.GenerateSlugKeepsAlnums` | app/dashboard/setup/page.tsx:92-97 | the slug's letters and digits are exactly the lower-cased name's, in order |
| `Slug.GenerateSlugOfNoAlnums` | app/dashboard/setup/page.tsx:95-96 | a name without ASCII letters or digits yields "" |
| `Slug.CollapseRunsOfSlugChars` | app/dashboard/setup/page.tsx:95 | a string of slug characters without "--" passes the collapse unchanged |
| `Slug.SlugIsFixedPoint` | app/dashboard/setup/page.tsx:140 | a slug is its own slug |
| `Slug.GenerateSlugIdempotent` | app/dashboard/setup/page.tsx:120 | applying `generateSlug` twice equals applying it once |
| `Slug.AcmeExample` | app/dashboard/setup/page.tsx:92-97 | "Acme Inc." becomes "acme-inc" |
| `BookingForm.Trim` | components/widget/BookingForm.tsx:38 | `trim()` leaves no whitespace at either end |
| `BookingForm.BlankIffAllWhitespace` | components/widget/BookingForm.tsx:38-48 | `!s.trim()` holds iff every character is JavaScript whitespace |
| `BookingForm.EmailPartsAreValid` | components/widget/BookingForm.tsx:44 | an address built from the pattern's three parts passes the positional test |
| `BookingForm.ValidEmailHasParts` | components/widget/BookingForm.tsx:44 | a string passing the positional test splits into the pattern's three parts |
| `BookingForm.EmailRegexIffValid` | components/widget/BookingForm.tsx:44 | the email pattern holds iff there is one '@', not first, no whitespace, and a '.' after it that neither follows it directly nor ends the string |
| `BookingForm.PhoneBody` | components/widget/BookingForm.tsx:50 | the phone without its optional leading '+' |
| `BookingForm.PhoneRegexIffValid` | components/widget/BookingForm.tsx:50 | the phone pattern holds iff after an optional '+' there is at least one digit, whitespace, '-', '(' or ')' and nothing else |
| `BookingForm.NameError` | components/widget/BookingForm.tsx:38-40 | 'Name is required' iff the name is blank |
| `BookingForm.EmailError` | components/widget/BookingForm.tsx:42-46 | 'Email is required' iff blank; 'Please enter a valid email address' iff not blank and the untrimmed value fails the pattern |
| `BookingForm.PhoneError` | components/widget/BookingForm.tsx:48-52 | 'Phone number is required' iff blank; 'Please enter a valid phone number' iff not blank and failing the pattern |
| `BookingForm.FieldErrors` | components/widget/BookingForm.tsx:35-54 | one error entry per failing field, with its message; notes are never checked |
| `BookingForm.ValidIffFieldsValid` | components/widget/BookingForm.tsx:54-55 | no errors iff the name and phone are not blank and the email and phone match their patterns |
| `BookingForm.BlankPhoneMatchesPattern` | components/widget/BookingForm.tsx:48-52 | a phone of spaces matches the pattern and is caught as required instead |
| `BookingForm.UntrimmedEmailRejected` | components/widget/BookingForm.tsx:42-46 | " a@b.co" is refused although "a@b.co" passes |
| `BookingForm.PhoneNeedsNoDigit` | components/widget/BookingForm.tsx:50 | "(-)" is a valid phone; "+" alone is not |
| `BookingForm.WithField` | components/widget/BookingForm.tsx:66 | the named field takes the value and every other field keeps its own |
| `BookingForm.Form.constructor` | components/widget/BookingForm.tsx:27-33 | a form with empty fields and no errors |
| `BookingForm.Form.ValidateForm` | components/widget/BookingForm.tsx:35-56 | the errors become `FieldErrors` of the data; the result is true iff there are none |
| `BookingForm.Form.HandleSubmit` | components/widget/BookingForm.tsx:58-63 | the data reaches `onSubmit` only when validation passes, and is then the form's data |
| `BookingForm.Form.HandleChange` | components/widget/BookingForm.tsx:65-71 | only the named field changes; its error, if truthy, becomes '' and no other error changes |
| `BookingForm.ChangeTouchesOnlyItsField` | components/widget/BookingForm.tsx:65-71 | after a change the field holds the value, its error is not truthy, and the other fields and errors are as before |
| `TimeSlotPicker.PeriodOf` | components/widget/TimeSlotPicker.tsx:33-40 | morning iff hour < 12, afternoon iff 12 <= hour < 17, evening otherwise, including an unreadable (NaN) hour |
| `TimeSlotPicker.Group` | components/widget/TimeSlotPicker.tsx:32-41 | every slot of a group has that group's period |
| `TimeSlotPicker.GroupSlotsByPeriod` | components/widget/TimeSlotPicker.tsx:27-44 | the loop returns each period's slots in input order |
| `TimeSlotPicker.EachSlotInOneGroup` | components/widget/TimeSlotPicker.tsx:32-41 | an input slot is in a group iff that group is its period, so it lands in exactly one |
| `TimeSlotPicker.GroupsComeFromInput` | components/widget/TimeSlotPicker.tsx:32-41 | a group holds only input slots |
| `TimeSlotPicker.GroupsPartition` | components/widget/TimeSlotPicker.tsx:28-43 | the three groups together are the input as a multiset |
| `TimeSlotPicker.GroupSizesSum` | components/widget/TimeSlotPicker.tsx:28-43 | the group sizes sum to the number of slots |
| `TimeSlotPicker.GroupKeepsOrder` | components/widget/TimeSlotPicker.tsx:32-41 | input sorted by any key stays sorted within each group |
| `TimeSlotPicker.VisibleGroups` | components/widget/TimeSlotPicker.tsx:59 | a group is shown iff it has slots |
| `DatePicker.DaysInMonth` | components/widget/DatePicker.tsx:26-29 | 28..31 days under the Gregorian rules: February has 29 iff leap year; April, June, September and November have 30 |
| `DatePicker.Weekday` | components/widget/DatePicker.tsx:28 | `getDay()` is 0..6 |
| `DatePicker.Normalize` | components/widget/DatePicker.tsx:67-71 | a month index outside 0..11 carries into the year, keeping `12 * year + month` |
| `DatePicker.DaysInYear` | components/widget/DatePicker.tsx:26 | a year has 366 days iff it is a leap year |
| `DatePicker.LeapsBeforeStep` | components/widget/DatePicker.tsx:26 | the leap-year count steps by one exactly at leap years |
| `DatePicker.LastDayPrecedesNextMonth` | components/widget/DatePicker.tsx:26-29 | `new Date(y, m + 1, 0)` is day `DaysInMonth(y, m)` of month m, the day before the next month's first |
| `DatePicker.NextMonthStartDay` | components/widget/DatePicker.tsx:28-29 | the next month's grid starts on the weekday after this month's last day |
| `DatePicker.WeekdayAdvance` | components/widget/DatePicker.tsx:28 | k days on, the weekday moves k places round the week |
| `DatePicker.EpochIsThursday` | components/widget/DatePicker.tsx:28 | 1 January 1970 is day 0 and a Thursday |
| `DatePicker.NewYear2024IsMonday` | components/widget/DatePicker.tsx:28 | 1 January 2024 was a Monday |
| `DatePicker.LeapFebruaries` | components/widget/DatePicker.tsx:26-29 | February has 29 days in 2024 and 2000 and 28 in 1900 |
| `DatePicker.DayRange` | components/widget/DatePicker.tsx:50-56 | the set holds exactly the days between the bounds, both included |
| `DatePicker.SelectableDays` | components/widget/DatePicker.tsx:46-57 | a day is in the set iff `isDateSelectable` accepts it |
| `DatePicker.SelectableDaysCount` | components/widget/DatePicker.tsx:46-57 | there are `maxDaysAhead - minDaysAhead + 1` selectable days |
| `DatePicker.DefaultsOfferThirtyOneDays` | components/widget/DatePicker.tsx:15-16 | the defaults 0 and 30 offer 31 days, today included |
| `DatePicker.PastIsNeverSelectable` | components/widget/DatePicker.tsx:137 | with `minDaysAhead >= 0`, a date before today is never selectable |
| `DatePicker.ClickedDateAsWritten` | components/widget/DatePicker.tsx:59-64 | a date is handed on only if selectable and not loading, and it is the UTC day of the clicked local midnight |
| `DatePicker.IsoDayShift` | components/widget/DatePicker.tsx:62 | `toISOString()` names the day before the clicked one east of UTC, the clicked day elsewhere |
| `DatePicker.ClickEastOfUtcHandsOnPreviousDay` | components/widget/DatePicker.tsx:62 | clicking today at UTC+02:00 hands on yesterday |
| `DatePicker.ClickedDate` | components/widget/DatePicker.tsx:59-64 | a date is handed on only if selectable and not loading, and it is the clicked day |
| `DatePicker.ClickedDateAgreesWestOfUtc` | components/widget/DatePicker.tsx:62 | at or west of UTC the code as written hands on the intended day |
| `DatePicker.Picker.constructor` | components/widget/DatePicker.tsx:12-18 | the picker shows today's month, with `minDaysAhead` 0 and `maxDaysAhead` 30 unless given |
| `DatePicker.Picker.GenerateCalendarDates` | components/widget/DatePicker.tsx:21-44 | exactly `startDay` empty cells, the weekday of the 1st, then days 1..daysInMonth of the month in order |
| `DatePicker.Picker.HandleDateClick` | components/widget/DatePicker.tsx:59-64 | `onSelectDate` receives the clicked day only if it is selectable and the picker is not loading |
| `DatePicker.Picker.GoToPreviousMonth` | components/widget/DatePicker.tsx:66-68 | the month shown moves back one, carrying into the year |
| `DatePicker.Picker.GoToNextMonth` | components/widget/DatePicker.tsx:70-72 | the month shown moves forward one, carrying into the year |
| `DatePicker.MonthNavigationRoundTrip` | components/widget/DatePicker.tsx:66-72 | next then previous, or previous then next, returns to the month shown |
| `DatePicker.MonthNavigationCarries` | components/widget/DatePicker.tsx:67-71 | after December comes January of the next year, and before January comes December of the year before |

## Findings

| source | as written | input that shows it | evidently intended | confidence | as-written member | corrected member |
|---|---|---|---|---|---|---|
| components/widget/DatePicker.tsx:62 | the date handed to `onSelectDate` is `toISOString()`'s UTC date of the clicked local midnight | a browser at UTC+02:00 clicking today's cell (offset 120 minutes) hands on yesterday's date | the clicked local date in YYYY-MM-DD form | high (not executed) | `DatePicker.ClickEastOfUtcHandsOnPreviousDay` | `DatePicker.ClickedDate` |

`DatePicker.ClickedDateAsWritten` models line 62 as written. `DatePicker.Picker.HandleDateClick` uses the corrected `DatePicker.ClickedDate`. `DatePicker.ClickedDateAgreesWestOfUtc` shows the two agree wherever the browser is not ahead of UTC, which includes the default business timezone, America/New_York.

## Left out

- Database access (Supabase) becomes sequences held by `Availability.Store`. A query error becomes a boolean parameter. The console logging is not modelled.
- `new Date()`, `Date.now()`, the browser's time zone and date parsing are not modelled. The current instant or day is a parameter. A target date is its local midnight and weekday. `getHours()` of a slot start is a parameter (`hourOf`).
- Availability.GenerateSlotsForPeriod: reads "now" once per call rather than once per candidate as the source does. A clock that moves during the loop is not modelled.
- Availability.GenerateSlotsForPeriod: requires a positive span. With `duration + buffer <= 0` the source's loop never advances and does not terminate. Nothing in the program enforces a positive span: `createServiceSchema` is applied nowhere, and the dashboard writes services straight from `parseInt` of the form fields (app/dashboard/services/page.tsx:186, 201), guarded only by HTML `min` attributes, so an empty field gives NaN.
- Availability.AvailableSlots: requires that the resolved service have a positive span whenever the listing reaches the stepping loop (`SteppingSpanPositive`). With a non-positive span the source still answers when every window is skipped (unparseable times, or a window shorter than the span); those tables are excluded here, since the other tables with such a span make the source loop forever.
- Availability.Store.GetAvailableSlots: carries the same precondition as `AvailableSlots`, for the same reason.
- `Number(piece)`'s handling of signs, spaces, decimals and exponents is not modelled. A piece parses only if it is empty (0) or all ASCII digits. Everything else is NaN, which empties the window.
- Seconds in a stored time are ignored, as in the source. Times are whole minutes, so sub-minute appointment instants are not modelled.
- Identifiers are natural numbers issued by a counter, standing for database-generated UUIDs.
- Concurrent requests are not modelled. Two simultaneous `findOrCreateCustomer` calls could insert two rows for one key. The model runs calls one after another.
- The rate limiter's `cleanup()` (clearing the five-minute timer) and `getRateLimitHeaders` are not modelled. The sweep is a method called with the current time.
- RateLimit: counts are unbounded integers. JavaScript's floating-point numbers are not modelled.
- The usage counting in `checkSubscriptionLimit` (three database counts, conversations since the start of the month) is not modelled. The count is a parameter.
- The Stripe price ids read from the environment and the plans' marketing feature lists are not modelled.
- zod's email, uuid, url and datetime format checks are not modelled. They are given predicates (`Schemas.FormatChecks`).
- zod measures string lengths in UTF-16 code units; the model counts characters.
- Slug.LowerChar: lower-cases only ASCII letters. Unicode case mapping is not modelled. A few non-ASCII capitals lower-case to ASCII letters in JavaScript, such as the Kelvin sign to 'k'.
- The booking form's fields form a fixed enumeration; `handleChange` with an arbitrary field name is not modelled.
- Rendering, the `onSubmit`, `onCancel` and `onSelectDate` callbacks' effects, and the `loading` spinner are not modelled. A submission or selection is the value handed to the callback.
- DatePicker: the YYYY-MM-DD spelling of a date is not modelled; a date handed on is its day number. Daylight-saving shifts are not modelled, because every date the picker compares is a local midnight.
