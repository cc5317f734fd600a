# Booking widget core, modelled in Dafny

This project models the logic of the embeddable restaurant booking widget:

- the three-step booking wizard of `src/components/BookingModal.tsx`:
  - step 1 takes the date and the party size;
  - step 2 offers the available times;
  - step 3 takes the guest's details and confirms;
- how a prefill coming from the chat assistant fills the wizard and picks the step it opens at;
- the two helpers above the component, which normalise a prefilled time and collect the offered times;
- the booking client `src/lib/bookingClient.ts`: the availability and booking requests, and how their responses become values or errors;
- the chat call `chatSend` of `src/widget/api.ts`, and how its reply is decoded;
- the calendar of `src/components/booking/DatePicker.tsx`: its ISO date helpers, its month arithmetic, the Monday-first grid of day cells, and the picker's own state.

Modules, one concept each:

- `Wrappers`: Option and Result.
- `JsText`: the JavaScript string built-ins the code uses, on `seq<char>`: `trim`, `String(n)`, `Number(digits)`, `padStart`, `join`, and the pattern `^(\d{1,2}):(\d{2})`.
- `Json`: decoded JSON values, `?.`, truthiness, `??`, `||` and `String(v)`.
- `Types`: the records of `src/lib/types.ts`, plus the HTTP boundary. That boundary is the request handed to `fetch`, and what `fetch` resolved to.
- `BookingClient`, `ChatApi`, `Calendar`, `DatePicker`, `BookingModal`: one per source file. `Calendar` stands for what the code asks of JavaScript's `Date`.

The form of each module follows its source:

- The clients and the date helpers are pure, so they are functions, with lemmas about them.
- `uniqueAvailableSlots`, `missingForConfirm` and the `days` grid builder push into arrays in loops. They are methods with loops, proved equal to a specification function whose properties are proved separately.
- The wizard is the class `BookingModal.BookingWizard`: its React state cells are fields, and its handlers are methods.
- The date picker is the class `DatePicker.Picker`.

Each handler runs to completion in one method call:

- what `fetch` resolved to (a status, the body text, and what `JSON.parse` made of it, or a rejection message) is an argument;
- the request the handler would send is its result.

Places where the code does something other than what a reader might expect; the model follows the code:

- A minute must have two digits. `"7:5"` does not match the time pattern and is returned trimmed but otherwise unchanged (`BookingClient.OneDigitMinuteExample`), not as `"07:05"`.
- Re-opening the wizard without a prefill keeps every form value and only resets the step, the error and the availability (`BookingModal.BookingWizard.Show`). The form is not reset on opening.
- The 24-entry cap on offered times applies only to the buttons shown. Whether a chosen time is cleared is decided against the whole list (`BookingModal.BookingWizard.Offer`), not against the 24 shown.
- `normalizePrefillTime` and `normalizeTimeToHHMM` have the same statements, apart from one comment (`src/lib/bookingClient.ts:25`) and a parameter that may be `undefined` in the first. So the first is defined by the second (`BookingModal.NormalizePrefillTime`).
- `contact.trim() || ""` is just `contact.trim()`. So contact and special requests are always sent, possibly as empty strings (`BookingModal.ConfirmBody`).
- A prefilled time made only of white space is truthy. It still opens the details step, but with an empty time, which the confirmation then reports as missing (`BookingModal.BlankTimeReachesDetails`).

## Model

| member | source | states |
|---|---|---|
| JsText.Trim | src/components/BookingModal.tsx:31 | `trim` leaves no white space at either end and never lengthens the text |
| JsText.TrimStartSplits | src/lib/bookingClient.ts:24 | trimming the start drops exactly a prefix of white space and keeps the rest |
| JsText.TrimEndSplits | src/lib/bookingClient.ts:24 | trimming the end drops exactly a suffix of white space and keeps the rest |
| JsText.TrimOfTrimmed | src/lib/bookingClient.ts:24 | text with no white space at its ends is left alone by `trim` |
| JsText.TrimIdempotent | src/lib/bookingClient.ts:24 | trimming twice is trimming once |
| JsText.TrimEmptyIffWhitespace | src/components/BookingModal.tsx:220 | `x.trim()` is empty exactly when `x` is all white space, in both directions |
| JsText.NatToDecimal | src/components/booking/DatePicker.tsx:15 | `String(n)` is a non-empty string of digits |
| JsText.NatToDecimalValue | src/components/booking/DatePicker.tsx:15 | `Number(String(n)) == n`, and the spelling has no leading zero unless n is 0 |
| JsText.IntToDecimal | src/components/booking/DatePicker.tsx:18 | a negative integer is spelled as `-` before its magnitude |
| JsText.PadStart2 | src/components/booking/DatePicker.tsx:15 | `padStart(2, "0")` keeps the text as its suffix and fills only zeros in front, up to length 2 |
| JsText.TwoDigits | src/lib/bookingClient.ts:28-29 | a number below 100, padded, is exactly its tens digit then its units digit |
| JsText.TwoDigitValue | src/lib/bookingClient.ts:28-29 | two digits read back as ten times the first plus the second |
| JsText.Join | src/components/BookingModal.tsx:275 | joining no part gives "", and joining one part gives that part; `JsText.JoinSnoc` states the general case |
| JsText.JoinSnoc | src/components/BookingModal.tsx:275 | joining more than one part is the join of all but the last, the separator, then the last |
| JsText.HourMinuteWidthUnique | src/lib/bookingClient.ts:26 | the hour group can match at most one width, so the match is unambiguous |
| JsText.HourMinutePrefix | src/lib/bookingClient.ts:26 | no match exactly when neither hour width fits; a match reads both groups, each at most 99 |
| Json.Get | src/lib/bookingClient.ts:58-60 | `v?.key` is defined exactly when `v` is an object holding `key`, and is then that field's value |
| Json.Truthy | src/lib/bookingClient.ts:57-61 | JavaScript truthiness of a JSON value; `Json.FalsyValues` states exactly which values are falsy |
| Json.Nullish | src/widget/api.ts:52-57 | null or undefined, the values `??` skips; `Json.Coalesce` states its use |
| Json.ToJsString | src/lib/bookingClient.ts:61 | `String(v)`; `Json.TruthyButEmptyText` shows an array printing as "" |
| Json.Coalesce | src/widget/api.ts:52-57 | `a ?? b` is `a` unless `a` is null or undefined, and `b` otherwise |
| Json.OrElse | src/lib/bookingClient.ts:57-61 | `a \|\| b` is `a` when `a` is truthy, and `b` otherwise |
| Json.FalsyValues | src/lib/bookingClient.ts:102-103 | the falsy JSON values are exactly null, false, 0 and "" |
| Json.TruthyButEmptyText | src/widget/api.ts:61 | an empty array is truthy yet prints as "" |
| Types.RequestJsonFields | src/lib/types.ts:44-52 | the booking body holds every payload field, and holds contact and special requests exactly when they are given |
| Types.HeaderValue | src/lib/bookingClient.ts:45-49 | the first header of a name is found exactly when one exists, with its value |
| BookingClient.WithNoTrailingSlash | src/lib/bookingClient.ts:10-12 | the result is a prefix of the input that does not end in `/`, and only slashes are removed |
| BookingClient.Slashes | src/lib/bookingClient.ts:11 | a run of `k` slashes |
| BookingClient.WithNoTrailingSlashStripsRun | src/lib/bookingClient.ts:10-12 | a base that does not end in `/`, followed by any run of slashes, comes back as that base |
| BookingClient.WithNoTrailingSlashIdempotent | src/lib/bookingClient.ts:10-12 | stripping twice strips nothing more |
| BookingClient.ParseJsonOrText | src/lib/bookingClient.ts:14-21 | empty text or text that is not JSON decodes to `{raw: text}`; other text decodes to its parsed value |
| BookingClient.ErrorMessage | src/lib/bookingClient.ts:56-62 | the error is the first truthy one of `detail`, `message` and `error`, stringified, and otherwise the fallback |
| BookingClient.NonJsonErrorIsFallback | src/lib/bookingClient.ts:14-21 | a body that is not JSON always gives the status fallback message |
| BookingClient.EmptyBodyIsNotJson | src/lib/bookingClient.ts:14-21 | an empty body is never taken as JSON, whatever `parsed` says: on error it gives the status fallback of either request, and an availability success then has no slots |
| BookingClient.BookingHeaders | src/lib/bookingClient.ts:45-49 | the three headers of both requests; `BookingClient.BookingHeadersCarryCredentials` states their values |
| BookingClient.BookingHeadersCarryCredentials | src/lib/bookingClient.ts:45-49 | both requests send `X-Venue-Id`, `X-Embed-Key` and the JSON content type |
| BookingClient.RequestUrl | src/lib/bookingClient.ts:40-41 | the URL is the base without its trailing slashes, then the path, and the base is that plus slashes |
| BookingClient.AvailabilityRequestFor | src/lib/bookingClient.ts:40-52 | the availability request goes to the stripped base plus path, with the credentials and the payload as body |
| BookingClient.SlotsOrEmpty | src/lib/bookingClient.ts:65 | `slots` is taken when it is an array, and is `[]` otherwise |
| BookingClient.AvailabilityResult | src/lib/bookingClient.ts:33-67 | a rejection passes its message on; a non-2xx response fails with the preferred message; a 2xx response yields the slots |
| BookingClient.AvailabilityNonJson | src/lib/bookingClient.ts:54-66 | a non-JSON body fails with `Availability failed (status).` on error, and yields no slots on success |
| BookingClient.NormalizeTimeToHHMM | src/lib/bookingClient.ts:23-31 | `normalizeTimeToHHMM`; its properties are stated by the lemmas below |
| BookingClient.NormalizeShape | src/lib/bookingClient.ts:23-31 | the normal form is the trimmed text or a clock time, and a clock time whenever the pattern matches |
| BookingClient.NormalizeMatched | src/lib/bookingClient.ts:23-31 | a matching time comes out as `HH:MM`, the hour capped at 23 and the minute at 59 |
| BookingClient.NormalizeUnmatched | src/lib/bookingClient.ts:26-27 | any other text comes out trimmed and otherwise unchanged |
| BookingClient.NormalizeIdempotent | src/lib/bookingClient.ts:23-31 | normalising a normalised time changes nothing |
| BookingClient.ClockSpelling | src/lib/bookingClient.ts:28-30 | the padded spelling of a clock time spells that hour and minute, and is its own normal form |
| BookingClient.MatchedSpelling | src/lib/bookingClient.ts:28-30 | a matched time is spelled from its capped hour and minute |
| BookingClient.MatchedDigits | src/lib/bookingClient.ts:28-30 | a matched time is five characters: two digits, a colon, two digits |
| BookingClient.CappedExample | src/lib/bookingClient.ts:28-29 | `"25:99"` becomes `"23:59"` |
| BookingClient.PaddedExample | src/lib/bookingClient.ts:24-30 | `" 7:05 "` becomes `"07:05"` |
| BookingClient.SecondsExample | src/lib/bookingClient.ts:25-26 | `"19:00:00"` becomes `"19:00"` |
| BookingClient.OneDigitMinuteExample | src/lib/bookingClient.ts:26-27 | `"7:5"` does not match and stays `"7:5"` |
| BookingClient.CreateBookingRequestFor | src/lib/bookingClient.ts:76-91 | the booking request goes to the stripped base plus path, with the credentials, and its body is the payload with the time normalised |
| BookingClient.BookingJsonWithTime | src/lib/bookingClient.ts:89 | that body differs from the payload's own only in `time_24h` |
| BookingClient.StringIfTruthy | src/lib/bookingClient.ts:102-103 | a field is present exactly when it is truthy in the response, and is then stringified |
| BookingClient.BookingResult | src/lib/bookingClient.ts:69-108 | a rejection passes its message on; a non-2xx response fails with the preferred message or `Booking failed (status).`; a 2xx response yields a result |
| BookingClient.BookingResultFields | src/lib/bookingClient.ts:101-107 | code and manage URL are present exactly when truthy, and stringified; status, checkout URL and expiry pass through as sent |
| BookingClient.RequiresPaymentIsSuccess | src/lib/bookingClient.ts:101-107 | a non-empty 2xx `requires_payment` answer reaches the caller as a success, with its checkout URL |
| ChatApi.ChatRequestBody | src/widget/api.ts:27-30 | the body is the payload plus `venue_id`; `session_id` is there exactly when given, and nothing else is |
| ChatApi.ChatRequestFor | src/widget/api.ts:16-32 | the chat request goes to `apiBase/api/chat` with `x-venue-id` and `x-api-key`, and that body |
| ChatApi.DecodeChatBody | src/widget/api.ts:34-41 | an empty body is `{}`; text that is not JSON is `{reply: text}`; otherwise it is the parsed value |
| ChatApi.ReplyValue | src/widget/api.ts:52-57 | the reply is the first of `reply`, `answer`, `message` and `text` that is not null or undefined, then a string body, then "" |
| ChatApi.AssistantText | src/widget/api.ts:52-61 | the text is the reply stringified when truthy, and "" otherwise |
| ChatApi.ChatErrorMessage | src/widget/api.ts:43-50 | the error is the first truthy one of `detail`, `message` and `error`, and otherwise `chatSend failed (status)` |
| ChatApi.ChatSendResult | src/widget/api.ts:10-63 | a rejection passes its message on; a non-2xx response fails with the preferred message; a 2xx response yields the decoded body as `raw`, with its text |
| ChatApi.EmptyBodyGivesEmptyText | src/widget/api.ts:36-38 | an empty 2xx body gives `{}` and the text "" |
| ChatApi.NonJsonBodyIsTheText | src/widget/api.ts:39-41 | a 2xx body that is not JSON comes back as the text itself |
| ChatApi.NonJsonErrorIsFallback | src/widget/api.ts:43-50 | a non-2xx body that is not JSON fails with the status message |
| ChatApi.StringBodyIsTheText | src/widget/api.ts:57 | a JSON string body is the text |
| ChatApi.PresentReplyWins | src/widget/api.ts:53 | a present, non-null `reply` decides the text even when it is falsy |
| ChatApi.NullReplyFallsThrough | src/widget/api.ts:53-54 | a null `reply` gives way to `answer` |
| Calendar.DaysInMonth | src/components/booking/DatePicker.tsx:29-31 | a month has 28 to 31 days, and February has 29 exactly in leap years |
| Calendar.NextDay | src/components/booking/DatePicker.tsx:121 | the next day is a calendar date |
| Calendar.NextDayNumber | src/components/booking/DatePicker.tsx:121 | the next day is one day on in the day count, across month and year ends |
| Calendar.PrevDayNumber | src/components/booking/DatePicker.tsx:110 | the previous day is one day back in the day count |
| Calendar.AddDaysNumber | src/components/booking/DatePicker.tsx:110 | adding `n` days moves the day count by exactly `n` |
| Calendar.NextDayOfAddDays | src/components/booking/DatePicker.tsx:121 | stepping one day on from `d + n` gives `d + (n + 1)` |
| Calendar.AddDaysWithinMonth | src/components/booking/DatePicker.tsx:115 | counting on from the first of a month reaches each of its days |
| Calendar.Weekday | src/components/booking/DatePicker.tsx:104 | `getDay()` is between 0 and 6 |
| Calendar.WeekdayOfNextDay | src/components/booking/DatePicker.tsx:104 | the weekday advances by one each day, wrapping after Saturday |
| Calendar.KnownMonday | src/components/booking/DatePicker.tsx:104 | 1 January 2024 is a Monday, which anchors the weekday count |
| Calendar.MakeDay | src/components/booking/DatePicker.tsx:23 | `new Date(y, m, d)` is always a calendar date, whatever the month and day overflow |
| Calendar.MakeDayInMonth | src/components/booking/DatePicker.tsx:23 | on a day of an existing month it is that very day |
| Calendar.NewDate | src/components/booking/DatePicker.tsx:23 | `new Date(year, monthIndex, date)` is always a calendar date |
| Calendar.SetDate | src/components/booking/DatePicker.tsx:110 | `setDate` on a copy is always a calendar date |
| Calendar.DayNumberOrder | src/components/booking/DatePicker.tsx:203 | comparing two dates' time values is comparing their year, then month, then day |
| DatePicker.ParseISODate | src/components/booking/DatePicker.tsx:20-25 | null exactly when the text lacks the `YYYY-MM-DD` shape; otherwise the date the constructor makes of the three numbers |
| DatePicker.Pad2 | src/components/booking/DatePicker.tsx:14-16 | `pad2` is at least two characters, all digits for a non-negative number |
| DatePicker.ToISODate | src/components/booking/DatePicker.tsx:17-19 | `toISODate`; `DatePicker.ISODateFields` and `DatePicker.ISODateRoundTrip` state its shape and its inverse |
| DatePicker.FourDigitYear | src/components/booking/DatePicker.tsx:18 | years 1000 to 9999 are spelled with four digits |
| DatePicker.Pad2Value | src/components/booking/DatePicker.tsx:14-16 | `pad2` of 0..99 is two digits that read back as the number |
| DatePicker.ISODateFields | src/components/booking/DatePicker.tsx:17-19 | `toISODate` has the ISO shape, and its three fields read back as year, month and day |
| DatePicker.ISODateRoundTrip | src/components/booking/DatePicker.tsx:17-25 | parsing what `toISODate` wrote gives back the same day, for four-digit years |
| DatePicker.ParseRejectsLooseShapes | src/components/booking/DatePicker.tsx:21-22 | a one-digit month, a trailing blank or the empty text parse to null |
| DatePicker.StartOfMonthIsFirst | src/components/booking/DatePicker.tsx:26-28 | `startOfMonth` is the first of the same month |
| DatePicker.StartOfMonth | src/components/booking/DatePicker.tsx:26-28 | `startOfMonth` is a calendar date on day 1 |
| DatePicker.EndOfMonth | src/components/booking/DatePicker.tsx:29-31 | `endOfMonth` is a calendar date |
| DatePicker.AddMonths | src/components/booking/DatePicker.tsx:32-34 | `addMonths` is a calendar date on day 1 |
| DatePicker.EndOfMonthIsLast | src/components/booking/DatePicker.tsx:29-31 | `endOfMonth` is the last day of the same month |
| DatePicker.AddMonthsMoves | src/components/booking/DatePicker.tsx:32-34 | `addMonths` lands on the first of the month exactly `n` months away, rolling the year over |
| DatePicker.MonthCountInjective | src/components/booking/DatePicker.tsx:32-34 | two firsts of the month with the same month count are the same date |
| DatePicker.AddMonthsInverse | src/components/booking/DatePicker.tsx:180-190 | one month on and one back is the first of the starting month |
| DatePicker.AddMonthsTwoDigitYear | src/components/booking/DatePicker.tsx:32-34 | going back from December 99 jumps to November 1999, through the constructor's two-digit-year rule |
| DatePicker.IsSameDay | src/components/booking/DatePicker.tsx:35-41 | same day exactly when the dates are equal |
| DatePicker.MondayIndex | src/components/booking/DatePicker.tsx:104 | the Monday-first column is 0..6, and is the day count modulo 7 |
| DatePicker.LeadingCells | src/components/booking/DatePicker.tsx:104 | 0 to 6 days of the previous month open the grid |
| DatePicker.MonthLength | src/components/booking/DatePicker.tsx:114 | `endOfMonth(viewMonth).getDate()` is the number of days in the month |
| DatePicker.GridCell | src/components/booking/DatePicker.tsx:106-123 | every cell of the grid holds a calendar date |
| DatePicker.GridConsecutive | src/components/booking/DatePicker.tsx:118-123 | neighbouring cells hold neighbouring days |
| DatePicker.GridStartsMonth | src/components/booking/DatePicker.tsx:108-116 | the cell after the leading days is the first of the month |
| DatePicker.GridDayNumber | src/components/booking/DatePicker.tsx:106-123 | cell `k` lies `k - leading` days after the first of the month |
| DatePicker.GridColumn | src/components/booking/DatePicker.tsx:103-104 | cell `k` falls on weekday column `k % 7`, Monday first |
| DatePicker.GridInMonth | src/components/booking/DatePicker.tsx:114-116 | a cell is in the month exactly when its date is, and exactly for the cells holding days 1..n in order |
| DatePicker.SetDateNext | src/components/booking/DatePicker.tsx:120-121 | `setDate(getDate() + 1)` on a copy is the next day |
| DatePicker.SetDateFromFirst | src/components/booking/DatePicker.tsx:109-110 | `setDate` on the first of a month counts days from it |
| DatePicker.Grid | src/components/booking/DatePicker.tsx:106-125 | the first `len` cells of the grid |
| DatePicker.GridAt | src/components/booking/DatePicker.tsx:119 | any prefix of the grid holds cell `k` at index `k` |
| DatePicker.LeadingStep | src/components/booking/DatePicker.tsx:108-112 | the first loop's cell `i` is grid cell `i` |
| DatePicker.MonthStep | src/components/booking/DatePicker.tsx:114-116 | the second loop's day `d` is the grid cell after the leading days and `d - 1` more |
| DatePicker.TrailingStep | src/components/booking/DatePicker.tsx:118-123 | the day after the last cell extends the grid by one |
| DatePicker.RoundUp7 | src/components/booking/DatePicker.tsx:118 | the smallest multiple of 7 not below `x` |
| DatePicker.BuildDays | src/components/booking/DatePicker.tsx:99-126 | `days` is the grid, fewer than 7 cells longer than leading days plus the month, a multiple of 7, and at most 42 |
| DatePicker.LeadingDays | src/components/booking/DatePicker.tsx:108-112 | the first loop yields the leading cells of the grid |
| DatePicker.MonthDays | src/components/booking/DatePicker.tsx:114-116 | the second loop adds the month's days |
| DatePicker.TrailingDays | src/components/booking/DatePicker.tsx:118-123 | the third loop fills the last week with days of the next month, and no more |
| DatePicker.Picker.constructor | src/components/booking/DatePicker.tsx:67-76 | the panel starts closed, showing the selected month or else this month |
| DatePicker.Picker.Toggle | src/components/booking/DatePicker.tsx:164 | a click on the field opens or closes the panel, and changes nothing else |
| DatePicker.Picker.KeyDown | src/components/booking/DatePicker.tsx:165-167 | Enter and Space toggle the panel; other keys do nothing |
| DatePicker.Picker.ShowMonth | src/components/booking/DatePicker.tsx:180-190 | the arrows show the month before or after |
| DatePicker.Picker.ValueChanged | src/components/booking/DatePicker.tsx:78-81 | a new value shows its month when it parses, and keeps the month shown otherwise |
| DatePicker.Picker.IsDisabled | src/components/booking/DatePicker.tsx:203 | a day is disabled exactly when it comes before today on the calendar |
| DatePicker.Picker.ClickDay | src/components/booking/DatePicker.tsx:203-215 | a day before today is ignored; any other day hands its ISO date to `onChange` and closes the panel |
| DatePicker.Picker.MouseDown | src/components/booking/DatePicker.tsx:84-92 | a mouse-down outside the picker closes the panel |
| DatePicker.Picker.ClickClose | src/components/booking/DatePicker.tsx:239-241 | Close closes the panel |
| BookingModal.BlankPrefillTime | src/components/BookingModal.tsx:30-37 | a prefilled time of only white space normalises to the empty time |
| BookingModal.NormalizePrefillTime | src/components/BookingModal.tsx:30-37 | an undefined time normalises to ""; any other is normalised as `normalizeTimeToHHMM` does |
| BookingModal.SlotTime | src/components/BookingModal.tsx:43-45 | a slot gives a time only when `available` is truthy, and that time is trimmed and non-empty |
| BookingModal.TypedSlotTime | src/components/BookingModal.tsx:43-45 | a well-typed slot gives its trimmed time exactly when it is available and that time is not blank |
| BookingModal.Candidates | src/components/BookingModal.tsx:42-45 | there are never more times than slots |
| BookingModal.CandidatesComplete | src/components/BookingModal.tsx:42-45 | every time a slot gives is among the candidates |
| BookingModal.CandidatesSound | src/components/BookingModal.tsx:42-45 | every candidate is the time of some slot |
| BookingModal.Dedup | src/components/BookingModal.tsx:46-48 | the same times as the candidates, with no duplicates |
| BookingModal.FirstIndex | src/components/BookingModal.tsx:46 | the first position of a time |
| BookingModal.DedupKeepsFirstOrder | src/components/BookingModal.tsx:46-48 | the kept times come in the order in which each was first offered |
| BookingModal.UniqueAvailableSlots | src/components/BookingModal.tsx:39-51 | the loop gives the first occurrences of the available slots' trimmed times |
| BookingModal.FirstTimes | src/components/BookingModal.tsx:213 | at most 24 times are shown, the first ones, and all of them when there are no more |
| BookingModal.Labels | src/components/BookingModal.tsx:220-223 | each missing field is reported by its own label, in order |
| BookingModal.MissingAmong | src/components/BookingModal.tsx:218-225 | a field is reported exactly when it is checked and missing |
| BookingModal.MissingSnoc | src/components/BookingModal.tsx:218-225 | checking one more field reports it after the others when it is missing |
| BookingModal.NothingMissingIff | src/components/BookingModal.tsx:218-225 | nothing is missing exactly when the trimmed name, the date and the time are set and the party is at least 1 |
| BookingModal.MissingEverything | src/components/BookingModal.tsx:218-225 | when every field is missing, all are reported in their order |
| BookingModal.AllMissing | src/components/BookingModal.tsx:218-225 | an empty form reports name, date, time and party size, in that order |
| BookingModal.MissingForConfirm | src/components/BookingModal.tsx:218-225 | the four pushes give exactly the missing fields, in order |
| BookingModal.MissingError | src/components/BookingModal.tsx:275 | the error is `Missing: `, the labels joined by `, `, then `.` |
| BookingModal.MissingTimeAndParty | src/components/BookingModal.tsx:218-225 | a form with a name and a date but no time and no party lacks the time, then the party size |
| BookingModal.TimeAndPartyError | src/components/BookingModal.tsx:275 | those two are reported as `Missing: time, party size.` |
| BookingModal.MissingErrorExample | src/components/BookingModal.tsx:274-276 | that form's confirmation error is `Missing: time, party size.` |
| BookingModal.ApplyPrefill | src/components/BookingModal.tsx:168-178 | prefill fields that are absent or falsy leave the form's values alone, and an absent party size keeps the party |
| BookingModal.PrefillOverrides | src/components/BookingModal.tsx:168-178 | what a prefill sets does not depend on the form it lands on, and the time is set normalised |
| BookingModal.PrefillIdempotent | src/components/BookingModal.tsx:168-178 | applying the same prefill twice is applying it once |
| BookingModal.PrefillStep | src/components/BookingModal.tsx:180-190 | a prefill opens at step 3 exactly when it sets a date, a positive party size and a time, and at step 1 otherwise |
| BookingModal.BlankTimeReachesDetails | src/components/BookingModal.tsx:171-190 | a blank prefilled time opens the details step with an empty time, which confirmation reports as missing |
| BookingModal.ConfirmPayload | src/components/BookingModal.tsx:285-293 | the payload carries the form's date, time and party, the trimmed name, and always the trimmed contact and notes |
| BookingModal.ConfirmBody | src/components/BookingModal.tsx:281-295 | the booking body always names a contact and special requests, possibly empty, with the trimmed name and the normalised time |
| BookingModal.ErrorText | src/components/BookingModal.tsx:300 | the error is the message when it is non-empty, and the fallback otherwise |
| BookingModal.BookingWizard.AvailableTimes | src/components/BookingModal.tsx:212-215 | at most 24 offered times are shown |
| BookingModal.BookingWizard.CanSeeTimes | src/components/BookingModal.tsx:227 | the See-times guard; `BookingWizard.SeeTimesEnabledIff` states when it holds |
| BookingModal.BookingWizard.CanContinueFromTimes | src/components/BookingModal.tsx:228 | the Continue guard; `BookingWizard.Continue` states what a click does with it |
| BookingModal.BookingWizard.CanConfirm | src/components/BookingModal.tsx:229 | the Confirm guard; `BookingWizard.ConfirmEnabledIff` states when it holds |
| BookingModal.BookingWizard.constructor | src/components/BookingModal.tsx:65-80 | the wizard starts closed at step 1, with an empty form, a party of 2, no error and no availability |
| BookingModal.BookingWizard.Show | src/components/BookingModal.tsx:153-193 | opening clears the error and the availability; without a prefill it goes to step 1 and keeps the form; with one it applies the prefill and goes to its step |
| BookingModal.BookingWizard.Hide | src/components/BookingModal.tsx:154 | the parent hides the modal, and its state stays for the next opening |
| BookingModal.BookingWizard.KeyDown | src/components/BookingModal.tsx:203-210 | Escape asks the parent to close while the modal is shown; other keys do nothing |
| BookingModal.BookingWizard.MouseDownBackdrop | src/components/BookingModal.tsx:357-358 | a mouse-down on the backdrop itself asks the parent to close; one on the panel inside does nothing |
| BookingModal.BookingWizard.ClickClose | src/components/BookingModal.tsx:404-405 | the close button asks the parent to close |
| BookingModal.BookingWizard.EditDate | src/components/BookingModal.tsx:453 | typing a date changes only the date |
| BookingModal.BookingWizard.EditPartySize | src/components/BookingModal.tsx:465 | typing a party size changes only the party size |
| BookingModal.BookingWizard.EditDetails | src/components/BookingModal.tsx:622-645 | typing details changes only name, contact and notes |
| BookingModal.BookingWizard.PickTime | src/components/BookingModal.tsx:523 | picking an offered time changes only the time |
| BookingModal.BookingWizard.Back | src/components/BookingModal.tsx:491-492 | Back goes one step back |
| BookingModal.BookingWizard.Continue | src/components/BookingModal.tsx:708-709 | Continue goes to the details exactly when a time is chosen |
| BookingModal.BookingWizard.SeeTimesEnabledIff | src/components/BookingModal.tsx:227-238 | between handlers, See times is enabled exactly when its handler's own check passes |
| BookingModal.BookingWizard.ConfirmEnabledIff | src/components/BookingModal.tsx:229 | between handlers, Confirm is enabled exactly when the trimmed name, date, time and a party of at least 1 are there |
| BookingModal.BookingWizard.CheckTimes | src/components/BookingModal.tsx:240-268 | the whole day is asked for; a failure shows the message or `Availability check failed.` and keeps step and form |
| BookingModal.BookingWizard.Offer | src/components/BookingModal.tsx:254-263 | offered times lead to step 2, clearing a chosen time exactly when it is set and not offered; no times keeps the step and reports it |
| BookingModal.BookingWizard.OnSeeTimes | src/components/BookingModal.tsx:231-269 | without a date or a party of at least 1 no request is sent and the error says so; otherwise the request and its outcome as above, and only the time may change |
| BookingModal.BookingWizard.Book | src/components/BookingModal.tsx:279-303 | a booking success tells the parent the result and then asks it to close; a failure shows the message or `Booking failed.` |
| BookingModal.BookingWizard.OnConfirm | src/components/BookingModal.tsx:271-304 | missing fields are reported and nothing is sent; otherwise the trimmed payload is booked, and step and form never change |

## Left out

- Network I/O: `fetch`, `Response.text()`, `JSON.parse` and the `cache` option. Each response is an input value: its status, its body text, and what parsing made of that text.
- Concurrency: async interleaving, and responses that arrive after the modal closed. Each handler is atomic. `busy` and `checking` are set and cleared inside one handler, so between handlers they are always false. The model states this as part of `BookingWizard.Valid`, not as separate writes to the two flags.
- The six form hooks are one record field, `BookingWizard.form`, and a handler's updates to them are committed together, as React does.
- Floating point: JSON numbers and `Number(e.target.value)` are integers. NaN, fractions and `-0` for the party size are not modelled.
- The chat key is a build-time constant (`import.meta.env`), so it is a parameter of `ChatApi.ChatRequestFor`.
- The clock: `today` is an argument of `DatePicker.Picker.constructor`. So is its local midnight, since time of day and time zones of JS `Date` are not modelled.
- `Intl.DateTimeFormat`, the month label: a foreign library.
- The focus timer of `BookingModal.tsx:195-200`: a DOM side effect with no state.
- The listener wiring of `BookingModal.tsx:203-210` and `DatePicker.tsx:84-92`. Only what a key press or a mouse-down does is modelled.
- Styling and rendering: the step pills, the `Step*` components and all JSX beyond the handlers listed above.
- `HttpResponse.parsed` stands for what `JSON.parse` makes of the body and is not checked against it. Only the empty body, on which `JSON.parse` always throws, is handled explicitly (`BookingClient.ParseJsonOrText`, `BookingClient.EmptyBodyIsNotJson`).
- `onBooked` throwing: the parent's callback is assumed to return. An exception from it would land in the same `catch` and show as a booking error.
- `src/widget/Widget.tsx`, `src/widget/ssFetch.ts`, `src/widget.tsx`, `src/bootstrap/*` and `vite.config.ts` are not part of this model. They hold mounting, the health ping and build configuration.
- DatePicker.AddMonthsInverse: does not cover years -1 to 99. In that range the `Date` constructor reads a two-digit year as 19xx, so the round trip does not return; `DatePicker.AddMonthsTwoDigitYear` shows the jump.
- DatePicker.ISODateRoundTrip: holds for four-digit years only. Other years are not spelled with four digits, so `parseISODate` rejects them.
- BookingClient.BookingResult: its own contract says only that a 2xx response succeeds. The field mapping is stated by `BookingClient.BookingResultFields`.
