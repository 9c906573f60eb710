# ODYSSEY Turnero — a Dafny model of its scheduling, booking, settings and login logic

ODYSSEY is a browser-only web panel. All of its state lives in `localStorage` and
`sessionStorage`, and it has four parts:

- The **turnero** (`turnero.js`) is the admin view. It keeps three collections:
  services, hourly time slots and appointments. Every change is written back to
  storage, and the dashboard derives four figures from the collections: today's
  appointments, the next appointment, this week's appointments and the occupancy
  rate.
- The **booking form** (`booking.js`) is a public three-step wizard.
  - Step 1 chooses a service.
  - Step 2 chooses a weekday within the next 30 days and a free slot of that day.
  - Step 3 enters and validates personal details.
  The booking is appended to the appointments in storage.
- The **settings panel** (`settings.js`) edits a record of four sections (colors,
  typography, branding, layout) plus a theme. Colour presets, single-colour
  writes gated by a hex check, logo and layout controls, import, load and reset
  all change this record.
- The **login page** (`login.js`) checks a hard-coded credential table. It
  stores the session either in local storage ("remember me") or in session
  storage, and reads local storage first. A Konami-code key buffer fills in the
  credentials.

The model has one Dafny module per source file, plus `Common` for the pieces of
JavaScript semantics they share:
- `Array.prototype.filter` and `findIndex`.
- `String.prototype.trim` and the `\s` class.
- String `<`.
- `toString`/`padStart`.
- `getDay` on day numbers.
- Object spread.

Records that the source builds by object spread are maps from keys to scalar
values. Services and time slots are typed records. Calendar dates are day
numbers, with day 0 = 1970-01-01. The result of `parseInt` is a number or NaN.

State that the source mutates is held in classes:
- `Turnero.Store` holds the three collections and their saved copies.
- `Booking.Wizard` holds the step, the selections and the form data.
- `Settings.Panel` holds the current settings.
- `Login.BrowserStorage` holds the two session entries.
- `Login.KonamiBuffer` holds the key buffer.

Each method of these classes is specified by pure functions, and the properties
are proved about those functions.

Where the code does something unexpected but harmless, the model follows the
code. For example, `updateSettingsColor` ignores `lightCyan`.

"## Findings" lists the three cases that are evidently bugs:
- `saveService` and `updateService` accept a NaN duration.
- `generateTimeSlots` wipes the schedule when an hour is unreadable.
- `isTimeInPast` returns false for every date that is not before today.

For each one the model keeps the code as written beside a corrected version.
`Turnero.Store` applies the corrected guards, so it refuses NaN where the
browser does not; "## Left out" names the methods this affects.

## Model

| member | source | states |
|---|---|---|
| Common.Filter | turnero.js:328 | the filtered list is no longer than the input and holds exactly the input's elements that pass the test |
| Common.FilterAppend | turnero.js:617 | filtering distributes over concatenation, so the kept records keep their relative order |
| Common.FilterKeepsAll | turnero.js:617 | a filter returns the list unchanged exactly when every element passes |
| Common.FilterMonotone | turnero.js:634-658 | a test implied by another keeps at least as many elements, so today's count is at most the week's |
| Common.FirstIndex | turnero.js:305 | the result is None exactly when no element matches; otherwise it is a matching index with no match before it |
| Common.TrimStart | turnero.js:256 | the result is no longer than the input and does not start with white space |
| Common.TrimStartDropsSpaces | turnero.js:256 | trimming the start removes a prefix made only of white space |
| Common.TrimEnd | turnero.js:256 | the result is no longer than the input and does not end with white space |
| Common.TrimEndDropsSpaces | turnero.js:256 | trimming the end removes a suffix made only of white space |
| Common.Trim | turnero.js:256 | a non-empty trimmed text starts and ends with a non-space and is no longer than the input |
| Common.TrimEmptyIffBlank | booking.js:375 | a field trims to empty exactly when every character is white space |
| Common.LexLessIrreflexive | turnero.js:643-644 | no time text sorts before itself |
| Common.LexLessTransitive | turnero.js:643-644 | the string order used for times is transitive |
| Common.LexLessTotal | turnero.js:643-644 | any two distinct time texts are ordered one way or the other |
| Common.DigitChar | turnero.js:389 | a digit 0-9 becomes a character '0'-'9' |
| Common.NatText | turnero.js:389 | the decimal text of a number is made of digits, starts with '0' only for zero, and has two or more digits from 10 up |
| Common.NatTextValue | turnero.js:389 | the digits of a number's text spell that number back |
| Common.IntText | turnero.js:389 | the text of a negative number starts with '-' and has a digit after it; that of any other number is all digits |
| Common.IntTextValue | turnero.js:389 | an integer's text is its magnitude's digits without leading zeros, after a '-' exactly when it is negative |
| Common.PadStart2 | turnero.js:389 | padding to two characters keeps a longer text and prefixes zeros to a shorter one |
| Common.Weekday | booking.js:121 | the day of the week lies in 0..6 |
| Common.WeekdayAnchor | booking.js:121 | day 0 (1970-01-01) is a Thursday, each next day is the next weekday with Saturday followed by Sunday, and the week repeats every seven days |
| Common.StampAppointment | booking.js:446-451 | the stored record has the data's keys plus id, status and createdAt; status is "confirmed" and createdAt the given time; the id is the data's own id when it has one; every other data field is kept |
| Turnero.HourLabel | turnero.js:389 | an hour's label ends in ":00" |
| Turnero.HourLabelTwoDigits | turnero.js:389 | for hours 0-99 the label is the two-digit hour followed by ":00" |
| Turnero.HourLabelsAscending | turnero.js:386-393 | labels of earlier hours sort before those of later hours |
| Turnero.TwoDigitLabelsAscending | turnero.js:389 | two-digit hour labels sort in the order of their hours |
| Turnero.HourSlotAt | turnero.js:386-393 | the slot at position i of a generated schedule is the free, unassigned slot of hour startHour + i with its two-digit label |
| Turnero.HourSlotsShape | turnero.js:385-393 | generation gives one free, unassigned slot per hour, with id = hour and a two-digit label |
| Turnero.HourSlotsAscending | turnero.js:386-393 | the generated slots are in strictly ascending time order |
| Turnero.HourSlotPairAscending | turnero.js:386-393 | of any two generated slots, the earlier one has the earlier time |
| Turnero.HourSlotsSnoc | turnero.js:386-392 | one more hour in the loop appends one more slot at the end |
| Turnero.SlotsForHours | turnero.js:83-90 | the slot-building loop yields exactly the slots of the hours startHour..endHour-1 |
| Turnero.DefaultTimeSlots | turnero.js:78-93 | the default schedule is the slots of the hours 9..17: nine free, unassigned slots, slot i with id 9+i and as time the two digits of 9+i followed by ":00", from "09:00" to "17:00" |
| Turnero.EmptyDurationPassesGuard | turnero.js:260 | a NaN duration passes the service guard as written |
| Turnero.ServiceInputOkCorrectsGuard | turnero.js:260 | the corrected guard is the written guard with NaN refused |
| Turnero.UnreadableHourWipesSchedule | turnero.js:380-393 | as written, an unreadable start hour or an unreadable end hour, whatever the other hour, leaves an empty schedule, so a non-empty one is lost |
| Turnero.SlotsAfterGenerateNeverEmpties | turnero.js:380-393 | with the corrected guard, generation keeps the schedule or yields one slot per requested hour, and never empties a schedule |
| Turnero.DeleteByIdSpec | turnero.js:615-623 | deleting by id removes exactly the records with that id, keeps the rest in order, and leaves a list without that id unchanged |
| Turnero.ServiceIdFor | turnero.js:534-535 | the appointment's service is that of the first slot at its time (null if unassigned); without such a slot it is the first service's id, or absent when there are no services |
| Turnero.PatchAppointmentSpec | turnero.js:592-600 | an edit sets the six edited fields, adds no key beyond them, and keeps every other field of the record |
| Turnero.EditAppointmentSpec | turnero.js:590-600 | an edit fails exactly when no appointment has the id; otherwise only the first appointment with the id is patched, and the others and the length are kept |
| Turnero.PatchKeepsIdentity | turnero.js:592-600 | an edit never changes or adds the id, serviceId, status or createdAt |
| Turnero.Times | booking.js:221 | a text is among the booked times exactly when some record has that time |
| Turnero.EarliestIsLeast | turnero.js:644 | the first element after sorting is in the list and no element sorts before it; it is absent only for an empty list |
| Turnero.NextAppointmentSpec | turnero.js:640-647 | the next appointment is absent exactly when no appointment of today comes after now; otherwise it is the time of such an appointment and none of them comes earlier |
| Turnero.WeekWindowIsCalendarWeek | turnero.js:650-658 | a day lies in the weekly window exactly when it shares the Sunday-based week of today |
| Turnero.OccupancyRate | turnero.js:664-666 | the rate is 0 with no slots; otherwise it is occupied/total*100 rounded half up, and within 0..100 when occupied <= total |
| Turnero.RoundedQuotient | turnero.js:666 | the rounded quotient brackets the scaled ratio and stays below the bound |
| Turnero.ComputeStats | turnero.js:632-670 | today's count is at most the week's, which is at most the number of appointments; occupancy is 0..100 when today's count fits the slots, and 0 without slots |
| Turnero.Store.Stats | turnero.js:632-670 | the dashboard counts today's and this week's appointments of the store, takes the next appointment and the occupancy of today's count over the store's slots; today's count is at most the week's, which is at most the total |
| Turnero.Store.constructor | turnero.js:46-76 | the page starts from the stored collections, with default services and slots where storage has none |
| Turnero.Store.LoadData | turnero.js:46-76 | stored collections replace the in-memory ones; missing services and slots become the saved defaults; missing appointments leave the list as it is; reloading a consistent store changes nothing |
| Turnero.Store.SaveService | turnero.js:255-278 | a service is appended (and saved) exactly when the trimmed name is non-empty and the duration a positive number; otherwise nothing changes |
| Turnero.Store.UpdateService | turnero.js:295-324 | the first service with the id gets the new name, duration and colour when the input passes the guard; an unknown id changes nothing |
| Turnero.Store.DeleteService | turnero.js:326-333 | after confirmation the services with that id are removed and the rest are saved in order |
| Turnero.Store.GenerateTimeSlots | turnero.js:375-398 | the schedule becomes the slots of the requested hours exactly when both hours are readable and increasing, and is saved |
| Turnero.Store.EditTimeSlot | turnero.js:406-425 | the first slot with the id is linked to the chosen service exactly when the slot exists and a service has the chosen id |
| Turnero.Store.DeleteTimeSlot | turnero.js:427-434 | after confirmation the slots with that id are removed |
| Turnero.Store.SaveAppointment | turnero.js:520-556 | when date, time and the trimmed contact fields are present, exactly one confirmed record with those values and the slot's service is appended and saved |
| Turnero.Store.UpdateAppointment | turnero.js:577-613 | the first appointment with the id gets the six edited fields when the input is complete; otherwise nothing changes |
| Turnero.Store.DeleteAppointment | turnero.js:615-623 | after confirmation the appointments with that id are removed and the rest saved |
| Turnero.Store.AddAppointment | turnero.js:746-757 | the stamped record is appended, saved and returned |
| Booking.AvailableSlotsSpec | booking.js:212-229 | a slot is offered exactly when it is flagged available and no appointment of that date has its time; the offer keeps the schedule's order |
| Booking.BookedSlotIsNoLongerOffered | booking.js:218-226 | once an appointment at a time is stored for a date, no slot at that time is offered for that date |
| Booking.OtherDateBookingKeepsOffer | booking.js:218-226 | an appointment for another date does not change a date's offer |
| Booking.AvailableSlotsExample | booking.js:224-226 | with 10:00 booked, the 09:00-11:00 day offers 09:00 and 11:00 |
| Booking.AvailableDates | booking.js:111-128 | the offered dates are exactly the weekdays among the 30 days from today, in increasing order |
| Booking.MissingFields | booking.js:370-378 | the loop collects, in form order, exactly the required fields that are absent or blank after trimming |
| Booking.EmailShapeMatchesPattern | booking.js:387 | the scanner accepts exactly the texts that match /^[^\s@]+@[^\s@]+\.[^\s@]+$/ |
| Booking.EmailShapeSound | booking.js:387 | every text the scanner accepts matches the email pattern |
| Booking.EmailShapeComplete | booking.js:387 | every text matching the email pattern is accepted by the scanner |
| Booking.EmailShapeAccepts | booking.js:387 | "a@b.c" is a valid email |
| Booking.EmailShapeRejects | booking.js:387 | "a@b" and "a@b." (no dot inside the domain) and "a b@c.d" (white space before the @) are not valid emails |
| Booking.ValidatePersonalInfo | booking.js:369-401 | the step passes exactly when the three fields are present and non-blank, the email matches the pattern and the phone has at least 8 characters |
| Booking.ValidateCurrentStep | booking.js:348-366 | step 1 needs a service, step 2 a date and a time, step 3 valid personal information; any other step passes |
| Booking.DateInPastMeansDayOver | booking.js:581-584 | for every time of day, the instant at that time on a date comes before today's midnight exactly when the date is in the past |
| Booking.EarlierSlotTodayNotReportedPast | booking.js:588-596 | as written, no slot of today or a later date is ever reported as past, whatever its hour and the current time; in particular a 09:00 slot today is not past at 12:00 |
| Booking.IsSlotInPastComparesInstants | booking.js:588-596 | the corrected test reports a slot as past exactly when its instant is before now |
| Booking.Wizard.constructor | booking.js:9-14 | the wizard starts at step 1 with nothing selected |
| Booking.Wizard.SelectService | booking.js:90-108 | the service is selected and its id and name are copied into the form data |
| Booking.Wizard.SelectDate | booking.js:194-209 | the date is selected and copied into the form data; the time stays selected |
| Booking.Wizard.SelectTimeSlot | booking.js:254-269 | the slot is selected and its time copied into the form data |
| Booking.Wizard.NextStep | booking.js:287-296 | the step advances by one exactly when it is before the last and validates; the wizard invariant is kept |
| Booking.Wizard.PrevStep | booking.js:298-304 | the step goes back by one, but not below step 1 |
| Booking.Wizard.SaveAppointment | booking.js:443-458 | one stamped copy of the form data is appended to the stored appointments |
| Booking.ContactFields | booking.js:423-426 | the submitted contact record has exactly the name, email, phone and notes keys, holding the trimmed inputs, with empty notes when the field is absent |
| Booking.ContactKeepsSelections | booking.js:423-426 | copying the contact fields keeps the selected service, date and time in the form data |
| Booking.Wizard.SubmitBooking | booking.js:415-440 | when the current step validates, the trimmed contact fields and notes are copied into the form data and one stamped copy is stored; otherwise nothing changes |
| Booking.Wizard.ResetForm | booking.js:601-609 | the wizard is back at step 1 with nothing selected and empty form data |
| Booking.SubmittedBookingTakesItsSlot | booking.js:443-451 | the stored booking keeps the chosen date, time and service, is confirmed, and takes its slot off that date's offer |
| Settings.ValidHexIsHashAndSixDigits | settings.js:242-244 | a text is a valid hex colour exactly when it is '#' followed by six hex digits |
| Settings.ValidHexExamples | settings.js:242-244 | "#4dd0e1" and "#1E3A5F" are accepted; a missing '#', five or seven digits, or a non-hex digit are refused |
| Settings.WithFields | settings.js:206-208 | only a section that is an object takes the writes, which replace or add those fields; every other entry is kept |
| Settings.PaletteOf | settings.js:179-204 | four valid hex colours under the four palette keys make a palette |
| Settings.OdysseyIsPalette | settings.js:180-185 | the odyssey preset sets the four palette keys to valid hex colours |
| Settings.OceanIsPalette | settings.js:186-191 | the ocean preset sets the four palette keys to valid hex colours |
| Settings.SunsetIsPalette | settings.js:192-197 | the sunset preset sets the four palette keys to valid hex colours |
| Settings.ForestIsPalette | settings.js:198-203 | the forest preset sets the four palette keys to valid hex colours |
| Settings.PresetsArePalettes | settings.js:179-204 | exactly the four named presets exist, and each sets the four palette keys to valid hex colours |
| Settings.PresetSpec | settings.js:206-208 | an unknown preset changes nothing; a known one rewrites the four palette colours and keeps lightCyan and every other section |
| Settings.WithColorRouting | settings.js:211-228 | logoColor and logoBg are written to branding, the palette names to colors, and any other name nowhere |
| Settings.DefaultColorsAreHex | settings.js:10-16 | the four palette colours of the defaults are valid hex texts |
| Settings.DefaultBrandingIsHex | settings.js:23-29 | the two logo colours of the defaults are valid hex texts |
| Settings.InitialColorsWellFormed | settings.js:9-38 | every colour of the default settings is a valid hex text |
| Settings.HexWritesKeepWellFormed | settings.js:206-208 | writing valid hex texts under colour keys keeps every colour valid |
| Settings.ColorsStayWellFormed | settings.js:178-228 | presets and validated colour writes keep every colour a valid hex text |
| Settings.HexInputGate | settings.js:148-160 | an invalid typed hex text changes nothing, so the colours stay well formed |
| Settings.LogoWritesKeepColors | settings.js:303-348 | the logo controls never change a colour |
| Settings.LogoWriteReplacesLogo | settings.js:303-348 | an upload makes the image the logo; picking an icon sets the icon and clears the uploaded image |
| Settings.ValidConfigurationExamples | settings.js:528-534 | the default settings pass the import check; a record missing colors, or with a falsy layout or typography, does not |
| Settings.Merge | settings.js:621-630 | loaded entries replace the current ones and the other current entries stay |
| Settings.MergeIdempotent | settings.js:625 | loading the same saved record twice equals loading it once, and loading the current record changes nothing |
| Settings.TransitionDuration | settings.js:444-452 | a duration exists exactly for fast, normal and slow, which map to 0.2s, 0.3s and 0.5s respectively |
| Settings.DefaultSpeedDuration | settings.js:35 | the default animation speed maps to 0.3s |
| Settings.Panel.constructor | settings.js:9-38 | the panel starts from the default settings |
| Settings.Panel.ApplyColorPreset | settings.js:178-209 | the settings become the preset applied to the old settings |
| Settings.Panel.UpdateSettingsColor | settings.js:211-228 | the settings become the colour write routed by name |
| Settings.Panel.OnHexInput | settings.js:148-160 | a typed hex text is written only when valid, and well-formed colours stay well formed |
| Settings.Panel.SetTheme | settings.js:162-174 | the theme entry becomes the chosen theme |
| Settings.Panel.SetField | settings.js:399-442 | a slider or selector writes its one field of its section |
| Settings.Panel.UploadLogo | settings.js:303-319 | an image file sets the logo type to image and stores the image data; other files change nothing |
| Settings.Panel.SelectIcon | settings.js:333-349 | picking an icon sets the logo type to icon and that icon, and clears the image |
| Settings.Panel.ResetLogo | settings.js:321-331 | the logo goes back to the fa-ship icon without an image |
| Settings.Panel.LoadSettings | settings.js:621-630 | a stored record that parses is merged over the current settings; otherwise nothing changes |
| Settings.Panel.ImportConfiguration | settings.js:502-526 | an import replaces the settings exactly when the file parses and has the four truthy sections |
| Settings.Panel.ResetToDefault | settings.js:536-574 | after confirmation the settings are the defaults, which pass the import check and have well-formed colours |
| Login.ToLowerAscii | login.js:100 | lower-casing keeps the length and maps exactly the capitals A-Z to their small letters |
| Login.AuthenticateAcceptsOnlyAdmin | login.js:93-102 | a login succeeds exactly for "admin" in any letter case with the password "admin" exactly |
| Login.Attempt | login.js:56-91 | an empty trimmed user name or empty password is reported as missing; otherwise the attempt is accepted exactly for the admin credentials |
| Login.PaddedNameIsAccepted | login.js:57 | white space around the user name is ignored |
| Login.PaddedPasswordIsDenied | login.js:58 | white space around the password is not ignored |
| Login.BlankFieldIsMissing | login.js:67-70 | a blank user name or an empty password is reported before any credential check |
| Login.SessionOf | login.js:131-142 | there is a session exactly when one of the two entries holds one, and the local-storage one wins |
| Login.AlreadyLoggedInSpec | login.js:122-129 | the form is skipped exactly when the entry read first (local storage if present, else session storage) is an authenticated session |
| Login.RememberedSessionShadowsNewer | login.js:135-139 | a remembered session hides a newer one kept only for the tab |
| Login.BrowserStorage.constructor | login.js:131-133 | the storage starts with the given entries |
| Login.BrowserStorage.CreateUserSession | login.js:104-120 | an authenticated session is written to local storage when remembered, else to session storage, never both; it is then visible unless an older remembered session shadows it |
| Login.BrowserStorage.GetSessionData | login.js:131-142 | the session read is the local-storage entry if present, else the session-storage one |
| Login.BrowserStorage.HandleLogin | login.js:56-91 | the outcome is that of the attempt, and only an accepted attempt stores a session, under the trimmed user name |
| Login.BrowserStorage.Logout | login.js:217-229 | both entries are removed, so no session remains |
| Login.LastN | login.js:252-256 | the window holds the last min(n, length) elements in order |
| Login.LastNStep | login.js:252-256 | updating the window one key at a time gives the window of the whole history |
| Login.KonamiBuffer.constructor | login.js:248 | the buffer starts empty |
| Login.KonamiBuffer.KeyDown | login.js:251-278 | the buffer stays the last ten keys received, and the shortcut fires exactly when those ten keys are the Konami code |
| Login.KonamiCredentialsAreAccepted | login.js:262-263 | the credentials the shortcut fills in are accepted by the form |

## Left out

- The DOM, toasts, rendering, CSS variables, live preview, modals and focus handling are left out. The model keeps only the data each handler reads and writes.
- Timers (`setTimeout`) are left out: the delayed bodies of handleLogin and submitBooking are run at once.
- Analytics (`trackEvent`, `trackLoginEvent`) and the simulated confirmation e-mail are left out.
- `JSON.parse`/`JSON.stringify` and storage reads are taken as given:
  - A stored collection or session is given as already parsed (`Option`), with None for a missing or empty entry.
  - Unparsable stored text is not modelled for loadData and getSessionData. There `JSON.parse` is not guarded, so the browser throws and nothing after it runs.
  - Only loadSettings and importConfiguration catch a parse failure. There unparsable text is modelled as an absent value, which leaves the settings unchanged.
  - Stored JSON that is not an object (an array or a number) in loadSettings and importConfiguration is not modelled.
- The clock (`Date.now()`, `new Date().toISOString()`) and the current day and time are parameters: `newId`, `createdAt`, `loginTime`, `today`, `now`.
- Time zones, and `toISOString` versus local dates, are not modelled. Dates are day numbers throughout.
- Turnero.WeekWindowIsCalendarWeek: the source compares dates parsed at UTC midnight with a week start that keeps the current time of day. The model compares whole days.
- Turnero.ComputeStats: `toLocaleTimeString` is taken to give "HH:MM".
- Turnero.ComputeStats: `localeCompare` is modelled as code-point order, the same order as `<` on such times.
- Turnero.OccupancyRate: the floating-point `Math.round(occupied / total * 100)` is modelled as exact rational rounding, half up.
- Booking.IsSlotInPastComparesInstants: hours and minutes are given in milliseconds since midnight. The `time.split(':')` parse is not modelled.
- Booking.ValidatePersonalInfo: `phone.length` counts UTF-16 code units. The model counts characters, which differ only for characters outside the Basic Multilingual Plane.
- NatText and IntText: only the plain decimal form of `toString` is modelled. JavaScript writes numbers from 1e21 upward in exponent form ("1e+21"); no hour reaches that range.
- Login.ToLowerAscii: only A-Z are lower-cased. No other code point lower-cases to a letter of "admin", so authentication is exact.
- Turnero.Store.EditTimeSlot: the prompt and `parseInt` of the answer are abstracted as an optional integer choice.
- The `interval` field read by generateTimeSlots is unused by the source and is not modelled.
- Booking.Wizard.SubmitBooking requires the three contact inputs to exist. The page always has them, and the source would throw on a missing one.
- Settings.WithFields: a write into a missing section throws in the browser. The model leaves the record unchanged.
- Settings.WithColor: names inherited from `Object.prototype` pass the `colorMap` lookup in the browser. The key then written is the inherited value turned into text, such as "function Object() { [native code] }" for `constructor` or "[object Object]" for `__proto__`, under colors. The model treats these names as unknown and writes nothing.
- Settings.Merge: only the top level of the settings record is merged, as `{...a, ...b}` does. Deeper nesting than section/field is not modelled.
- The FileReader steps of the logo upload and the import are left out. They are modelled from the point where the data has been read.
- saveSettings and the other storage writes of the settings panel are not modelled as separate state.
- The `getSessionData`/`logout` copies in turnero.js behave like those of login.js, which are modelled once.
- dashboard.js is not part of this model.
- Turnero.Store.SaveService: refuses a NaN duration (the corrected guard), where the browser appends a service whose duration is NaN.
- Turnero.Store.UpdateService: refuses a NaN duration (the corrected guard), where the browser writes NaN into the service.
- Turnero.Store.GenerateTimeSlots: refuses an unreadable hour (the corrected guard), where the browser empties the schedule and saves the empty list.

## Findings

| source | as written | input that shows it | evidently intended | confidence | as-written member | corrected member |
|---|---|---|---|---|---|---|
| turnero.js:260, turnero.js:300 | the guard refuses only an empty name or `duration <= 0`, and `NaN <= 0` is false, so a NaN duration passes; updateService repeats the same guard | name "Consulta", empty duration field | only a positive whole duration is accepted | not executed | Turnero.EmptyDurationPassesGuard | Turnero.ServiceInputOkCorrectsGuard |
| turnero.js:380-393 | only `startHour >= endHour` is refused; with a NaN start or end hour the comparison is false, the slots are cleared and the loop adds none | start hour field empty, end hour 18, existing schedule | an unreadable hour is refused like an inverted range | not executed | Turnero.UnreadableHourWipesSchedule | Turnero.SlotsAfterGenerateNeverEmpties |
| booking.js:588-596 | returns false unless the date is before today, so on today (or later) no slot is ever reported past, whatever its hour; isTimeInPast has no caller in booking.js, so the defect is latent | a 09:00 slot today, at 12:00 | on today, compare the slot's time with the current time | not executed | Booking.EarlierSlotTodayNotReportedPast | Booking.IsSlotInPastComparesInstants |
