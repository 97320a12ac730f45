# Parkeoya client logic in Dafny

This project models the decision logic of the Parkeoya driver app, a React
Native client for booking parking spots. The app is mostly screens and `fetch`
wrappers around a REST backend. Its logic sits in a few places:

- small services: spot-grid shaping, the client-side parking filter, token and
  role checks, form validators, and the date and time formats of reservation
  requests;
- two in-memory stores: the local data service in `lib/data.ts` and the older
  AsyncStorage reservation service;
- an older mock parking service with its map-screen search;
- pure decisions inside screens: floor badges and spot selection, booking
  duration and price, the time-slot picker, review stars and toggles, and the
  car tint colour.

Each piece is a module of pure functions over immutable datatypes. A store is a
value, and every write returns the new store. Component state is an explicit
argument, and the clock and generated ids are parameters. JavaScript details
that change results are written out: `parseInt`, `Number("")`, `padStart`,
`slice(-2)`, truthiness of `''` and `0`, `Array.from` with a non-integer
length, and object property lookup.

Modules, one per source file:

- `Wrappers`, `Seqs`, `Text`, `Calendar`: shared helpers. `Option`/`Result`,
  order-preserving filtering and counting, ASCII lower-casing, trimming,
  substring search, decimal numerals, `padStart`, `parseInt`, and calendar date
  parts.
- `SpotService`: `features/parking/services/spotService.ts`.
- `ParkingFilter`: `filterParkings` in `features/parking/services/parkingService.ts`.
- `AuthService`: `features/auth/services/authService.ts`.
- `Validation`: `features/auth/utils/validation.ts`.
- `ReservationApi`: `features/reservation/services/reservationService.ts`.
- `LocalData`: the local data service of `lib/data.ts`, with value semantics.
- `SeedAliasing`: the same store with object identity, as written.
- `LegacyReservations`: `src/services/ReservationService.js`.
- `LegacyParkings`: `src/services/ParkingService.js`.
- `MapScreen`: `src/screens/MapScreen.js`.
- `SelectParking`, `Reserve`, `Reviews`: the screens under `app/parking/`.
- `DateTimePicker`: `components/reservation/DateTimePicker.tsx`.
- `CarImage`: `components/ui/CarImage.tsx`.

Facts about the code that shape the model:

- No spot rows are split into floor bands. The selection screen reads floors
  straight from the parking record, and the spot service builds one dense
  row/column grid.
- The older mock generation of services and screens coexists with the REST
  generation. Both are modelled.
- A 2xx reply to a reservation create fails with "Empty response from server"
  when its body is empty or blank. A body that is not JSON throws a parse
  error.

## Model

| member | source | states |
|---|---|---|
| SpotService.GetSpotById | features/parking/services/spotService.ts:106-108 | nothing exactly when no spot has the id; otherwise a spot of the list with that id, with no earlier spot carrying it |
| SpotService.GetAvailableSpots | features/parking/services/spotService.ts:113-115 | an order-preserving sub-list holding exactly the available spots, each as often as it occurs: its length is the number of available spots |
| SpotService.GetSpotsByRow | features/parking/services/spotService.ts:120-122 | an order-preserving sub-list holding exactly the spots of the row, each as often as it occurs: its length is the number of spots with that row index |
| SpotService.StatusCountsPartition | features/parking/services/spotService.ts:167-172 | the three status counts add up to the list length, since every spot has exactly one status |
| SpotService.GetSpotStatistics | features/parking/services/spotService.ts:161-173 | total is the list length; available, occupied and reserved are the numbers of spots with each status, and they add up to the total; available is the length of the available-spots list |
| SpotService.MaxOf | features/parking/services/spotService.ts:132-133 | `Math.max` over a non-empty list: a bound on every key that some spot attains |
| SpotService.GetGridDimensions | features/parking/services/spotService.ts:127-136 | (0,0) for no spots; otherwise every row and column index is at most the maximum, and some spot attains each maximum |
| SpotService.LastAt | features/parking/services/spotService.ts:151-153 | none exactly when no spot sits at the cell; otherwise a spot at that row and column with no later spot at the same cell, the one the grid keeps |
| SpotService.EmptyGrid | features/parking/services/spotService.ts:145-148 | a rows × columns grid whose every cell is null |
| SpotService.PutAll | features/parking/services/spotService.ts:151-153 | placing the spots one by one keeps the grid's shape |
| SpotService.PutAllCells | features/parking/services/spotService.ts:151-153 | after placing every spot into an empty grid, each cell holds the last input spot at that position, or null |
| SpotService.OrganizeIntoGrid | features/parking/services/spotService.ts:141-156 | succeeds iff no row index is negative and the column maximum is at least -1; then the grid has maxRow+1 rows of maxColumn+1 cells, each the last spot there or null; no spots give `[[null]]`; a RangeError when some row is built while every column is below -1, otherwise a TypeError when some row is negative |
| ParkingFilter.FilterParkings | features/parking/services/parkingService.ts:199-238 | an order-preserving sub-list of the input that keeps a parking iff it passes every filter whose field is set |
| ParkingFilter.StageIsFilter | features/parking/services/parkingService.ts:211-235 | a filter step whose field is unset leaves the list as it is, so every step is a filter |
| ParkingFilter.StagesCompose | features/parking/services/parkingService.ts:209-237 | the five filter steps in sequence equal one filter by the conjunction of their tests |
| ParkingFilter.NoFiltersKeepsAll | features/parking/services/parkingService.ts:209-237 | with no field set, the result is the input list |
| ParkingFilter.EmptyQueryIgnored | features/parking/services/parkingService.ts:211-219 | an empty query string is falsy and filters nothing |
| ParkingFilter.AddingFiltersNarrows | features/parking/services/parkingService.ts:211-235 | setting more fields gives a sub-list of the looser result |
| AuthService.IsTokenValid | features/auth/services/authService.ts:145-157 | false without a user or with an empty token; with a non-zero expiry, valid iff now < expiry; with no expiry or 0, always valid |
| AuthService.InvalidStaysInvalid | features/auth/services/authService.ts:150-153 | once invalid, a session stays invalid at every later time |
| AuthService.ValidUntilExpiry | features/auth/services/authService.ts:150-153 | a session valid at some time with an expiry is invalid from the expiry on |
| AuthService.IsDriver | features/auth/services/authService.ts:162-164 | true iff there is a user with a roles field that contains `ROLE_DRIVER` |
| AuthService.GetHeaders | features/auth/services/authService.ts:18-28 | always `Content-Type: application/json`; `Authorization: Bearer <token>` iff the token is non-empty; no other header |
| AuthService.SignInOutcome | features/auth/services/authService.ts:42-54 | a failed reply carries the server's message or "Invalid email or password"; a 2xx body that is not JSON fails with a SyntaxError, one without `roles` with a TypeError, and one whose roles lack `ROLE_DRIVER` with "Only drivers can sign in to this application"; a returned user always passes `isDriver`; a driver reply succeeds |
| Validation.ValidateEmail | features/auth/utils/validation.ts:5-8 | accepts exactly the strings local `@` domain, where both parts are non-empty, free of whitespace and `@`, and the domain has a `.` with clean text on both sides |
| Validation.EmailAgrees | features/auth/utils/validation.ts:6 | the e-mail expression matches iff splitting at the first `@` gives a clean local part and a clean dotted domain |
| Validation.EmailShape | features/auth/utils/validation.ts:6 | an accepted address has exactly one `@` and no whitespace |
| Validation.ValidatePassword | features/auth/utils/validation.ts:10-20 | empty gives "Password is required", fewer than 6 characters the length message; valid iff the length is at least 6, with no message exactly then |
| Validation.ValidatePhone | features/auth/utils/validation.ts:22-26 | accepts exactly an optional `+` followed by at least 6 characters from digits, whitespace, `-`, `(` and `)` |
| Validation.PhoneNeedsNoDigit | features/auth/utils/validation.ts:23-25 | six dashes pass: no digit is required |
| Validation.ValidateDni | features/auth/utils/validation.ts:28-32 | valid iff the length is 6..20 and every character is an ASCII letter or digit |
| Validation.ValidateRequired | features/auth/utils/validation.ts:34-39 | invalid iff the value is empty or all whitespace, with the message `<field> is required`; no message when valid |
| ReservationApi.StoredToken | features/reservation/services/reservationService.ts:21-29 | a token exactly when the stored session has a user with a non-empty token, and then that token |
| ReservationApi.Dispatch | features/reservation/services/reservationService.ts:37-52 | fails with "No authentication token found" iff no token is stored, before any request; otherwise the request carries the stored bearer token |
| ReservationApi.Create | features/reservation/services/reservationService.ts:35-85 | no request and the no-token error without a token; a non-2xx reply fails with the parsed server message or "HTTP <status>: Failed to create reservation"; a blank 2xx body fails with "Empty response from server"; with a token, success exactly with a 2xx, non-blank body that parses as a reservation, returning that reservation, while an unparsable 2xx body fails |
| ReservationApi.Pad2Digits | features/reservation/services/reservationService.ts:227 | a padded non-negative number is a numeral of at least two digits that reads back as the number |
| ReservationApi.FormatTime | features/reservation/services/reservationService.ts:226-228 | for hours and minutes in 0..99, five characters with the colon in the middle |
| ReservationApi.TimeShape | features/reservation/services/reservationService.ts:226-228 | for hours and minutes in 0..99, five characters with a colon in the middle whose two fields read back as the two values |
| ReservationApi.TimeParses | features/reservation/services/reservationService.ts:226-228 | non-negative fields of any size parse back on both sides of the colon; hours of 100 or more are written in full, never cut |
| ReservationApi.FormatDate | features/reservation/services/reservationService.ts:216-221 | the year, `-`, the 1-based month and the day padded to two digits, each field reading back; a four-digit year gives a 10-character `YYYY-MM-DD` |
| Text.Pad2IsPadStart | features/reservation/services/reservationService.ts:227 | the two-digit field equals `String(n).padStart(2, '0')` for every integer |
| LocalData.Login | lib/data.ts:100-110 | succeeds iff some user's e-mail matches ignoring case and the password matches exactly; returns the first such user without its password; otherwise "Invalid email or password" |
| LocalData.GetUserByEmail | lib/data.ts:112-119 | nothing iff no e-mail matches ignoring case; otherwise the first match, without its password |
| LocalData.LoginFindsUserByEmail | lib/data.ts:100-119 | when e-mails are unique ignoring case, a successful login returns what the e-mail lookup returns |
| LocalData.GetParkingById | lib/data.ts:126-132 | a parking of the store with the id, or the error "Parking with id <id> not found" exactly when none has it |
| LocalData.SearchParkings | lib/data.ts:134-142 | an order-preserving sub-list of exactly the parkings whose lowercased name or address contains the lowercased query, each as often as it occurs in the store |
| LocalData.SearchEmptyKeepsAll | lib/data.ts:134-142 | the empty query returns every parking |
| LocalData.GetReservations | lib/data.ts:145-148 | an order-preserving sub-list of exactly the user's reservations, each as often as it occurs in the store |
| LocalData.GetVehicles | lib/data.ts:186-189 | an order-preserving sub-list of exactly the user's vehicles, each as often as it occurs in the store |
| LocalData.GetPaymentMethods | lib/data.ts:215-218 | an order-preserving sub-list of exactly the user's payment methods, each as often as it occurs in the store |
| LocalData.GetReviews | lib/data.ts:221-224 | an order-preserving sub-list of exactly the parking's reviews, each as often as it occurs in the store |
| LocalData.CreateReservation | lib/data.ts:150-157 | appends one record, the draft plus the new id, and returns it; nothing else in the store changes |
| LocalData.CancelReservation | lib/data.ts:159-165 | the first reservation with the id becomes cancelled and nothing else changes; an unknown id leaves the store as it was |
| LocalData.CancelIdempotent | lib/data.ts:159-165 | cancelling twice is cancelling once |
| LocalData.CreateThenCancel | lib/data.ts:150-165 | a reservation created under a fresh id and then cancelled is listed as cancelled, and all others are unchanged |
| LocalData.PatchUser | lib/data.ts:181 | every field given in the patch replaces the user's field; every other field stays |
| LocalData.PatchUserLaws | lib/data.ts:181 | an empty patch changes nothing; applying a patch twice equals applying it once |
| LocalData.GetUser | lib/data.ts:168-174 | the first user with the id, in store order, or "User with id <id> not found" exactly when none has it |
| LocalData.UpdateUser | lib/data.ts:176-183 | an unknown id fails with the not-found message; otherwise only the first user with the id is replaced by its patched copy, which is returned |
| LocalData.AddVehicle | lib/data.ts:191-198 | appends the draft under the new id and returns it; nothing else changes |
| LocalData.DeleteVehicle | lib/data.ts:200-203 | keeps, in order and with their multiplicity, exactly the vehicles whose id differs; nothing else changes |
| LocalData.DeleteVehicleIdempotent | lib/data.ts:200-203 | deleting twice is deleting once; an unknown id changes nothing |
| LocalData.PatchVehicle | lib/data.ts:210 | every field given in the patch replaces the vehicle's field; every other field stays |
| LocalData.UpdateVehicle | lib/data.ts:205-212 | an unknown id fails with "Vehicle with id <id> not found"; otherwise only the first vehicle with the id is replaced by its patched copy |
| LocalData.AddReview | lib/data.ts:226-233 | appends the draft under the new id and returns it; nothing else changes |
| LocalData.AddedReviewListed | lib/data.ts:221-233 | a review just added is listed last among its parking's reviews |
| SeedAliasing.View | lib/data.ts:88-95 | the array shows, in order, the objects its references point to |
| SeedAliasing.Load | lib/data.ts:88-95 | module load lists the seed objects in order, and they hold the seed's values |
| SeedAliasing.Reset | lib/data.ts:236-245 | a new array of the same seed objects, whatever values those objects now hold |
| SeedAliasing.Create | lib/data.ts:150-157 | a new object is appended, and no existing object changes |
| SeedAliasing.CancelInPlace | lib/data.ts:159-165 | the array and the set of objects are unchanged; only the object at the first position holding the id changes, and it becomes cancelled |
| SeedAliasing.CancelSurvivesReset | lib/data.ts:159-165 | as written, cancelling an active seed reservation and then resetting still shows it cancelled, so the reset does not restore the seed |
| SeedAliasing.CancelSurvivesResetExample | lib/data.ts:236-245 | one active seed reservation, cancelled and then reset, is shown cancelled |
| SeedAliasing.CancelCopying | lib/data.ts:159-165 | the corrected cancel shows what the value-semantics cancel gives, and writes no existing object |
| SeedAliasing.RunCopyingKeepsObjects | lib/data.ts:150-165 | no sequence of creates and corrected cancels touches an object that already exists |
| SeedAliasing.ResetRestoresSeed | lib/data.ts:236-245 | with the corrected cancel, a reset after any session shows the seed again |
| LegacyReservations.GetAll | src/services/ReservationService.js:6-14 | the stored list, or the empty list when nothing is stored or the text does not parse |
| LegacyReservations.Create | src/services/ReservationService.js:16-35 | appends one record carrying every input field, with `id`, `status 'confirmed'` and `createdAt` set over them; the list grows by one |
| LegacyReservations.Cancel | src/services/ReservationService.js:37-49 | every record with the id gets status `'cancelled'`; other records and the length are unchanged |
| LegacyReservations.GetById | src/services/ReservationService.js:51-59 | the first record with the id, or nothing exactly when none has it |
| LegacyReservations.CancelIdempotent | src/services/ReservationService.js:40-42 | cancelling twice is cancelling once |
| LegacyReservations.CancelUnknownId | src/services/ReservationService.js:40-42 | an unknown id leaves the stored list unchanged |
| LegacyReservations.CreateCancelFind | __tests__/ReservationService.test.js:66-82 | create, then cancel by the returned id, then look up by id gives a record with status `'cancelled'` |
| LegacyReservations.FoundFirst | src/services/ReservationService.js:51-54 | the lookup returns the record at the first position holding the id |
| LegacyReservations.TwoCreatesDistinct | __tests__/ReservationService.test.js:28-45 | two creates with fresh, different ids give records with different ids, and each is found by its id as the record created |
| LegacyParkings.GetAllParkings | src/services/ParkingService.js:66-68 | the fixed dataset of five parkings, each with no more available spots than total |
| LegacyParkings.GetParkingById | src/services/ParkingService.js:70-73 | the parking with the id, or nothing, with no error, when none has it |
| LegacyParkings.ParkingOneFound | __tests__/ParkingService.test.js:11-16 | parking `"1"` is found, and it is the first of the dataset |
| LegacyParkings.SearchIn | src/services/ParkingService.js:75-83 | an order-preserving sub-list of exactly the parkings whose lowercased name or address contains the lowercased query, each as often as it occurs |
| LegacyParkings.SearchParkings | src/services/ParkingService.js:75-83 | the search over the fixed dataset, exactly the matches, in dataset order |
| LegacyParkings.SearchEmptyKeepsAll | src/services/ParkingService.js:76-81 | the empty query matches every parking |
| LegacyParkings.SearchCentral | __tests__/ParkingService.test.js:18-24 | searching "Central" gives a non-empty list whose first name contains "Central" |
| MapScreen.LoadParkings | src/screens/MapScreen.js:30-41 | the loaded list is both kept and shown |
| MapScreen.HandleSearch | src/screens/MapScreen.js:43-55 | records the text; a blank text shows the whole loaded list; otherwise an order-preserving sub-list of exactly the parkings whose lowercased name or address contains the lowercased text, each as often as it was loaded |
| MapScreen.SearchForgetsHistory | src/screens/MapScreen.js:48 | the list shown depends only on the loaded list and the latest text, not on earlier searches |
| MapScreen.SearchOfLoaded | src/screens/MapScreen.js:47-53 | after loading a list, a non-blank search shows the search over that list |
| MapScreen.SearchAgreesWithService | src/screens/MapScreen.js:47-53 | with the mock dataset loaded, a non-blank search shows what the service's `searchParkings` returns |
| MapScreen.LongerNotIncluded | src/screens/MapScreen.js:50-51 | a text longer than a name or address is never contained in it |
| MapScreen.UntrimmedQueryMisses | src/screens/MapScreen.js:50-51 | the text is not trimmed: `" Plaza"` misses a parking named "Plaza" that `"Plaza"` finds |
| SelectParking.FindFloor | app/parking/select-parking.tsx:53 | the first floor with the number in the parking's order, or nothing exactly when there is no parking or no such floor |
| SelectParking.GetFloorSpots | app/parking/select-parking.tsx:51-55 | the spots of the first floor with the selected number, or the empty list without one |
| SelectParking.AvailableCount | app/parking/select-parking.tsx:84 | the number of available spots of the floor: at most its size, and zero iff no spot is available |
| SelectParking.GetFloorAvailability | app/parking/select-parking.tsx:79-87 | `"0/0"` for a missing floor; otherwise text with a slash |
| SelectParking.AvailabilityReadsBack | app/parking/select-parking.tsx:84-86 | an existing floor's badge is two numerals around a slash: the available count and the floor size, the first never larger |
| SelectParking.GetFloorStatus | app/parking/select-parking.tsx:89-96 | full iff the floor exists and has no available spot; a missing floor reports room |
| SelectParking.FullFloorBadge | app/parking/select-parking.tsx:79-96 | a full floor's badge reads `0/<size>` |
| SelectParking.HandleSpotSelect | app/parking/select-parking.tsx:61-65 | an available spot becomes the selection; any other spot leaves the screen unchanged |
| SelectParking.SelectionStaysAvailable | app/parking/select-parking.tsx:61-65 | after any sequence of taps, the selection is an available spot or nothing |
| SelectParking.SpotRanges | app/parking/select-parking.tsx:35-44 | with at least one floor, four ranges, the j-th from 17+4j to 20+4j; with none, the ranges stay as they were |
| SelectParking.RangesAsDisplayed | app/parking/select-parking.tsx:36-42 | the ranges read "17 - 20", "21 - 24", "25 - 28", "29 - 32" |
| SelectParking.Half | app/parking/select-parking.tsx:187 | `Math.ceil(n / 2)`: at most n, and the left part exceeds the rest by 0 or 1 |
| SelectParking.LeftColumn | app/parking/select-parking.tsx:187 | the first `Math.ceil(n / 2)` spots of the floor, in order |
| SelectParking.RightColumn | app/parking/select-parking.tsx:238 | the spots from position `Math.ceil(n / 2)` on, in order |
| SelectParking.ColumnsSplitFloor | app/parking/select-parking.tsx:187-238 | the left and right columns together are the floor's spots in order, the left as long as the right or one longer |
| Reserve.CalculateDuration | app/parking/reserve.tsx:71-75 | defined iff both hour fields parse, and then end hour minus start hour |
| Reserve.DurationIgnoresMinutes | app/parking/reserve.tsx:71-75 | on `h:m` times the duration is the difference of the hours, whatever the minutes, negative when the end hour comes first |
| Reserve.DefaultDuration | app/parking/reserve.tsx:30-31 | the screen's times `08:00` and `12:00` give 4 hours, and swapped give -4 |
| Reserve.CalculateTotal | app/parking/reserve.tsx:77-81 | 0 without a parking; otherwise the hourly price times the duration, `NaN` exactly when the duration is |
| Reserve.PriceFor | app/parking/reserve.tsx:80 | price times hours, `NaN` when the hours are |
| Reserve.LastTwo | app/parking/reserve.tsx:86 | `slice(-2)`: the last two characters, or the whole string when shorter |
| Reserve.FormatShortDate | app/parking/reserve.tsx:83-88 | for years from 10 on, an 8-character `DD/MM/YY` whose fields read back as the day, the 1-based month and the year mod 100 |
| Reserve.DefaultVehicle | app/parking/reserve.tsx:55-59 | the user's first vehicle in store order, or nothing exactly when the user has none |
| Reserve.DefaultPayment | app/parking/reserve.tsx:61-65 | the user's first payment method in store order, or nothing exactly when the user has none |
| Reserve.SpotOrDefault | app/parking/reserve.tsx:109 | the passed spot id, or `'20'` when none or an empty one was passed |
| Reserve.Stamp | app/parking/reserve.tsx:111-112 | for years from 10 on, the 8-character short date, `T`, the time and `:00Z`, at fixed positions |
| Reserve.HandlePay | app/parking/reserve.tsx:90-117 | a missing vehicle is reported before a missing payment method; with both chosen but no user or no parking it returns silently, with no alert and no booking; a booking happens iff both are chosen and there are a user and a parking; it appends one active reservation with the defaults, the computed total and the stamped times |
| DateTimePicker.MinuteCount | components/reservation/DateTimePicker.tsx:83 | the length of the minute array: the largest count whose multiples of the interval fit in 60; nothing for a negative interval or one above 60 |
| DateTimePicker.SlotAt | components/reservation/DateTimePicker.tsx:86-90 | option `hour·n + i` is the time of that hour and minute `i·interval` |
| DateTimePicker.HourOptions | components/reservation/DateTimePicker.tsx:87-90 | one time per minute value of the hour, in order |
| DateTimePicker.HourRowSlots | components/reservation/DateTimePicker.tsx:86-90 | one hour's times are the options from `hour·n` on |
| DateTimePicker.AppendSlots | components/reservation/DateTimePicker.tsx:86-91 | appending the next hour's times to the options so far extends the option list |
| DateTimePicker.TimeOptions | components/reservation/DateTimePicker.tsx:81-91 | an interval of 0 throws; otherwise 24 × the minute count options, option k being hour k / n and minute (k mod n) × interval |
| DateTimePicker.DefaultIntervalCount | components/reservation/DateTimePicker.tsx:32 | the default interval of 30 gives 48 options |
| DateTimePicker.NumberOf | components/reservation/DateTimePicker.tsx:102 | `Number` on a numeral is its value |
| DateTimePicker.MinuteOfDay | components/reservation/DateTimePicker.tsx:102-103 | nothing without a colon; a result is never negative, since `Number` reads only the numerals and the empty string |
| DateTimePicker.FieldsReadBack | components/reservation/DateTimePicker.tsx:102-103 | a 5-character `HH:MM` with numeral fields reads back as hour × 60 + minute |
| DateTimePicker.TimeReadsBack | components/reservation/DateTimePicker.tsx:102-103 | a time built from fields in 0..99 reads back as its minute of the day |
| DateTimePicker.SlotFields | components/reservation/DateTimePicker.tsx:86-90 | each option has an hour in 0..23 and a minute below 60 that is a multiple of the interval |
| DateTimePicker.SlotShape | components/reservation/DateTimePicker.tsx:86-90 | every option of a positive interval is the `HH:MM` of an hour in 0..23 and a minute below 60 that is a multiple of the interval, and it reads back as its minute of the day |
| DateTimePicker.SlotsIncreasing | components/reservation/DateTimePicker.tsx:86-91 | options are strictly increasing in time of day |
| DateTimePicker.IsToday | components/reservation/DateTimePicker.tsx:95-98 | true iff a date is selected and has the same day, month and year as now |
| DateTimePicker.FilterPast | components/reservation/DateTimePicker.tsx:100-107 | on another day all options; today, an order-preserving sub-list of exactly the options not before the current minute, each as often as it occurs |
| DateTimePicker.ThresholdKeepsSuffix | components/reservation/DateTimePicker.tsx:100-106 | on strictly increasing times, keeping those at or after a threshold keeps a suffix |
| DateTimePicker.TodayShowsSuffix | components/reservation/DateTimePicker.tsx:93-107 | today, the options shown are the generated list from some point on |
| DateTimePicker.FormatLongDate | components/reservation/DateTimePicker.tsx:135-140 | for four-digit years, a 10-character `DD/MM/YYYY` whose fields read back as the day, the 1-based month and the year |
| Reviews.StarAt | app/parking/reviews.tsx:48-49 | star i is filled iff i ≤ floor(rating), and half iff it is star floor(rating)+1 and the fraction is at least one half |
| Reviews.RenderStars | app/parking/reviews.tsx:45-68 | exactly five stars; the k-th filled iff k < floor(rating), half iff k = floor(rating) and the fraction reaches one half |
| Reviews.FilledCountIsFloor | app/parking/reviews.tsx:48 | for ratings 0..5, exactly floor(rating) stars are filled |
| Reviews.AtMostOneHalf | app/parking/reviews.tsx:49 | at most one star is half; there is one iff floor(rating) is in 0..4 and the fraction reaches one half |
| Reviews.FilledFirst | app/parking/reviews.tsx:48 | a filled star has only filled stars before it |
| Reviews.TappedRatingFills | app/parking/reviews.tsx:205 | a whole rating i in 1..5, as tapping star i sets it, fills exactly i stars and shows no half |
| Reviews.ToggleExpanded | app/parking/reviews.tsx:70-78 | flips the id's membership and leaves every other id as it was |
| Reviews.ToggleTwice | app/parking/reviews.tsx:70-78 | toggling the same review twice restores the set |
| Reviews.ViewOf | app/parking/reviews.tsx:131-166 | the show-more control appears iff the comment is longer than 200, reading "Show less" iff the review is expanded; the 4-line limit is lifted iff expanded |
| Reviews.ToggleChangesOneView | app/parking/reviews.tsx:149-166 | toggling a review flips its own line limit and leaves every other review's view unchanged |
| Reviews.ParkingIdOrDefault | app/parking/reviews.tsx:93 | the screen's parking id, or `'1'` without one |
| Reviews.HandleSubmitReview | app/parking/reviews.tsx:85-110 | rejected with "Please provide a rating and comment" iff the rating is 0 or the comment is blank, with store, form and list unchanged; otherwise one review is appended, nothing else in the store changes, and the form is closed and cleared; the list stays as it was unless the screen's parking id names a parking of the store, since otherwise `getParkingById` throws inside `loadData` |
| Reviews.SubmittedReviewListed | app/parking/reviews.tsx:30-110 | the stored review has the new id, the form's rating and comment, the default parking and the fixed author; when the parking id names a parking of the store, the list is reloaded and shows it last among that parking's reviews |
| CarImage.TableInPalette | components/ui/CarImage.tsx:41-63 | every table colour is in the palette, and every palette colour is a `#RRGGBB` hex |
| CarImage.GetColorHex | components/ui/CarImage.tsx:38-67 | an absent or empty name gives `#E74C3C`; otherwise the table entry of the lowercased name, or `#E74C3C` when there is none |
| CarImage.ColorIsHex | components/ui/CarImage.tsx:41-66 | whatever the name, the colour is a palette colour, hence a hex colour |
| CarImage.CaseInsensitive | components/ui/CarImage.tsx:65-66 | a name and its lowercase give the same colour |
| CarImage.NamesAreLowerCase | components/ui/CarImage.tsx:41-63 | every table name is its own lowercase, so each is found as written |
| CarImage.SameEntrySameColor | components/ui/CarImage.tsx:41-63 | names sharing a table entry, English and Spanish, give the same colour |
| CarImage.Synonyms | components/ui/CarImage.tsx:42-52 | red and rojo give the default red; gray, grey and gris give one grey |
| CarImage.TintColor | components/ui/CarImage.tsx:20 | a non-empty explicit hex wins; otherwise the name lookup |
| CarImage.TintFromName | components/ui/CarImage.tsx:20 | without an explicit hex, the tint is always a palette colour |
| CarImage.PropertyOf | components/ui/CarImage.tsx:66 | the own entry for a table name; undefined for every other name except the inherited `constructor` and `__proto__` |
| CarImage.GetColorHexAsWritten | components/ui/CarImage.tsx:38-67 | the lookup as written gives the table's colour for every table name |
| CarImage.AsWrittenAgreesElsewhere | components/ui/CarImage.tsx:65-66 | away from the two inherited names, the lookup as written gives the intended colour |
| CarImage.PrototypeNameLeaks | components/ui/CarImage.tsx:66 | as written, "Constructor" gives the `Object` function and "__proto__" the prototype object, not a colour string |

## Left out

- Network I/O: every `fetch` of the parking, spot, reservation, profile and auth services and of `lib/api.ts`. Only the decisions around the calls are modelled. The reply of a create is a parameter of `ReservationApi.Create`, and the sign-in reply one of `AuthService.SignInOutcome`.
- Distances: `calculateDistance`, `sortByDistance` and `getNearbyParkings` are floating-point trigonometry.
- Storage: the stored session is a parameter. The legacy AsyncStorage key is a slot that is empty, unparsable or holds a list. `JSON.stringify` and `JSON.parse` are assumed to round-trip the records.
- React: hooks, rendering, styles, modals, navigation, loading flags and `Alert` calls. An alert appears only as the message it shows.
- Time: `Date.now()` ids, ISO time stamps and the current time are parameters. Dates are year, 0-based month and day in 1..31. Nothing checks the day against the month's length.
- Locale formatting: the reviews' `toLocaleDateString` and the picker's "Hoy"/"Mañana" date list (`renderDatePicker`) are presentation.
- Text: `toLowerCase`, `\s` and `trim` act on ASCII only. Lengths count characters, not UTF-16 code units. This matters for the 200-character cut-off of `Reviews.ViewOf` and the 6-character minimum of `Validation.ValidatePassword`, and only on text with characters outside the Basic Multilingual Plane.
- Validation.ValidatePassword: counts characters, where `password.length` counts UTF-16 code units. A password of three emoji has length 6 in the app and is accepted there, but it is rejected here.
- Numbers: counts and ids are unbounded integers, and prices and ratings are exact reals. `NaN` from `parseInt` or `Number` is `None`. No floating-point rounding is modelled.
- DateTimePicker.NumberOf: gives the value of `Number` only on the empty string and on numerals. Other text, such as whitespace, signs or decimals, gives `NaN` here. The picker only reads back the numerals it generated.
- DateTimePicker.TimeOptions: the interval is an integer. A fractional `minuteInterval` is not modelled.
- `lib/data.ts` `getParkings`: returns a copy of the list, which with values is the list itself.
- Partial updates in `lib/data.ts`: a patch field is present or absent. A field explicitly set to `undefined` is not modelled.
- `select-parking.tsx`: the `!parking.floors` guard is not modelled, because a parking always has a floor list.
- `reserve.tsx`: the start and end times keep their initial values, because no control of the screen changes them. The `catch` branch of `handlePay` is unreachable, because the in-memory `createReservation` never throws.
- `reviews.tsx`: the `catch` of `handleSubmitReview` is unreachable for the same reason. The parking object that `loadData` sets after a submit is not modelled. The reviews list is modelled, including the failed lookup that keeps it as it was. The `size` and `interactive` arguments of `renderStars` only affect drawing.
- `CarImage.tsx`: width, height and style only affect drawing.
- `profileService.updateOwnProfile`'s driver-id fallback is inside a fetch chain.
- SeedAliasing.Reset: object identity is modelled for the reservation list only. The other collections are never written in place, so value semantics describes them exactly.

## Findings

| source | as written | input that shows it | evidently intended | confidence | as-written member | corrected member |
|---|---|---|---|---|---|---|
| lib/data.ts:159-165 | `cancelReservation` writes `status = 'cancelled'` into the object it finds. `[...dbData.reservations]` at lines 90 and 239 copies only the array, so that object is the imported seed object, which `resetDatabase` lists again. | A seed reservation `res_1` that is active: `cancelReservation('res_1')` then `resetDatabase()` shows `res_1` cancelled. | `resetDatabase` restores every collection to its initial contents. Cancelling should replace the slot with a cancelled copy, as `updateUser` and `updateVehicle` do. | high; not executed | SeedAliasing.CancelSurvivesReset | SeedAliasing.ResetRestoresSeed |
| components/ui/CarImage.tsx:66 | `colorMap[lowerColor]` reads a plain object, so lowercased names of inherited members also hit. `'constructor'` gives the `Object` function and `'__proto__'` gives `Object.prototype`. Both are truthy, so they are returned as the tint. | Colour name `"Constructor"` or `"__proto__"` gives a tint that is a function or an object, not a colour string. | Only the table's own names are looked up, and every other name gives `#E74C3C`. | medium; not executed | CarImage.PrototypeNameLeaks | CarImage.ColorIsHex |
