# millasGoogle mileage log: a Dafny model

millasGoogle is a mobile mileage log built with React and Capacitor. A driver records trips with the phone's GPS, or types them in. Each trip is filed as work or personal and tagged with a vehicle. The driver also photographs expense receipts, which an administrator approves or rejects, and gets a monthly report of deductible miles grouped by vehicle.

This project models the application's core and proves properties of it:

- **The trip recorder** (`src/hooks/useGPS.js`, modules `Accumulator`, `Geo`, `Places`, `Geocode`, `Gps`).
  - How each location fix is graded, dropped or accumulated into the path and the miles.
  - The trip snapshot that survives a restart.
  - The learned places.
  - Reverse geocoding of the start and end addresses.
  - Start, stop, reset and type change.
  - The class `Gps.TripRecorder` holds the hook's refs, its React state and its device storage as fields.
- **The trip page** (`src/pages/MileageTracker.jsx`, module `Mileage`).
  - The trip list, with optimistic placeholders first.
  - The `YYYY-MM-DD` text of the date field, and the instant a save stores for it.
  - The trip document `handleSave` writes.
  - The page state the start, stop and save buttons change, as the class `Mileage.TripPage`.
- **The receipts page** (`src/pages/Expenses.jsx`, module `Expenses`): the last thirty days' list, the status labels, the clarification and the photo correction.
- **The monthly report** (`src/pages/Reports.jsx`, module `Reports`): the month's work trips and approved receipts, the totals, and the grouping by vehicle.
- **The add-vehicle form** (`src/components/VehiclesManager.jsx`, module `Vehicles`).
- **The rejected-receipts banner** (`src/App.jsx`, module `Banner`).
- **The change-password dialog** (`src/components/ui/Modals.jsx`, module `Password`).
- **Shared modules.**
  - `Text` holds the JavaScript string built-ins the pages rely on: `trim`, `toUpperCase`, `Number`, `parseFloat`, `parseInt`, `split`, `padStart`, `toFixed(1)` and `String(n)`.
  - `Arrays` holds `filter`, `find`, `reduce`, `slice` and a stable descending `sort`.
  - `Records` holds the Firestore documents.
  - `Calendar` holds the local calendar.
  - `Wrappers` holds `Option`.

How the environment is modelled:

- Every outside service becomes an input.
  - Plugin permission answers and watcher ids.
  - Storage write outcomes.
  - Geocoder replies.
  - Firestore write outcomes.
  - The current instant.
  - The local calendar, and the local-noon instant of a date.
  - The haversine formula: `Geo.Haversine` is any non-negative function, and only the zero-coordinate guard of `calculateDistance` is modelled.
- An asynchronous handler is a method that runs to completion. Where the UI changes before the store answers, the handler is split in two: `BeginSave` and `FinishSave`, `OnFix` and `LookUpStart`, `BeginUpdate` and `FinishUpdate`.

## Model

| member | source | states |
|---|---|---|
| Geo.CalculateDistance | src/utils/math.js:1-12 | The distance is 0 when any of the four coordinates is 0; otherwise it is the haversine distance. |
| Accumulator.AccuracyOf | src/hooks/useGPS.js:215 | A fix without an accuracy counts as 20 m accurate. |
| Accumulator.Classify | src/hooks/useGPS.js:217-219 | Quality is poor exactly above 30 m and good exactly at 15 m or better; anything else is medium. |
| Accumulator.ClassifyMonotone | src/hooks/useGPS.js:217-219 | A less accurate fix never gets a better grade. |
| Accumulator.DroppedFixIsPoor | src/hooks/useGPS.js:217-221 | A fix dropped for accuracy worse than 50 m has already set the quality to poor. |
| Accumulator.Decide | src/hooks/useGPS.js:221-255 | Rejected exactly when accuracy is worse than 50 m. Otherwise it is an anchor exactly when there is no previous point. Otherwise the leg from the previous point decides: a jump above 0.5 mi, stationary below 0.0031 mi, a step in between. |
| Accumulator.PathMilesAppend | src/hooks/useGPS.js:225-238 | Appending a point adds exactly the leg from the last point to the length of the path. |
| Accumulator.Last | src/hooks/useGPS.js:183-184 | The last point is absent exactly for an empty path, and otherwise is its final element. |
| Accumulator.Advance | src/hooks/useGPS.js:221-255 | An anchor or a step appends the fix; a step also adds its leg to the miles. Every other decision leaves path and miles unchanged. |
| Accumulator.AdvanceConsistent | src/hooks/useGPS.js:221-255 | One fix keeps a track consistent: the miles equal the path length, every point is at most 50 m inaccurate, and every leg lies within [0.0031, 0.5] mi. |
| Accumulator.StepConsistent | src/hooks/useGPS.js:225-244 | An accepted step keeps the track consistent. |
| Accumulator.ReplayConsistent | src/hooks/useGPS.js:209-256 | A trip started from nothing stays consistent whatever fixes arrive, and never has more points than fixes. |
| Accumulator.Callback | src/hooks/useGPS.js:209-256 | A fix that is rejected, a jump or stationary leaves every ref and the stored snapshot as they were. An anchor or a step appends the fix to the path and makes it the last point. The trip type never changes. |
| Accumulator.CallbackAdvances | src/hooks/useGPS.js:225-255 | The watcher callback moves the path and the miles exactly as Advance does. |
| Accumulator.CallbackLagging | src/hooks/useGPS.js:149-170 | Across a callback, lastCoords stays the path's last point. The stored snapshot's miles plus the unsaved miles stay equal to the miles, and the stored path stays a prefix of the path. |
| Accumulator.CallbackBoundsUnsaved | src/hooks/useGPS.js:241-243 | While storage writes succeed, the unsaved miles stay below 0.03 mi. |
| Accumulator.CallbackFlushes | src/hooks/useGPS.js:241-256 | An anchor always writes, a step only when it takes the unsaved miles to 0.03 or more. A successful write stores the current refs and zeroes the unsaved miles. A failed write, or none, leaves storage as it was and the unsaved miles as they were, plus the step. |
| Accumulator.CallbackStoresCurrent | src/hooks/useGPS.js:241-249 | After a callback the stored snapshot is either unchanged or exactly the refs as they now are. |
| Places.WithPlace | src/hooks/useGPS.js:58-82 | Learning a place extends the stored list by at most one entry. It adds one exactly when the name is not blank and no same-named entry lies under 0.02 mi away; the entry carries the trimmed name. |
| Places.SaveTwiceStoresOnce | src/hooks/useGPS.js:66-70 | Saving the same place twice stores it once. |
| Places.IdentifySavedPlaceSpec | src/hooks/useGPS.js:84-90 | The name is that of the first saved place within 0.05 mi, or the original address when none is that close. |
| Places.LookupAfterSave | src/hooks/useGPS.js:58-90 | A place just learned names every nearby address that no earlier entry claimed. |
| Geocode.SelectAddressTextSpec | src/hooks/useGPS.js:103-119 | The address text is the first street, route or establishment result without a plus code, if it has text. Failing that it is the first neighbourhood or locality result with text, and failing that the first result. |
| Geocode.Resolve | src/hooks/useGPS.js:93-139 | An address comes back exactly for status OK with results; it carries the learned-place name, or else the selected text, and clears the error. No key: null, error unchanged. Connection failure: 'Error de conexión'. Any other status: 'Error Google: <status>'. |
| Geocode.ResolvedTextHasASource | src/hooks/useGPS.js:117-126 | A geocoded text is always one of the service's texts or a learned place's name. |
| Gps.ErrorAfter | src/hooks/useGPS.js:124-136 | The error shown after a lookup is kept, cleared or set to the lookup's message. |
| Gps.StartRequestedOnce | src/hooks/useGPS.js:245-254 | Once the start address has been asked for, no later fix of the trip asks again. |
| Gps.AfterAllKeepsFlag | src/hooks/useGPS.js:251-252 | The flag that the start address was asked for is never cleared by fixes. |
| Gps.TripRecorder.constructor | src/hooks/useGPS.js:309-321 | Mounting loads the learned places. It resumes a stored trip that was tracking: refs from the snapshot, GPS marked used and the start marked geocoded when the path is not empty, tracking and a new watcher id exactly when permission is granted. Otherwise it starts from an empty 'trabajo' trip with no watcher. Either way there are no addresses and no error, and the quality is good. |
| Gps.TripRecorder.StartWatcher | src/hooks/useGPS.js:172-262 | The refs are loaded from the arguments, with lastCoords the last initial point. Tracking starts with the new watcher exactly when permission is granted; otherwise the old watcher id is kept. |
| Gps.TripRecorder.Flush | src/hooks/useGPS.js:149-170 | A successful write stores the refs as a tracking snapshot and zeroes the unsaved miles; a failed write changes nothing. |
| Gps.TripRecorder.AddPoint | src/hooks/useGPS.js:231-238 | The point is appended, becomes lastCoords, and its leg is added to the miles and the unsaved miles. |
| Gps.TripRecorder.LookUpStart | src/hooks/useGPS.js:253 | A start-address reply that resolves becomes startAddress; the error follows Resolve. |
| Gps.TripRecorder.Record | src/hooks/useGPS.js:221-250 | The refs and storage change exactly as the callback does (Callback), keeping storage lagging the refs. |
| Gps.TripRecorder.OnFix | src/hooks/useGPS.js:209-256 | One fix updates the quality, the refs, storage and the session flags as FixSession says. It asks for the start address exactly on the trip's first anchor. |
| Gps.TripRecorder.MarkProgress | src/hooks/useGPS.js:236-252 | A step marks GPS as used; an anchor sets the start flag and asks for the start address only when the flag was clear. |
| Gps.TripRecorder.OnLocationError | src/hooks/useGPS.js:210-213 | Only a NOT_AUTHORIZED error changes anything: the quality becomes poor. |
| Gps.TripRecorder.StartTrip | src/hooks/useGPS.js:264-273 | Storage, the addresses, the error and the GPS flags are cleared, and the trip restarts from 0 miles with an empty path and the current type. |
| Gps.TripRecorder.ClearSession | src/hooks/useGPS.js:266-271 | GPS use, both addresses, the error and the start flag are cleared. |
| Gps.TripRecorder.StopTrip | src/hooks/useGPS.js:275-299 | The watcher is removed, tracking stops and storage is cleared. The result carries the refs' miles, path and type, the start address, and the end address: the one already known, else a lookup at the last point if there is one. |
| Gps.TripRecorder.LookUpEnd | src/hooks/useGPS.js:276-281 | The end address is looked up only when there is a last point and none yet; a resolved one is kept. |
| Gps.TripRecorder.ResetTrip | src/hooks/useGPS.js:301-307 | Miles, path, last point, addresses, error, flags and storage are cleared. |
| Gps.TripRecorder.ChangeType | src/hooks/useGPS.js:141-147 | The type changes; while tracking, a snapshot with the new type is written. |
| Gps.TripRecorder.SavePlace | src/hooks/useGPS.js:58-82 | Storage gets the learned list when the write succeeds. Memory gets it even when the write fails. A blank or duplicate name changes neither. |
| Mileage.TodayTrips | src/pages/MileageTracker.jsx:57-65 | The list is a permutation of placeholders plus stored trips, sorted by the descending key. |
| Mileage.PlaceholdersFirst | src/pages/MileageTracker.jsx:59-63 | Every placeholder comes before every stored trip. |
| Mileage.StoredNewestFirst | src/pages/MileageTracker.jsx:59-63 | Stored trips are listed newest first, a trip without a date counting as 0. |
| Mileage.FormatDateForInput | src/pages/MileageTracker.jsx:67-77 | A stored timestamp shows its own local date. A missing or zero one shows today's. |
| Mileage.PaddedValue | src/pages/MileageTracker.jsx:52-53 | A padded number reads back as the same number. |
| Mileage.YmdRoundTrip | src/pages/MileageTracker.jsx:49-55 | Splitting the date text on '-' and reading the numbers gives back the year, the 1-based month and the day. |
| Mileage.StoredDateRoundTrip | src/pages/MileageTracker.jsx:67-77 | The date shown for a stored trip reads back as that trip's local date. |
| Mileage.DateToSave | src/pages/MileageTracker.jsx:131-144 | Today's date saves the current instant. Any other date saves noon of that date. A field without three numbers saves no date. |
| Mileage.TodaySavesNow | src/pages/MileageTracker.jsx:131-144 | Saving with the date field left at today stamps the current instant. |
| Mileage.EditKeepsDay | src/pages/MileageTracker.jsx:108-144 | Re-saving an edited trip of another day without touching its date keeps its local date. |
| Mileage.VehicleLabel | src/pages/MileageTracker.jsx:164 | With no vehicle the label is exactly 'No especificado'. With one, it is exactly its plate, ' (', its alias and ')'. |
| Mileage.TripRecord | src/pages/MileageTracker.jsx:156-165 | Miles are the parsed field, or 0 when unparsable; they are negative only when the field's sign is '-'. Origin and destination are the form's fields trimmed. The type, the date and the vehicle copy are the ones given, and the label is VehicleLabel of that vehicle, never empty. Mode is 'gps' exactly when GPS was used. |
| Mileage.ReportGroupIsLabel | src/pages/MileageTracker.jsx:164 | The monthly report groups a trip saved here under its label. |
| Mileage.ResaveKeepsPlaces | src/pages/MileageTracker.jsx:158-159 | Saving the saved origin and destination again changes nothing. |
| Mileage.StopForm | src/pages/MileageTracker.jsx:79-90 | The form is filled with the trip's addresses or '', its miles to one decimal, and today's date. |
| Mileage.StopThenSaveMiles | src/pages/MileageTracker.jsx:87 | Saving the form a stop filled in stores the trip's miles rounded to tenths. |
| Mileage.TempIdInjective | src/pages/MileageTracker.jsx:169 | Saves started at different instants get different placeholder ids. |
| Mileage.Placeholder | src/pages/MileageTracker.jsx:170-174 | A placeholder is marked optimistic and carries the temporary id. |
| Mileage.RemovePlaceholder | src/pages/MileageTracker.jsx:175-210 | Removing a placeholder by its id undoes prepending it. |
| Mileage.TripPage.constructor | src/pages/MileageTracker.jsx:32-41 | The page starts with no form, no placeholders, an empty form and no vehicle. |
| Mileage.TripPage.HandleStartClick | src/pages/MileageTracker.jsx:216-225 | The first press only shows the battery warning and sets the preference, and leaves the recorder untouched. A later press starts a trip from zero: storage, addresses, error and both flags cleared, nothing unsaved, the type kept, tracking and the watcher id as far as permission allows. The learned places are not touched. |
| Mileage.TripPage.HandleStopTrip | src/pages/MileageTracker.jsx:79-90 | Tracking stops, the watcher id and storage are cleared. The result carries the trip's miles, path, type and start address. The end address is the one already known, else the lookup at the last point, else none; the error follows that lookup. The create form opens filled from the result. |
| Mileage.TripPage.DismissBatteryWarn | src/pages/MileageTracker.jsx:426-428 | Closing the battery warning hides it and starts a trip from zero: storage, addresses, error and both flags cleared, nothing unsaved, the type kept, tracking and the watcher id as far as permission allows. The learned places are not touched. |
| Mileage.TripPage.BeginSave | src/pages/MileageTracker.jsx:127-178 | An empty miles field does nothing. Otherwise saving begins with the record built from the form. A new trip is shown at once as a placeholder with a temporary id and the form closes; an edit keeps the form. |
| Mileage.TripPage.FinishSave | src/pages/MileageTracker.jsx:180-213 | A stored new trip resets the recorder: miles, path, last point, snapshot, addresses, error and flags are cleared, while the unsaved miles, type, tracking, watcher and learned places stay. A stored edit closes and clears the form. Otherwise the recorder is unchanged. The placeholder is removed either way, and saving ends. |
| Mileage.TripPage.HandleEdit | src/pages/MileageTracker.jsx:102-126 | The edit form opens on the trip: its id, its places, the miles text and `formatDateForInput` of its date. The recorder's type becomes the trip's, and while tracking a snapshot with that type is written (`setType` is `changeType`). A carried vehicle selects the current list's vehicle with the same id, else the carried copy; without one the selection stays. |
| Expenses.WeeklyExpenses | src/pages/Expenses.jsx:16-34 | No list gives nothing, and never more than 50 receipts are shown. |
| Expenses.WeeklyExpensesSorted | src/pages/Expenses.jsx:27-32 | The list is sorted newest upload first. |
| Expenses.WeeklyExpensesCount | src/pages/Expenses.jsx:20-33 | The list holds only receipts uploaded within thirty days. It holds all of them when there are at most 50, and exactly 50 otherwise. |
| Expenses.WeeklyExpensesNewest | src/pages/Expenses.jsx:27-33 | The list keeps the newest receipts: a recent receipt left out is no newer than any receipt shown. |
| Expenses.WeeklyExpensesMembers | src/pages/Expenses.jsx:20-24 | Every listed receipt is an input receipt uploaded within the last thirty days. |
| Expenses.MissingUploadTimeFirst | src/pages/Expenses.jsx:28-31 | When no upload is in the future, receipts without an upload time come first. |
| Expenses.StatusLabel | src/pages/Expenses.jsx:310 | 'Aprobado' exactly for approved, 'Rechazado' exactly for rejected, 'En Revisión' exactly for anything else. |
| Expenses.SendClarification | src/pages/Expenses.jsx:59-77 | A blank text sends nothing. Otherwise the receipt gets the text, goes back to pending and is stamped; nothing else changes. |
| Expenses.Correct | src/pages/Expenses.jsx:128-166 | Once a photo is taken and uploaded, the old photo, if any, is deleted. When the update also succeeds, the receipt has the new URL and path, is pending, has no rejection reason and is stamped; nothing else changes. |
| Expenses.CorrectionPathInjective | src/pages/Expenses.jsx:137-138 | Corrections at different instants go to different storage paths. |
| Reports.VehicleKey | src/pages/Reports.jsx:40-48 | The saved label, else '<plate> (<alias>)' when the vehicle has an alias, else 'Sin Vehículo Asignado'; never empty. |
| Reports.KeysOfSpec | src/pages/Reports.jsx:50-56 | Groups are created once per distinct key, and they are exactly the trips' keys. |
| Reports.GroupContents | src/pages/Reports.jsx:39-62 | Each group holds exactly its key's trips in order. Its miles are their sum and its deduction is that sum at 0.70; a key with no group has no trips. |
| Reports.TripInOneGroup | src/pages/Reports.jsx:39-62 | Every counted trip is in its key's group and in no other. |
| Reports.GroupMilesTotal | src/pages/Reports.jsx:33-62 | The groups' miles add up to the month's total miles. |
| Reports.GroupDeductionsTotal | src/pages/Reports.jsx:33-67 | The groups' deductions add up to the total deduction. |
| Reports.GroupTrips | src/pages/Reports.jsx:37-62 | The forEach loop builds exactly the grouping GroupsOf, with keys in creation order. |
| Reports.ComputeStats | src/pages/Reports.jsx:12-72 | A list that is not an array gives zeros. Otherwise: the month's work trips, their miles, the deduction at 0.70, the month's approved receipts' total, and the grouping. |
| Reports.ReportedTrips | src/pages/Reports.jsx:18-23 | A trip is reported exactly when it is a work trip dated in the selected month and year. |
| Vehicles.Normalize | src/components/VehiclesManager.jsx:15-25 | Nothing is submitted exactly when alias or plate is blank. Otherwise: the trimmed alias, the plate trimmed and upper-cased, and 'Propio' for a personal vehicle or else the typed owner. |
| Vehicles.NormalizedFieldsTrimmed | src/components/VehiclesManager.jsx:17-23 | The submitted alias and plate are non-empty and carry no surrounding whitespace. |
| Vehicles.NormalizeIdempotent | src/components/VehiclesManager.jsx:21-25 | Typing the submitted vehicle back in submits the same vehicle. |
| Vehicles.VehicleForm.constructor | src/components/VehiclesManager.jsx:10-13 | The form starts empty with a personal owner. |
| Vehicles.VehicleForm.Submit | src/components/VehiclesManager.jsx:15-33 | The vehicle handed over is the normalised form. The form clears only when the vehicle was stored and is otherwise untouched. |
| Vehicles.VehicleForm.Clear | src/components/VehiclesManager.jsx:27-32 | The form goes back to its defaults. |
| Banner.RejectedCount | src/App.jsx:54-58 | The count never exceeds the number of receipts. |
| Banner.RejectedCountSpec | src/App.jsx:54-58 | The count is 0 exactly when no receipt is rejected, and it adds up over concatenated lists. |
| Banner.HasNewRejectionSpec | src/App.jsx:56 | There is news exactly when some rejected receipt was reviewed after the instant last seen. |
| Banner.NothingNewAfterDismiss | src/App.jsx:61-66 | Right after a dismissal, no past review counts as new. |
| Banner.InitialSeenAt | src/App.jsx:33-35 | Nothing stored reads as instant 0. |
| Banner.StoredSeenAtRoundTrip | src/App.jsx:33-35 | The instant a dismissal stores reads back unchanged at the next start. |
| Banner.BannerState.constructor | src/App.jsx:27-35 | The app opens on the mileage tab with the banner hidden and the stored instant read back. |
| Banner.BannerState.RefreshRejected | src/App.jsx:54-59 | The count is returned. The banner is raised when there is news and the receipts tab is not open, and is never lowered here. |
| Banner.BannerState.DismissBanner | src/App.jsx:61-66 | The current instant is remembered and stored, and the banner is hidden. |
| Banner.BannerState.SwitchTab | src/App.jsx:68 | Moving to the receipts tab dismisses the banner; any other change leaves the banner state alone. |
| Password.Check | src/components/ui/Modals.jsx:21-22 | 'Mínimo 6 caracteres' exactly when the password is under 6 UTF-16 units. 'Las contraseñas no coinciden' exactly when it is long enough but differs from its confirmation. No error otherwise. |
| Password.PasswordDialog.constructor | src/components/ui/Modals.jsx:10-14 | The dialog opens empty, not loading, with no error. |
| Password.PasswordDialog.BeginUpdate | src/components/ui/Modals.jsx:20-25 | A failed check shows its message and starts nothing. A passing check clears the error and starts loading. |
| Password.PasswordDialog.FinishUpdate | src/components/ui/Modals.jsx:26-42 | The profile is written exactly after a successful forced update, which then clears the reset requirement. The dialog asks to close exactly when everything it tried succeeded; otherwise it shows the re-authentication message. Loading ends. |
| Text.Trim | src/components/VehiclesManager.jsx:17-23 | The result is the input without leading and trailing JavaScript whitespace, and is empty exactly for an all-whitespace input. |
| Text.TrimIdempotent | src/pages/MileageTracker.jsx:158-159 | Trimming twice is trimming once. |
| Text.ToUpper | src/components/VehiclesManager.jsx:23 | Same length, each character upper-cased. |
| Text.ToUpperIdempotent | src/components/VehiclesManager.jsx:23 | Upper-casing twice is upper-casing once. |
| Text.TrimUpperCommute | src/components/VehiclesManager.jsx:23 | Trimming and upper-casing commute. |
| Text.NatToDecimal | src/App.jsx:64 | The decimal text of a number is non-empty and all digits, and is one digit exactly below 10. |
| Text.DecimalRoundTrip | src/App.jsx:33-35 | Reading the decimal text of a number gives the number back. |
| Text.DecimalTextInjective | src/pages/MileageTracker.jsx:169 | Different numbers give different texts inside a fixed prefix and suffix. |
| Text.Pad2 | src/pages/MileageTracker.jsx:52-53 | padStart(2, '0') keeps the text at the end, pads with '0' only, and reaches length 2. |
| Text.NumberOf | src/pages/MileageTracker.jsx:131 | A digit string converts to its value. |
| Text.Split | src/pages/MileageTracker.jsx:131 | The pieces hold no separator and join back into the text. |
| Text.SplitJoin | src/pages/MileageTracker.jsx:131 | Splitting joined separator-free pieces gives them back. |
| Text.TenthsRounded | src/pages/MileageTracker.jsx:87 | The tenths are within half a tenth of the number. |
| Text.ToFixed1 | src/pages/MileageTracker.jsx:87 | A non-negative number prints as its whole tenths' quotient, a dot and one digit. A negative one starts with '-'. |
| Text.ParseUnsigned | src/pages/MileageTracker.jsx:157 | An unsigned literal is read exactly when the text starts with a digit, or with '.' and a digit, and its value is never negative. |
| Text.ParseFloat | src/pages/MileageTracker.jsx:157 | After leading whitespace and one optional sign, a number is read exactly when a decimal literal starts there. It is negative only after a '-' and positive only without one. |
| Text.SkipsWhitespace | src/pages/MileageTracker.jsx:157 | Leading whitespace changes nothing that parseFloat or parseInt reads. |
| Text.ParseNegated | src/pages/MileageTracker.jsx:157 | A '-' before a decimal literal negates its value. |
| Text.ParseLeadingDot | src/pages/MileageTracker.jsx:157 | '.' and digits read as that fraction. |
| Text.ParseExponent | src/pages/MileageTracker.jsx:157 | Digits, 'e', digits read as the first digits with the point moved right by the second. |
| Text.ShiftByPow10 | src/pages/MileageTracker.jsx:157 | Moving the point n places right multiplies by 10^n. |
| Text.ParseWholeDotFraction | src/pages/MileageTracker.jsx:157 | Digits, '.', digits read as the whole part plus the fraction. |
| Text.ParseInt | src/App.jsx:34 | After leading whitespace and one optional sign, a number is read exactly when a decimal digit starts there, or a '0x' prefix followed by a hexadecimal digit. Its sign follows the text's sign. |
| Text.ParseIntDigits | src/App.jsx:33-35 | A decimal digit string reads as its value. |
| Text.ParseFixed1 | src/pages/MileageTracker.jsx:87-157 | parseFloat(x.toFixed(1)) reads a number, and it is x rounded to tenths. |
| Text.Utf16Length | src/components/ui/Modals.jsx:21 | The JavaScript length lies between the number of code points and twice that. |
| Arrays.FilterMembers | src/pages/Reports.jsx:18-31 | filter keeps exactly the elements that pass, never more often than the input has them. |
| Arrays.FindIndex | src/hooks/useGPS.js:105-115 | find returns the first element that passes, or nothing when none does. |
| Arrays.Take | src/pages/Expenses.jsx:33 | slice(0, n) is the prefix of length min(n, length). |
| Arrays.SortDesc | src/pages/Expenses.jsx:27-32 | sort with a descending comparator gives a permutation whose keys never increase. |
| Arrays.SumAppend | src/pages/Reports.jsx:33-34 | A sum over a concatenation is the sum of the two sums. |
| Records.ParsedOrZero | src/pages/Reports.jsx:33-34 | `parseFloat(x) \|\| 0` is the parsed number, or 0 when it is NaN. |

## Left out

- **Haversine formula** (`src/utils/math.js:4-11`): it is trigonometry on doubles. It is a parameter; only its zero-coordinate guard is modelled.
- **Floating point:** all amounts and distances are exact reals, so rounding error, NaN and Infinity are not modelled. A NaN distance would make a fix stationary in the original.
- **Concurrency between asynchronous handlers.**
  - Each handler runs to completion before the next.
  - In the original, a fix can arrive while a `saveToDisk` is awaiting its write, and `unsavedMilesRef` is then zeroed after those miles were added.
  - The watcher callback's closure sees the learned places of the render that started it. The model uses the current list.
  - React's batched state updates are applied at once.
- **Outside services** are inputs: plugin permission, watcher ids, Preferences, localStorage, Firestore, Storage, the geocoding HTTP call and the camera.
  - Removing the old watcher when a new one starts (`src/hooks/useGPS.js:197-199`) is not modelled.
  - A falsy watcher id 0 is not distinguished.
  - Nothing in the model depends on them beyond their outcomes.
- **App-state listener** (`src/hooks/useGPS.js:323-331`): it only copies the refs into React state for display.
- **Unmount cleanup** of the watcher is not modelled, for the same reason.
- **MAX_PATH_POINTS** (`src/hooks/useGPS.js:52`) is declared but never used, so the path is never trimmed. The constant's name suggests a 500-point cap, but no code applies it. The model follows the code, and `Accumulator.ReplayConsistent` bounds the path only by the number of fixes.
- **Stop result:** the miles and path are the refs'. Once stopped, the original's `isTracking` in React state and in the closure may differ for one render; the model keeps one value.
- **Dates:**
  - Local time zones and `new Date(y, m, d, 12)` are the parameters Clock and NoonOf.
  - `Date.now()` read several times in one handler is taken as one instant.
  - A date field that does not hold three numbers gives an invalid Date in the original. The model saves no date (`fecha` None) rather than follow Firestore's treatment of an invalid Timestamp.
- **Text.ParseFloat** reads 'Infinity' as NaN and computes exact reals: an exponent beyond the range of doubles gives a huge or tiny real instead of Infinity or 0, and no digits are rounded away.
- **Mileage.TripRecord** does not promise non-negative miles: the miles field accepts a typed '-', and `parseFloat` keeps the sign, so a negative number is saved as typed.
- **Text.NumberOf** reads a trimmed run of decimal digits, or the empty string as 0. Every other text is NaN, although `Number` also accepts signs, fractions, exponents and hexadecimal. The date texts the page builds are digit runs.
- **Text.UpperChar** upper-cases ASCII and the Latin-1 letters U+00E0-U+00FE only. Other scripts, 'ÿ', 'µ' and the expansion of 'ß' to "SS" are not modelled.
- **JavaScript object key order** puts integer-like keys first. `Reports.GroupTrips` keeps the creation order instead; only the share text, which is not modelled, depends on it.
- **Sorting stability:** Arrays.SortDesc is a stable insertion sort, but stability is not stated as a proven property.
- **Handlers that only wire data through:**
  - `handleCreateManual` and the default vehicle selection (`src/pages/MileageTracker.jsx:44-48, 92-101`).
  - `handleDelete`, `takePhoto` and `handleUpload` in `src/pages/Expenses.jsx`.
  - The Firestore calls of `useVehicles`.
  - Rendering and the share text of `src/pages/Reports.jsx`.
- **Mileage.TripPage.HandleEdit** takes `trip.millas.toString()` as the parameter `milesText`: JavaScript's number-to-text conversion is not modelled.
- **Password dialog close:** App's `onClose` ignores a close request while the reset is forced (`src/App.jsx:106`). `Password.PasswordDialog.FinishUpdate` reports the request; what App does with it is not modelled.
- **resetTrip** keeps `unsavedMilesRef` and the trip type, as the original does, and does not stop a running watcher.
