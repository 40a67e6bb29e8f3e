# Prescripto appointment core, modelled in Dafny

Prescripto is a doctor-appointment application. Patients browse doctors, book
half-hour slots and cancel them; doctors complete or cancel their
appointments and edit their profile; an admin adds doctors. This project
models the logic at the heart of it and proves what that logic promises:

- **The appointment lifecycle on the server** (`DoctorController`):
  - completing and cancelling an appointment, with their fixed sequence of guards;
  - the availability toggle;
  - the doctor dashboard (earnings, distinct patients, latest five appointments);
  - the field coercion of a profile update.

  The collections are classes (`Records.AppointmentStore`,
  `Records.DoctorStore`, `Records.UserStore`) whose one field each handler
  reassigns. Every handler is a method proved against a pure "after"
  function, and the lemmas about those functions prove guard order, "nothing
  else changes", that no appointment ends up both cancelled and completed,
  and that completion and cancellation are final.
- **The seven-day slot grid of the booking page** (`AppointmentPage`):
  - the day and half-hour loops of `getAvailableSlots`, as methods with loop invariants;
  - the `DD_MM_YYYY` date key, the booked-slot lookup and the auto-selection of the first free slot;
  - the client-side booking guards;
  - the experience and doctor-name formatters.
- **The patient's appointment list** (`MyAppointmentsPage`):
  - reading the date key back (a proved round trip with the booking page's formatter);
  - status precedence and the button rules;
  - the local cancel update.
- **The doctor panel's context** (`DoctorContext`): the local list updates,
  proved to agree with what the server stores, and the session fields.
- **The doctor profile editor** (`DoctorProfilePage`): form validation,
  the change handlers, the image checks and the save gate.
- **Registration and logins** (`UserController`, `AdminController`): the
  check order, the inserts, and the uniqueness of e-mails those inserts
  preserve.
- **The doctor authentication middleware** (`AuthDoctor`): Bearer-token
  extraction and the hand-off of the doctor id.
- **The doctor filters** (`DoctorsPage`, `RelatedDoctors`) and the admin
  panel's age helper (`AdminAppContext`).

The shared modules:

- `Wrappers` holds `Option`.
- `Text` holds digits, padding, trimming and splitting. It also holds
  JavaScript's string length in UTF-16 code units, `parseInt` in base 10 and
  16, `Number` on integer text, and the sign (NaN, zero, negative or
  positive) that `Number` gives every numeric literal form.
- `Lists` holds reversal, filtering, mapping and subsequences.
- `Calendar` holds dates and day stepping.
- `Records` holds the stored documents and the collections.

Foreign code becomes parameters:

- bcrypt, `jwt.sign` and `jwt.verify`, `validator.isEmail`, `JSON.parse` and the image upload;
- the clock (the current minute of the day and today's date);
- server answers (a success flag and the fetched list).

A "missing" JavaScript string (undefined, null or "") is the empty string
wherever the source only tests its truthiness. It is an `Option` where the
source tells the cases apart.

Behaviour the model makes explicit:

- **Empty cancellation reason.** A doctor-side cancellation with an explicitly
  empty reason is shown locally with an empty reason. The server stores
  "Cancelled by doctor" in that case (`DoctorContext.EmptyReasonDiverges`).
- **Non-numeric fee.** The profile form accepts fee text that `Number` reads
  as NaN, such as "12abc" or "-0x1", because `NaN <= 0` is false
  (`DoctorProfilePage.NonNumericFeeAccepted`). Zero and negative amounts are
  refused in every notation `Number` reads, fractions, exponents and `0x`
  literals included (`DoctorProfilePage.FeeDecimalVerdict`).
- **Age.** The admin age helper counts a birthday not yet reached as a full
  year (`AdminAppContext.AgeVersusCompletedYears`).

## Model

| member | source | states |
|---|---|---|
| DoctorController.Toggled | backend/controllers/doctorController.js:27 | only the named doctor changes, and its availability is negated |
| DoctorController.ToggleTwice | backend/controllers/doctorController.js:27 | toggling availability twice restores the collection |
| DoctorController.ChangeAvailability | backend/controllers/doctorController.js:7-34 | missing id gives 400, unknown doctor gives 404; otherwise availability is negated and the new value returned |
| DoctorController.AppointmentComplete | backend/controllers/doctorController.js:125-187 | the reply and the new collection are those of the guard sequence and the completion write |
| DoctorController.CompleteOutcome | backend/controllers/doctorController.js:130-174 | success iff every guard passes; a failure changes nothing; success sets only `isCompleted` and `completedAt` of that appointment |
| DoctorController.CompleteGuardOrder | backend/controllers/doctorController.js:130-169 | guards in order: missing id 400, unknown 404, other doctor 403, already completed 400 |
| DoctorController.StoredReason | backend/controllers/doctorController.js:239 | the stored reason is never empty and is the given one when that is not empty |
| DoctorController.AppointmentCancel | backend/controllers/doctorController.js:190-253 | the reply and the new collection are those of the guards and the cancellation write; the booked-slot ledger is not modified |
| DoctorController.CancelOutcome | backend/controllers/doctorController.js:196-240 | success iff every guard passes; a failure changes nothing; success writes only `cancelled`, `cancelledAt` and the reason or "Cancelled by doctor" |
| DoctorController.CancelGuardOrder | backend/controllers/doctorController.js:196-234 | same guards and codes as completion, with "already completed" checked before "already cancelled" |
| DoctorController.TransitionsPreserveConsistency | backend/controllers/doctorController.js:156-169 | from a state where no appointment is both cancelled and completed, neither transition creates one |
| DoctorController.CompletionIsFinal | backend/controllers/doctorController.js:156-169 | after a completion, no cancellation (by anyone) or repeated completion succeeds or changes anything |
| DoctorController.CancellationIsFinal | backend/controllers/doctorController.js:221-234 | after a cancellation, completion and repeated cancellation are refused and change nothing |
| DoctorController.EarningsAppend | backend/controllers/doctorController.js:264-270 | the earnings of a concatenation are the sum of the parts' earnings |
| DoctorController.EarningsOfCompletedAndPaid | backend/controllers/doctorController.js:264-270 | only completed and paid appointments contribute to the earnings |
| DoctorController.EarningsNonNegative | backend/controllers/doctorController.js:264-270 | with no negative amounts, the earnings are not negative |
| DoctorController.CompletingAddsAmount | backend/controllers/doctorController.js:264-270 | completing one appointment raises the earnings by its amount (missing counts as 0) if it is paid, otherwise not at all |
| DoctorController.PatientIds | backend/controllers/doctorController.js:272 | the distinct patient ids are exactly the user ids that occur, at most one per appointment |
| DoctorController.UserIdsOfFront | backend/controllers/doctorController.js:272 | the user ids of a list are those of its front plus its last entry's |
| DoctorController.DoctorDashboard | backend/controllers/doctorController.js:264-279 | earnings over completed and paid appointments, the number of distinct user ids, and the last at most 5 appointments newest first |
| DoctorController.CoercePhone | backend/controllers/doctorController.js:354 | an absent phone becomes "" and a present one is kept |
| DoctorController.ProfileCoercion | backend/controllers/doctorController.js:334-355 | available iff the field is `true` or "true"; an address that fails to parse becomes `{}`; a missing phone becomes ""; id and booked slots are kept |
| DoctorController.UpdateDoctorProfile | backend/controllers/doctorController.js:322-389 | missing id 400, unknown doctor 404, otherwise only that doctor is replaced by the coerced update |
| AppointmentPage.FormatTime | frontend/src/pages/Appointment.jsx:62-66 | a time is five characters with a colon in the middle |
| AppointmentPage.FormatTimePadded | frontend/src/pages/Appointment.jsx:62-66 | the time is the two-digit hour, a colon and the two-digit minute |
| AppointmentPage.RoundUpToSlot | frontend/src/pages/Appointment.jsx:44-52 | the result is the first half-hour boundary at or after the minute |
| AppointmentPage.FirstSlotMinute | frontend/src/pages/Appointment.jsx:40-56 | the grid starts on a half hour, not before 10:00, and today not before now |
| AppointmentPage.GetAvailableSlots | frontend/src/pages/Appointment.jsx:28-95 | exactly 7 day entries, entry i being the slots of today + i |
| AppointmentPage.BuildDay | frontend/src/pages/Appointment.jsx:32-85 | one pass of the day loop produces that day's date and slots |
| AppointmentPage.TodayStart | frontend/src/pages/Appointment.jsx:40-53 | the page's hour and minute arithmetic computes the rounded start |
| AppointmentPage.DaySlotsFrom | frontend/src/pages/Appointment.jsx:58-79 | the while loop produces the half-hour slots from the start while before 21:00 |
| AppointmentPage.TodayStartCases | frontend/src/pages/Appointment.jsx:40-53 | before 10:00 the start is 10:00; minute 0 stays; minutes 1-30 go to :30; minutes 31-59 go to the next hour |
| AppointmentPage.ScheduleLength | frontend/src/pages/Appointment.jsx:61-79 | from a half-hour start, as many slots as half hours fit before 21:00 |
| AppointmentPage.ScheduleAt | frontend/src/pages/Appointment.jsx:61-79 | the k-th slot is k half hours after the start and before 21:00 |
| AppointmentPage.ScheduleBounds | frontend/src/pages/Appointment.jsx:61-79 | every slot lies on a half hour in [start, 21:00) and shows its own time |
| AppointmentPage.OpeningAndLastTimes | frontend/src/pages/Appointment.jsx:55 | the opening slot reads "10:00" and the last one "20:30" |
| AppointmentPage.LaterDaySlots | frontend/src/pages/Appointment.jsx:54-79 | every day after today has 22 slots, from 10:00 to 20:30 |
| AppointmentPage.NoSlotsLateToday | frontend/src/pages/Appointment.jsx:50-61 | after 20:30 today has no slot |
| AppointmentPage.TodayNotInPast | frontend/src/pages/Appointment.jsx:40-61 | no slot of today starts before the current time |
| AppointmentPage.BookedIffUnavailable | frontend/src/pages/Appointment.jsx:68-71 | a generated slot is marked booked iff `isSlotAvailable` is false for its day and time |
| AppointmentPage.FirstFree | frontend/src/pages/Appointment.jsx:240 | the first unbooked slot, or none iff every slot is booked |
| AppointmentPage.AutoSelectOutcome | frontend/src/pages/Appointment.jsx:238-247 | the first unbooked time, "" when all are booked, and no change for a missing or empty day |
| AppointmentPage.AutoSelectOpeningWhenFree | frontend/src/pages/Appointment.jsx:238-247 | with an empty ledger a later day selects 10:00 |
| AppointmentPage.BookingSendsOnlyFreeSlots | frontend/src/pages/Appointment.jsx:134-161 | a request is sent iff every check passes, and it names the selected day's key and a time the ledger does not list |
| AppointmentPage.BookingGuardOrder | frontend/src/pages/Appointment.jsx:134-161 | the login check comes first, then the user, the selected time, the selected day, and the booked-slot ledger last |
| AppointmentPage.YearsTextMentionsYear | frontend/src/pages/Appointment.jsx:272 | the numeric template always contains "year" |
| AppointmentPage.ZeroYearsText | frontend/src/pages/Appointment.jsx:261 | the fallback text equals the template for zero |
| AppointmentPage.FormatExperienceMentionsYear | frontend/src/pages/Appointment.jsx:260-273 | every formatted experience mentions "year" or "Year" |
| AppointmentPage.FormatExperienceIdempotent | frontend/src/pages/Appointment.jsx:264-266 | formatting a formatted text returns it unchanged |
| AppointmentPage.FormatExperienceNumber | frontend/src/pages/Appointment.jsx:269-272 | a non-zero number N gives "N year experience" for 1 and "N years experience" otherwise |
| AppointmentPage.FormatExperienceHex | frontend/src/pages/Appointment.jsx:269-272 | a `0x` text is read in base 16: the years are its hexadecimal value |
| AppointmentPage.FormatExperienceHexExample | frontend/src/pages/Appointment.jsx:269-272 | "0x1A" is shown as 26 years |
| AppointmentPage.FormatDoctorNameSuffix | frontend/src/pages/Appointment.jsx:276-280 | exactly `Dr.` (any case) and the whitespace after it are removed: the result is the name after them, and the name itself without a prefix |
| AppointmentPage.FormatDoctorNameStripsOnce | frontend/src/pages/Appointment.jsx:279 | only one "Dr." prefix is removed |
| MyAppointmentsPage.FormatSlotMissing | frontend/src/pages/MyAppointments.jsx:69 | "Date not specified" iff the date or the time is missing |
| MyAppointmentsPage.SplitThree | frontend/src/pages/MyAppointments.jsx:72 | three separator-free pieces joined by '_' split back into those pieces |
| MyAppointmentsPage.DateKeyParts | frontend/src/pages/Appointment.jsx:98-103 | the key splits into the padded day, the padded month and the year |
| MyAppointmentsPage.FormatSlotRoundTrip | frontend/src/pages/MyAppointments.jsx:72-73 | reading back a key built by `formatDateForBackend` recovers day, month and year |
| MyAppointmentsPage.DateKeyInjective | frontend/src/pages/Appointment.jsx:98-103 | different days have different keys |
| MyAppointmentsPage.WeekKeysDistinct | frontend/src/pages/Appointment.jsx:32-34 | the seven days of the grid have seven different keys |
| MyAppointmentsPage.StatusPrecedence | frontend/src/pages/MyAppointments.jsx:89-108 | cancelled before completed before "Confirmed", and the style follows the text |
| MyAppointmentsPage.ButtonsFollowStatus | frontend/src/pages/MyAppointments.jsx:235-250 | cancel disabled iff its cancel is in flight or the status is not "Confirmed"; pay disabled iff paid or not "Confirmed" |
| MyAppointmentsPage.MarkCancelled | frontend/src/pages/MyAppointments.jsx:44-50 | same length; only entries with the id get `cancelled` and status "cancelled" |
| MyAppointmentsPage.MarkCancelledEffect | frontend/src/pages/MyAppointments.jsx:44-50 | the cancelled entries read "Cancelled" with both buttons disabled; the others are unchanged |
| MyAppointmentsPage.MarkCancelledIdempotent | frontend/src/pages/MyAppointments.jsx:44-50 | cancelling the same id twice equals cancelling it once |
| MyAppointmentsPage.MyAppointments.ReceiveAppointments | frontend/src/pages/MyAppointments.jsx:20-24 | a successful fetch is stored reversed; a failed one leaves the list |
| MyAppointmentsPage.MyAppointments.BeginCancel | frontend/src/pages/MyAppointments.jsx:36 | the id becomes the in-flight cancel and the list is unchanged |
| MyAppointmentsPage.MyAppointments.FinishCancel | frontend/src/pages/MyAppointments.jsx:42-64 | on success the local cancel update; the in-flight id is cleared either way |
| DoctorContext.WithCompleted | admin/src/context/DoctorContext.jsx:48-55 | same length; only matching entries get `isCompleted` |
| DoctorContext.WithCancelled | admin/src/context/DoctorContext.jsx:79-87 | same length; only matching entries get `cancelled` and the reason |
| DoctorContext.CompleteMirrorsServer | admin/src/context/DoctorContext.jsx:48-55 | the locally updated list agrees with the server's stored appointments, apart from the completion time |
| DoctorContext.CancelMirrorsServer | admin/src/context/DoctorContext.jsx:66-87 | with a non-empty or default reason, the local list agrees with the server, apart from the cancellation time |
| DoctorContext.EmptyReasonDiverges | admin/src/context/DoctorContext.jsx:66-87 | an explicitly empty reason shows "" locally while the server stores the default |
| DoctorContext.LocalUpdatesIdempotent | admin/src/context/DoctorContext.jsx:48-87 | applying either local update twice equals applying it once |
| DoctorContext.DoctorSession.GetAppointments | admin/src/context/DoctorContext.jsx:18-32 | a successful fetch is stored reversed; a failed one leaves the list |
| DoctorContext.DoctorSession.CompleteAppointment | admin/src/context/DoctorContext.jsx:35-63 | success applies the local completion; failure leaves the list |
| DoctorContext.DoctorSession.CancelAppointment | admin/src/context/DoctorContext.jsx:66-95 | success applies the local cancellation with the default reason when none is passed; failure leaves the list |
| DoctorContext.DoctorSession.SetDoctorAuth | admin/src/context/DoctorContext.jsx:97-102 | token and doctor id are both set; the list is kept |
| DoctorContext.DoctorSession.ClearDoctorAuth | admin/src/context/DoctorContext.jsx:104-110 | token, doctor id and list are emptied |
| DoctorProfilePage.WithValue | admin/src/pages/doctor/DoctorProfile.jsx:44-55 | only the named field takes the value |
| DoctorProfilePage.NoteMeaning | admin/src/pages/doctor/DoctorProfile.jsx:107-135 | one check adds its field with its message exactly when that field fails and keeps the other entries |
| DoctorProfilePage.ValidationMeaning | admin/src/pages/doctor/DoctorProfile.jsx:107-135 | a field has an error iff it is checked and fails, and the error is its own message |
| DoctorProfilePage.NoneThrew | admin/src/pages/doctor/DoctorProfile.jsx:110-128 | when no field's trim throws, validation does not throw |
| DoctorProfilePage.ValidateForm | admin/src/pages/doctor/DoctorProfile.jsx:107-135 | the successive field checks compute the validation result |
| DoctorProfilePage.CheckText | admin/src/pages/doctor/DoctorProfile.jsx:110-128 | one text check: whether trim throws, and the error map after it |
| DoctorProfilePage.TextFieldErrors | admin/src/pages/doctor/DoctorProfile.jsx:110-128 | a text field has an error iff it is missing, null, or empty after trimming |
| DoctorProfilePage.FeeErrors | admin/src/pages/doctor/DoctorProfile.jsx:130-132 | the fee has an error iff missing, falsy or at most 0; a number fee errs iff it is at most 0; blank text errs; integer text errs iff its value is at most 0 |
| DoctorProfilePage.NonNumericFeeAccepted | admin/src/pages/doctor/DoctorProfile.jsx:130-132 | non-empty text that `Number` reads as NaN passes the fee check |
| DoctorProfilePage.FeeDecimalVerdict | admin/src/pages/doctor/DoctorProfile.jsx:130 | a decimal fee (with or without fraction and exponent) errs iff its digits are all 0; with a minus sign it always errs |
| DoctorProfilePage.FeeRadixVerdict | admin/src/pages/doctor/DoctorProfile.jsx:130 | a `0x`, `0o` or `0b` fee errs iff its digits are all 0; with a sign in front it is NaN and passes |
| DoctorProfilePage.FeeZeroAndNegativeNotations | admin/src/pages/doctor/DoctorProfile.jsx:130 | "0.0", ".0", "0x0", "-0.5" and "-1e3" all err |
| DoctorProfilePage.CheckImage | admin/src/pages/doctor/DoctorProfile.jsx:74-96 | accepted iff a file is given, its type starts with "image/" and it is at most 5 MB |
| DoctorProfilePage.TrimmedPresent | admin/src/pages/doctor/DoctorProfile.jsx:151-155 | a field that passed its check is sent as non-empty trimmed text |
| DoctorProfilePage.NoErrorNoFailure | admin/src/pages/doctor/DoctorProfile.jsx:139-144 | an empty error map means no checked field fails or throws |
| DoctorProfilePage.ValidPayload | admin/src/pages/doctor/DoctorProfile.jsx:138-156 | a payload that is sent has non-empty text fields and a valid fee |
| DoctorProfilePage.ToggleTwice | admin/src/pages/doctor/DoctorProfile.jsx:99-104 | a toggle negates availability's truthiness; two toggles restore it and change nothing else |
| DoctorProfilePage.ProfileEditor.HandleEdit | admin/src/pages/doctor/DoctorProfile.jsx:28-34 | edit mode on, the profile copied (or the empty shape), errors cleared |
| DoctorProfilePage.ProfileEditor.HandleCancel | admin/src/pages/doctor/DoctorProfile.jsx:37-41 | edit mode off, data dropped, errors cleared |
| DoctorProfilePage.ProfileEditor.HandleChange | admin/src/pages/doctor/DoctorProfile.jsx:44-55 | only the named field changes, and only that field's error is blanked |
| DoctorProfilePage.ProfileEditor.HandleAddressChange | admin/src/pages/doctor/DoctorProfile.jsx:58-71 | only the named address line changes; the inputs exist only in edit mode, and without an edit copy the state is left as it is |
| DoctorProfilePage.ProfileEditor.HandleAvailabilityToggle | admin/src/pages/doctor/DoctorProfile.jsx:99-104 | availability is negated and nothing else changes |
| DoctorProfilePage.ProfileEditor.ImageLoaded | admin/src/pages/doctor/DoctorProfile.jsx:87-89 | the image becomes the data URL and nothing else changes |
| DoctorProfilePage.ProfileEditor.HandleSave | admin/src/pages/doctor/DoctorProfile.jsx:138-190 | sent iff validation yields no error; errors are shown otherwise; success leaves edit mode and clears data and errors |
| UserController.FindByEmail | backend/controllers/userController.js:31 | none iff no user has the e-mail; otherwise the first user with it |
| UserController.RegisterEffect | backend/controllers/userController.js:31-45 | a refusal creates nothing; acceptance appends exactly one user with that e-mail and the hashed password |
| UserController.RegisterCheckOrder | backend/controllers/userController.js:12-28 | a missing field is reported first, then an invalid e-mail, then a short password |
| UserController.RegisterCountsCodeUnits | backend/controllers/userController.js:24 | the length check counts UTF-16 code units: four characters beyond U+FFFF are long enough |
| UserController.RegisterKeepsEmailsUnique | backend/controllers/userController.js:31-45 | registration keeps e-mails unique |
| UserController.RegisterUser | backend/controllers/userController.js:7-50 | the refusal replies of the checks in order, or 201 with a token for the new id and the user appended |
| UserController.LoginUser | backend/controllers/userController.js:61-83 | a token is issued iff credentials are present, the user exists and the password matches; every refusal is 400 |
| UserController.LoginRefusals | backend/controllers/userController.js:64-77 | missing credentials, then unknown e-mail, then "Invalid password" |
| UserController.LoginAfterRegister | backend/controllers/userController.js:37-82 | a newly registered user logs in with the same password and gets a token for the new id |
| AdminController.AddDoctorRequiredFields | backend/controllers/adminController.js:22-37 | any of the ten required inputs missing gives 400 "Please fill all required fields" |
| AdminController.AddDoctorCheckOrder | backend/controllers/adminController.js:39-47 | the e-mail check comes after the required fields, the password length after the e-mail |
| AdminController.ValidationIgnoresServices | backend/controllers/adminController.js:22-51 | a refused request gets the same answer whatever hashing, upload or parsing would do |
| AdminController.DuplicateEmailRefused | backend/controllers/adminController.js:94-96 | a taken e-mail gives 400 "Email already exists" |
| AdminController.AddDoctorEffect | backend/controllers/adminController.js:62-92 | a refusal changes nothing; acceptance adds exactly one doctor under the new id with the e-mail and the hash, and replies 201 |
| AdminController.AddDoctorKeepsEmailsUnique | backend/controllers/adminController.js:62-96 | adding a doctor keeps e-mails unique |
| AdminController.AddDoctor | backend/controllers/adminController.js:7-100 | the reply and new collection follow the checks, the upload, the parsing and the insert in source order |
| AdminController.LoginAdmin | backend/controllers/adminController.js:104-137 | missing credentials give 400; a token iff both equal the configured ones; otherwise 401 |
| AdminController.NoAdminWithoutCredentials | backend/controllers/adminController.js:115-118 | with no configured e-mail no login succeeds |
| AuthDoctor.ExtractToken | backend/middlewares/authDoctor.js:8 | a header with the exact "Bearer " prefix yields what follows it; any other header is used whole |
| AuthDoctor.ExtractBearer | backend/middlewares/authDoctor.js:8 | "Bearer " + t yields t |
| AuthDoctor.OnePrefixStripped | backend/middlewares/authDoctor.js:8 | only one prefix is stripped |
| AuthDoctor.PrefixIsExact | backend/middlewares/authDoctor.js:8 | a lower-case "bearer " or a prefix without the space is not stripped |
| AuthDoctor.AuthMeaning | backend/middlewares/authDoctor.js:5-18 | next runs iff a header is present and its token verifies, with the decoded id; every refusal is 401; no header gives the "No token provided" reply |
| AuthDoctor.BearerHeaderVerifiesToken | backend/middlewares/authDoctor.js:8-12 | a Bearer header is verified on the bare token |
| AuthDoctor.Authenticate | backend/middlewares/authDoctor.js:3-19 | on success `docId` is set and next is called; on refusal the request is unchanged |
| DoctorsPage.FilterExact | frontend/src/pages/Doctors.jsx:12-13 | with a speciality, a doctor is shown iff listed with that speciality |
| DoctorsPage.FilterSpeciality | frontend/src/pages/Doctors.jsx:13 | every shown doctor has the speciality |
| DoctorsPage.FilterKeepsOrder | frontend/src/pages/Doctors.jsx:11-16 | the result is an order-preserving subsequence of the list |
| DoctorsPage.NoSpecialityShowsAll | frontend/src/pages/Doctors.jsx:14-15 | without a speciality the whole list is shown |
| DoctorsPage.FilterIdempotentBySpeciality | frontend/src/pages/Doctors.jsx:13 | filtering the result again changes nothing |
| RelatedDoctors.RelatedExact | frontend/src/components/RelatedDoctors.jsx:11-16 | a doctor is related iff listed, of the same speciality, and not the doctor shown |
| RelatedDoctors.RelatedExcludesCurrent | frontend/src/components/RelatedDoctors.jsx:14 | every related doctor shares the speciality and none is the current doctor |
| RelatedDoctors.NoSpecialityKeepsCurrent | frontend/src/components/RelatedDoctors.jsx:17-18 | without a speciality the full list, current doctor included |
| RelatedDoctors.RelatedKeepsOrder | frontend/src/components/RelatedDoctors.jsx:13-15 | the related list preserves the listing's order |
| AdminAppContext.AgeVersusCompletedYears | admin/src/context/AppContext.jsx:6-12 | the age equals the completed years once the birthday is reached and is one more before it |
| AdminAppContext.AgeIgnoresMonthAndDay | admin/src/context/AppContext.jsx:9 | only the birth year matters |
| AdminAppContext.AgeSign | admin/src/context/AppContext.jsx:9 | born this year gives 0, a future year gives a negative age, an earlier year a positive one |
| AdminAppContext.AgeNextDay | admin/src/context/AppContext.jsx:9 | the age changes from one day to the next only after 31 December |
| Text.JsNumber | frontend/src/pages/MyAppointments.jsx:72 | defines `Number` on integer text (blank is 0, NaN is none); `NumberSignOfInteger` ties it to `NumberSign` |
| Text.NumberSign | admin/src/pages/doctor/DoctorProfile.jsx:130 | defines the sign `Number` gives text: NaN, zero, negative or positive, for decimal, fraction, exponent, `Infinity` and `0x`/`0o`/`0b` forms |
| Text.NumberSignOfInteger | admin/src/pages/doctor/DoctorProfile.jsx:130 | on integer text the sign agrees with the value `JsNumber` reads |
| Text.FractionLiteral | admin/src/pages/doctor/DoctorProfile.jsx:130 | `whole.frac` is a decimal literal, zero exactly when all its digits are 0 |
| Text.ExponentLiteral | admin/src/pages/doctor/DoctorProfile.jsx:130 | a mantissa with an exponent is a decimal literal with the mantissa's sign |
| Text.DecimalSign | admin/src/pages/doctor/DoctorProfile.jsx:130 | a decimal literal reads positive or zero, and negative or negative zero after a minus sign |
| Text.RadixLiteral | admin/src/pages/doctor/DoctorProfile.jsx:130 | a `0x`, `0o` or `0b` literal is positive unless all its digits are 0 |
| Text.SignedRadixLiteral | admin/src/pages/doctor/DoctorProfile.jsx:130 | a sign before a `0x`, `0o` or `0b` literal makes it NaN |
| Text.JsParseInt | frontend/src/pages/Appointment.jsx:269 | defines `parseInt` without a radix: leading whitespace, a sign, then base 16 after `0x`, else base 10; no digit is NaN |
| Text.ParseIntDecimal | frontend/src/pages/Appointment.jsx:269 | decimal digits followed by non-digit text read as their value |
| Text.ParseIntHex | frontend/src/pages/Appointment.jsx:269 | `0x` and hexadecimal digits read as their base-16 value |
| Text.ParseIntNegative | frontend/src/pages/Appointment.jsx:269 | a minus sign negates what is read, in either base |
| Text.Utf16Length | backend/controllers/userController.js:24 | `length` counts UTF-16 code units: between one and two per character |
| Text.Utf16LengthOfBmp | backend/controllers/userController.js:24 | text within the Basic Multilingual Plane has one code unit per character |
| DoctorProfilePage.FeeInvalid | admin/src/pages/doctor/DoctorProfile.jsx:130 | defines `!fees` or `fees <= 0` per JavaScript value, text going through `NumberSign`; `FeeErrors` and `FeeDecimalVerdict` state its meaning |
| DoctorProfilePage.Validation | admin/src/pages/doctor/DoctorProfile.jsx:107-135 | defines the error object of `validateForm`, or a throw; `ValidationMeaning` states its meaning |
| AppointmentPage.FormatDateForBackend | frontend/src/pages/Appointment.jsx:98-103 | defines the `DD_MM_YYYY` key; `DateKeyParts`, `DateKeyInjective` and `FormatSlotRoundTrip` state its meaning |
| AppointmentPage.IsSlotAvailable | frontend/src/pages/Appointment.jsx:105-110 | defines the ledger lookup; `BookedIffUnavailable` states its meaning |
| AppointmentPage.AutoSelect | frontend/src/pages/Appointment.jsx:238-247 | defines the auto-selected time; `AutoSelectOutcome` states its meaning |
| AppointmentPage.BookAppointment | frontend/src/pages/Appointment.jsx:134-161 | defines the booking checks and request; `BookingSendsOnlyFreeSlots` and `BookingGuardOrder` state its meaning |
| AppointmentPage.FormatExperience | frontend/src/pages/Appointment.jsx:260-273 | defines `formatExperience`; the `FormatExperience*` lemmas state its meaning |
| AppointmentPage.FormatDoctorName | frontend/src/pages/Appointment.jsx:276-280 | defines `formatDoctorName`; `FormatDoctorNameSuffix` and `FormatDoctorNameStripsOnce` state its meaning |
| MyAppointmentsPage.FormatSlot | frontend/src/pages/MyAppointments.jsx:68-80 | defines the reading of a date key and time; `FormatSlotMissing` and `FormatSlotRoundTrip` state its meaning |
| MyAppointmentsPage.StatusText | frontend/src/pages/MyAppointments.jsx:89-108 | defines the status text; `StatusPrecedence` states its meaning |
| DoctorController.CompleteRefusal | backend/controllers/doctorController.js:130-169 | defines the completion guards; `CompleteOutcome` and `CompleteGuardOrder` state their meaning |
| DoctorController.CancelRefusal | backend/controllers/doctorController.js:196-234 | defines the cancellation guards; `CancelOutcome` and `CancelGuardOrder` state their meaning |
| DoctorController.Earnings | backend/controllers/doctorController.js:264-270 | defines the earnings fold; `EarningsAppend`, `EarningsOfCompletedAndPaid` and `CompletingAddsAmount` state its meaning |
| DoctorController.ApplyProfile | backend/controllers/doctorController.js:334-355 | defines the coerced profile update; `ProfileCoercion` states its meaning |
| UserController.RegisterRefusal | backend/controllers/userController.js:12-34 | defines the registration refusals; `RegisterCheckOrder` and `RegisterEffect` state their meaning |
| AdminController.AddDoctorOutcome | backend/controllers/adminController.js:22-96 | defines the outcome of `addDoctor`; `AddDoctorEffect` and the other `AddDoctor*` lemmas state its meaning |
| AuthDoctor.AuthOutcome | backend/middlewares/authDoctor.js:5-18 | defines the middleware's outcome; `AuthMeaning` states its meaning |
| DoctorsPage.ApplyFilter | frontend/src/pages/Doctors.jsx:11-16 | defines the speciality filter; `FilterExact` states its meaning |
| RelatedDoctors.Related | frontend/src/components/RelatedDoctors.jsx:11-18 | defines the related-doctors filter; `RelatedExact` states its meaning |
| AdminAppContext.CalculateAge | admin/src/context/AppContext.jsx:6-12 | defines `calculateAge`; `AgeVersusCompletedYears` states its meaning |

## Left out

- Rendering, styling, toasts, navigation, loading flags and `setTimeout` redirects are presentation only.
- Network calls and database queries: server answers and stored documents are inputs. The 500 replies of `catch` blocks for database failures are not modelled.
- bcrypt, `jwt.sign`/`jwt.verify`, `validator.isEmail`, the image upload and `JSON.parse` are foreign code; they are function parameters or given outcomes.
- The real clock and `Date` arithmetic: time is a minute of the day and a day is a (day, month, year) triple. Seconds and time zones are not modelled.
- `toLocaleDateString` and `toDateString` produce locale text; the model stops at the parsed day, month and year and the `HH:MM` time.
- Server-side reservation and release of booked slots are not part of this model; the ledger is an input, and the doctor's cancellation provably does not touch it.
- `parseFloat` on fees is floating point. Fees are integers, and `JsNumber` reads only optionally signed decimal integers.
- DoctorProfilePage.FeeInvalid: a positive literal too small for a double, such as "1e-400", reads as 0 in JavaScript and is refused there; the model reads its sign from its digits and accepts it, because floating point is not modelled.
- AppointmentPage.FormatExperience: a numeric `experience` is an integer, so `parseInt` of a fractional or exponent number's text is not modelled.
- DoctorProfilePage.AddressWith: spreading a string address into indexed entries is not modelled; the doctor schema stores the address as an object.
- AdminController.AddDoctor: a decimal fee text is refused (500) instead of being stored as a fraction, because fees are integers.
- AdminController.AddDoctor: the doctor schema is not part of this model. Its defaults come in as a `defaults` document, and its unique keys are taken to be `_id` and `email`.
- AdminController.LoginAdmin: the signed token is a function of the e-mail; the role claim and the expiry are not modelled.
- DoctorProfilePage: `FileReader`, `FormData` and `JSON.stringify` are not modelled; the image check works on the MIME type and the size.
- DoctorProfilePage: the update call and the profile loader are not provided by the doctor context in this repository. The save's server outcome is a parameter.
- Admin-side cancel, dashboard and all-appointments fetches have no logic in this repository. The other context files are fetch wrappers.
- `localStorage` persistence is not modelled; the stored token and doctor id are the session constructor's arguments.
- Concurrency and double-booking races are out of scope.
