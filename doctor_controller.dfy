/**
 * The doctor panel's server operations: toggling availability, completing
 * and cancelling an appointment, the dashboard summary and the coercion of
 * profile-update fields. The caller's doctor id (`req.docId`) is the one the
 * authentication middleware established; clock readings are parameters.
 */
module DoctorController {
  import opened Wrappers
  import opened Records
  import opened Lists

  /** An HTTP status with the JSON body's `success` and `message`. */
  datatype Reply = Reply(code: int, success: bool, message: string)

  const DefaultDoctorReason := "Cancelled by doctor"

  // ---------------------------------------------------------------------
  // changeAvailability

  /** The doctors collection after negating `docId`'s availability; nothing else differs. */
  function Toggled(doctors: map<string, Doctor>, docId: string): (r: map<string, Doctor>)
    requires docId in doctors
    ensures r.Keys == doctors.Keys
    ensures r[docId].available == !doctors[docId].available
    ensures forall id :: id in doctors && id != docId ==> r[id] == doctors[id]
  {
    doctors[docId := doctors[docId].(available := !doctors[docId].available)]
  }

  /** Toggling twice restores the collection. */
  lemma ToggleTwice(doctors: map<string, Doctor>, docId: string)
    requires docId in doctors
    ensures Toggled(Toggled(doctors, docId), docId) == doctors
  {
    var d := doctors[docId];
    assert d.(available := !d.available).(available := !!d.available) == d;
  }

  method ChangeAvailability(store: DoctorStore, docId: string) returns (reply: Reply, availability: Option<bool>)
    modifies store
    ensures docId == "" ==>
      reply == Reply(400, false, "Doctor ID is required") && availability == None
      && store.doctors == old(store.doctors)
    ensures docId != "" && docId !in old(store.doctors) ==>
      reply == Reply(404, false, "Doctor not found") && availability == None
      && store.doctors == old(store.doctors)
    ensures docId != "" && docId in old(store.doctors) ==>
      reply == Reply(200, true, "Availability changed successfully")
      && store.doctors == Toggled(old(store.doctors), docId)
      && availability == Some(store.doctors[docId].available)
  {
    if docId == "" {
      return Reply(400, false, "Doctor ID is required"), None;
    }
    if docId !in store.doctors {
      return Reply(404, false, "Doctor not found"), None;
    }
    var doctor := store.doctors[docId];
    doctor := doctor.(available := !doctor.available);
    store.doctors := store.doctors[docId := doctor];
    reply, availability := Reply(200, true, "Availability changed successfully"), Some(doctor.available);
  }

  // ---------------------------------------------------------------------
  // appointmentComplete

  /** The first guard of the completion request that fails, in the order the handler checks them. */
  function CompleteRefusal(appointments: map<string, Appointment>, appointmentId: string, docId: string): Option<Reply> {
    if appointmentId == "" then Some(Reply(400, false, "Appointment ID is required"))
    else if appointmentId !in appointments then Some(Reply(404, false, "Appointment not found"))
    else if appointments[appointmentId].docId != docId then
      Some(Reply(403, false, "Unauthorized: This appointment does not belong to you"))
    else if appointments[appointmentId].isCompleted then Some(Reply(400, false, "Appointment is already completed"))
    else if appointments[appointmentId].cancelled then Some(Reply(400, false, "Cannot complete a cancelled appointment"))
    else None
  }

  /** The request names an existing, active appointment of the calling doctor. */
  predicate MayChange(appointments: map<string, Appointment>, appointmentId: string, docId: string) {
    appointmentId != "" && appointmentId in appointments
    && appointments[appointmentId].docId == docId
    && !appointments[appointmentId].isCompleted && !appointments[appointmentId].cancelled
  }

  function CompleteReply(appointments: map<string, Appointment>, appointmentId: string, docId: string): Reply {
    CompleteRefusal(appointments, appointmentId, docId).GetOr(Reply(200, true, "Appointment marked as completed"))
  }

  /** The collection after the request: only the completion flag and its time stamp are written. */
  function AfterComplete(appointments: map<string, Appointment>, appointmentId: string, docId: string, now: int): map<string, Appointment> {
    if CompleteRefusal(appointments, appointmentId, docId).Some? then appointments
    else appointments[appointmentId := appointments[appointmentId].(isCompleted := true, completedAt := Some(now))]
  }

  method AppointmentComplete(store: AppointmentStore, appointmentId: string, docId: string, now: int) returns (reply: Reply)
    modifies store
    ensures reply == CompleteReply(old(store.appointments), appointmentId, docId)
    ensures store.appointments == AfterComplete(old(store.appointments), appointmentId, docId, now)
  {
    if appointmentId == "" {
      return Reply(400, false, "Appointment ID is required");
    }
    if appointmentId !in store.appointments {
      return Reply(404, false, "Appointment not found");
    }
    var appointmentData := store.appointments[appointmentId];
    if appointmentData.docId != docId {
      return Reply(403, false, "Unauthorized: This appointment does not belong to you");
    }
    if appointmentData.isCompleted {
      return Reply(400, false, "Appointment is already completed");
    }
    if appointmentData.cancelled {
      return Reply(400, false, "Cannot complete a cancelled appointment");
    }
    store.appointments := store.appointments[appointmentId :=
      appointmentData.(isCompleted := true, completedAt := Some(now))];
    reply := Reply(200, true, "Appointment marked as completed");
  }

  /**
   * Completion succeeds exactly when every guard passes; a refused request
   * changes nothing; a successful one changes only the completion fields of
   * the named appointment.
   */
  lemma CompleteOutcome(appointments: map<string, Appointment>, appointmentId: string, docId: string, now: int)
    ensures CompleteReply(appointments, appointmentId, docId).success <==> MayChange(appointments, appointmentId, docId)
    ensures !MayChange(appointments, appointmentId, docId) ==> AfterComplete(appointments, appointmentId, docId, now) == appointments
    ensures MayChange(appointments, appointmentId, docId) ==>
      var after := AfterComplete(appointments, appointmentId, docId, now);
      && after.Keys == appointments.Keys
      && after[appointmentId] == appointments[appointmentId].(isCompleted := true, completedAt := Some(now))
      && forall id :: id in appointments && id != appointmentId ==> after[id] == appointments[id]
  {
  }

  /**
   * The guards run in the handler's order: a missing id is reported before
   * anything is looked up, ownership before status, and an appointment that is
   * both completed and cancelled is reported as completed.
   */
  lemma CompleteGuardOrder(appointments: map<string, Appointment>, appointmentId: string, docId: string)
    ensures appointmentId == "" ==> CompleteReply(appointments, appointmentId, docId).code == 400
    ensures appointmentId != "" && appointmentId !in appointments ==> CompleteReply(appointments, appointmentId, docId).code == 404
    ensures appointmentId in appointments && appointmentId != "" && appointments[appointmentId].docId != docId ==>
      CompleteReply(appointments, appointmentId, docId).code == 403
    ensures (appointmentId in appointments && appointmentId != "" && appointments[appointmentId].docId == docId
             && appointments[appointmentId].isCompleted) ==>
      CompleteReply(appointments, appointmentId, docId) == Reply(400, false, "Appointment is already completed")
  {
  }

  // ---------------------------------------------------------------------
  // appointmentCancel

  /** The first guard of the cancellation request that fails; "already completed" is checked before "already cancelled". */
  function CancelRefusal(appointments: map<string, Appointment>, appointmentId: string, docId: string): Option<Reply> {
    if appointmentId == "" then Some(Reply(400, false, "Appointment ID is required"))
    else if appointmentId !in appointments then Some(Reply(404, false, "Appointment not found"))
    else if appointments[appointmentId].docId != docId then
      Some(Reply(403, false, "Unauthorized: This appointment does not belong to you"))
    else if appointments[appointmentId].isCompleted then Some(Reply(400, false, "Cannot cancel a completed appointment"))
    else if appointments[appointmentId].cancelled then Some(Reply(400, false, "Appointment is already cancelled"))
    else None
  }

  function CancelReply(appointments: map<string, Appointment>, appointmentId: string, docId: string): Reply {
    CancelRefusal(appointments, appointmentId, docId).GetOr(Reply(200, true, "Appointment cancelled successfully"))
  }

  /** `reason || "Cancelled by doctor"`: an empty (or absent) reason is replaced by the default. */
  function StoredReason(reason: string): (r: string)
    ensures r != ""
    ensures reason != "" ==> r == reason
  {
    if reason == "" then DefaultDoctorReason else reason
  }

  /** The collection after the request: only the cancellation fields are written. */
  function AfterCancel(appointments: map<string, Appointment>, appointmentId: string, docId: string, reason: string, now: int): map<string, Appointment> {
    if CancelRefusal(appointments, appointmentId, docId).Some? then appointments
    else appointments[appointmentId := appointments[appointmentId].(
      cancelled := true, cancelledAt := Some(now), cancellationReason := Some(StoredReason(reason)))]
  }

  /**
   * The doctor's cancellation. It modifies only the appointments collection:
   * the doctor's `slots_booked` ledger is not released.
   */
  method AppointmentCancel(store: AppointmentStore, appointmentId: string, docId: string, reason: string, now: int) returns (reply: Reply)
    modifies store
    ensures reply == CancelReply(old(store.appointments), appointmentId, docId)
    ensures store.appointments == AfterCancel(old(store.appointments), appointmentId, docId, reason, now)
  {
    if appointmentId == "" {
      return Reply(400, false, "Appointment ID is required");
    }
    if appointmentId !in store.appointments {
      return Reply(404, false, "Appointment not found");
    }
    var appointmentData := store.appointments[appointmentId];
    if appointmentData.docId != docId {
      return Reply(403, false, "Unauthorized: This appointment does not belong to you");
    }
    if appointmentData.isCompleted {
      return Reply(400, false, "Cannot cancel a completed appointment");
    }
    if appointmentData.cancelled {
      return Reply(400, false, "Appointment is already cancelled");
    }
    store.appointments := store.appointments[appointmentId :=
      appointmentData.(cancelled := true, cancelledAt := Some(now), cancellationReason := Some(StoredReason(reason)))];
    reply := Reply(200, true, "Appointment cancelled successfully");
  }

  /** Cancellation succeeds exactly when every guard passes; otherwise nothing changes; on success only the cancellation fields of the named appointment change. */
  lemma CancelOutcome(appointments: map<string, Appointment>, appointmentId: string, docId: string, reason: string, now: int)
    ensures CancelReply(appointments, appointmentId, docId).success <==> MayChange(appointments, appointmentId, docId)
    ensures !MayChange(appointments, appointmentId, docId) ==> AfterCancel(appointments, appointmentId, docId, reason, now) == appointments
    ensures MayChange(appointments, appointmentId, docId) ==>
      var after := AfterCancel(appointments, appointmentId, docId, reason, now);
      && after.Keys == appointments.Keys
      && after[appointmentId] == appointments[appointmentId].(cancelled := true, cancelledAt := Some(now),
           cancellationReason := Some(if reason == "" then "Cancelled by doctor" else reason))
      && forall id :: id in appointments && id != appointmentId ==> after[id] == appointments[id]
  {
  }

  /** Same guards as completion, except that a completed and cancelled appointment is reported as completed by both. */
  lemma CancelGuardOrder(appointments: map<string, Appointment>, appointmentId: string, docId: string)
    ensures CancelRefusal(appointments, appointmentId, docId).None? <==> CompleteRefusal(appointments, appointmentId, docId).None?
    ensures CancelReply(appointments, appointmentId, docId).code == CompleteReply(appointments, appointmentId, docId).code
    ensures (appointmentId in appointments && appointmentId != "" && appointments[appointmentId].docId == docId
             && appointments[appointmentId].isCompleted) ==>
      CancelReply(appointments, appointmentId, docId) == Reply(400, false, "Cannot cancel a completed appointment")
  {
  }

  // ---------------------------------------------------------------------
  // The lifecycle invariant

  /** Neither operation can make an appointment both cancelled and completed. */
  lemma TransitionsPreserveConsistency(appointments: map<string, Appointment>, appointmentId: string, docId: string, reason: string, now: int)
    requires AllConsistent(appointments)
    ensures AllConsistent(AfterComplete(appointments, appointmentId, docId, now))
    ensures AllConsistent(AfterCancel(appointments, appointmentId, docId, reason, now))
  {
  }

  /** Once completed, an appointment can be neither cancelled nor completed again by anyone. */
  lemma CompletionIsFinal(appointments: map<string, Appointment>, appointmentId: string, docId: string, now: int,
                          otherDoc: string, reason: string, later: int)
    requires MayChange(appointments, appointmentId, docId)
    ensures var after := AfterComplete(appointments, appointmentId, docId, now);
      && !CancelReply(after, appointmentId, otherDoc).success
      && AfterCancel(after, appointmentId, otherDoc, reason, later) == after
      && CancelReply(after, appointmentId, docId) == Reply(400, false, "Cannot cancel a completed appointment")
      && CompleteReply(after, appointmentId, docId) == Reply(400, false, "Appointment is already completed")
  {
  }

  /** Once cancelled, an appointment can be neither completed nor cancelled again. */
  lemma CancellationIsFinal(appointments: map<string, Appointment>, appointmentId: string, docId: string, reason: string, now: int,
                            later: int)
    requires MayChange(appointments, appointmentId, docId)
    ensures var after := AfterCancel(appointments, appointmentId, docId, reason, now);
      && CompleteReply(after, appointmentId, docId) == Reply(400, false, "Cannot complete a cancelled appointment")
      && AfterComplete(after, appointmentId, docId, later) == after
      && CancelReply(after, appointmentId, docId) == Reply(400, false, "Appointment is already cancelled")
  {
  }

  // ---------------------------------------------------------------------
  // doctorDashboard

  /** What one appointment contributes to the earnings: its amount (missing counts as 0) when completed and paid. */
  function Earned(a: Appointment): int {
    if a.isCompleted && a.payment then a.amount.GetOr(0) else 0
  }

  /** The `reduce` over the doctor's appointments, from the first to the last. */
  function Earnings(apps: seq<Appointment>): int {
    if apps == [] then 0 else Earnings(apps[..|apps| - 1]) + Earned(apps[|apps| - 1])
  }

  lemma {:induction false} EarningsAppend(a: seq<Appointment>, b: seq<Appointment>)
    ensures Earnings(a + b) == Earnings(a) + Earnings(b)
    decreases |b|
  {
    if b == [] {
      assert a + b == a;
    } else {
      assert (a + b)[..|a + b| - 1] == a + b[..|b| - 1];
      EarningsAppend(a, b[..|b| - 1]);
    }
  }

  predicate IsCompletedAndPaid(a: Appointment) {
    a.isCompleted && a.payment
  }

  /** Only completed and paid appointments count towards the earnings. */
  lemma {:induction false} EarningsOfCompletedAndPaid(apps: seq<Appointment>)
    ensures Earnings(apps) == Earnings(Filter(apps, IsCompletedAndPaid))
    decreases |apps|
  {
    if apps != [] {
      EarningsOfCompletedAndPaid(apps[1..]);
      EarningsAppend([apps[0]], apps[1..]);
      assert apps == [apps[0]] + apps[1..];
      if IsCompletedAndPaid(apps[0]) {
        EarningsAppend([apps[0]], Filter(apps[1..], IsCompletedAndPaid));
      }
    }
  }

  /** With no negative amounts, the earnings are never negative. */
  lemma {:induction false} EarningsNonNegative(apps: seq<Appointment>)
    requires forall k :: 0 <= k < |apps| ==> apps[k].amount.GetOr(0) >= 0
    ensures Earnings(apps) >= 0
    decreases |apps|
  {
    if apps != [] {
      EarningsNonNegative(apps[..|apps| - 1]);
    }
  }

  /** Completing one appointment raises the earnings by its amount if it was paid, and leaves them alone otherwise. */
  lemma CompletingAddsAmount(apps: seq<Appointment>, k: nat, now: int)
    requires k < |apps| && !apps[k].isCompleted
    ensures var after := apps[k := apps[k].(isCompleted := true, completedAt := Some(now))];
      Earnings(after) == Earnings(apps) + (if apps[k].payment then apps[k].amount.GetOr(0) else 0)
  {
    var after := apps[k := apps[k].(isCompleted := true, completedAt := Some(now))];
    assert apps == apps[..k] + [apps[k]] + apps[k + 1..];
    assert after == apps[..k] + [after[k]] + apps[k + 1..];
    EarningsAppend(apps[..k] + [apps[k]], apps[k + 1..]);
    EarningsAppend(apps[..k], [apps[k]]);
    EarningsAppend(apps[..k] + [after[k]], apps[k + 1..]);
    EarningsAppend(apps[..k], [after[k]]);
    assert Earnings([apps[k]]) == Earned(apps[k]) by { assert [apps[k]][..0] == []; }
    assert Earnings([after[k]]) == Earned(after[k]) by { assert [after[k]][..0] == []; }
  }

  /** The distinct patient ids, as `new Set(appointments.map(item => item.userId))`. */
  function PatientIds(apps: seq<Appointment>): (ids: set<string>)
    ensures |ids| <= |apps|
    ensures apps != [] ==> |ids| >= 1
    ensures forall u :: u in ids <==> exists k :: 0 <= k < |apps| && apps[k].userId == u
  {
    if apps == [] then {}
    else
      var front := apps[..|apps| - 1];
      var ids := PatientIds(front) + {apps[|apps| - 1].userId};
      UserIdsOfFront(apps);
      ids
  }

  /** Some entry of the list was booked by user `u`. */
  predicate BookedBy(apps: seq<Appointment>, u: string) {
    exists k :: 0 <= k < |apps| && apps[k].userId == u
  }

  /** The user ids of a list are those of all but its last entry, plus the last one's. */
  lemma UserIdsOfFront(apps: seq<Appointment>)
    requires apps != []
    ensures forall u :: BookedBy(apps, u) <==> u == apps[|apps| - 1].userId || BookedBy(apps[..|apps| - 1], u)
  {
    var front := apps[..|apps| - 1];
    assert forall k :: 0 <= k < |front| ==> front[k] == apps[k];
  }

  datatype DashData = DashData(earnings: int, appointments: nat, patients: nat, latestAppointments: seq<Appointment>)

  /** The dashboard over the doctor's appointments in stored order. */
  function DoctorDashboard(apps: seq<Appointment>): (d: DashData)
    ensures d.appointments == |apps|
    ensures d.earnings == Earnings(Filter(apps, IsCompletedAndPaid))
    ensures d.patients <= |apps| && (apps != [] ==> 1 <= d.patients)
    ensures d.patients == |set k | 0 <= k < |apps| :: apps[k].userId|
    ensures |d.latestAppointments| == Min(5, |apps|)
    ensures forall k :: 0 <= k < |d.latestAppointments| ==> d.latestAppointments[k] == apps[|apps| - 1 - k]
  {
    EarningsOfCompletedAndPaid(apps);
    assert PatientIds(apps) == set k | 0 <= k < |apps| :: apps[k].userId;
    DashData(Earnings(apps), |apps|, |PatientIds(apps)|, LastReversed(apps, 5))
  }

  // ---------------------------------------------------------------------
  // updateDoctorProfile: field coercion

  /** A request-body field: absent, a string (multipart form) or a boolean (JSON body). */
  datatype FormValue = Absent | Text(s: string) | Flag(b: bool)

  /** `available === 'true' || available === true`. */
  function CoerceAvailable(v: FormValue): bool {
    v == Text("true") || v == Flag(true)
  }

  /** The body of a profile update. `fees` is what `parseFloat` read from the field (`None` for NaN). */
  datatype ProfileBody = ProfileBody(
    name: Option<string>,
    education: Option<string>,
    speciality: Option<string>,
    experience: Option<string>,
    about: Option<string>,
    fees: Option<int>,
    available: FormValue,
    address: Option<string>,
    phone: Option<string>)

  /** `phone || ''`. */
  function CoercePhone(phone: Option<string>): (p: string)
    ensures phone.Some? ==> p == phone.value
    ensures phone.None? ==> p == ""
  {
    phone.GetOr("")
  }

  /** `parseFloat(fees) || 0`: NaN and absent become 0. */
  function CoerceFees(fees: Option<int>): int {
    fees.GetOr(0)
  }

  /**
   * The address: `{}` unless a non-empty address string was sent and parses.
   * `parseJson` stands for `JSON.parse` (`None` when it throws).
   */
  function CoerceAddress(address: Option<string>, parseJson: string -> Option<map<string, string>>): map<string, string> {
    if address.None? || address.value == "" then map[]
    else parseJson(address.value).GetOr(map[])
  }

  /** The document after the update: absent text fields keep their value, the coerced fields are always written. */
  function ApplyProfile(d: Doctor, body: ProfileBody, parseJson: string -> Option<map<string, string>>, image: Option<string>): Doctor {
    d.(name := body.name.GetOr(d.name),
       education := body.education.GetOr(d.education),
       speciality := body.speciality.GetOr(d.speciality),
       experience := body.experience.GetOr(d.experience),
       about := body.about.GetOr(d.about),
       fees := CoerceFees(body.fees),
       available := CoerceAvailable(body.available),
       address := CoerceAddress(body.address, parseJson),
       phone := CoercePhone(body.phone),
       image := image.GetOr(d.image))
  }

  /** Coercion facts: availability is set only by a true boolean or the string "true"; malformed addresses become empty. */
  lemma ProfileCoercion(d: Doctor, body: ProfileBody, parseJson: string -> Option<map<string, string>>, image: Option<string>)
    ensures ApplyProfile(d, body, parseJson, image).available <==> body.available in {Text("true"), Flag(true)}
    ensures body.address.Some? && parseJson(body.address.value).None? ==> ApplyProfile(d, body, parseJson, image).address == map[]
    ensures body.phone.None? ==> ApplyProfile(d, body, parseJson, image).phone == ""
    ensures ApplyProfile(d, body, parseJson, image).id == d.id && ApplyProfile(d, body, parseJson, image).slotsBooked == d.slotsBooked
  {
  }

  method UpdateDoctorProfile(store: DoctorStore, docId: string, body: ProfileBody,
                             parseJson: string -> Option<map<string, string>>, image: Option<string>) returns (reply: Reply)
    modifies store
    ensures docId == "" ==> reply == Reply(400, false, "Doctor ID is required") && store.doctors == old(store.doctors)
    ensures docId != "" && docId !in old(store.doctors) ==>
      reply == Reply(404, false, "Doctor not found") && store.doctors == old(store.doctors)
    ensures docId != "" && docId in old(store.doctors) ==>
      reply == Reply(200, true, "Profile updated successfully")
      && store.doctors == old(store.doctors)[docId := ApplyProfile(old(store.doctors)[docId], body, parseJson, image)]
  {
    if docId == "" {
      return Reply(400, false, "Doctor ID is required");
    }
    if docId !in store.doctors {
      return Reply(404, false, "Doctor not found");
    }
    store.doctors := store.doctors[docId := ApplyProfile(store.doctors[docId], body, parseJson, image)];
    reply := Reply(200, true, "Profile updated successfully");
  }
}
