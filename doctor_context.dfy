/**
 * The doctor panel's shared state: the session token, the doctor id and the
 * appointment list, with the local updates applied after the server accepts
 * a completion or a cancellation.
 */
module DoctorContext {
  import opened Wrappers
  import opened Lists
  import opened Records
  import DoctorController

  /** The `map` run after a successful completion: matching entries get `isCompleted: true`. */
  function WithCompleted(list: seq<Appointment>, id: string): (r: seq<Appointment>)
    ensures |r| == |list|
    ensures forall k :: 0 <= k < |list| ==> r[k] == (if list[k].id == id then list[k].(isCompleted := true) else list[k])
  {
    Map(list, (a: Appointment) => if a.id == id then a.(isCompleted := true) else a)
  }

  /** The `map` run after a successful cancellation: matching entries get `cancelled: true` and the reason. */
  function WithCancelled(list: seq<Appointment>, id: string, reason: string): (r: seq<Appointment>)
    ensures |r| == |list|
    ensures forall k :: 0 <= k < |list| ==>
      r[k] == (if list[k].id == id then list[k].(cancelled := true, cancellationReason := Some(reason)) else list[k])
  {
    Map(list, (a: Appointment) => if a.id == id then a.(cancelled := true, cancellationReason := Some(reason)) else a)
  }

  /** The default parameter `reason = "Cancelled by doctor"`: it applies only when no reason is passed. */
  function EffectiveReason(reason: Option<string>): string {
    reason.GetOr(DoctorController.DefaultDoctorReason)
  }

  /** The list holds copies of stored appointments, each under its own id. */
  predicate CopiesOf(list: seq<Appointment>, appointments: map<string, Appointment>) {
    forall k :: 0 <= k < |list| ==> list[k].id in appointments && appointments[list[k].id] == list[k]
  }

  /**
   * When the server accepts the completion, the updated local list agrees
   * entry by entry with the stored appointments afterwards, except for the
   * completion time, which the page does not copy.
   */
  lemma CompleteMirrorsServer(appointments: map<string, Appointment>, list: seq<Appointment>, id: string, docId: string, now: int)
    requires CopiesOf(list, appointments)
    requires DoctorController.MayChange(appointments, id, docId)
    ensures var after := DoctorController.AfterComplete(appointments, id, docId, now);
      forall k :: 0 <= k < |list| ==>
        WithCompleted(list, id)[k] == after[list[k].id].(completedAt := list[k].completedAt)
  {
  }

  /**
   * The same for a cancellation, provided the reason sent is not empty:
   * the local entry then shows the reason the server stores.
   */
  lemma CancelMirrorsServer(appointments: map<string, Appointment>, list: seq<Appointment>, id: string, docId: string,
                            reason: Option<string>, now: int)
    requires CopiesOf(list, appointments)
    requires DoctorController.MayChange(appointments, id, docId)
    requires reason != Some("")
    ensures var after := DoctorController.AfterCancel(appointments, id, docId, EffectiveReason(reason), now);
      forall k :: 0 <= k < |list| ==>
        WithCancelled(list, id, EffectiveReason(reason))[k] == after[list[k].id].(cancelledAt := list[k].cancelledAt)
  {
  }

  /** An explicitly empty reason is shown locally as empty while the server stores the default text. */
  lemma EmptyReasonDiverges(a: Appointment, docId: string, now: int)
    requires a.id != "" && a.docId == docId && !a.cancelled && !a.isCompleted
    ensures var stored := DoctorController.AfterCancel(map[a.id := a], a.id, docId, EffectiveReason(Some("")), now)[a.id];
      && WithCancelled([a], a.id, EffectiveReason(Some("")))[0].cancellationReason == Some("")
      && stored.cancellationReason == Some(DoctorController.DefaultDoctorReason)
  {
  }

  /** Applying the same local update twice is applying it once. */
  lemma LocalUpdatesIdempotent(list: seq<Appointment>, id: string, reason: string)
    ensures WithCompleted(WithCompleted(list, id), id) == WithCompleted(list, id)
    ensures WithCancelled(WithCancelled(list, id, reason), id, reason) == WithCancelled(list, id, reason)
  {
  }

  /** The doctor panel's session: token, doctor id and the appointment list, newest first. */
  class DoctorSession {
    var dToken: string
    var doctorId: string
    var appointments: seq<Appointment>

    /** The initial state: the token and id found in local storage, or "" for each. */
    constructor (storedToken: Option<string>, storedId: Option<string>)
      ensures dToken == storedToken.GetOr("") && doctorId == storedId.GetOr("")
      ensures appointments == []
    {
      dToken := storedToken.GetOr("");
      doctorId := storedId.GetOr("");
      appointments := [];
    }

    /** `getAppointments`: a successful fetch is kept in reverse order; a failed one leaves the list. */
    method GetAppointments(success: bool, fetched: seq<Appointment>)
      modifies this
      ensures appointments == (if success then Reversed(fetched) else old(appointments))
      ensures dToken == old(dToken) && doctorId == old(doctorId)
    {
      if success {
        appointments := Reversed(fetched);
      }
    }

    /** `completeAppointment`, once the server's answer is known. */
    method CompleteAppointment(id: string, success: bool)
      modifies this
      ensures appointments == (if success then WithCompleted(old(appointments), id) else old(appointments))
      ensures dToken == old(dToken) && doctorId == old(doctorId)
    {
      if success {
        appointments := WithCompleted(appointments, id);
      }
    }

    /** `cancelAppointment`, once the server's answer is known; `reason` is `None` when the caller passes none. */
    method CancelAppointment(id: string, reason: Option<string>, success: bool)
      modifies this
      ensures appointments == (if success then WithCancelled(old(appointments), id, EffectiveReason(reason)) else old(appointments))
      ensures dToken == old(dToken) && doctorId == old(doctorId)
    {
      var r := EffectiveReason(reason);
      if success {
        appointments := WithCancelled(appointments, id, r);
      }
    }

    /** `setDoctorAuth`: both the token and the id are set together. */
    method SetDoctorAuth(token: string, id: string)
      modifies this
      ensures dToken == token && doctorId == id
      ensures appointments == old(appointments)
    {
      dToken := token;
      doctorId := id;
    }

    /** `clearDoctorAuth`: token, id and list are all emptied. */
    method ClearDoctorAuth()
      modifies this
      ensures dToken == "" && doctorId == "" && appointments == []
    {
      dToken := "";
      doctorId := "";
      appointments := [];
    }
  }
}
