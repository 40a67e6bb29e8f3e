/** The "related doctors" strip: other doctors of the same speciality as the one shown. */
module RelatedDoctors {
  import opened Lists
  import opened Records

  /** `applyFilter`: same speciality and a different `_id`; with no speciality (""), the whole list. */
  function Related(doctors: seq<Doctor>, docInfo: Doctor): seq<Doctor> {
    if docInfo.speciality != "" then
      Filter(doctors, (doc: Doctor) => doc.speciality == docInfo.speciality && doc.id != docInfo.id)
    else doctors
  }

  /** With a speciality, a doctor is related exactly when listed, of that speciality, and not the doctor shown. */
  lemma RelatedExact(doctors: seq<Doctor>, docInfo: Doctor, d: Doctor)
    requires docInfo.speciality != ""
    ensures d in Related(doctors, docInfo) <==> d in doctors && d.speciality == docInfo.speciality && d.id != docInfo.id
  {
    FilterMembership(doctors, (doc: Doctor) => doc.speciality == docInfo.speciality && doc.id != docInfo.id, d);
  }

  /** With a speciality, every related doctor shares it and none is the doctor shown. */
  lemma RelatedExcludesCurrent(doctors: seq<Doctor>, docInfo: Doctor)
    requires docInfo.speciality != ""
    ensures forall k :: 0 <= k < |Related(doctors, docInfo)| ==>
      Related(doctors, docInfo)[k].speciality == docInfo.speciality && Related(doctors, docInfo)[k].id != docInfo.id
  {
  }

  /** Without a speciality the whole list is shown, the current doctor included. */
  lemma NoSpecialityKeepsCurrent(doctors: seq<Doctor>, docInfo: Doctor)
    requires docInfo.speciality == ""
    ensures Related(doctors, docInfo) == doctors
  {
  }

  /** The related list keeps the listing's order. */
  lemma RelatedKeepsOrder(doctors: seq<Doctor>, docInfo: Doctor)
    ensures IsSubsequence(Related(doctors, docInfo), doctors)
  {
    if docInfo.speciality != "" {
      FilterIsSubsequence(doctors, (doc: Doctor) => doc.speciality == docInfo.speciality && doc.id != docInfo.id);
    } else {
      SubsequenceOfItself(doctors);
    }
  }
}
