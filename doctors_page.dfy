/** The doctors listing: the list narrowed to the speciality in the URL. */
module DoctorsPage {
  import opened Lists
  import opened Records

  /** `applyFilter`: the doctors of the chosen speciality, or all of them when none is chosen (""). */
  function ApplyFilter(doctors: seq<Doctor>, speciality: string): seq<Doctor> {
    if speciality != "" then Filter(doctors, (doc: Doctor) => doc.speciality == speciality)
    else doctors
  }

  /** With a speciality, a doctor is shown exactly when listed with that speciality. */
  lemma FilterExact(doctors: seq<Doctor>, speciality: string, d: Doctor)
    requires speciality != ""
    ensures d in ApplyFilter(doctors, speciality) <==> d in doctors && d.speciality == speciality
  {
    FilterMembership(doctors, (doc: Doctor) => doc.speciality == speciality, d);
  }

  /** Every shown doctor has the chosen speciality. */
  lemma FilterSpeciality(doctors: seq<Doctor>, speciality: string)
    requires speciality != ""
    ensures forall k :: 0 <= k < |ApplyFilter(doctors, speciality)| ==> ApplyFilter(doctors, speciality)[k].speciality == speciality
  {
  }

  /** The shown list keeps the listing's order: it is a subsequence of it. */
  lemma FilterKeepsOrder(doctors: seq<Doctor>, speciality: string)
    ensures IsSubsequence(ApplyFilter(doctors, speciality), doctors)
  {
    if speciality != "" {
      FilterIsSubsequence(doctors, (doc: Doctor) => doc.speciality == speciality);
    } else {
      SubsequenceOfItself(doctors);
    }
  }

  /** Without a speciality the whole listing is shown. */
  lemma NoSpecialityShowsAll(doctors: seq<Doctor>)
    ensures ApplyFilter(doctors, "") == doctors
  {
  }

  /** Filtering the shown list again by the same speciality changes nothing. */
  lemma FilterIdempotentBySpeciality(doctors: seq<Doctor>, speciality: string)
    ensures ApplyFilter(ApplyFilter(doctors, speciality), speciality) == ApplyFilter(doctors, speciality)
  {
    if speciality != "" {
      FilterIdempotent(doctors, (doc: Doctor) => doc.speciality == speciality);
    }
  }
}
