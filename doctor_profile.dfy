/**
 * The doctor's profile page: the edit copy of the profile, the form
 * validation run before saving, the change handlers and the image checks.
 */
module DoctorProfilePage {
  import opened Wrappers
  import opened Text

  /** The JavaScript values a profile property can hold; an address is an object of strings. */
  datatype JsValue = JNull | JStr(s: string) | JNum(n: int) | JBool(b: bool) | JObj(fields: map<string, string>)

  /** A property read: `None` is `undefined`. */
  type Prop = Option<JsValue>

  /** JavaScript truthiness of a property value. */
  predicate Truthy(v: Prop) {
    match v
    case None => false
    case Some(JNull) => false
    case Some(JStr(s)) => s != ""
    case Some(JNum(n)) => n != 0
    case Some(JBool(b)) => b
    case Some(JObj(_)) => true
  }

  /** The properties of the profile object the page reads or writes. */
  datatype Profile = Profile(
    name: Prop, education: Prop, speciality: Prop, experience: Prop, about: Prop,
    fees: Prop, phone: Prop, available: Prop, address: Prop, image: Prop)

  /** `{}`: the spread of a missing profile. */
  const EmptyProfile := Profile(None, None, None, None, None, None, None, None, None, None)

  /** The inputs wired to `handleChange`, by the property they write. */
  datatype Field = Name | Education | Speciality | Experience | About | Fees | Phone

  function Value(p: Profile, f: Field): Prop {
    match f
    case Name => p.name
    case Education => p.education
    case Speciality => p.speciality
    case Experience => p.experience
    case About => p.about
    case Fees => p.fees
    case Phone => p.phone
  }

  /** `{...p, [field]: v}`: the named property takes `v` and every other property keeps its value. */
  function WithValue(p: Profile, f: Field, v: Prop): (r: Profile)
    ensures Value(r, f) == v
    ensures forall g :: g != f ==> Value(r, g) == Value(p, g)
    ensures r.available == p.available && r.address == p.address && r.image == p.image
  {
    match f
    case Name => p.(name := v)
    case Education => p.(education := v)
    case Speciality => p.(speciality := v)
    case Experience => p.(experience := v)
    case About => p.(about := v)
    case Fees => p.(fees := v)
    case Phone => p.(phone := v)
  }

  // ---------------------------------------------------------------------
  // Validation

  const TextFields: set<Field> := {Name, Education, Speciality, Experience, About}
  const Checked: set<Field> := {Name, Education, Speciality, Experience, About, Fees}

  /** The message stored under each field that fails. */
  function Message(f: Field): string
    requires f in Checked
  {
    match f
    case Name => "Name is required"
    case Education => "Education information is required"
    case Speciality => "Speciality is required"
    case Experience => "Experience is required"
    case About => "About section is required"
    case Fees => "Valid appointment fee is required"
  }

  /** `v?.trim()` throws when `v` is neither nullish nor a string. */
  predicate TrimThrows(v: Prop) {
    v.Some? && !v.value.JNull? && !v.value.JStr?
  }

  /**
   * `!v?.trim()` for a value that does not throw: nullish, or text that is
   * all whitespace, which is exactly when `trim` leaves nothing (`TextFieldErrors`).
   */
  predicate TextMissing(v: Prop) {
    v == None || v == Some(JNull) || (v.value.JStr? && IsBlank(v.value.s))
  }

  /**
   * `!fees || fees <= 0`. A string is compared through `Number`: text that
   * reads as zero or a negative number fails, and NaN is not `<= 0`.
   */
  predicate FeeInvalid(v: Prop) {
    match v
    case None => true
    case Some(JNull) => true
    case Some(JStr(s)) => s == "" || NumberSign(s) == Some(Zero) || NumberSign(s) == Some(Negative)
    case Some(JNum(n)) => n <= 0
    case Some(JBool(b)) => !b
    case Some(JObj(_)) => false
  }

  predicate Fails(p: Profile, f: Field) {
    match f
    case Fees => FeeInvalid(p.fees)
    case Phone => false
    case _ => TextMissing(Value(p, f))
  }

  predicate AnyTrimThrows(p: Profile) {
    exists f :: f in TextFields && TrimThrows(Value(p, f))
  }

  /** One check: the field's message is added when it fails. */
  function Note(errors: map<Field, string>, p: Profile, f: Field): map<Field, string>
    requires f in Checked
  {
    if Fails(p, f) then errors[f := Message(f)] else errors
  }

  /**
   * What `validateForm` yields: `None` when it throws (no edit copy, or a
   * text field holding a number, a boolean or an object), else the error
   * object built by the six checks in the source's order.
   */
  function Validation(editData: Option<Profile>): Option<map<Field, string>> {
    if editData.None? || AnyTrimThrows(editData.value) then None
    else
      var p := editData.value;
      Some(Note(Note(Note(Note(Note(Note(map[], p, Name), p, Education), p, Speciality), p, Experience), p, About), p, Fees))
  }

  /** A check adds its own field, with its message, exactly when that field fails, and keeps every other entry. */
  lemma NoteMeaning(errors: map<Field, string>, p: Profile, g: Field, f: Field)
    requires g in Checked
    ensures f in Note(errors, p, g) <==> f in errors || (f == g && Fails(p, g))
    ensures f in Note(errors, p, g) ==> Note(errors, p, g)[f] == (if f == g && Fails(p, g) then Message(g) else errors[f])
  {
  }

  /** The error object holds a message for exactly the checked fields that fail. */
  lemma ValidationMeaning(p: Profile, f: Field)
    requires Validation(Some(p)).Some?
    ensures f in Validation(Some(p)).value <==> f in Checked && Fails(p, f)
    ensures f in Validation(Some(p)).value ==> Validation(Some(p)).value[f] == Message(f)
  {
    var e1 := Note(map[], p, Name);
    var e2 := Note(e1, p, Education);
    var e3 := Note(e2, p, Speciality);
    var e4 := Note(e3, p, Experience);
    var e5 := Note(e4, p, About);
    NoteMeaning(map[], p, Name, f);
    NoteMeaning(e1, p, Education, f);
    NoteMeaning(e2, p, Speciality, f);
    NoteMeaning(e3, p, Experience, f);
    NoteMeaning(e4, p, About, f);
    NoteMeaning(e5, p, Fees, f);
  }

  /** Every text field was read without throwing. */
  lemma NoneThrew(p: Profile)
    requires !TrimThrows(p.name) && !TrimThrows(p.education) && !TrimThrows(p.speciality)
    requires !TrimThrows(p.experience) && !TrimThrows(p.about)
    ensures !AnyTrimThrows(p)
  {
    forall f | f in TextFields ensures !TrimThrows(Value(p, f)) {
      match f
      case Name =>
      case Education =>
      case Speciality =>
      case Experience =>
      case About =>
    }
  }

  /** `validateForm`: the field checks in the source's order, each adding its message. */
  method ValidateForm(editData: Option<Profile>) returns (outcome: Option<map<Field, string>>)
    ensures outcome == Validation(editData)
  {
    if editData.None? {
      return None;
    }
    var p := editData.value;
    var errors: map<Field, string> := map[];
    var threw: bool;
    threw, errors := CheckText(p, Name, errors);
    if threw {
      return None;
    }
    threw, errors := CheckText(p, Education, errors);
    if threw {
      return None;
    }
    threw, errors := CheckText(p, Speciality, errors);
    if threw {
      return None;
    }
    threw, errors := CheckText(p, Experience, errors);
    if threw {
      return None;
    }
    threw, errors := CheckText(p, About, errors);
    if threw {
      return None;
    }
    if FeeInvalid(p.fees) {
      errors := errors[Fees := "Valid appointment fee is required"];
    }
    NoneThrew(p);
    return Some(errors);
  }

  /** One `if (!editData.<field>?.trim())` check of a text field, given the errors found so far. */
  method CheckText(p: Profile, f: Field, errors: map<Field, string>) returns (threw: bool, updated: map<Field, string>)
    requires f in TextFields
    ensures threw == TrimThrows(Value(p, f))
    ensures threw ==> AnyTrimThrows(p)
    ensures updated == Note(errors, p, f)
  {
    threw := TrimThrows(Value(p, f));
    updated := errors;
    if TextMissing(Value(p, f)) {
      updated := errors[f := Message(f)];
    }
  }

  /** A text field gets an error exactly when it is missing, null, or empty once trimmed. */
  lemma TextFieldErrors(p: Profile, f: Field)
    requires f in TextFields && Validation(Some(p)).Some?
    ensures var errors := Validation(Some(p)).value;
      var v := Value(p, f);
      && (f in errors <==> v.None? || v == Some(JNull) || (v.value.JStr? && Trim(v.value.s) == ""))
      && (f in errors ==> errors[f] == Message(f))
  {
    ValidationMeaning(p, f);
    var v := Value(p, f);
    if v.Some? && v.value.JStr? {
      TrimEmptyIffBlank(v.value.s);
    }
  }

  /** The fee gets an error when it is missing, not positive, or blank text. */
  lemma FeeErrors(p: Profile)
    requires Validation(Some(p)).Some?
    ensures var errors := Validation(Some(p)).value;
      && (Fees in errors <==> FeeInvalid(p.fees))
      && (forall n :: p.fees == Some(JNum(n)) ==> (Fees in errors <==> n <= 0))
      && (forall s :: p.fees == Some(JStr(s)) && IsBlank(s) ==> Fees in errors)
      && (forall s :: p.fees == Some(JStr(s)) && JsNumber(s).Some? ==> (Fees in errors <==> JsNumber(s).value <= 0))
  {
    ValidationMeaning(p, Fees);
    forall s | p.fees == Some(JStr(s)) && IsBlank(s) ensures FeeInvalid(p.fees) {
      TrimEmptyIffBlank(s);
    }
    forall s | p.fees == Some(JStr(s)) && JsNumber(s).Some? ensures FeeInvalid(p.fees) <==> JsNumber(s).value <= 0 {
      NumberSignOfInteger(s);
    }
  }

  /** Non-blank text that `Number` reads as NaN is not `<= 0`: such a fee gets no error. */
  lemma NonNumericFeeAccepted(s: string)
    requires s != "" && NumberSign(s).None?
    ensures !FeeInvalid(Some(JStr(s)))
  {
  }

  /**
   * A fee written as a decimal literal (with a fraction or an exponent, or
   * neither) is refused exactly when its digits are all 0, and always when
   * it carries a minus sign.
   */
  lemma FeeDecimalVerdict(u: string)
    requires IsUnsignedDecimal(u) && u != []
    requires !IsWhitespace(u[0]) && u[0] != '-' && u[0] != '+' && !IsWhitespace(u[|u| - 1])
    requires |u| < 2 || RadixOfMarker(u[1]) == 0
    ensures FeeInvalid(Some(JStr(u))) <==> !NonZeroIn(u[..ExponentMark(u)])
    ensures FeeInvalid(Some(JStr("-" + u)))
  {
    DecimalSign(u);
  }

  /** A `0x`, `0o` or `0b` fee is refused exactly when its digits are all 0; with a sign in front it is NaN and accepted. */
  lemma FeeRadixVerdict(marker: char, digits: string)
    requires RadixOfMarker(marker) != 0 && digits != [] && AllInRadix(digits, RadixOfMarker(marker))
    ensures FeeInvalid(Some(JStr(['0', marker] + digits))) <==> !NonZeroIn(digits)
    ensures !FeeInvalid(Some(JStr(['-', '0', marker] + digits)))
    ensures !FeeInvalid(Some(JStr(['+', '0', marker] + digits)))
  {
    RadixLiteral(marker, digits);
    SignedRadixLiteral('-', marker, digits);
    SignedRadixLiteral('+', marker, digits);
  }

  /** Zero written with a fraction, with a leading point or in hexadecimal is refused, and so are negative fractions and exponents. */
  lemma FeeZeroAndNegativeNotations()
    ensures FeeInvalid(Some(JStr("0.0"))) && FeeInvalid(Some(JStr(".0"))) && FeeInvalid(Some(JStr("0x0")))
    ensures FeeInvalid(Some(JStr("-0.5"))) && FeeInvalid(Some(JStr("-1e3")))
  {
    ZeroFraction();
    ZeroLeadingPoint();
    ZeroHex();
    NegativeFraction();
    NegativeExponent();
  }

  // ---------------------------------------------------------------------
  // Images

  datatype ImageVerdict = NoFile | NotAnImage | TooLarge | Accepted

  const MaxImageBytes := 5 * 1024 * 1024

  /** `handleImageChange`'s checks: the type is checked before the size. */
  function CheckImage(file: Option<(string, nat)>): (r: ImageVerdict)
    ensures r == Accepted <==> file.Some? && StartsWith(file.value.0, "image/") && file.value.1 <= MaxImageBytes
    ensures r == TooLarge ==> file.Some? && StartsWith(file.value.0, "image/")
  {
    if file.None? then NoFile
    else if !StartsWith(file.value.0, "image/") then NotAnImage
    else if file.value.1 > MaxImageBytes then TooLarge
    else Accepted
  }

  // ---------------------------------------------------------------------
  // Save

  /** How the profile update call ended: its reply's `success`, or a thrown error. */
  datatype UpdateResult = Succeeded | Failed | Threw

  /** The form data sent: the five text fields trimmed, the fee, availability, and phone and address when truthy. */
  datatype SavePayload = SavePayload(
    name: string, education: string, speciality: string, experience: string, about: string,
    fees: Prop, available: Prop, phone: Prop, address: Prop)

  /** The trimmed text of a property known to be a string. */
  function TrimmedText(v: Prop): string {
    if v.Some? && v.value.JStr? then Trim(v.value.s) else ""
  }

  function Payload(p: Profile): SavePayload {
    SavePayload(TrimmedText(p.name), TrimmedText(p.education), TrimmedText(p.speciality),
                TrimmedText(p.experience), TrimmedText(p.about),
                p.fees, p.available,
                if Truthy(p.phone) then p.phone else None,
                if Truthy(p.address) then p.address else None)
  }

  /** A text field that neither throws nor fails is sent as non-empty trimmed text. */
  lemma TrimmedPresent(v: Prop)
    requires !TrimThrows(v) && !TextMissing(v)
    ensures TrimmedText(v) != ""
  {
    TrimEmptyIffBlank(v.value.s);
  }

  /** A field without an error passed its check. */
  lemma NoErrorNoFailure(p: Profile, f: Field)
    requires Validation(Some(p)) == Some(map[]) && f in Checked
    ensures !Fails(p, f) && (f in TextFields ==> !TrimThrows(Value(p, f)))
  {
    ValidationMeaning(p, f);
  }

  /** A form that passes validation sends five non-empty trimmed texts and a fee that is not invalid. */
  lemma ValidPayload(p: Profile)
    requires Validation(Some(p)) == Some(map[])
    ensures var s := Payload(p);
      s.name != "" && s.education != "" && s.speciality != "" && s.experience != "" && s.about != ""
    ensures !FeeInvalid(Payload(p).fees)
  {
    NoErrorNoFailure(p, Name);
    TrimmedPresent(p.name);
    NoErrorNoFailure(p, Education);
    TrimmedPresent(p.education);
    NoErrorNoFailure(p, Speciality);
    TrimmedPresent(p.speciality);
    NoErrorNoFailure(p, Experience);
    TrimmedPresent(p.experience);
    NoErrorNoFailure(p, About);
    TrimmedPresent(p.about);
    NoErrorNoFailure(p, Fees);
  }

  /**
   * The address object after `handleAddressChange`: the previous object's
   * entries with `line` set. Spreading a nullish value, a number or a boolean
   * gives no entries; a string would spread into indexed entries, which this
   * does not model, since the doctor schema stores the address as an object.
   */
  function AddressWith(address: Prop, line: string, value: string): JsValue {
    var fields := if address.Some? && address.value.JObj? then address.value.fields else map[];
    JObj(fields[line := value])
  }

  /** `!prev.available`, stored back as a boolean. */
  function Toggled(p: Profile): Profile {
    p.(available := Some(JBool(!Truthy(p.available))))
  }

  /** Toggling twice leaves availability with its original truthiness, now as a boolean, and nothing else changed. */
  lemma ToggleTwice(p: Profile)
    ensures Toggled(Toggled(p)) == p.(available := Some(JBool(Truthy(p.available))))
    ensures Truthy(Toggled(p).available) != Truthy(p.available)
  {
  }

  /** The page state: edit mode, the edit copy of the profile and the per-field error messages. */
  class ProfileEditor {
    var isEdit: bool
    var editData: Option<Profile>
    var formErrors: map<Field, string>

    constructor ()
      ensures !isEdit && editData == None && formErrors == map[]
    {
      isEdit := false;
      editData := None;
      formErrors := map[];
    }

    /** `handleEdit`: a copy of the loaded profile (`{}` when none is loaded) and no errors. */
    method HandleEdit(profileData: Option<Profile>)
      modifies this
      ensures isEdit && editData == Some(profileData.GetOr(EmptyProfile)) && formErrors == map[]
    {
      editData := Some(profileData.GetOr(EmptyProfile));
      isEdit := true;
      formErrors := map[];
    }

    /** `handleCancel`: the edits are dropped. */
    method HandleCancel()
      modifies this
      ensures !isEdit && editData == None && formErrors == map[]
    {
      editData := None;
      isEdit := false;
      formErrors := map[];
    }

    /** `handleChange`: the named property takes the typed text; that field's error, if shown, is blanked. */
    method HandleChange(f: Field, value: string)
      modifies this
      ensures editData == Some(WithValue(old(editData).GetOr(EmptyProfile), f, Some(JStr(value))))
      ensures formErrors == (if f in old(formErrors) && old(formErrors)[f] != "" then old(formErrors)[f := ""] else old(formErrors))
      ensures isEdit == old(isEdit)
    {
      editData := Some(WithValue(editData.GetOr(EmptyProfile), f, Some(JStr(value))));
      if f in formErrors && formErrors[f] != "" {
        formErrors := formErrors[f := ""];
      }
    }

    /**
     * `handleAddressChange`: the named line of the address takes the typed
     * text. The address inputs are rendered only in edit mode, where the edit
     * copy exists; without one the source's updater would throw on
     * `prev.address`, and the model leaves the state as it is. Validation
     * never stores an `address` error, so blanking it changes nothing.
     */
    method HandleAddressChange(line: string, value: string)
      modifies this
      ensures old(editData).None? ==> editData == None
      ensures old(editData).Some? ==>
        editData == Some(old(editData).value.(address := Some(AddressWith(old(editData).value.address, line, value))))
      ensures formErrors == old(formErrors) && isEdit == old(isEdit)
    {
      if editData.Some? {
        var prev := editData.value;
        editData := Some(prev.(address := Some(AddressWith(prev.address, line, value))));
      }
    }

    /**
     * `handleAvailabilityToggle`. The checkbox is rendered only in edit mode,
     * where the edit copy exists; without one the source's updater would
     * throw on `prev.available`, and the model leaves the state as it is.
     */
    method HandleAvailabilityToggle()
      modifies this
      ensures editData == (if old(editData).None? then None else Some(Toggled(old(editData).value)))
      ensures isEdit == old(isEdit) && formErrors == old(formErrors)
    {
      if editData.Some? {
        editData := Some(Toggled(editData.value));
      }
    }

    /** The end of a successful image read: the data URL becomes the `image` property. */
    method ImageLoaded(dataUrl: string)
      modifies this
      ensures editData == Some(old(editData).GetOr(EmptyProfile).(image := Some(JStr(dataUrl))))
      ensures isEdit == old(isEdit) && formErrors == old(formErrors)
    {
      editData := Some(editData.GetOr(EmptyProfile).(image := Some(JStr(dataUrl))));
    }

    /**
     * `handleSave`: with errors they are shown and nothing is sent; without,
     * the payload is sent and a successful reply leaves edit mode.
     * `result` is the outcome of the update call.
     */
    method HandleSave(result: UpdateResult) returns (sent: Option<SavePayload>)
      modifies this
      ensures var v := Validation(old(editData));
        && (sent.Some? <==> v == Some(map[]))
        && (sent.Some? ==> sent.value == Payload(old(editData).value))
        && (v.None? ==> isEdit == old(isEdit) && editData == old(editData) && formErrors == old(formErrors))
        && (v.Some? && v.value != map[] ==> isEdit == old(isEdit) && editData == old(editData) && formErrors == v.value)
        && (sent.Some? && result == Succeeded ==> !isEdit && editData == None && formErrors == map[])
        && (sent.Some? && result != Succeeded ==> isEdit == old(isEdit) && editData == old(editData) && formErrors == old(formErrors))
    {
      var outcome := ValidateForm(editData);
      if outcome.None? {
        return None;
      }
      if outcome.value != map[] {
        formErrors := outcome.value;
        return None;
      }
      sent := Some(Payload(editData.value));
      if result == Succeeded {
        isEdit := false;
        editData := None;
        formErrors := map[];
      }
    }
  }
}
