/**
 * The admin side of the server: creating a doctor account and the admin
 * login. Hashing, e-mail checking, image upload, `JSON.parse` and token
 * signing are foreign and enter as parameters or as their outcomes.
 */
module AdminController {
  import opened Wrappers
  import opened Text
  import opened Records

  /** The multipart form fields of `addDoctor`; every one arrives as text, "" when absent. */
  datatype DoctorForm = DoctorForm(
    name: string,
    email: string,
    password: string,
    speciality: string,
    degree: string,
    experience: string,
    about: string,
    fees: string,
    address: string)

  /** The doctor fields echoed back in the 201 reply (the password is not). */
  datatype DoctorSummary = DoctorSummary(
    id: string, name: string, email: string, speciality: string, degree: string, experience: string,
    about: string, fees: int, address: map<string, string>, image: string)

  /** A JSON reply: status code, message, and the fields present only on success. */
  datatype Reply = Reply(code: int, success: Option<bool>, message: string, token: Option<string>, doctor: Option<DoctorSummary>)

  function Failure(code: int, message: string): Reply {
    Reply(code, None, message, None, None)
  }

  /** Everything `addDoctor` depends on besides the form and the collection. */
  datatype Services = Services(
    isEmail: string -> bool,               // validator.isEmail
    hash: string -> string,                // bcrypt.hash with 10 rounds
    imageUrl: string,                      // secure_url returned by the upload, "" when missing
    parseAddress: string -> Option<map<string, string>>,  // JSON.parse; None when it throws
    newId: string,                         // the _id the database assigns
    now: int)                              // Date.now()

  /** The ten required inputs: any falsy one refuses the request. */
  predicate MissingRequired(form: DoctorForm, hasImage: bool) {
    form.name == "" || form.email == "" || form.password == "" || form.speciality == "" || form.fees == ""
    || form.address == "" || !hasImage || form.experience == "" || form.about == "" || form.degree == ""
  }

  /** The request checks of `addDoctor`, in order; all of them run before hashing or upload. */
  function ValidationRefusal(form: DoctorForm, hasImage: bool, isEmail: string -> bool): Option<string> {
    if MissingRequired(form, hasImage) then Some("Please fill all required fields")
    else if !isEmail(form.email) then Some("Please enter a valid email")
    else if Utf16Length(form.password) < 8 then Some("Password must be at least 8 characters")
    else None
  }

  /**
   * The unique indexes of the doctors collection: a new document whose
   * `_id` or e-mail is already taken fails with duplicate-key error 11000.
   */
  predicate DuplicateKey(doctors: map<string, Doctor>, id: string, email: string) {
    id in doctors || exists d :: d in doctors && doctors[d].email == email
  }

  /** No two stored doctors share an e-mail. */
  predicate EmailsUnique(doctors: map<string, Doctor>) {
    forall a, b :: a in doctors && b in doctors && a != b ==> doctors[a].email != doctors[b].email
  }

  /** The outcome of `addDoctor`: a refusal, or the document to insert. */
  datatype AddOutcome = Refused(reply: Reply) | Inserted(doctor: Doctor)

  /**
   * The document `addDoctor` builds. Fields the controller does not set
   * (education, phone, availability, booked slots) come from the doctor
   * schema's defaults, given as `defaults`. Mongoose casts `fees` to a number.
   */
  function NewDoctor(form: DoctorForm, services: Services, address: map<string, string>, fees: int, defaults: Doctor): Doctor {
    defaults.(id := services.newId, name := form.name, email := form.email, password := services.hash(form.password),
              speciality := form.speciality, degree := form.degree, experience := form.experience, about := form.about,
              fees := fees, address := address, image := services.imageUrl, date := services.now)
  }

  /** `addDoctor` as a function of the stored doctors and the request. */
  function AddDoctorOutcome(doctors: map<string, Doctor>, form: DoctorForm, hasImage: bool, services: Services,
                            defaults: Doctor): AddOutcome
  {
    var refusal := ValidationRefusal(form, hasImage, services.isEmail);
    if refusal.Some? then Refused(Failure(400, refusal.value))
    else if services.imageUrl == "" then Refused(Failure(500, "Image upload failed"))
    else
      var address := services.parseAddress(form.address);
      var fees := JsNumber(form.fees);
      if address.None? || fees.None? then Refused(Failure(500, "Internal Server Error"))
      else if DuplicateKey(doctors, services.newId, form.email) then Refused(Failure(400, "Email already exists"))
      else Inserted(NewDoctor(form, services, address.value, fees.value, defaults))
  }

  function Summary(d: Doctor): DoctorSummary {
    DoctorSummary(d.id, d.name, d.email, d.speciality, d.degree, d.experience, d.about, d.fees, d.address, d.image)
  }

  /** The reply to `addDoctor`. */
  function AddDoctorReply(outcome: AddOutcome): Reply {
    match outcome
    case Refused(reply) => reply
    case Inserted(d) => Reply(201, None, "Doctor added successfully", None, Some(Summary(d)))
  }

  /** The doctors collection after `addDoctor`. */
  function DoctorsAfterAdd(doctors: map<string, Doctor>, outcome: AddOutcome): map<string, Doctor> {
    match outcome
    case Refused(_) => doctors
    case Inserted(d) => doctors[d.id := d]
  }

  /** Any missing required input gives 400 "Please fill all required fields", whatever else holds. */
  lemma AddDoctorRequiredFields(doctors: map<string, Doctor>, form: DoctorForm, hasImage: bool, services: Services, defaults: Doctor)
    requires MissingRequired(form, hasImage)
    ensures AddDoctorOutcome(doctors, form, hasImage, services, defaults) == Refused(Failure(400, "Please fill all required fields"))
  {
  }

  /** The check order: e-mail syntax after the required fields, password length after the e-mail. */
  lemma AddDoctorCheckOrder(doctors: map<string, Doctor>, form: DoctorForm, hasImage: bool, services: Services, defaults: Doctor)
    requires !MissingRequired(form, hasImage)
    ensures !services.isEmail(form.email) ==>
      AddDoctorOutcome(doctors, form, hasImage, services, defaults) == Refused(Failure(400, "Please enter a valid email"))
    ensures services.isEmail(form.email) && Utf16Length(form.password) < 8 ==>
      AddDoctorOutcome(doctors, form, hasImage, services, defaults) == Refused(Failure(400, "Password must be at least 8 characters"))
  {
  }

  /**
   * Validation happens before hashing or upload: a refused request gets
   * the same answer whatever the hash, the upload or the parser would do.
   */
  lemma ValidationIgnoresServices(doctors: map<string, Doctor>, form: DoctorForm, hasImage: bool,
                                  s1: Services, s2: Services, defaults: Doctor)
    requires s1.isEmail == s2.isEmail
    requires ValidationRefusal(form, hasImage, s1.isEmail).Some?
    ensures AddDoctorOutcome(doctors, form, hasImage, s1, defaults) == AddDoctorOutcome(doctors, form, hasImage, s2, defaults)
    ensures AddDoctorOutcome(doctors, form, hasImage, s1, defaults).Refused?
  {
  }

  /** A taken e-mail gives 400 "Email already exists" once the request is otherwise well formed. */
  lemma DuplicateEmailRefused(doctors: map<string, Doctor>, form: DoctorForm, hasImage: bool, services: Services,
                              defaults: Doctor, other: string)
    requires ValidationRefusal(form, hasImage, services.isEmail).None?
    requires services.imageUrl != "" && services.parseAddress(form.address).Some? && JsNumber(form.fees).Some?
    requires other in doctors && doctors[other].email == form.email
    ensures AddDoctorOutcome(doctors, form, hasImage, services, defaults) == Refused(Failure(400, "Email already exists"))
  {
  }

  /**
   * A refused request leaves the collection as it was; an accepted one adds
   * exactly one document, under the new id, with the form's e-mail and the
   * hashed password, and keeps every other document.
   */
  lemma AddDoctorEffect(doctors: map<string, Doctor>, form: DoctorForm, hasImage: bool, services: Services, defaults: Doctor)
    ensures var outcome := AddDoctorOutcome(doctors, form, hasImage, services, defaults);
      var after := DoctorsAfterAdd(doctors, outcome);
      && (outcome.Refused? ==> after == doctors && AddDoctorReply(outcome).code != 201)
      && (outcome.Inserted? ==>
            && services.newId !in doctors && after.Keys == doctors.Keys + {services.newId}
            && (forall d :: d in doctors ==> after[d] == doctors[d])
            && after[services.newId].email == form.email
            && after[services.newId].password == services.hash(form.password)
            && !MissingRequired(form, hasImage) && services.isEmail(form.email) && Utf16Length(form.password) >= 8
            && AddDoctorReply(outcome).code == 201)
  {
  }

  /** Thanks to the unique index, adding a doctor keeps e-mails unique. */
  lemma AddDoctorKeepsEmailsUnique(doctors: map<string, Doctor>, form: DoctorForm, hasImage: bool, services: Services, defaults: Doctor)
    requires EmailsUnique(doctors)
    ensures EmailsUnique(DoctorsAfterAdd(doctors, AddDoctorOutcome(doctors, form, hasImage, services, defaults)))
  {
    var outcome := AddDoctorOutcome(doctors, form, hasImage, services, defaults);
    if outcome.Inserted? {
      var after := DoctorsAfterAdd(doctors, outcome);
      forall a, b | a in after && b in after && a != b ensures after[a].email != after[b].email {
        if a == services.newId {
          assert b in doctors && doctors[b].email != form.email;
        } else if b == services.newId {
          assert a in doctors && doctors[a].email != form.email;
        }
      }
    }
  }

  /** `addDoctor`: the checks with early returns, the upload, then the insert. */
  method AddDoctor(store: DoctorStore, form: DoctorForm, hasImage: bool, services: Services, defaults: Doctor)
    returns (r: Reply)
    modifies store
    ensures var outcome := AddDoctorOutcome(old(store.doctors), form, hasImage, services, defaults);
      store.doctors == DoctorsAfterAdd(old(store.doctors), outcome) && r == AddDoctorReply(outcome)
  {
    if MissingRequired(form, hasImage) {
      return Failure(400, "Please fill all required fields");
    }
    if !services.isEmail(form.email) {
      return Failure(400, "Please enter a valid email");
    }
    if Utf16Length(form.password) < 8 {
      return Failure(400, "Password must be at least 8 characters");
    }
    if services.imageUrl == "" {
      return Failure(500, "Image upload failed");
    }
    var address := services.parseAddress(form.address);
    var fees := JsNumber(form.fees);
    if address.None? || fees.None? {
      return Failure(500, "Internal Server Error");
    }
    if DuplicateKey(store.doctors, services.newId, form.email) {
      return Failure(400, "Email already exists");
    }
    var newDoctor := NewDoctor(form, services, address.value, fees.value, defaults);
    store.doctors := store.doctors[newDoctor.id := newDoctor];
    r := Reply(201, None, "Doctor added successfully", None, Some(Summary(newDoctor)));
  }

  /**
   * `loginAdmin`. `adminEmail` and `adminPassword` are the configured
   * credentials (`None` when unset); `sign` stands for signing the token
   * for the e-mail with the admin role.
   */
  function LoginAdmin(email: string, password: string, adminEmail: Option<string>, adminPassword: Option<string>,
                      sign: string -> string): (r: Reply)
    ensures r.token.Some? <==> email != "" && password != "" && adminEmail == Some(email) && adminPassword == Some(password)
    ensures r.token.Some? ==> r == Reply(200, Some(true), "Admin logged in successfully", Some(sign(email)), None)
    ensures email == "" || password == "" ==> r == Failure(400, "Email and password are required")
    ensures email != "" && password != "" && r.token.None? ==> r == Reply(401, Some(false), "Invalid credentials", None, None)
  {
    if email == "" || password == "" then Failure(400, "Email and password are required")
    else if adminEmail == Some(email) && adminPassword == Some(password) then
      Reply(200, Some(true), "Admin logged in successfully", Some(sign(email)), None)
    else Reply(401, Some(false), "Invalid credentials", None, None)
  }

  /** With credentials unset, no login succeeds. */
  lemma NoAdminWithoutCredentials(email: string, password: string, adminPassword: Option<string>, sign: string -> string)
    ensures LoginAdmin(email, password, None, adminPassword, sign).token.None?
  {
  }
}
