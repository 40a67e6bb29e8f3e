/**
 * Patient registration and login on the server. Hashing, token signing and
 * e-mail syntax checking are foreign libraries and enter as parameters; the
 * users collection is the one state they change.
 */
module UserController {
  import opened Wrappers
  import opened Text
  import opened Records

  /** A JSON reply: the status code and the fields present in the body. */
  datatype Response = Response(code: int, success: Option<bool>, message: Option<string>, token: Option<string>)

  function Refuse(message: string): Response {
    Response(400, None, Some(message), None)
  }

  /** `userModel.findOne({ email })`: the first user stored with that e-mail. */
  function FindByEmail(users: seq<User>, email: string): (r: Option<User>)
    ensures r.None? <==> forall k :: 0 <= k < |users| ==> users[k].email != email
    ensures r.Some? ==> exists k :: (0 <= k < |users| && users[k] == r.value && r.value.email == email
      && forall j :: 0 <= j < k ==> users[j].email != email)
  {
    if users == [] then None
    else if users[0].email == email then
      assert users[0] == users[0];
      Some(users[0])
    else
      var r := FindByEmail(users[1..], email);
      if r.Some? then
        var k :| 0 <= k < |users[1..]| && users[1..][k] == r.value && r.value.email == email
          && forall j :: 0 <= j < k ==> users[1..][j].email != email;
        assert users[k + 1] == r.value;
        r
      else r
  }

  /** No two users share an e-mail. */
  predicate EmailsUnique(users: seq<User>) {
    forall i, j :: 0 <= i < j < |users| ==> users[i].email != users[j].email
  }

  /** The first refusal of `registerUser`, in the order of its checks, if any. */
  function RegisterRefusal(users: seq<User>, name: string, email: string, password: string,
                           isEmail: string -> bool): Option<string>
  {
    if name == "" || email == "" || password == "" then Some("Please fill all required fields")
    else if !isEmail(email) then Some("Please enter a valid email")
    else if Utf16Length(password) < 8 then Some("Password must be at least 8 characters")
    else if FindByEmail(users, email).Some? then Some("Email already registered")
    else None
  }

  /** The users collection after `registerUser`: one new user with the hashed password, or unchanged when refused. */
  function UsersAfterRegister(users: seq<User>, name: string, email: string, password: string,
                              isEmail: string -> bool, hash: string -> string, newId: string): seq<User>
  {
    if RegisterRefusal(users, name, email, password, isEmail).Some? then users
    else users + [User(newId, name, email, hash(password))]
  }

  /** A refused registration creates nothing; an accepted one adds exactly one user with that e-mail and the hash. */
  lemma RegisterEffect(users: seq<User>, name: string, email: string, password: string,
                       isEmail: string -> bool, hash: string -> string, newId: string)
    ensures var after := UsersAfterRegister(users, name, email, password, isEmail, hash, newId);
      && (RegisterRefusal(users, name, email, password, isEmail).Some? ==> after == users)
      && (RegisterRefusal(users, name, email, password, isEmail).None? ==>
            && |after| == |users| + 1 && after[..|users|] == users
            && after[|users|] == User(newId, name, email, hash(password))
            && name != "" && email != "" && isEmail(email) && Utf16Length(password) >= 8)
  {
  }

  /** The check order: a missing field is reported before a bad e-mail, which is reported before a short password. */
  lemma RegisterCheckOrder(users: seq<User>, name: string, email: string, password: string, isEmail: string -> bool)
    ensures (name == "" || email == "" || password == "") ==>
      RegisterRefusal(users, name, email, password, isEmail) == Some("Please fill all required fields")
    ensures name != "" && email != "" && password != "" && !isEmail(email) ==>
      RegisterRefusal(users, name, email, password, isEmail) == Some("Please enter a valid email")
    ensures name != "" && email != "" && isEmail(email) && 0 < Utf16Length(password) < 8 ==>
      RegisterRefusal(users, name, email, password, isEmail) == Some("Password must be at least 8 characters")
  {
  }

  /** The length check counts UTF-16 code units: four characters beyond U+FFFF make a long enough password. */
  lemma RegisterCountsCodeUnits(users: seq<User>, name: string, email: string, isEmail: string -> bool)
    ensures RegisterRefusal(users, name, email, "\U{1F512}\U{1F512}\U{1F512}\U{1F512}", isEmail)
      != Some("Password must be at least 8 characters")
  {
    FourAstralCharacters();
  }

  /** The duplicate check keeps e-mails unique across registrations. */
  lemma RegisterKeepsEmailsUnique(users: seq<User>, name: string, email: string, password: string,
                                  isEmail: string -> bool, hash: string -> string, newId: string)
    requires EmailsUnique(users)
    ensures EmailsUnique(UsersAfterRegister(users, name, email, password, isEmail, hash, newId))
  {
    var after := UsersAfterRegister(users, name, email, password, isEmail, hash, newId);
    if RegisterRefusal(users, name, email, password, isEmail).None? {
      forall i, j | 0 <= i < j < |after| ensures after[i].email != after[j].email {
        if j == |users| {
          assert after[i] == users[i];
        } else {
          assert after[i] == users[i] && after[j] == users[j];
        }
      }
    }
  }

  /**
   * `registerUser`: the checks, then the insert and a token for the new id.
   * `isEmail`, `hash` and `sign` stand for `validator.isEmail`, `bcrypt.hash`
   * and `jwt.sign`; `newId` is the id the database assigns.
   */
  method RegisterUser(store: UserStore, name: string, email: string, password: string,
                      isEmail: string -> bool, hash: string -> string, sign: string -> string, newId: string)
    returns (r: Response)
    modifies store
    ensures store.users == UsersAfterRegister(old(store.users), name, email, password, isEmail, hash, newId)
    ensures var refusal := RegisterRefusal(old(store.users), name, email, password, isEmail);
      r == (if refusal.Some? then Refuse(refusal.value) else Response(201, Some(true), None, Some(sign(newId))))
  {
    if name == "" || email == "" || password == "" {
      return Refuse("Please fill all required fields");
    }
    if !isEmail(email) {
      return Refuse("Please enter a valid email");
    }
    if Utf16Length(password) < 8 {
      return Refuse("Password must be at least 8 characters");
    }
    var existingUser := FindByEmail(store.users, email);
    if existingUser.Some? {
      return Refuse("Email already registered");
    }
    var hashedPassword := hash(password);
    store.users := store.users + [User(newId, name, email, hashedPassword)];
    r := Response(201, Some(true), None, Some(sign(newId)));
  }

  /** `loginUser`; `compare` stands for `bcrypt.compare` and `sign` for `jwt.sign` on the user's id. */
  function LoginUser(users: seq<User>, email: string, password: string,
                     compare: (string, string) -> bool, sign: string -> string): (r: Response)
    ensures r.token.Some? <==>
      email != "" && password != "" && FindByEmail(users, email).Some? && compare(password, FindByEmail(users, email).value.password)
    ensures r.token.Some? ==> r == Response(200, Some(true), Some("Login successful"), Some(sign(FindByEmail(users, email).value.id)))
    ensures r.token.None? ==> r.code == 400
  {
    if email == "" || password == "" then Refuse("Email and password are required")
    else
      var user := FindByEmail(users, email);
      if user.None? then Refuse("User not found")
      else if !compare(password, user.value.password) then Response(400, Some(false), Some("Invalid password"), None)
      else Response(200, Some(true), Some("Login successful"), Some(sign(user.value.id)))
  }

  /** The login refusals, in order: missing credentials, unknown e-mail, wrong password. */
  lemma LoginRefusals(users: seq<User>, email: string, password: string,
                      compare: (string, string) -> bool, sign: string -> string)
    ensures email == "" || password == "" ==>
      LoginUser(users, email, password, compare, sign).message == Some("Email and password are required")
    ensures email != "" && password != "" && (forall k :: 0 <= k < |users| ==> users[k].email != email) ==>
      LoginUser(users, email, password, compare, sign).message == Some("User not found")
    ensures (email != "" && password != "" && FindByEmail(users, email).Some?
      && !compare(password, FindByEmail(users, email).value.password)) ==>
      LoginUser(users, email, password, compare, sign) == Response(400, Some(false), Some("Invalid password"), None)
  {
  }

  /**
   * A user who just registered can log in with the same password, provided
   * the password comparison accepts a password against its own hash; the
   * token is signed for the new id.
   */
  lemma LoginAfterRegister(users: seq<User>, name: string, email: string, password: string,
                           isEmail: string -> bool, hash: string -> string, newId: string,
                           compare: (string, string) -> bool, sign: string -> string)
    requires RegisterRefusal(users, name, email, password, isEmail).None?
    requires compare(password, hash(password))
    ensures LoginUser(UsersAfterRegister(users, name, email, password, isEmail, hash, newId), email, password, compare, sign).token
      == Some(sign(newId))
  {
    var after := UsersAfterRegister(users, name, email, password, isEmail, hash, newId);
    var found := FindByEmail(after, email);
    assert after[|users|].email == email;
    assert found.Some?;
    var k :| 0 <= k < |after| && after[k] == found.value && found.value.email == email
      && forall j :: 0 <= j < k ==> after[j].email != email;
    if k < |users| {
      assert false;
    }
  }
}
