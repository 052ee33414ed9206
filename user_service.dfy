/** Accounts and sessions: registration, login, the login guard, logout,
    deactivation and profile edit. */
module UserService {
  import opened Wrappers
  import opened GoLib
  import opened Checks
  import opened Store

  // ---------------------------------------------------------------------------
  // Validation chains

  /** The registration rules, in the order the handler tests them. The
      "only numbers" rule rejects exactly what strconv.Atoi accepts. */
  function RegistrationChecks(username: string, password: string, confirm: string): seq<Check>
  {
    [ Check(username != "", "Username is not provided"),
      Check(password != "", "Password is not provided"),
      Check(password == confirm, "Password and password confirmation are not same"),
      Check(ByteLen(password) >= 8, "Password is too short"),
      Check(Atoi(password).err != NoError, "Password consists of only numbers") ]
  }

  /** The deactivation form's rules, before the password is compared with the stored digest. */
  function DeactivationChecks(password: string, confirm: string): seq<Check>
  {
    [ Check(password != "", "Password is not provided"),
      Check(password == confirm, "Password and password confirmation are not same") ]
  }

  /** The profile edit form's rules, before the current password is compared
      with the stored digest. There is no "only numbers" rule here. */
  function EditChecks(username: string, password: string, newPassword: string): seq<Check>
  {
    [ Check(username != "", "Username is not provided"),
      Check(password != "", "Password is not provided"),
      Check(newPassword != "", "New password is not provided"),
      Check(!(newPassword != "" && ByteLen(newPassword) < 8), "Password is too short") ]
  }

  /** The login decisions in order: the name must exist, the digest must match,
      the account must be valid. */
  function LoginChecks(found: Option<User>, password: string): seq<Check>
  {
    match found
    case None => [Check(false, "No such user")]
    case Some(u) =>
      [ Check(true, "No such user"),
        Check(u.password == Hash(password), "Incorrect password"),
        Check(u.isValid, "User is not valid") ]
  }

  /** Registration reports the first broken rule, in this order. */
  lemma RegistrationOrder(username: string, password: string, confirm: string)
    ensures FirstError(RegistrationChecks(username, password, confirm)) ==
      if username == "" then Some("Username is not provided")
      else if password == "" then Some("Password is not provided")
      else if password != confirm then Some("Password and password confirmation are not same")
      else if ByteLen(password) < 8 then Some("Password is too short")
      else if Atoi(password).err == NoError then Some("Password consists of only numbers")
      else None
  {
    var checks := RegistrationChecks(username, password, confirm);
    FirstOfFive(checks[0], checks[1], checks[2], checks[3], checks[4]);
    assert checks == [checks[0], checks[1], checks[2], checks[3], checks[4]];
  }

  /** Profile edit reports the first broken rule, in this order. */
  lemma EditOrder(username: string, password: string, newPassword: string)
    ensures FirstError(EditChecks(username, password, newPassword)) ==
      if username == "" then Some("Username is not provided")
      else if password == "" then Some("Password is not provided")
      else if newPassword == "" then Some("New password is not provided")
      else if ByteLen(newPassword) < 8 then Some("Password is too short")
      else None
  {
    var checks := EditChecks(username, password, newPassword);
    assert FailsFirst(checks, 0) || FailsFirst(checks, 1) || FailsFirst(checks, 2)
        || FailsFirst(checks, 3) || FirstError(checks).None?;
  }

  /** Deactivation reports the first broken rule, in this order. */
  lemma DeactivationOrder(password: string, confirm: string)
    ensures FirstError(DeactivationChecks(password, confirm)) ==
      if password == "" then Some("Password is not provided")
      else if password != confirm then Some("Password and password confirmation are not same")
      else None
  {
    var checks := DeactivationChecks(password, confirm);
    assert FailsFirst(checks, 0) || FailsFirst(checks, 1) || FirstError(checks).None?;
  }

  /** A password of eight bytes or more that Atoi reads as a 64-bit integer
      is refused, signs included. */
  lemma NumericPasswordRefused(username: string, password: string)
    requires username != "" && ByteLen(password) >= 8 && IsInt64Literal(password)
    ensures FirstError(RegistrationChecks(username, password, password)) ==
      Some("Password consists of only numbers")
  {
    RegistrationOrder(username, password, password);
  }

  /** "-12345678" counts as only numbers. */
  lemma SignedNumericPasswordRefused(username: string)
    requires username != ""
    ensures FirstError(RegistrationChecks(username, "-12345678", "-12345678")) ==
      Some("Password consists of only numbers")
  {
    var d := "12345678";
    assert Unsigned("-12345678") == d;
    ValueBelow(d);
    NumericPasswordRefused(username, "-12345678");
  }

  /** A numeric password too long for a 64-bit integer makes Atoi fail, so the
      "only numbers" rule lets it through. */
  lemma LongNumericPasswordAccepted(username: string)
    requires username != ""
    ensures var p := "1234567890123456789012345";
      FirstError(RegistrationChecks(username, p, p)) == None
  {
    var p := "1234567890123456789012345";
    assert Unsigned(p) == p && !Negative(p);
    ValueAtLeast(p);
    Pow10Grows(19, 24);
    Pow10ExceedsInt64();
    assert Atoi(p).err != NoError;
    RegistrationOrder(username, p, p);
  }

  /** The length rule counts bytes: three kana are nine UTF-8 bytes, enough. */
  lemma ThreeKanaPasswordAccepted(username: string)
    requires username != ""
    ensures var p := "パスワ";
      |p| == 3 && FirstError(RegistrationChecks(username, p, p)) == None
  {
    var p := "パスワ";
    assert ByteLen(p) == 9 by {
      assert p[1..][1..][1..] == [];
    }
    assert !IsDigit(p[0]);
    RegistrationOrder(username, p, p);
  }

  /** Profile edit accepts an all-digit new password that registration refuses. */
  lemma EditAcceptsNumericPassword(username: string, password: string)
    requires username != "" && password != ""
    ensures FirstError(EditChecks(username, password, "12345678")) == None
    ensures FirstError(RegistrationChecks(username, "12345678", "12345678")) ==
      Some("Password consists of only numbers")
  {
    ShortNumeralIsInt64("12345678");
    EditOrder(username, password, "12345678");
    NumericPasswordRefused(username, "12345678");
  }

  /** Login succeeds exactly when the name exists, the digest matches and the
      account is valid; otherwise the first failing decision is reported. */
  lemma LoginDecision(found: Option<User>, password: string)
    ensures FirstError(LoginChecks(found, password)) ==
      if found.None? then Some("No such user")
      else if found.value.password != Hash(password) then Some("Incorrect password")
      else if !found.value.isValid then Some("User is not valid")
      else None
  {
    var checks := LoginChecks(found, password);
    assert FailsFirst(checks, 0) || FailsFirst(checks, 1) || FailsFirst(checks, 2)
        || FirstError(checks).None?;
  }

  /** The row registration writes logs in with the password it was registered
      with, and with no other password's digest. */
  lemma RegisteredUserCanLogIn(username: string, password: string, attempt: string)
    ensures FirstError(LoginChecks(Some(User(username, Hash(password), true)), password)) == None
    ensures Hash(attempt) != Hash(password) ==>
      FirstError(LoginChecks(Some(User(username, Hash(password), true)), attempt)) == Some("Incorrect password")
  {
    LoginDecision(Some(User(username, Hash(password), true)), password);
    LoginDecision(Some(User(username, Hash(password), true)), attempt);
  }

  /** A deactivated row never logs in again, whatever password is given. */
  lemma DeactivatedUserCannotLogIn(u: User, password: string)
    requires !u.isValid
    ensures FirstError(LoginChecks(Some(u), password)).Some?
    ensures u.password == Hash(password) ==> FirstError(LoginChecks(Some(u), password)) == Some("User is not valid")
  {
    LoginDecision(Some(u), password);
  }

  // ---------------------------------------------------------------------------
  // The login guard

  /** LoginCheck: with no user in the session, redirect to /login and stop the
      chain; otherwise let the chain go on. */
  function LoginCheck(session: Option<UserId>): (g: Guard)
    ensures g == Continue <==> session.Some?
    ensures g != Continue ==> g == Abort(Redirect(LoginPage))
  {
    if session.None? then Abort(Redirect(LoginPage)) else Continue
  }

  // ---------------------------------------------------------------------------
  // Handlers

  /** The id of the user row with this name, if there is one. */
  ghost function UserNamed(users: map<UserId, User>, name: string): (found: Option<UserId>)
    ensures found.Some? ==> found.value in users && users[found.value].name == name
    ensures found.None? <==> !NameTaken(users, name)
  {
    if NameTaken(users, name) then Some(var id :| id in users && users[id].name == name; id)
    else None
  }

  /** The row a lookup found. */
  function RowOf(users: map<UserId, User>, found: Option<UserId>): Option<User>
  {
    if found.Some? && found.value in users then Some(users[found.value]) else None
  }

  /** POST /user/new. */
  method RegisterUser(app: App, form: Form, db: Db) returns (res: Response)
    requires app.Valid()
    modifies app`users, app`nextUserId
    ensures app.Valid()
    ensures var username := PostForm(form, "username");
      var password := PostForm(form, "password");
      var invalid := FirstError(RegistrationChecks(username, password, PostForm(form, "password_confirm")));
      var id := old(app.nextUserId);
      if invalid.Some? then
        res == FormError(invalid.value) && app.users == old(app.users) && app.nextUserId == id
      else if !Connected(db) || !CallSucceeds(db, 0) then
        res == InternalError && app.users == old(app.users) && app.nextUserId == id
      else if NameTaken(old(app.users), username) then
        res == FormError("Username is already taken") && app.users == old(app.users) && app.nextUserId == id
      else if !CallSucceeds(db, 1) then
        res == InternalError && app.users == old(app.users) && app.nextUserId == id
      else
        // the row is written; reading it back (call 2) can still fail
        && id !in old(app.users)
        && app.users == old(app.users)[id := User(username, Hash(password), true)]
        && app.nextUserId == id + 1
        && res == (if CallSucceeds(db, 2) then Redirect(ListPage) else InternalError)
  {
    var username := PostForm(form, "username");
    var password := PostForm(form, "password");
    var invalid := FirstError(RegistrationChecks(username, password, PostForm(form, "password_confirm")));
    if invalid.Some? {
      return FormError(invalid.value);
    }
    if !Connected(db) || !CallSucceeds(db, 0) {
      return InternalError;
    }
    if NameTaken(app.users, username) {
      return FormError("Username is already taken");
    }
    if !CallSucceeds(db, 1) {
      return InternalError;
    }
    var id := app.nextUserId;
    app.users := app.users[id := User(username, Hash(password), true)];
    app.nextUserId := id + 1;
    if !CallSucceeds(db, 2) {
      return InternalError;
    }
    res := Redirect(ListPage);
  }

  /** POST /login. */
  method Login(app: App, form: Form, db: Db) returns (res: Response)
    requires app.Valid()
    modifies app`session
    ensures app.Valid()
    ensures !Connected(db) ==> res == InternalError && app.session == old(app.session)
    ensures Connected(db) ==>
      var found := if CallSucceeds(db, 0) then UserNamed(app.users, PostForm(form, "username")) else None;
      var refused := FirstError(LoginChecks(RowOf(app.users, found), PostForm(form, "password")));
      if refused.Some? then res == FormError(refused.value) && app.session == old(app.session)
      else res == Redirect(ListPage) && app.session == found
  {
    var username := PostForm(form, "username");
    var password := PostForm(form, "password");
    if !Connected(db) {
      return InternalError;
    }
    var found: Option<UserId> := None;
    if CallSucceeds(db, 0) && NameTaken(app.users, username) {
      var id :| id in app.users && app.users[id].name == username;
      found := Some(id);
    }
    assert found == (if CallSucceeds(db, 0) then UserNamed(app.users, username) else None);
    var refused := FirstError(LoginChecks(RowOf(app.users, found), password));
    if refused.Some? {
      return FormError(refused.value);
    }
    app.session := found;
    res := Redirect(ListPage);
  }

  /** GET /logout. */
  method Logout(app: App) returns (res: Response)
    requires app.Valid()
    modifies app`session
    ensures app.Valid()
    ensures app.session == None && res == Redirect(HomePage)
  {
    app.session := None;
    res := Redirect(HomePage);
  }

  /** POST /user/delete: deactivate the session's account. */
  method DeleteUser(app: App, form: Form, db: Db) returns (res: Response)
    requires app.Valid()
    modifies app`users, app`session
    ensures app.Valid()
    ensures var password := PostForm(form, "password");
      var invalid := FirstError(DeactivationChecks(password, PostForm(form, "password_confirm")));
      var me := old(app.session);
      var same := app.users == old(app.users) && app.session == me;
      if invalid.Some? then res == FormError(invalid.value) && same
      else if !Connected(db) || !CallSucceeds(db, 0) || me.None? then res == InternalError && same
      else if old(app.users)[me.value].password != Hash(password) then
        res == FormError("Incorrect password") && same
      else if !CallSucceeds(db, 1) then res == InternalError && same
      else
        && app.users == old(app.users)[me.value := old(app.users)[me.value].(isValid := false)]
        && app.session == None
        && res == Redirect(HomePage)
  {
    var password := PostForm(form, "password");
    var invalid := FirstError(DeactivationChecks(password, PostForm(form, "password_confirm")));
    if invalid.Some? {
      return FormError(invalid.value);
    }
    var me := app.session;
    if !Connected(db) || !CallSucceeds(db, 0) || me.None? {
      return InternalError;
    }
    var user := app.users[me.value];
    if user.password != Hash(password) {
      return FormError("Incorrect password");
    }
    if !CallSucceeds(db, 1) {
      return InternalError;
    }
    app.users := app.users[me.value := user.(isValid := false)];
    app.session := None;
    res := Redirect(HomePage);
  }

  /** Another row than `self` has this name. */
  predicate NameTakenByOther(users: map<UserId, User>, name: string, self: UserId)
  {
    exists id :: id in users && id != self && users[id].name == name
  }

  /** POST /user/edit: rename the session's account and set a new password. */
  method EditUser(app: App, form: Form, db: Db) returns (res: Response)
    requires app.Valid()
    modifies app`users
    ensures app.Valid()
    ensures var username := PostForm(form, "username");
      var password := PostForm(form, "password");
      var newPassword := PostForm(form, "password_new");
      var invalid := FirstError(EditChecks(username, password, newPassword));
      var me := app.session;
      if invalid.Some? then res == FormError(invalid.value) && app.users == old(app.users)
      else if !Connected(db) || !CallSucceeds(db, 0) || me.None? then
        res == InternalError && app.users == old(app.users)
      else if old(app.users)[me.value].password != Hash(password) then
        res == FormError("Incorrect password") && app.users == old(app.users)
      else if !CallSucceeds(db, 1) || NameTakenByOther(old(app.users), username, me.value) then
        // the UPDATE fails, or the UNIQUE name column rejects it
        res == InternalError && app.users == old(app.users)
      else
        && app.users == old(app.users)[me.value :=
             User(username, Hash(newPassword), old(app.users)[me.value].isValid)]
        && res == Redirect(HomePage)
  {
    var username := PostForm(form, "username");
    var password := PostForm(form, "password");
    var newPassword := PostForm(form, "password_new");
    var invalid := FirstError(EditChecks(username, password, newPassword));
    if invalid.Some? {
      return FormError(invalid.value);
    }
    var me := app.session;
    if !Connected(db) || !CallSucceeds(db, 0) || me.None? {
      return InternalError;
    }
    var user := app.users[me.value];
    if user.password != Hash(password) {
      return FormError("Incorrect password");
    }
    if !CallSucceeds(db, 1) || NameTakenByOther(app.users, username, me.value) {
      return InternalError;
    }
    app.users := app.users[me.value := User(username, Hash(newPassword), user.isValid)];
    res := Redirect(HomePage);
  }
}
