/**
  The user form shared by the two user-management pages: the trimmed
  fields, the required-field and password checks, and the order of the
  remote steps of `saveUser` (update, or sign-in lookup, account creation
  and profile write).
 */
module UserAccounts {
  import opened Common
  import opened Text

  const MIN_PASSWORD_LENGTH: nat := 6

  /**
    The raw form values; `password` is `None` when the page has no password
    input (`getElementById("userPassword")?.value`).
   */
  datatype UserForm = UserForm(userId: string, fullName: string, email: string, password: Option<string>, role: string)

  /** What the remote calls of `saveUser` return, in the order they are made. */
  datatype SaveEnv = SaveEnv(
    /** `updateDoc` throws. */
    updateFails: bool,
    /** `fetchSignInMethodsForEmail`: how many sign-in methods the email has; `None` when it throws. */
    signInMethods: Option<nat>,
    /** `createUserWithEmailAndPassword`: the new account's uid; `None` when it throws. */
    newUid: Option<string>,
    /** The write of the new profile document throws. */
    profileWriteFails: bool)

  /**
    How `saveUser` ends. `Failed` is an exception caught by its `try` before
    any account exists; `AccountWithoutProfile` is the profile write
    throwing after the authentication account was created.
   */
  datatype SaveOutcome =
    | MissingInfo
    | ShortPassword
    | EmailTaken
    | Updated(id: string, fullName: string, role: string)
    | Created(uid: string, fullName: string, email: string, role: string)
    | AccountWithoutProfile(uid: string, fullName: string, email: string, role: string)
    | Failed

  /** Name, email or role is blank after trimming. */
  predicate MissingRequired(form: UserForm) {
    Trim(form.email) == "" || Trim(form.fullName) == "" || Trim(form.role) == ""
  }

  /** The form passes the required-field check and names an existing user: an edit. */
  predicate IsEdit(form: UserForm) {
    !MissingRequired(form) && Trim(form.userId) != ""
  }

  /** The form passes the required-field check and names no user: a creation. */
  predicate IsCreate(form: UserForm) {
    !MissingRequired(form) && Trim(form.userId) == ""
  }

  /** A creation whose trimmed password is long enough. */
  predicate PasswordAccepted(form: UserForm) {
    IsCreate(form) && form.password.Some? && |Trim(form.password.value)| >= MIN_PASSWORD_LENGTH
  }

  /** A creation that gets as far as `createUserWithEmailAndPassword`. */
  predicate ReachesCreate(form: UserForm, env: SaveEnv) {
    PasswordAccepted(form) && env.signInMethods == Some(0)
  }

  /**
    `saveUser`: the required fields first, then either an update of the
    name and role only, or the password length (a missing password input
    throws), the registered-email check, the account and its profile.
   */
  function SaveUser(form: UserForm, env: SaveEnv): (o: SaveOutcome)
    ensures o.MissingInfo? <==> MissingRequired(form)
    ensures o.Updated? <==> IsEdit(form) && !env.updateFails
    ensures o.Updated? ==> o == Updated(Trim(form.userId), Trim(form.fullName), Trim(form.role))
    ensures o.ShortPassword? <==>
              IsCreate(form) && form.password.Some? && |Trim(form.password.value)| < MIN_PASSWORD_LENGTH
    ensures o.EmailTaken? <==> PasswordAccepted(form) && env.signInMethods.Some? && env.signInMethods.value > 0
    ensures o.Created? <==> ReachesCreate(form, env) && env.newUid.Some? && !env.profileWriteFails
    ensures o.AccountWithoutProfile? <==> ReachesCreate(form, env) && env.newUid.Some? && env.profileWriteFails
    ensures o.Created? || o.AccountWithoutProfile? ==>
              && o.uid == env.newUid.value && o.fullName == Trim(form.fullName)
              && o.email == Trim(form.email) && o.role == Trim(form.role)
  {
    var id := Trim(form.userId);
    var fullName := Trim(form.fullName);
    var email := Trim(form.email);
    var role := Trim(form.role);
    if email == "" || fullName == "" || role == "" then MissingInfo
    else if id != "" then
      if env.updateFails then Failed else Updated(id, fullName, role)
    else if form.password.None? then Failed
    else if |Trim(form.password.value)| < MIN_PASSWORD_LENGTH then ShortPassword
    else if env.signInMethods.None? then Failed
    else if env.signInMethods.value > 0 then EmailTaken
    else if env.newUid.None? then Failed
    else if env.profileWriteFails then AccountWithoutProfile(env.newUid.value, fullName, email, role)
    else Created(env.newUid.value, fullName, email, role)
  }

  /**
    An edit never looks at the password: whatever the password field holds,
    the outcome is the same.
   */
  lemma EditIgnoresPassword(form: UserForm, env: SaveEnv, password: Option<string>)
    requires IsEdit(form)
    ensures SaveUser(form.(password := password), env) == SaveUser(form, env)
    ensures SaveUser(form, env).Updated? || SaveUser(form, env) == Failed
  {
  }

  /**
    A document is written only after every check has passed: the required
    fields always, and for a creation the password length and the unused
    email as well.
   */
  lemma WritesOnlyAfterChecks(form: UserForm, env: SaveEnv)
    ensures var o := SaveUser(form, env);
            o.Updated? || o.Created? || o.AccountWithoutProfile? ==>
              !MissingRequired(form) && (IsCreate(form) ==> PasswordAccepted(form) && env.signInMethods == Some(0))
  {
  }
}
