/**
  The session manager of the admin pages: the reaction to each
  authentication state change (clear and redirect without a user, the
  session-storage profile cache otherwise), the sign-out flag that
  suppresses the redirect, and the role-based visibility of the admin-only
  and manager-only elements.
 */
module Session {
  import opened Common

  /** The signed-in user as the authentication listener reports it. */
  datatype AuthUser = AuthUser(uid: string, email: string)

  /** The fields of a profile document that the page reads. */
  datatype Profile = Profile(fullName: string, role: string)

  /** The `user-credentials` entry of session storage. */
  datatype Credentials = Credentials(email: string, uid: string)

  /** Whether the admin-only and the manager-only elements are displayed. */
  datatype Visibility = Visibility(adminOnly: bool, managerOnly: bool)

  /**
    The role mapping of `updateUI`: the admin group for "Admin" only, the
    manager group for "Manager" only, so the two are never shown together.
   */
  function RoleVisibility(role: string): (v: Visibility)
    ensures v.adminOnly <==> role == "Admin"
    ensures v.managerOnly <==> role == "Manager"
    ensures !(v.adminOnly && v.managerOnly)
  {
    if role == "Admin" then Visibility(true, false)
    else if role == "Manager" then Visibility(false, true)
    else Visibility(false, false)
  }

  /** The cached profile is used: both entries exist and the stored uid is the current one. */
  predicate CacheHit(creds: Option<Credentials>, info: Option<Profile>, uid: string) {
    creds.Some? && info.Some? && creds.value.uid == uid
  }

  /** The page state the session manager writes. */
  class SessionManager {
    /** Set by `Signout` so that the resulting state change does not redirect. */
    var isSigningOut: bool
    var storedCreds: Option<Credentials>
    var storedInfo: Option<Profile>
    /** The role-based display; `None` until `updateUI` first runs. */
    var visibility: Option<Visibility>
    var message: string
    var greeting: string
    /** The loader is hidden and the main content shown. */
    var contentShown: bool
    /** The immediate navigation to the sign-in page has happened. */
    var redirected: bool
    /** The sign-out toast and the delayed navigation to the sign-in page. */
    var signOutCompleted: bool
    /** The "Failed to fetch user info." alert. */
    var fetchErrorShown: bool

    constructor (creds: Option<Credentials>, info: Option<Profile>)
      ensures storedCreds == creds && storedInfo == info
      ensures !isSigningOut && visibility == None && !contentShown && !redirected && !signOutCompleted
    {
      isSigningOut, storedCreds, storedInfo, visibility := false, creds, info, None;
      message, greeting := "", "";
      contentShown, redirected, signOutCompleted, fetchErrorShown := false, false, false, false;
    }

    /** `updateUI(user, userInfo)`: the header texts and the role-based display. */
    method UpdateUI(user: AuthUser, info: Profile)
      modifies this`message, this`greeting, this`visibility
      ensures visibility == Some(RoleVisibility(info.role))
      ensures message == "\"" + user.email + "\"" && greeting == "Hi, " + info.fullName + "!"
    {
      message := "\"" + user.email + "\"";
      greeting := "Hi, " + info.fullName + "!";
      visibility := Some(RoleVisibility(info.role));
    }

    /**
      `Signout`: the flag is raised before the sign-out call; only when that
      call succeeds is session storage cleared and the delayed redirect
      scheduled.
     */
    method Signout(signOutFails: bool)
      modifies this`isSigningOut, this`storedCreds, this`storedInfo, this`signOutCompleted
      ensures isSigningOut
      ensures signOutFails ==>
                storedCreds == old(storedCreds) && storedInfo == old(storedInfo) && signOutCompleted == old(signOutCompleted)
      ensures !signOutFails ==> storedCreds == None && storedInfo == None && signOutCompleted
    {
      isSigningOut := true;
      if !signOutFails {
        storedCreds, storedInfo := None, None;
        signOutCompleted := true;
      }
    }

    /**
      The `onAuthStateChanged` callback. Without a user, session storage is
      cleared and the page redirects unless a sign-out is in progress. With
      a user, the cached profile is used when it belongs to that user;
      otherwise the profile is read (`fetched`): a stored profile fills the
      cache and the display, a missing one signs out, a failed read alerts.
      The content is shown in every case with a user.
     */
    method OnAuthStateChanged(user: Option<AuthUser>, fetched: Lookup<Profile>, signOutFails: bool)
      modifies this
      ensures old(isSigningOut) ==> isSigningOut
      ensures user.None? ==>
                && storedCreds == None && storedInfo == None
                && (redirected <==> old(redirected) || !old(isSigningOut))
                && visibility == old(visibility) && contentShown == old(contentShown)
                && message == old(message) && greeting == old(greeting)
                && isSigningOut == old(isSigningOut) && signOutCompleted == old(signOutCompleted)
                && fetchErrorShown == old(fetchErrorShown)
      ensures user.Some? ==> contentShown && redirected == old(redirected)
      ensures user.Some? && CacheHit(old(storedCreds), old(storedInfo), user.value.uid) ==>
                && storedCreds == old(storedCreds) && storedInfo == old(storedInfo)
                && visibility == Some(RoleVisibility(old(storedInfo).value.role))
                && message == "\"" + user.value.email + "\"" && greeting == "Hi, " + old(storedInfo).value.fullName + "!"
                && isSigningOut == old(isSigningOut) && signOutCompleted == old(signOutCompleted)
                && fetchErrorShown == old(fetchErrorShown)
      ensures user.Some? && !CacheHit(old(storedCreds), old(storedInfo), user.value.uid) && fetched.Found? ==>
                && storedCreds == Some(Credentials(user.value.email, user.value.uid)) && storedInfo == Some(fetched.doc)
                && visibility == Some(RoleVisibility(fetched.doc.role))
                && message == "\"" + user.value.email + "\"" && greeting == "Hi, " + fetched.doc.fullName + "!"
                && isSigningOut == old(isSigningOut) && signOutCompleted == old(signOutCompleted)
                && fetchErrorShown == old(fetchErrorShown)
      ensures user.Some? && (CacheHit(old(storedCreds), old(storedInfo), user.value.uid) || fetched.Found?) ==>
                CacheHit(storedCreds, storedInfo, user.value.uid)
      ensures user.Some? && !CacheHit(old(storedCreds), old(storedInfo), user.value.uid) && fetched.Missing? ==>
                && isSigningOut
                && (signOutCompleted <==> old(signOutCompleted) || !signOutFails)
                && (if signOutFails then storedCreds == old(storedCreds) && storedInfo == old(storedInfo)
                    else storedCreds == None && storedInfo == None)
                && visibility == old(visibility) && message == old(message) && greeting == old(greeting)
                && fetchErrorShown == old(fetchErrorShown)
      ensures user.Some? && !CacheHit(old(storedCreds), old(storedInfo), user.value.uid) && fetched.LookupFailed? ==>
                && fetchErrorShown && visibility == old(visibility)
                && storedCreds == old(storedCreds) && storedInfo == old(storedInfo)
                && message == old(message) && greeting == old(greeting)
                && isSigningOut == old(isSigningOut) && signOutCompleted == old(signOutCompleted)
    {
      if user.None? {
        storedCreds, storedInfo := None, None;
        if !isSigningOut {
          redirected := true;
        }
        return;
      }
      var u := user.value;
      if !CacheHit(storedCreds, storedInfo, u.uid) {
        match fetched
        case Found(info) =>
          storedCreds := Some(Credentials(u.email, u.uid));
          storedInfo := Some(info);
          UpdateUI(u, info);
        case Missing =>
          Signout(signOutFails);
        case LookupFailed =>
          fetchErrorShown := true;
      } else {
        UpdateUI(u, storedInfo.value);
      }
      contentShown := true;
    }
  }
}
