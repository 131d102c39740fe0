/**
  The administrator's users page: the numbered user table with locked rows
  for protected accounts, the save handler with its button state and the
  sign-out that follows a new account, and the edit and delete guards.
 */
module AdminUsers {
  import opened Common
  import opened UserAccounts

  /**
    The `protected` field of a profile as stored: absent, a boolean, or some
    other value, which is truthy or not.
   */
  datatype Protection = Unset | Flag(b: bool) | OtherValue(truthy: bool)

  /** `user.protected === true`, the test of the table. */
  predicate StrictlyProtected(p: Protection) {
    p == Flag(true)
  }

  /** `if (userData.protected)`, the test of the delete handler. */
  predicate Truthy(p: Protection) {
    p == Flag(true) || (p.OtherValue? && p.truthy)
  }

  /** A profile document of the `users` collection. */
  datatype UserProfile = UserProfile(
    fullName: string, email: string, role: string, createdAt: Option<string>, lastLogin: Option<string>,
    protection: Protection)

  datatype UserDoc = UserDoc(id: string, data: UserProfile)

  /** The last cell of a row: a lock, or the edit and delete buttons carrying the document id. */
  datatype Actions = Locked | Buttons(id: string)

  /** A table row; `protectedAttr` is its `data-protected` attribute. */
  datatype Row = Row(
    number: nat, fullName: string, email: string, role: string, createdAt: string, lastLogin: string,
    protectedAttr: bool, actions: Actions)

  /**
    The row for one document: the dates fall back to "N/A" when absent or
    empty, and a strictly protected profile gets the lock instead of
    buttons.
   */
  function RowOf(number: nat, d: UserDoc): (r: Row)
    ensures r.number == number
    ensures r.protectedAttr <==> StrictlyProtected(d.data.protection)
    ensures r.actions.Locked? <==> r.protectedAttr
    ensures r.actions.Buttons? ==> r.actions.id == d.id
    ensures r.createdAt != "" && r.lastLogin != ""
  {
    var isProtected := StrictlyProtected(d.data.protection);
    Row(number, d.data.fullName, d.data.email, d.data.role,
        OrDefault(d.data.createdAt, "N/A"), OrDefault(d.data.lastLogin, "N/A"),
        isProtected, if isProtected then Locked else Buttons(d.id))
  }

  /**
    The profile written for a new account, keyed by its uid: no
    `protected` field, `createdAt` the local time of the write and
    `lastLogin` "N/A".
   */
  function NewProfile(uid: string, fullName: string, email: string, role: string, now: string): (d: UserDoc)
    ensures d.id == uid && d.data.fullName == fullName && d.data.email == email && d.data.role == role
    ensures d.data.createdAt == Some(now) && d.data.lastLogin == Some("N/A")
    ensures !Truthy(d.data.protection)
  {
    UserDoc(uid, UserProfile(fullName, email, role, Some(now), Some("N/A"), Unset))
  }

  /** The remote calls of the delete handler. */
  datatype Call = ReadProfile(id: string) | DeleteProfile(id: string)

  /**
    How a delete click ends; `Aborted` is a rejected remote call, which the
    handler does not catch.
   */
  datatype DeleteOutcome = OwnAccount | ProtectedAccount | Cancelled | Deleted | Aborted

  datatype DeleteRun = DeleteRun(outcome: DeleteOutcome, calls: seq<Call>)

  /**
    The delete handler for the row of `id`: the signed-in user's own id is
    refused before anything is read; a stored profile whose `protected` is
    truthy is refused; otherwise the confirmation decides, and a missing
    profile does not stop the delete.
   */
  function DeleteUser(id: string, currentUid: Option<string>, stored: Lookup<UserProfile>, confirmed: bool,
                      deleteFails: bool): (r: DeleteRun)
    ensures r.outcome == OwnAccount <==> currentUid == Some(id)
    ensures r.outcome == OwnAccount ==> r.calls == []
    ensures r.outcome == ProtectedAccount <==> currentUid != Some(id) && stored.Found? && Truthy(stored.doc.protection)
    ensures r.outcome == Deleted <==>
              && currentUid != Some(id) && !stored.LookupFailed? && !(stored.Found? && Truthy(stored.doc.protection))
              && confirmed && !deleteFails
    ensures DeleteProfile(id) in r.calls ==>
              currentUid != Some(id) && confirmed && !(stored.Found? && Truthy(stored.doc.protection))
    ensures forall c :: c in r.calls ==> c.id == id
  {
    if currentUid == Some(id) then DeleteRun(OwnAccount, [])
    else if stored.LookupFailed? then DeleteRun(Aborted, [ReadProfile(id)])
    else if stored.Found? && Truthy(stored.doc.protection) then DeleteRun(ProtectedAccount, [ReadProfile(id)])
    else if !confirmed then DeleteRun(Cancelled, [ReadProfile(id)])
    else if deleteFails then DeleteRun(Aborted, [ReadProfile(id), DeleteProfile(id)])
    else DeleteRun(Deleted, [ReadProfile(id), DeleteProfile(id)])
  }

  /**
    The two tests disagree: a locked row is always refused by the delete
    handler as well, but a profile whose `protected` is a truthy non-boolean
    shows buttons and is still refused on delete.
   */
  lemma ProtectionTestsDiffer(id: string, currentUid: Option<string>, u: UserProfile)
    requires currentUid != Some(id)
    ensures RowOf(1, UserDoc(id, u)).actions.Locked? ==>
              DeleteUser(id, currentUid, Found(u), true, false).outcome == ProtectedAccount
    ensures u.protection == OtherValue(true) ==>
              && RowOf(1, UserDoc(id, u)).actions == Buttons(id)
              && DeleteUser(id, currentUid, Found(u), true, false).outcome == ProtectedAccount
  {
  }

  /** A newly created account gets buttons in the table, and only its own user cannot delete it. */
  lemma NewProfileIsDeletable(n: nat, uid: string, fullName: string, email: string, role: string, now: string,
                              currentUid: Option<string>)
    requires currentUid != Some(uid)
    ensures var d := NewProfile(uid, fullName, email, role, now);
            && RowOf(n, d).actions == Buttons(uid)
            && DeleteUser(uid, currentUid, Found(d.data), true, false).outcome == Deleted
  {
  }

  /** How an edit click ends: refused, nothing to load, a failed read, or the form filled for editing. */
  datatype EditOutcome =
    | NotAllowed
    | NoProfile
    | LoadFailed
    | Editing(userId: string, fullName: string, email: string, role: string)

  /**
    The edit handler of a row: a row whose `data-protected` is "true" is
    refused; otherwise `populateForm` fills the form from the stored
    profile, with the email locked and the password hidden.
   */
  function EditUser(id: string, row: Row, stored: Lookup<UserProfile>): (e: EditOutcome)
    ensures e == NotAllowed <==> row.protectedAttr
    ensures e.Editing? <==> !row.protectedAttr && stored.Found?
    ensures e.Editing? ==> e.userId == id && e.email == stored.doc.email && e.role == stored.doc.role
  {
    if row.protectedAttr then NotAllowed
    else match stored
      case LookupFailed => LoadFailed
      case Missing => NoProfile
      case Found(u) => Editing(id, u.fullName, u.email, u.role)
  }

  /** The module-level state the handlers touch. */
  class UsersPage {
    /** The rows of the table body. */
    var rows: seq<Row>
    /** The save button is disabled while a save runs. */
    var saveDisabled: bool
    /** The sign-out that follows the creation of an account has been requested. */
    var signOutRequested: bool

    constructor ()
      ensures rows == [] && !saveDisabled && !signOutRequested
    {
      rows, saveDisabled, signOutRequested := [], false, false;
    }

    /** `loadUsers`: the table is rebuilt from the snapshot, numbering the rows from 1. */
    method LoadUsers(docs: seq<UserDoc>)
      modifies this`rows
      ensures |rows| == |docs|
      ensures forall i :: 0 <= i < |docs| ==> rows[i] == RowOf(i + 1, docs[i])
      ensures forall i :: 0 <= i < |rows| ==> rows[i].number == i + 1
    {
      rows := [];
      var index := 1;
      var k := 0;
      while k < |docs|
        invariant 0 <= k <= |docs| && |rows| == k && index == k + 1
        invariant forall i :: 0 <= i < k ==> rows[i] == RowOf(i + 1, docs[i])
      {
        rows := rows + [RowOf(index, docs[k])];
        index := index + 1;
        k := k + 1;
      }
    }

    /**
      `saveUser`: the button is disabled for the duration and re-enabled on
      every path. A successful save reloads the table (`reload` is the new
      snapshot). `attempted` is the profile write made once an account is
      created, keyed by its uid, whether or not it succeeds; only a created
      account with its profile stored requests the sign-out.
     */
    method SaveUser(form: UserForm, env: SaveEnv, now: string, reload: seq<UserDoc>)
      returns (o: SaveOutcome, attempted: Option<UserDoc>)
      modifies this`rows, this`saveDisabled, this`signOutRequested
      ensures o == UserAccounts.SaveUser(form, env)
      ensures !saveDisabled
      ensures attempted.Some? <==> o.Created? || o.AccountWithoutProfile?
      ensures attempted.Some? ==> attempted.value == NewProfile(o.uid, o.fullName, o.email, o.role, now)
      ensures signOutRequested <==> old(signOutRequested) || o.Created?
      ensures o.Updated? || o.Created? ==> |rows| == |reload| && forall i :: 0 <= i < |rows| ==> rows[i] == RowOf(i + 1, reload[i])
      ensures !(o.Updated? || o.Created?) ==> rows == old(rows)
    {
      saveDisabled := true;
      o := UserAccounts.SaveUser(form, env);
      attempted := None;
      if o.Created? || o.AccountWithoutProfile? {
        attempted := Some(NewProfile(o.uid, o.fullName, o.email, o.role, now));
      }
      if o.Created? {
        signOutRequested := true;
      }
      ReloadAfterSave(o, reload);
      saveDisabled := false;
    }

    /** The table is reloaded after an update or a creation, and only then. */
    method ReloadAfterSave(o: SaveOutcome, reload: seq<UserDoc>)
      modifies this`rows
      ensures o.Updated? || o.Created? ==> |rows| == |reload| && forall i :: 0 <= i < |rows| ==> rows[i] == RowOf(i + 1, reload[i])
      ensures !(o.Updated? || o.Created?) ==> rows == old(rows)
    {
      if o.Updated? || o.Created? {
        LoadUsers(reload);
      }
    }

    /** A delete click; a completed delete reloads the table. */
    method DeleteClick(id: string, currentUid: Option<string>, stored: Lookup<UserProfile>, confirmed: bool,
                       deleteFails: bool, reload: seq<UserDoc>)
      returns (r: DeleteRun)
      modifies this`rows
      ensures r == DeleteUser(id, currentUid, stored, confirmed, deleteFails)
      ensures r.outcome == Deleted ==> |rows| == |reload| && forall i :: 0 <= i < |rows| ==> rows[i] == RowOf(i + 1, reload[i])
      ensures r.outcome != Deleted ==> rows == old(rows)
    {
      r := DeleteUser(id, currentUid, stored, confirmed, deleteFails);
      if r.outcome == Deleted {
        LoadUsers(reload);
      }
    }
  }
}
