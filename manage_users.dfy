/**
  The manager's users page: the numbered user table, every row with edit
  and delete buttons, the save handler, whose new record is added under a
  generated id and carries the uid and an "active" status, and a delete
  that only asks for confirmation.
 */
module ManageUsers {
  import opened Common
  import opened UserAccounts

  /** A record of the `users` collection as this page writes and reads it. */
  datatype UserRecord = UserRecord(
    fullName: string, email: string, role: string, status: string, createdAt: Option<string>,
    lastLogin: Option<string>, uid: string)

  datatype UserDoc = UserDoc(id: string, data: UserRecord)

  /** A table row; the buttons of every row carry the document id. */
  datatype Row = Row(
    number: nat, fullName: string, email: string, role: string, createdAt: string, lastLogin: string,
    buttonsId: string)

  /** The row for one document; the dates fall back to "N/A" when absent or empty. */
  function RowOf(number: nat, d: UserDoc): (r: Row)
    ensures r.number == number && r.buttonsId == d.id
    ensures r.fullName == d.data.fullName && r.email == d.data.email && r.role == d.data.role
    ensures r.createdAt != "" && r.lastLogin != ""
  {
    Row(number, d.data.fullName, d.data.email, d.data.role,
        OrDefault(d.data.createdAt, "N/A"), OrDefault(d.data.lastLogin, "N/A"), d.id)
  }

  /**
    The record added for a new account (`addDoc`, so under a generated id):
    status "active", `lastLogin` "N/A", and the uid of the created
    credential.
   */
  function NewRecord(uid: string, fullName: string, email: string, role: string, now: string): (u: UserRecord)
    ensures u.uid == uid && u.status == "active" && u.lastLogin == Some("N/A") && u.createdAt == Some(now)
    ensures u.fullName == fullName && u.email == email && u.role == role
  {
    UserRecord(fullName, email, role, "active", Some(now), Some("N/A"), uid)
  }

  /** How a delete click ends. */
  datatype DeleteOutcome = Cancelled | Deleted | DeleteFailed

  /** The outcome and the ids of the documents whose deletion was requested. */
  datatype DeleteRun = DeleteRun(outcome: DeleteOutcome, deleted: seq<string>)

  /**
    `deleteUser` and the delete button: no own-account or protected check
    (neither the signed-in uid nor the stored record takes part); the
    confirmation alone decides whether the document is deleted.
   */
  function DeleteUser(id: string, confirmed: bool, deleteFails: bool): (r: DeleteRun)
    ensures r.deleted == (if confirmed then [id] else [])
    ensures r.outcome == Deleted <==> confirmed && !deleteFails
  {
    if !confirmed then DeleteRun(Cancelled, [])
    else if deleteFails then DeleteRun(DeleteFailed, [id])
    else DeleteRun(Deleted, [id])
  }

  /** The module-level state the handlers touch. */
  class UsersPage {
    /** The rows of the table body. */
    var rows: seq<Row>

    constructor ()
      ensures rows == []
    {
      rows := [];
    }

    /** `loadUsers`: the table is rebuilt from the snapshot, numbering the rows from 1. */
    method LoadUsers(docs: seq<UserDoc>)
      modifies this`rows
      ensures |rows| == |docs|
      ensures forall i :: 0 <= i < |docs| ==> rows[i] == RowOf(i + 1, docs[i])
      ensures forall i :: 0 <= i < |rows| ==> rows[i].number == i + 1
    {
      rows := [];
      var index := 1;
      var k := 0;
      while k < |docs|
        invariant 0 <= k <= |docs| && |rows| == k && index == k + 1
        invariant forall i :: 0 <= i < k ==> rows[i] == RowOf(i + 1, docs[i])
      {
        rows := rows + [RowOf(index, docs[k])];
        index := index + 1;
        k := k + 1;
      }
    }

    /**
      `saveUser`: the shared checks and steps, the record add attempted
      (`attempted`, whether or not it succeeds) once an account is created,
      and the table reloaded after a successful save.
     */
    method SaveUser(form: UserForm, env: SaveEnv, now: string, reload: seq<UserDoc>)
      returns (o: SaveOutcome, attempted: Option<UserRecord>)
      modifies this`rows
      ensures o == UserAccounts.SaveUser(form, env)
      ensures attempted.Some? <==> o.Created? || o.AccountWithoutProfile?
      ensures attempted.Some? ==> attempted.value == NewRecord(o.uid, o.fullName, o.email, o.role, now)
      ensures o.Updated? || o.Created? ==> |rows| == |reload| && forall i :: 0 <= i < |rows| ==> rows[i] == RowOf(i + 1, reload[i])
      ensures !(o.Updated? || o.Created?) ==> rows == old(rows)
    {
      o := UserAccounts.SaveUser(form, env);
      attempted := None;
      if o.Created? || o.AccountWithoutProfile? {
        attempted := Some(NewRecord(o.uid, o.fullName, o.email, o.role, now));
      }
      if o.Updated? || o.Created? {
        LoadUsers(reload);
      }
    }

    /** A delete click; a completed delete reloads the table. */
    method DeleteClick(id: string, confirmed: bool, deleteFails: bool, reload: seq<UserDoc>)
      returns (r: DeleteRun)
      modifies this`rows
      ensures r == DeleteUser(id, confirmed, deleteFails)
      ensures r.outcome == Deleted ==> |rows| == |reload| && forall i :: 0 <= i < |rows| ==> rows[i] == RowOf(i + 1, reload[i])
      ensures r.outcome != Deleted ==> rows == old(rows)
    {
      r := DeleteUser(id, confirmed, deleteFails);
      if r.outcome == Deleted {
        LoadUsers(reload);
      }
    }
  }
}
