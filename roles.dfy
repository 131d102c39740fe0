/**
  The role gate of the admin list pages: which rendered items show their
  edit and delete buttons for the signed-in user.
 */
module Roles {
  import opened Common

  /**
    `canEditOrDelete`: an Admin may touch every item, a Manager only the
    items whose `data-uid` is the signed-in uid, any other role none.
   */
  predicate CanEditOrDelete(role: string, currentUid: Option<string>, authorUid: string)
    ensures CanEditOrDelete(role, currentUid, authorUid) ==> role == "Admin" || role == "Manager"
    ensures role == "Admin" ==> CanEditOrDelete(role, currentUid, authorUid)
    ensures role == "Manager" ==> (CanEditOrDelete(role, currentUid, authorUid) <==> currentUid == Some(authorUid))
  {
    role == "Admin" || (role == "Manager" && currentUid == Some(authorUid))
  }

  /**
    The `forEach` of `updateEditDeleteVisibilityRoleBased` over the rendered
    items, given their `data-uid` attributes in order: one flag per item.
   */
  method ControlFlags(role: string, currentUid: Option<string>, authorUids: seq<string>) returns (flags: seq<bool>)
    ensures |flags| == |authorUids|
    ensures forall k :: 0 <= k < |authorUids| ==> flags[k] == CanEditOrDelete(role, currentUid, authorUids[k])
  {
    flags := [];
    var i := 0;
    while i < |authorUids|
      invariant 0 <= i <= |authorUids| && |flags| == i
      invariant forall k :: 0 <= k < i ==> flags[k] == CanEditOrDelete(role, currentUid, authorUids[k])
    {
      flags := flags + [CanEditOrDelete(role, currentUid, authorUids[i])];
      i := i + 1;
    }
  }
}
