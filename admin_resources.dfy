/**
  The admin resources page: a live list replaced by each snapshot, a
  debounced three-field search that returns to page 1, `changePage` and the
  unbounded `window.goToPage`, delete, role-gated controls, and the
  `isSaving` guard around the submit handler.
 */
module AdminResources {
  import opened Common
  import opened Paging
  import opened Roles
  import opened Uploads
  import opened Resources

  const PAGE_SIZE: nat := 6

  /** The module-level state of the page and the handlers that change it. */
  class ResourcesPage {
    var fullList: seq<Resource>
    /** The id of the last document of the latest non-empty snapshot. */
    var lastVisible: Option<string>
    var currentPage: int
    var totalPages: nat
    /** The cards rendered in the container. */
    var shown: seq<Resource>
    /** Whether each rendered card shows its edit and delete buttons. */
    var controlsShown: seq<bool>
    var buttons: seq<PageButton>
    var prevDisabled: bool
    var nextDisabled: bool
    /** The "No results found" message replaced the cards. */
    var noResults: bool
    var isSaving: bool
    var currentUserRole: string
    var currentUserUid: Option<string>

    /** Each rendered card shows its edit and delete buttons exactly when the role gate allows it. */
    ghost predicate ControlsApplied()
      reads this
    {
      && |controlsShown| == |shown|
      && forall k :: 0 <= k < |shown| ==>
           controlsShown[k] == CanEditOrDelete(currentUserRole, currentUserUid, shown[k].uid)
    }

    /** The pagination drawn for the current page and the stored page count. */
    ghost predicate Paged()
      reads this
    {
      && IsWindow(buttons, currentPage, totalPages)
      && (prevDisabled <==> currentPage == 1)
      && (nextDisabled <==> currentPage == totalPages)
    }

    /** What `renderResources(list)` followed by `updatePagination()` leaves on the page. */
    ghost predicate Rendered(list: seq<Resource>)
      reads this
    {
      shown == PageSlice(list, currentPage, PAGE_SIZE) && !noResults && ControlsApplied() && Paged()
    }

    constructor ()
      ensures fullList == [] && lastVisible == None && currentPage == 1 && totalPages == 0
      ensures shown == [] && controlsShown == [] && buttons == [] && !noResults && !isSaving
      ensures currentUserRole == "User" && currentUserUid == None
    {
      fullList, lastVisible, currentPage, totalPages := [], None, 1, 0;
      shown, controlsShown, buttons := [], [], [];
      prevDisabled, nextDisabled, noResults, isSaving := true, false, false, false;
      currentUserRole, currentUserUid := "User", None;
    }

    /** `updateEditDeleteVisibilityRoleBased` over the rendered cards. */
    method UpdateEditDeleteVisibility()
      modifies this`controlsShown
      ensures ControlsApplied()
    {
      var cards := shown;
      controlsShown := ControlFlags(currentUserRole, currentUserUid, seq(|cards|, k requires 0 <= k < |cards| => cards[k].uid));
    }

    /** `renderResources(list)`: the six-card slice for the current page. */
    method Render(list: seq<Resource>)
      modifies this`shown, this`controlsShown, this`noResults
      ensures shown == PageSlice(list, currentPage, PAGE_SIZE) && !noResults
      ensures ControlsApplied()
    {
      shown := PageSlice(list, currentPage, PAGE_SIZE);
      noResults := false;
      UpdateEditDeleteVisibility();
    }

    /** `updatePagination()`: numbered buttons and the previous/next state for the stored page count. */
    method UpdatePagination()
      modifies this`buttons, this`prevDisabled, this`nextDisabled
      ensures Paged()
    {
      buttons := PageButtons(currentPage, totalPages);
      prevDisabled := currentPage == 1;
      nextDisabled := currentPage == totalPages;
    }

    /** The reset branch of `fetchResources(true)`, before subscribing. */
    method FetchReset()
      modifies this`shown, this`controlsShown, this`fullList, this`lastVisible, this`currentPage
      ensures shown == [] && controlsShown == [] && fullList == [] && lastVisible == None && currentPage == 1
    {
      shown, controlsShown := [], [];
      fullList, lastVisible, currentPage := [], None, 1;
    }

    /** A snapshot of the subscription: it replaces `fullList` and recounts the pages. */
    method OnSnapshot(batch: seq<Resource>)
      modifies this`lastVisible, this`fullList, this`shown, this`controlsShown, this`noResults,
               this`totalPages, this`buttons, this`prevDisabled, this`nextDisabled
      ensures fullList == batch
      ensures lastVisible == if batch == [] then old(lastVisible) else Some(batch[|batch| - 1].id)
      ensures totalPages == TotalPages(|batch|, PAGE_SIZE)
      ensures Rendered(batch)
    {
      if batch != [] {
        lastVisible := Some(batch[|batch| - 1].id);
      }
      fullList := batch;
      Render(fullList);
      totalPages := TotalPages(|fullList|, PAGE_SIZE);
      UpdatePagination();
    }

    /**
      The debounced search callback: back to page 1 with the filtered page
      count. An empty result shows the message and leaves the pagination
      as it was.
     */
    method SearchInput(input: string)
      modifies this`currentPage, this`totalPages, this`shown, this`controlsShown, this`noResults,
               this`buttons, this`prevDisabled, this`nextDisabled
      ensures currentPage == 1
      ensures totalPages == TotalPages(|Search(fullList, input)|, PAGE_SIZE)
      ensures noResults <==> Search(fullList, input) == []
      ensures noResults ==>
                && shown == [] && controlsShown == []
                && buttons == old(buttons) && prevDisabled == old(prevDisabled) && nextDisabled == old(nextDisabled)
      ensures !noResults ==> Rendered(Search(fullList, input)) && prevDisabled && (nextDisabled <==> totalPages == 1)
    {
      var filtered := Search(fullList, input);
      currentPage := 1;
      totalPages := TotalPages(|filtered|, PAGE_SIZE);
      ShowMatches(filtered);
    }

    /** The matches of a search: the message when there are none, else the current page and the pagination. */
    method ShowMatches(filtered: seq<Resource>)
      modifies this`shown, this`controlsShown, this`noResults, this`buttons, this`prevDisabled, this`nextDisabled
      ensures noResults <==> filtered == []
      ensures noResults ==>
                && shown == [] && controlsShown == []
                && buttons == old(buttons) && prevDisabled == old(prevDisabled) && nextDisabled == old(nextDisabled)
      ensures !noResults ==> Rendered(filtered)
    {
      if filtered == [] {
        shown, controlsShown, noResults := [], [], true;
      } else {
        Render(filtered);
        UpdatePagination();
      }
    }

    /**
      `window.changePage(direction)`: a bounded step that then renders
      `fullList`, even when the page count came from a search.
     */
    method ChangePage(direction: string)
      modifies this`currentPage, this`shown, this`controlsShown, this`noResults,
               this`buttons, this`prevDisabled, this`nextDisabled
      ensures currentPage == Paging.ChangePage(old(currentPage), direction, totalPages)
      ensures 1 <= old(currentPage) <= Max(1, totalPages) ==> 1 <= currentPage <= Max(1, totalPages)
      ensures Rendered(fullList)
    {
      currentPage := Paging.ChangePage(currentPage, direction, totalPages);
      Render(fullList);
      UpdatePagination();
    }

    /** `window.goToPage(pageNumber)`: moves to any number, with no bounds check. */
    method GoToPage(pageNumber: int)
      modifies this`currentPage, this`shown, this`controlsShown, this`noResults,
               this`buttons, this`prevDisabled, this`nextDisabled
      ensures currentPage == pageNumber
      ensures Rendered(fullList)
      ensures pageNumber > TotalPages(|fullList|, PAGE_SIZE) ==> shown == []
    {
      currentPage := pageNumber;
      Render(fullList);
      UpdatePagination();
      if pageNumber > TotalPages(|fullList|, PAGE_SIZE) {
        PageEmptyIffBeyond(fullList, pageNumber, PAGE_SIZE);
      }
    }

    /**
      A confirmed delete. `stored` is the document read first: a failed or
      empty read ends the handler. The deletions are awaited in order with
      no `catch`, so a rejected one (`rejected`, its position) ends the
      handler too, before the list is filtered and before the "Deleted!"
      alert. Only a delete whose calls all succeed removes the id from
      `fullList` and recounts.
     */
    method Delete(id: string, stored: Lookup<StoredResource>, rejected: Option<nat>)
      returns (calls: seq<Effect>, deleted: bool)
      modifies this`fullList, this`totalPages, this`shown, this`controlsShown, this`noResults,
               this`buttons, this`prevDisabled, this`nextDisabled
      ensures calls == if stored.Found? then CallsMade(DeleteCalls(id, stored.doc), rejected) else []
      ensures deleted <==> stored.Found? && !Rejects(DeleteCalls(id, stored.doc), rejected)
      ensures !deleted ==> unchanged(this)
      ensures deleted ==>
                && fullList == Remove(old(fullList), id)
                && totalPages == TotalPages(|fullList|, PAGE_SIZE)
                && Rendered(fullList)
    {
      calls, deleted := [], false;
      if stored.Found? {
        var all := DeleteCalls(id, stored.doc);
        calls := CallsMade(all, rejected);
        if !Rejects(all, rejected) {
          deleted := true;
          fullList := Remove(fullList, id);
          Recount();
        }
      }
    }

    /** The recount after a delete: the page count, the current page's cards and the pagination. */
    method Recount()
      modifies this`totalPages, this`shown, this`controlsShown, this`noResults,
               this`buttons, this`prevDisabled, this`nextDisabled
      ensures totalPages == TotalPages(|fullList|, PAGE_SIZE)
      ensures Rendered(fullList)
    {
      totalPages := TotalPages(|fullList|, PAGE_SIZE);
      Render(fullList);
      UpdatePagination();
    }

    /** The start of the submit handler: a submit while one is saving is ignored. */
    method BeginSubmit() returns (started: bool)
      modifies this`isSaving
      ensures started <==> !old(isSaving)
      ensures isSaving
    {
      if isSaving {
        return false;
      }
      isSaving := true;
      started := true;
    }

    /**
      The rest of the submit handler as written: the admin editor records
      the owner, and `isSaving` stays set when the read of the stored
      document, which sits before the `try`, fails. `authUid` is what
      `getCurrentUserUid()` reads from `getAuth().currentUser` when the
      handler runs.
     */
    method FinishSubmit(form: ResourceForm, image: Option<FileInfo>, docFile: Option<FileInfo>, env: SaveEnv,
                        authUid: Option<string>)
      returns (run: SaveRun)
      requires isSaving
      modifies this`isSaving
      ensures run == SaveAsWritten(true, form, image, docFile, authUid, env)
      ensures isSaving <==> env.existing.LookupFailed?
    {
      run := SaveAsWritten(true, form, image, docFile, authUid, env);
      isSaving := run.savingAfter;
    }

    /** The same handler with the corrected save flow, after which `isSaving` is always cleared. */
    method FinishSubmitCorrected(form: ResourceForm, image: Option<FileInfo>, docFile: Option<FileInfo>, env: SaveEnv,
                                 authUid: Option<string>)
      returns (run: SaveRun)
      requires isSaving
      modifies this`isSaving
      ensures run == Save(true, form, image, docFile, authUid, env)
      ensures !isSaving
    {
      run := Save(true, form, image, docFile, authUid, env);
      isSaving := run.savingAfter;
    }

    /** The role listener: a new profile snapshot re-applies the role gate. */
    method OnRoleSnapshot(profileRole: Option<string>)
      modifies this`currentUserRole, this`controlsShown
      ensures currentUserRole == if profileRole.Some? then profileRole.value else old(currentUserRole)
      ensures profileRole.Some? ==> ControlsApplied()
      ensures profileRole.None? ==> controlsShown == old(controlsShown)
    {
      if profileRole.Some? {
        currentUserRole := profileRole.value;
        UpdateEditDeleteVisibility();
      }
    }

    /**
      The `onAuthStateChanged` callback of `init`: a signed-in user becomes
      the page's uid and the list is fetched again from the start; with no
      user only a warning is logged.
     */
    method OnAuthState(user: Option<string>)
      modifies this
      ensures user.None? ==> unchanged(this)
      ensures user.Some? ==>
                && currentUserUid == user
                && shown == [] && controlsShown == [] && fullList == [] && lastVisible == None && currentPage == 1
                && totalPages == old(totalPages) && buttons == old(buttons) && noResults == old(noResults)
                && prevDisabled == old(prevDisabled) && nextDisabled == old(nextDisabled)
                && isSaving == old(isSaving) && currentUserRole == old(currentUserRole)
    {
      if user.Some? {
        currentUserUid := user;
        FetchReset();
      }
    }
  }
}
