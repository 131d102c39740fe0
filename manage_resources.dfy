/**
  The manager's resources page: one-shot fetches that append to `fullList`,
  a search that returns to page 1, the bounded module-level `goToPage`
  beside the unbounded `window.goToPage`, delete, and the `isSaving` guard
  around the submit handler, which refetches after a successful save.
 */
module ManageResources {
  import opened Common
  import opened Lists
  import opened Paging
  import opened Uploads
  import opened Resources

  const PAGE_SIZE: nat := 6

  /** The module-level state of the page and the handlers that change it. */
  class ResourcesPage {
    var fullList: seq<Resource>
    /** The id of the last document of the latest non-empty batch. */
    var lastVisible: Option<string>
    var currentPage: int
    var totalPages: nat
    /** The cards rendered in the container. */
    var shown: seq<Resource>
    var buttons: seq<PageButton>
    var prevDisabled: bool
    var nextDisabled: bool
    var isSaving: bool

    /** The pagination drawn for the current page and the stored page count. */
    ghost predicate Paged()
      reads this
    {
      && IsWindow(buttons, currentPage, totalPages)
      && (prevDisabled <==> currentPage == 1)
      && (nextDisabled <==> currentPage == totalPages)
    }

    /** What `renderResources(list)` followed by `updatePagination()` leaves on the page. */
    ghost predicate Rendered(list: seq<Resource>)
      reads this
    {
      shown == PageSlice(list, currentPage, PAGE_SIZE) && Paged()
    }

    /** The pagination is the one drawn before, whatever the page now is. */
    ghost predicate SamePagination(buttons0: seq<PageButton>, prev0: bool, next0: bool)
      reads this
    {
      buttons == buttons0 && prevDisabled == prev0 && nextDisabled == next0
    }

    constructor ()
      ensures fullList == [] && lastVisible == None && currentPage == 1 && totalPages == 0
      ensures shown == [] && buttons == [] && !isSaving
    {
      fullList, lastVisible, currentPage, totalPages := [], None, 1, 0;
      shown, buttons := [], [];
      prevDisabled, nextDisabled, isSaving := true, false, false;
    }

    /** `renderResources(list)`: the six-card slice for the current page. */
    method Render(list: seq<Resource>)
      modifies this`shown
      ensures shown == PageSlice(list, currentPage, PAGE_SIZE)
    {
      shown := PageSlice(list, currentPage, PAGE_SIZE);
    }

    /** `updatePagination()`: numbered buttons and the previous/next state for the stored page count. */
    method UpdatePagination()
      modifies this`buttons, this`prevDisabled, this`nextDisabled
      ensures Paged()
    {
      buttons := PageButtons(currentPage, totalPages);
      prevDisabled := currentPage == 1;
      nextDisabled := currentPage == totalPages;
    }

    /**
      `fetchResources(reset)`: a reset first empties the list, forgets the
      cursor and returns to page 1; the fetched batch (`None` when the read
      throws) is then appended after whatever the list holds.
     */
    method FetchResources(reset: bool, batch: Option<seq<Resource>>)
      modifies this`shown, this`fullList, this`lastVisible, this`currentPage, this`totalPages,
               this`buttons, this`prevDisabled, this`nextDisabled
      ensures reset ==> currentPage == 1
      ensures !reset ==> currentPage == old(currentPage)
      ensures var before := if reset then [] else old(fullList);
              fullList == before + (if batch.Some? then batch.value else [])
      ensures var cursor := if reset then None else old(lastVisible);
              lastVisible == if batch.Some? && batch.value != [] then Some(batch.value[|batch.value| - 1].id) else cursor
      ensures batch.Some? ==> totalPages == TotalPages(|fullList|, PAGE_SIZE) && Rendered(fullList)
      ensures batch.None? ==>
                && totalPages == old(totalPages) && shown == (if reset then [] else old(shown))
                && SamePagination(old(buttons), old(prevDisabled), old(nextDisabled))
      ensures isSaving == old(isSaving)
    {
      if reset {
        shown := [];
        fullList, lastVisible, currentPage := [], None, 1;
      }
      if batch.None? {
        return;
      }
      var docs := batch.value;
      if docs != [] {
        lastVisible := Some(docs[|docs| - 1].id);
      }
      fullList := fullList + docs;
      totalPages := TotalPages(|fullList|, PAGE_SIZE);
      Render(fullList);
      UpdatePagination();
    }

    /** The search handler: back to page 1, the filtered list and its page count. */
    method SearchInput(input: string)
      modifies this`currentPage, this`totalPages, this`shown, this`buttons, this`prevDisabled, this`nextDisabled
      ensures currentPage == 1
      ensures totalPages == TotalPages(|Search(fullList, input)|, PAGE_SIZE)
      ensures Rendered(Search(fullList, input))
    {
      var filtered := Search(fullList, input);
      currentPage := 1;
      totalPages := TotalPages(|filtered|, PAGE_SIZE);
      Render(filtered);
      UpdatePagination();
    }

    /**
      `changePage(direction)`, identical at module level and on `window`: a
      bounded step that then renders `fullList`.
     */
    method ChangePage(direction: string)
      modifies this`currentPage, this`shown, this`buttons, this`prevDisabled, this`nextDisabled
      ensures currentPage == Paging.ChangePage(old(currentPage), direction, totalPages)
      ensures 1 <= old(currentPage) <= Max(1, totalPages) ==> 1 <= currentPage <= Max(1, totalPages)
      ensures Rendered(fullList)
    {
      currentPage := Paging.ChangePage(currentPage, direction, totalPages);
      Render(fullList);
      UpdatePagination();
    }

    /** The module-level `goToPage(page)`: moves and re-renders only for a page in `[1, totalPages]`. */
    method GoToPage(page: int)
      modifies this`currentPage, this`shown, this`buttons, this`prevDisabled, this`nextDisabled
      ensures 1 <= page <= totalPages ==> currentPage == page && Rendered(fullList)
      ensures !(1 <= page <= totalPages) ==> unchanged(this)
    {
      if 1 <= page <= totalPages {
        currentPage := page;
        Render(fullList);
        UpdatePagination();
      }
    }

    /** `window.goToPage(pageNumber)`, which the numbered buttons call: no bounds check. */
    method WindowGoToPage(pageNumber: int)
      modifies this`currentPage, this`shown, this`buttons, this`prevDisabled, this`nextDisabled
      ensures currentPage == pageNumber
      ensures Rendered(fullList)
    {
      currentPage := pageNumber;
      Render(fullList);
      UpdatePagination();
    }

    /**
      A confirmed delete: `stored` is the document read first, and a failed
      or empty read ends the handler. No role or owner is checked. The
      deletions are awaited in order with no `catch`, so a rejected one
      (`rejected`, its position) ends the handler before the list is
      filtered and before the "Deleted!" alert.
     */
    method Delete(id: string, stored: Lookup<StoredResource>, rejected: Option<nat>)
      returns (calls: seq<Effect>, deleted: bool)
      modifies this`fullList, this`totalPages, this`shown, this`buttons, this`prevDisabled, this`nextDisabled
      ensures calls == if stored.Found? then CallsMade(DeleteCalls(id, stored.doc), rejected) else []
      ensures deleted <==> stored.Found? && !Rejects(DeleteCalls(id, stored.doc), rejected)
      ensures !deleted ==> unchanged(this)
      ensures deleted ==>
                && fullList == Remove(old(fullList), id)
                && totalPages == TotalPages(|fullList|, PAGE_SIZE)
                && Rendered(fullList)
    {
      calls, deleted := [], false;
      if stored.Found? {
        var all := DeleteCalls(id, stored.doc);
        calls := CallsMade(all, rejected);
        if !Rejects(all, rejected) {
          deleted := true;
          fullList := Remove(fullList, id);
          Recount();
        }
      }
    }

    /** The recount after a delete: the page count, the current page's cards and the pagination. */
    method Recount()
      modifies this`totalPages, this`shown, this`buttons, this`prevDisabled, this`nextDisabled
      ensures totalPages == TotalPages(|fullList|, PAGE_SIZE)
      ensures Rendered(fullList)
    {
      totalPages := TotalPages(|fullList|, PAGE_SIZE);
      Render(fullList);
      UpdatePagination();
    }

    /** The start of the submit handler: a submit while one is saving is ignored. */
    method BeginSubmit() returns (started: bool)
      modifies this`isSaving
      ensures started <==> !old(isSaving)
      ensures isSaving
    {
      if isSaving {
        return false;
      }
      isSaving := true;
      started := true;
    }

    /**
      The rest of the submit handler as written: the manager's editor
      records no owner, `isSaving` stays set when the read of the stored
      document, which sits before the `try`, fails, and after a successful
      write the list is fetched again from the start (`refetch` is that
      batch).
     */
    method FinishSubmit(form: ResourceForm, image: Option<FileInfo>, docFile: Option<FileInfo>, env: SaveEnv,
                        refetch: Option<seq<Resource>>)
      returns (run: SaveRun)
      requires isSaving
      modifies this
      ensures run == SaveAsWritten(false, form, image, docFile, None, env)
      ensures isSaving <==> env.existing.LookupFailed?
      ensures run.toast == Some(Uploaded) ==> Refetched(refetch, old(totalPages), old(buttons), old(prevDisabled), old(nextDisabled))
      ensures run.toast != Some(Uploaded) ==>
                && fullList == old(fullList) && lastVisible == old(lastVisible) && currentPage == old(currentPage)
                && totalPages == old(totalPages) && shown == old(shown)
                && SamePagination(old(buttons), old(prevDisabled), old(nextDisabled))
    {
      run := SaveAsWritten(false, form, image, docFile, None, env);
      Conclude(run, refetch);
    }

    /** The same handler with the corrected save flow, after which `isSaving` is always cleared. */
    method FinishSubmitCorrected(form: ResourceForm, image: Option<FileInfo>, docFile: Option<FileInfo>, env: SaveEnv,
                                 refetch: Option<seq<Resource>>)
      returns (run: SaveRun)
      requires isSaving
      modifies this
      ensures run == Save(false, form, image, docFile, None, env)
      ensures !isSaving
      ensures run.toast == Some(Uploaded) ==> Refetched(refetch, old(totalPages), old(buttons), old(prevDisabled), old(nextDisabled))
      ensures run.toast != Some(Uploaded) ==>
                && fullList == old(fullList) && lastVisible == old(lastVisible) && currentPage == old(currentPage)
                && totalPages == old(totalPages) && shown == old(shown)
                && SamePagination(old(buttons), old(prevDisabled), old(nextDisabled))
    {
      run := Save(false, form, image, docFile, None, env);
      Conclude(run, refetch);
    }

    /**
      The page after `fetchResources(true)` read `refetch` (`None` when the
      read threw): page 1 of the fetched list and its cursor; a failed read
      leaves the container empty and the earlier page count and pagination.
     */
    ghost predicate Refetched(refetch: Option<seq<Resource>>, totalPages0: nat,
                              buttons0: seq<PageButton>, prev0: bool, next0: bool)
      reads this
    {
      && currentPage == 1
      && fullList == (if refetch.Some? then refetch.value else [])
      && lastVisible == (if fullList == [] then None else Some(fullList[|fullList| - 1].id))
      && (refetch.Some? ==> totalPages == TotalPages(|fullList|, PAGE_SIZE) && Rendered(fullList))
      && (refetch.None? ==> totalPages == totalPages0 && shown == [] && SamePagination(buttons0, prev0, next0))
    }

    /** After the write: a saved resource refetches from page 1, and `isSaving` takes the run's final value. */
    method Conclude(run: SaveRun, refetch: Option<seq<Resource>>)
      modifies this
      ensures isSaving == run.savingAfter
      ensures run.toast == Some(Uploaded) ==> Refetched(refetch, old(totalPages), old(buttons), old(prevDisabled), old(nextDisabled))
      ensures run.toast != Some(Uploaded) ==>
                && fullList == old(fullList) && lastVisible == old(lastVisible) && currentPage == old(currentPage)
                && totalPages == old(totalPages) && shown == old(shown)
                && SamePagination(old(buttons), old(prevDisabled), old(nextDisabled))
    {
      if run.toast == Some(Uploaded) {
        FetchResources(true, refetch);
      }
      isSaving := run.savingAfter;
    }
  }
}
