/**
 * The state of the file table (src/components/file-list.tsx): the page of
 * files shown, the caller's file count, the current page and the page count.
 * Fetching goes through `GET /api/files`, modelled by `FilesApi.ListFiles`
 * over the store the request would see.
 */
module FileList {
  import opened Wrappers
  import opened Records
  import opened Collections
  import opened FilesApi

  /** `filesPerPage` */
  const FilesPerPage: nat := 7

  /** `Math.max(1, Math.ceil(total / filesPerPage))` */
  function TotalPages(total: nat): (r: nat)
    ensures r >= 1
    ensures total == 0 ==> r == 1
    ensures total > 0 ==> (r - 1) * FilesPerPage < total <= r * FilesPerPage
  {
    var pages := (total + FilesPerPage - 1) / FilesPerPage;
    if pages < 1 then 1 else pages
  }

  /**
   * Every page the buttons can reach holds between one and seven of the
   * caller's files, as long as the caller has any.
   */
  lemma ReachablePagesAreFilled(store: seq<FileRecord>, session: Session, page: int)
    requires SignedInEmail(session).Some?
    requires 1 <= page <= TotalPages(|OwnedBy(store, SignedInEmail(session).value)|)
    ensures var r := ListFiles(store, session, Some(page), Some(FilesPerPage));
            r.Listing? && |r.files| <= FilesPerPage && (|r.files| == 0 <==> r.total == 0)
  {
    var email := SignedInEmail(session).value;
    var total := |OwnedBy(store, email)|;
    ReachableSkip(total, page);
    var r := ListFiles(store, session, Some(page), Some(FilesPerPage));
    assert r.Listing? && r.total == total;
    assert |r.files| == WindowLength(total, (page - 1) * FilesPerPage, FilesPerPage);
  }

  /** A reachable page starts inside the caller's files, unless there are none. */
  lemma ReachableSkip(total: nat, page: int)
    requires 1 <= page <= TotalPages(total)
    ensures 0 <= (page - 1) * FilesPerPage
    ensures total > 0 ==> (page - 1) * FilesPerPage < total
  {
    if total > 0 {
      assert (page - 1) * FilesPerPage <= (TotalPages(total) - 1) * FilesPerPage;
    }
  }

  class FileListView {
    var files: seq<FileRecord>
    var totalFiles: int
    var currentPage: int
    var totalPages: int

    /** Pages are counted from one and there is always at least one page. */
    ghost predicate Valid()
      reads this
    {
      currentPage >= 1 && totalPages >= 1
    }

    constructor ()
      ensures Valid()
      ensures files == [] && totalFiles == 0 && currentPage == 1 && totalPages == 1
    {
      files, totalFiles, currentPage, totalPages := [], 0, 1, 1;
    }

    /**
     * `fetchFiles`: nothing without a session; otherwise the current page is
     * requested, and any answer other than a listing resets the table.
     */
    method FetchFiles(session: Session, store: seq<FileRecord>)
      requires Valid()
      modifies this
      ensures Valid()
      ensures session.NoSession? ==> files == old(files) && totalFiles == old(totalFiles) && totalPages == old(totalPages)
      ensures currentPage == old(currentPage)
      ensures session.Session? ==>
                var reply := ListFiles(store, session, Some(old(currentPage)), Some(FilesPerPage));
                if reply.Listing? then files == reply.files && totalFiles == reply.total && totalPages == TotalPages(reply.total)
                else files == [] && totalFiles == 0 && totalPages == 1
    {
      if session.NoSession? {
        return;
      }
      var reply := ListFiles(store, session, Some(currentPage), Some(FilesPerPage));
      if reply.Listing? {
        files, totalFiles, totalPages := reply.files, reply.total, TotalPages(reply.total);
      } else {
        files, totalFiles, totalPages := [], 0, 1;
      }
    }

    /**
     * `handleDelete(id)` once the `DELETE` answered (`ok` when it succeeded).
     * `refetch` says whether `fetchFiles` is called directly; when the page
     * moves back instead, the page change itself triggers the next fetch.
     */
    method HandleDelete(id: ObjectId, ok: bool) returns (refetch: bool)
      requires Valid()
      modifies this
      ensures Valid()
      ensures !ok ==> files == old(files) && totalFiles == old(totalFiles) && currentPage == old(currentPage) && !refetch
      ensures ok ==> files == RemoveWhere(old(files), FileId, id) && totalFiles == old(totalFiles) - 1
      ensures ok && |old(files)| == 1 && old(currentPage) > 1 ==> currentPage == old(currentPage) - 1 && !refetch
      ensures ok && !(|old(files)| == 1 && old(currentPage) > 1) ==> currentPage == old(currentPage) && refetch
      ensures totalPages == old(totalPages)
    {
      refetch := false;
      if !ok {
        return;
      }
      var before := files;
      files := RemoveWhere(files, FileId, id);
      totalFiles := totalFiles - 1;
      if |before| == 1 && currentPage > 1 {
        currentPage := currentPage - 1;
      } else {
        refetch := true;
      }
    }

    /** The previous-page button, disabled on page one and shown only when there are several pages. */
    method Previous()
      requires Valid() && totalPages > 1 && currentPage != 1
      modifies this
      ensures Valid()
      ensures currentPage == old(currentPage) - 1
      ensures files == old(files) && totalFiles == old(totalFiles) && totalPages == old(totalPages)
      ensures old(currentPage) <= totalPages ==> 1 <= currentPage <= totalPages
    {
      currentPage := currentPage - 1;
    }

    /** The next-page button, disabled on the last page and shown only when there are several pages. */
    method Next()
      requires Valid() && totalPages > 1 && currentPage != totalPages
      modifies this
      ensures Valid()
      ensures currentPage == old(currentPage) + 1
      ensures files == old(files) && totalFiles == old(totalFiles) && totalPages == old(totalPages)
      ensures old(currentPage) <= totalPages ==> 1 <= currentPage <= totalPages
    {
      currentPage := currentPage + 1;
    }
  }
}
