/**
 * `/api/files` (src/app/api/files/route.ts): `GET` lists the caller's file
 * documents a page at a time, `POST` stores an upload and inserts its
 * document. Writing the bytes is outside the model; only whether it worked is
 * a parameter.
 */
module FilesApi {
  import opened Wrappers
  import opened JsStrings
  import opened Records
  import opened Collections

  /** The answer of `GET /api/files`. */
  datatype ListReply = ListUnauthorized | ListFailed | Listing(files: seq<FileRecord>, total: nat)

  /** The `file` form field of a `POST`. */
  datatype Upload = Upload(name: string, fileType: string)

  /** The answer of `POST /api/files`. */
  datatype UploadReply = UploadUnauthorized | NoFile | DirectoryError | UploadFailed | Uploaded(fileId: ObjectId)

  /** The HTTP status of a `POST /api/files` answer: a failed directory and a failed write or insert are both 500. */
  function UploadStatus(r: UploadReply): (s: int)
    ensures s == 401 <==> r.UploadUnauthorized?
    ensures s == 400 <==> r.NoFile?
    ensures s == 500 <==> r.DirectoryError? || r.UploadFailed?
    ensures s == 201 <==> r.Uploaded?
  {
    match r
    case UploadUnauthorized => 401
    case NoFile => 400
    case DirectoryError => 500
    case UploadFailed => 500
    case Uploaded(_) => 201
  }

  const DefaultPage: int := 1
  const DefaultLimit: int := 7

  /** `find({ userId: email })` in store order. */
  function OwnedBy(store: seq<FileRecord>, email: string): (r: seq<FileRecord>)
    ensures forall f :: f in r ==> f.userId == email && f in store
  {
    var owned := Filter(store, (f: FileRecord) => f.userId == email);
    forall f | f in owned ensures f.userId == email && f in store {
      FilterMembership(store, (f: FileRecord) => f.userId == email, f);
    }
    owned
  }

  /** The query keeps each of the caller's documents as often as it is stored and drops every other. */
  lemma OwnedByCountsCallerFiles(store: seq<FileRecord>, email: string)
    ensures forall f :: multiset(OwnedBy(store, email))[f] == if f.userId == email then multiset(store)[f] else 0
  {
    forall f ensures multiset(OwnedBy(store, email))[f] == if f.userId == email then multiset(store)[f] else 0 {
      FilterMultiplicity(store, (f: FileRecord) => f.userId == email, f);
    }
  }

  /** The `limit` parameter, 7 when absent. */
  function Limit(limit: Option<int>): (r: int)
    ensures limit.None? ==> r == DefaultLimit
    ensures limit.Some? ==> r == limit.value
  {
    limit.GetOr(DefaultLimit)
  }

  /** `(page - 1) * limit` with the defaults 1 and 7. */
  function Skip(page: Option<int>, limit: Option<int>): (r: int)
    ensures page.None? || page == Some(1) ==> r == 0
    ensures page.GetOr(DefaultPage) >= 1 && Limit(limit) >= 0 ==> r >= 0
    ensures page.GetOr(DefaultPage) > 1 && Limit(limit) > 0 ==> r >= Limit(limit)
  {
    (page.GetOr(DefaultPage) - 1) * Limit(limit)
  }

  /** One page of the caller's files, newest first. */
  function OwnedPage(store: seq<FileRecord>, email: string, skip: nat, limit: int): (r: seq<FileRecord>)
    ensures forall i :: 0 <= i < |r| ==> r[i].userId == email && r[i] in store
    ensures NewestFirstOrder(r, FileTime)
    ensures limit != 0 ==> |r| <= if limit < 0 then -limit else limit
    ensures |r| == WindowLength(|OwnedBy(store, email)|, skip, limit)
    ensures forall i :: 0 <= i < |r| ==>
              skip + i < |NewestFirst(OwnedBy(store, email), FileTime)| &&
              r[i] == NewestFirst(OwnedBy(store, email), FileTime)[skip + i]
  {
    var owned := OwnedBy(store, email);
    SortedWindow(owned, skip, limit, FileTime);
    Window(NewestFirst(owned, FileTime), skip, limit)
  }

  /**
   * `GET /api/files`: the caller's files newest first, the page selected by
   * `skip`/`limit`, and the count of all the caller's files. A negative skip
   * is refused by the store, which the route reports as 500.
   */
  function ListFiles(store: seq<FileRecord>, session: Session, page: Option<int>, limit: Option<int>): (r: ListReply)
    ensures r.ListUnauthorized? <==> SignedInEmail(session).None?
    ensures r.ListFailed? <==> SignedInEmail(session).Some? && Skip(page, limit) < 0
    ensures r.Listing? ==> r.total == |OwnedBy(store, SignedInEmail(session).value)|
    ensures r.Listing? ==> forall i :: 0 <= i < |r.files| ==>
              r.files[i].userId == SignedInEmail(session).value && r.files[i] in store
    ensures r.Listing? ==> NewestFirstOrder(r.files, FileTime)
    ensures r.Listing? && Limit(limit) != 0 ==> |r.files| <= if Limit(limit) < 0 then -Limit(limit) else Limit(limit)
    ensures r.Listing? ==> |r.files| == WindowLength(r.total, Skip(page, limit), Limit(limit))
  {
    match SignedInEmail(session)
    case None => ListUnauthorized
    case Some(email) =>
      if Skip(page, limit) < 0 then ListFailed
      else Listing(OwnedPage(store, email, Skip(page, limit), Limit(limit)), |OwnedBy(store, email)|)
  }

  /** Page `page` starts right after the first `skip` of the caller's files in newest-first order. */
  lemma PageIsSlice(store: seq<FileRecord>, session: Session, page: Option<int>, limit: Option<int>, i: nat)
    requires ListFiles(store, session, page, limit).Listing?
    requires i < |ListFiles(store, session, page, limit).files|
    ensures var sorted := NewestFirst(OwnedBy(store, SignedInEmail(session).value), FileTime);
            Skip(page, limit) + i < |sorted| && ListFiles(store, session, page, limit).files[i] == sorted[Skip(page, limit) + i]
  {
    var email := SignedInEmail(session).value;
    var r := ListFiles(store, session, page, limit);
    assert r.files == OwnedPage(store, email, Skip(page, limit), Limit(limit));
    NewestFirstSameElements(OwnedBy(store, email), FileTime);
  }

  /** `total` does not depend on the page or the limit asked for. */
  lemma TotalIgnoresPaging(store: seq<FileRecord>, session: Session, page: Option<int>, limit: Option<int>,
                           page': Option<int>, limit': Option<int>)
    requires ListFiles(store, session, page, limit).Listing? && ListFiles(store, session, page', limit').Listing?
    ensures ListFiles(store, session, page, limit).total == ListFiles(store, session, page', limit').total
  {
  }

  // ---------------------------------------------------------------------------
  // path.join('uploads', 'files', name)

  /** `..` removes the preceding segment unless there is none (or it is `..` too); `.` and empty segments vanish. */
  function ResolveSegments(segments: seq<string>, done: seq<string>): seq<string>
    decreases |segments|
  {
    if |segments| == 0 then done
    else
      var s := segments[0];
      if s == "" || s == "." then ResolveSegments(segments[1..], done)
      else if s == ".." then
        if |done| > 0 && done[|done| - 1] != ".." then ResolveSegments(segments[1..], done[..|done| - 1])
        else ResolveSegments(segments[1..], done + [".."])
      else ResolveSegments(segments[1..], done + [s])
  }

  /** `path.posix.normalize` of a relative path. */
  function NormalizeRelative(p: string): (r: string)
    ensures r != ""
  {
    if p == "" then "."
    else
      var body := Join(ResolveSegments(Split(p, '/'), []), "/");
      (if body == "" then "." else body) + (if p[|p| - 1] == '/' then "/" else "")
  }

  predicate NonEmpty(s: string) {
    s != ""
  }

  /**
   * `path.join('uploads', 'files', name)`: empty arguments are skipped, the rest
   * joined by `/` and normalised. A plain file name (no `/`, not `.` or `..`)
   * lands directly under `uploads/files/`.
   */
  function StoredPath(name: string): (r: string)
    ensures r != ""
    ensures name != "" && name != "." && name != ".." && '/' !in name ==> r == "uploads/files/" + name
  {
    var r := NormalizeRelative(Join(Filter(["uploads", "files", name], NonEmpty), "/"));
    if name != "" && name != "." && name != ".." && '/' !in name then
      FilterPlain("uploads", "files", name);
      JoinThree("uploads", "files", name);
      NormalizePlain("uploads", "files", name);
      assert "uploads" + "/" + "files" + "/" + name == "uploads/files/" + name;
      r
    else r
  }

  /** Three plain segments joined by `/` are already normal. */
  lemma NormalizePlain(a: string, b: string, c: string)
    requires a !in {"", ".", ".."} && b !in {"", ".", ".."} && c !in {"", ".", ".."}
    requires '/' !in a && '/' !in b && '/' !in c
    ensures NormalizeRelative(a + "/" + b + "/" + c) == a + "/" + b + "/" + c
  {
    var p := a + "/" + b + "/" + c;
    SplitThree(a, b, c);
    ResolvePlain(a, b, c);
    JoinThree(a, b, c);
    assert p[|p| - 1] == c[|c| - 1];
  }

  lemma JoinThree(a: string, b: string, c: string)
    ensures Join([a, b, c], "/") == a + "/" + b + "/" + c
  {
    assert [a, b, c][1..] == [b, c];
    assert [b, c][1..] == [c];
    assert Join([b, c], "/") == b + "/" + c;
  }

  lemma SplitThree(a: string, b: string, c: string)
    requires '/' !in a && '/' !in b && '/' !in c
    ensures Split(a + "/" + b + "/" + c, '/') == [a, b, c]
  {
    assert a + "/" + b + "/" + c == a + ['/'] + (b + ['/'] + c);
    SplitAround(a, '/', b + ['/'] + c);
    SplitAround(b, '/', c);
    SplitWithoutSeparator(a, '/');
    SplitWithoutSeparator(b, '/');
    SplitWithoutSeparator(c, '/');
  }

  lemma ResolvePlain(a: string, b: string, c: string)
    requires a !in {"", ".", ".."} && b !in {"", ".", ".."} && c !in {"", ".", ".."}
    ensures ResolveSegments([a, b, c], []) == [a, b, c]
  {
    assert [a, b, c][1..] == [b, c];
    assert [b, c][1..] == [c];
    assert [a, b] + [c] == [a, b, c];
    assert [a] + [b] == [a, b];
    assert [] + [a] == [a];
    assert ResolveSegments([c], [a, b]) == [a, b, c];
    assert ResolveSegments([b, c], [a]) == [a, b, c];
  }

  lemma FilterPlain(a: string, b: string, c: string)
    requires a != "" && b != "" && c != ""
    ensures Filter([a, b, c], NonEmpty) == [a, b, c]
  {
    assert [a, b, c][1..] == [b, c];
    assert [b, c][1..] == [c];
    assert Filter([c], NonEmpty) == [c];
  }

  /** The `files` collection; `nextId` is the next `_id` the store allocates. */
  class FileCollection {
    var records: seq<FileRecord>
    var nextId: ObjectId

    /** Every stored `_id` was allocated before `nextId`, so a new one is fresh. */
    ghost predicate Valid()
      reads this
    {
      forall f :: f in records ==> f.id < nextId
    }

    constructor ()
      ensures Valid()
      ensures records == [] && nextId == 0
    {
      records, nextId := [], 0;
    }

    /** `POST /api/files` at time `now`. */
    method Store(session: Session, file: Option<Upload>, outcome: StoreOutcome, now: int) returns (r: UploadReply)
      requires Valid()
      modifies this
      ensures Valid()
      ensures r.Uploaded? ==> forall f :: f in old(records) ==> f.id != r.fileId
      ensures r == UploadUnauthorized <==> SignedInEmail(session).None?
      ensures r == NoFile <==> SignedInEmail(session).Some? && file.None?
      ensures r == DirectoryError <==> SignedInEmail(session).Some? && file.Some? && outcome == DirectoryFailed
      ensures r == UploadFailed <==> SignedInEmail(session).Some? && file.Some? && outcome in {WriteFailed, InsertFailed}
      ensures r.Uploaded? ==> r.fileId == old(nextId) && nextId == old(nextId) + 1
      ensures r.Uploaded? ==>
                records == old(records) + [FileRecord(old(nextId), SignedInEmail(session).value, file.value.name,
                                                      StoredPath(file.value.name), file.value.fileType, now)]
      ensures !r.Uploaded? ==> records == old(records) && nextId == old(nextId)
    {
      var email := SignedInEmail(session);
      if email.None? {
        return UploadUnauthorized;
      }
      if file.None? {
        return NoFile;
      }
      if outcome == DirectoryFailed {
        return DirectoryError;
      }
      if outcome != Stored {
        return UploadFailed;
      }
      records := records + [FileRecord(nextId, email.value, file.value.name, StoredPath(file.value.name),
                                       file.value.fileType, now)];
      r := Uploaded(nextId);
      nextId := nextId + 1;
    }
  }
}
