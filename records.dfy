/** The documents of the `users`, `files` and `images` collections, and the session the auth layer provides. */
module Records {
  import opened Wrappers

  /** A MongoDB `_id`, allocated by the store. */
  type ObjectId = nat

  /** `getServerSession(...)`: `NoSession` also stands for a session without a `user`. */
  datatype Session = NoSession | Session(email: Option<string>)

  /** The email of a session that passes `!session || !session.user || !session.user.email`. */
  function SignedInEmail(s: Session): (r: Option<string>)
    ensures r.Some? ==> r.value != ""
    ensures r.None? <==> s.NoSession? || s.email.None? || s.email.value == ""
    ensures r.Some? ==> s.Session? && r == s.email
  {
    match s
    case NoSession => None
    case Session(email) => if email.Some? && email.value != "" then email else None
  }

  /** A document of `files`; `userId` holds the owner's email. */
  datatype FileRecord = FileRecord(
    id: ObjectId,
    userId: string,
    filename: string,
    path: string,
    fileType: string,
    uploadedAt: int)

  /** A document of `images`; `userId` is `session.user.email`, which may be absent. */
  datatype ImageRecord = ImageRecord(
    id: ObjectId,
    userId: Option<string>,
    filename: string,
    path: string,
    uploadedAt: int)

  /** A document of `users`; the three policy fields may be absent (or null) in a stored record. */
  datatype Account = Account(
    id: ObjectId,
    name: string,
    email: string,
    password: string,
    allowedIPs: Option<seq<string>>,
    enableAuthKey: Option<bool>,
    authKey: Option<string>)

  /** How far storing an upload got: every step worked, or `mkdir`, `writeFile` or `insertOne` threw. */
  datatype StoreOutcome = Stored | DirectoryFailed | WriteFailed | InsertFailed

  function FileTime(f: FileRecord): int { f.uploadedAt }

  function ImageTime(i: ImageRecord): int { i.uploadedAt }

  function FileId(f: FileRecord): ObjectId { f.id }

  function ImageId(i: ImageRecord): ObjectId { i.id }
}
