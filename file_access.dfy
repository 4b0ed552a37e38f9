/**
 * `GET /api/file-access` (src/app/api/file-access/route.ts): the access
 * decision for a shared file. It reads the `files` and `users` collections and
 * writes nothing; the verdict is a function of the query parameters, the
 * stored documents and the foreign calls.
 */
module FileAccess {
  import opened Wrappers
  import opened Records

  /** Calls into libraries the route does not define. */
  datatype Foreign = Foreign(
    isValidObjectId: string -> bool,                 // `ObjectId.isValid`
    toObjectId: string -> ObjectId,                  // `new ObjectId(s)` on a valid `s`
    decodeUriComponent: string -> Option<string>)    // `None`: a `URIError` is thrown

  /** Which awaited store call throws, if any. */
  datatype Outage = NoOutage | ConnectFails | FilesQueryFails | UsersQueryFails

  /** The collections as the two queries see them. */
  datatype Db = Db(files: seq<FileRecord>, users: map<string, Account>, outage: Outage)

  /** One case per response of the route. */
  datatype Verdict =
    | MissingIdentifier
    | MissingClientIp
    | FileNotFound
    | UserNotFound
    | IpNotAllowed
    | InvalidKey
    | Granted
    | ServerError

  /** The HTTP status of each verdict. */
  function Status(v: Verdict): (code: int)
    ensures code == 200 <==> v == Granted
    ensures code == 500 <==> v == ServerError
    ensures code == 400 <==> v == MissingIdentifier || v == MissingClientIp
    ensures code == 404 <==> v == FileNotFound || v == UserNotFound
  {
    match v
    case MissingIdentifier => 400
    case MissingClientIp => 400
    case FileNotFound => 404
    case UserNotFound => 404
    case IpNotAllowed => 403
    case InvalidKey => 401
    case Granted => 200
    case ServerError => 500
  }

  /** The `error` (or `message`) text of each response body. */
  function Message(v: Verdict): string {
    match v
    case MissingIdentifier => "File identifier is required"
    case MissingClientIp => "Client IP is required"
    case FileNotFound => "File not found"
    case UserNotFound => "User not found"
    case IpNotAllowed => "Unauthorized IP"
    case InvalidKey => "Invalid Authorization Key"
    case Granted => "Access granted"
    case ServerError => "Internal Server Error"
  }

  /** JavaScript truthiness of a query parameter: present and not empty. */
  predicate Truthy(s: Option<string>) {
    s.Some? && s.value != ""
  }

  /** The `$or` query: by `_id` only when the identifier is a valid ObjectId, by `filename` always. */
  predicate MatchesIdentifier(f: FileRecord, ident: string, foreign: Foreign) {
    (foreign.isValidObjectId(ident) && f.id == foreign.toObjectId(ident)) || f.filename == ident
  }

  /** The position `findOne` returns: the first matching document in store order. */
  function FirstMatch(files: seq<FileRecord>, ident: string, foreign: Foreign): (r: Option<nat>)
    ensures r.None? <==> forall i :: 0 <= i < |files| ==> !MatchesIdentifier(files[i], ident, foreign)
    ensures r.Some? ==> r.value < |files| && MatchesIdentifier(files[r.value], ident, foreign)
    ensures r.Some? ==> forall j :: 0 <= j < r.value ==> !MatchesIdentifier(files[j], ident, foreign)
  {
    if |files| == 0 then None
    else if MatchesIdentifier(files[0], ident, foreign) then Some(0)
    else
      match FirstMatch(files[1..], ident, foreign)
      case None => None
      case Some(k) => Some(k + 1)
  }

  /** `files.findOne({ $or: ... })`: the first matching document, or none when nothing matches. */
  function FindFile(files: seq<FileRecord>, ident: string, foreign: Foreign): (r: Option<FileRecord>)
    ensures r.None? <==> forall f :: f in files ==> !MatchesIdentifier(f, ident, foreign)
    ensures r.Some? ==> r.value in files && MatchesIdentifier(r.value, ident, foreign)
  {
    match FirstMatch(files, ident, foreign)
    case None => None
    case Some(k) => Some(files[k])
  }

  // Reference statements of the owner's policy, as the access route enforces it.

  /** An absent or empty allow-list restricts nothing; otherwise the address must be listed verbatim. */
  predicate AddressAllowed(owner: Account, ip: string) {
    match owner.allowedIPs
    case None => true
    case Some(list) => list == [] || ip in list
  }

  /** An address longer than every entry of the list, hence not in it. */
  function Unlisted(list: seq<string>): (ip: string)
    ensures forall i :: 0 <= i < |list| ==> |ip| > |list[i]|
  {
    if |list| == 0 then "x"
    else
      var longest := Unlisted(list[1..]);
      if |longest| > |list[0]| then longest else list[0] + "x"
  }

  /** A non-empty allow-list refuses some address: only an absent or empty one is unrestricted. */
  lemma ListedAddressesRestrict(owner: Account)
    ensures owner.allowedIPs.Some? && owner.allowedIPs.value != [] ==>
              !AddressAllowed(owner, Unlisted(owner.allowedIPs.value))
  {
  }

  /** A key is demanded only when the switch is on and a non-empty key is stored. */
  predicate KeyRequired(owner: Account) {
    owner.enableAuthKey == Some(true) && owner.authKey.Some? && owner.authKey.value != ""
  }

  /** The literal header value the route accepts. */
  function BearerOf(key: string): string {
    "Bearer " + key
  }

  predicate KeyAccepted(owner: Account, authKey: Option<string>) {
    KeyRequired(owner) ==> authKey == Some(BearerOf(owner.authKey.value))
  }

  /** The ordered guards of the route. */
  function Decide(fileIdentifier: Option<string>, encodedClientIp: Option<string>, authKey: Option<string>,
                  db: Db, foreign: Foreign): (v: Verdict)
    ensures v == MissingIdentifier <==> !Truthy(fileIdentifier)
    ensures v == MissingClientIp <==> Truthy(fileIdentifier) && !Truthy(encodedClientIp)
    ensures Truthy(fileIdentifier) && Truthy(encodedClientIp) && foreign.decodeUriComponent(encodedClientIp.value).None? ==>
              v == ServerError
    ensures v == Granted <==>
      && Truthy(fileIdentifier) && Truthy(encodedClientIp)
      && db.outage == NoOutage
      && foreign.decodeUriComponent(encodedClientIp.value).Some?
      && FindFile(db.files, fileIdentifier.value, foreign).Some?
      && FindFile(db.files, fileIdentifier.value, foreign).value.userId in db.users
      && var owner := db.users[FindFile(db.files, fileIdentifier.value, foreign).value.userId];
         AddressAllowed(owner, foreign.decodeUriComponent(encodedClientIp.value).value) && KeyAccepted(owner, authKey)
  {
    if !Truthy(fileIdentifier) then MissingIdentifier
    else if !Truthy(encodedClientIp) then MissingClientIp
    else
      match foreign.decodeUriComponent(encodedClientIp.value)
      case None => ServerError
      case Some(clientIp) =>
        if db.outage.ConnectFails? || db.outage.FilesQueryFails? then ServerError
        else
          match FindFile(db.files, fileIdentifier.value, foreign)
          case None => FileNotFound
          case Some(file) =>
            if db.outage.UsersQueryFails? then ServerError
            else if file.userId !in db.users then UserNotFound
            else
              var user := db.users[file.userId];
              if user.allowedIPs.Some? && |user.allowedIPs.value| > 0 && clientIp !in user.allowedIPs.value then
                IpNotAllowed
              else if user.enableAuthKey == Some(true) && user.authKey.Some? && user.authKey.value != "" then
                if !Truthy(authKey) || authKey.value != "Bearer " + user.authKey.value then InvalidKey else Granted
              else Granted
  }

  /** The request's parameters and the state the lookups see, under which the checks of the owner run. */
  ghost predicate OwnerReached(fileIdentifier: Option<string>, encodedClientIp: Option<string>, db: Db,
                               foreign: Foreign, clientIp: string, owner: Account)
  {
    && Truthy(fileIdentifier) && Truthy(encodedClientIp)
    && db.outage == NoOutage
    && foreign.decodeUriComponent(encodedClientIp.value) == Some(clientIp)
    && FindFile(db.files, fileIdentifier.value, foreign).Some?
    && FindFile(db.files, fileIdentifier.value, foreign).value.userId in db.users
    && db.users[FindFile(db.files, fileIdentifier.value, foreign).value.userId] == owner
  }

  /** The file lookup is the first in store order that matches by `_id` (valid ids only) or by `filename`. */
  lemma LookupIsFirstMatch(files: seq<FileRecord>, ident: string, foreign: Foreign, k: nat)
    requires k < |files| && MatchesIdentifier(files[k], ident, foreign)
    requires forall j :: 0 <= j < k ==> !MatchesIdentifier(files[j], ident, foreign)
    ensures FindFile(files, ident, foreign) == Some(files[k])
  {
  }

  /** An identifier that is not a valid ObjectId can only match by `filename`. */
  lemma InvalidIdMatchesByName(files: seq<FileRecord>, ident: string, foreign: Foreign)
    requires !foreign.isValidObjectId(ident)
    ensures FindFile(files, ident, foreign).Some? ==> FindFile(files, ident, foreign).value.filename == ident
  {
  }

  /** With no matching file the answer is 404 and the users collection is never queried. */
  lemma NoFileNoUserLookup(fileIdentifier: string, encodedClientIp: string, authKey: Option<string>,
                           files: seq<FileRecord>, users: map<string, Account>, users': map<string, Account>,
                           foreign: Foreign)
    requires fileIdentifier != "" && encodedClientIp != ""
    requires foreign.decodeUriComponent(encodedClientIp).Some?
    requires forall f :: f in files ==> !MatchesIdentifier(f, fileIdentifier, foreign)
    ensures Decide(Some(fileIdentifier), Some(encodedClientIp), authKey, Db(files, users, NoOutage), foreign) == FileNotFound
    ensures Decide(Some(fileIdentifier), Some(encodedClientIp), authKey, Db(files, users', UsersQueryFails), foreign) == FileNotFound
  {
  }

  /** A file whose owner has no account is inaccessible to everyone. */
  lemma DanglingOwnerDenied(fileIdentifier: string, encodedClientIp: string, authKey: Option<string>,
                            db: Db, foreign: Foreign)
    requires fileIdentifier != "" && encodedClientIp != "" && db.outage == NoOutage
    requires foreign.decodeUriComponent(encodedClientIp).Some?
    requires FindFile(db.files, fileIdentifier, foreign).Some?
    requires FindFile(db.files, fileIdentifier, foreign).value.userId !in db.users
    ensures Decide(Some(fileIdentifier), Some(encodedClientIp), authKey, db, foreign) == UserNotFound
  {
  }

  /** A non-empty allow-list without the decoded address gives 403, whatever key is offered. */
  lemma IpAllowListGate(fileIdentifier: Option<string>, encodedClientIp: Option<string>, authKey: Option<string>,
                        db: Db, foreign: Foreign, clientIp: string, owner: Account)
    requires OwnerReached(fileIdentifier, encodedClientIp, db, foreign, clientIp, owner)
    ensures Decide(fileIdentifier, encodedClientIp, authKey, db, foreign) == IpNotAllowed <==> !AddressAllowed(owner, clientIp)
  {
  }

  /** Past the address check, a required key must be exactly "Bearer <key>"; a missing and a wrong key are both 401. */
  lemma KeyGate(fileIdentifier: Option<string>, encodedClientIp: Option<string>, authKey: Option<string>,
                db: Db, foreign: Foreign, clientIp: string, owner: Account)
    requires OwnerReached(fileIdentifier, encodedClientIp, db, foreign, clientIp, owner)
    requires AddressAllowed(owner, clientIp)
    ensures Decide(fileIdentifier, encodedClientIp, authKey, db, foreign) ==
              if KeyAccepted(owner, authKey) then Granted else InvalidKey
    ensures KeyRequired(owner) && authKey.None? ==> Decide(fileIdentifier, encodedClientIp, authKey, db, foreign) == InvalidKey
  {
  }

  /** Without a required key the offered key is ignored. */
  lemma KeyIgnoredWhenNotRequired(fileIdentifier: Option<string>, encodedClientIp: Option<string>,
                                  authKey: Option<string>, authKey': Option<string>,
                                  db: Db, foreign: Foreign, clientIp: string, owner: Account)
    requires OwnerReached(fileIdentifier, encodedClientIp, db, foreign, clientIp, owner)
    requires !KeyRequired(owner)
    ensures Decide(fileIdentifier, encodedClientIp, authKey, db, foreign) ==
            Decide(fileIdentifier, encodedClientIp, authKey', db, foreign)
  {
  }

  /** A throwing call gives 500 exactly when that call is reached. */
  lemma OutageGivesServerError(fileIdentifier: string, encodedClientIp: string, authKey: Option<string>,
                               db: Db, foreign: Foreign)
    requires fileIdentifier != "" && encodedClientIp != ""
    requires foreign.decodeUriComponent(encodedClientIp).Some?
    ensures db.outage == ConnectFails || db.outage == FilesQueryFails ==>
              Decide(Some(fileIdentifier), Some(encodedClientIp), authKey, db, foreign) == ServerError
    ensures db.outage == UsersQueryFails && FindFile(db.files, fileIdentifier, foreign).Some? ==>
              Decide(Some(fileIdentifier), Some(encodedClientIp), authKey, db, foreign) == ServerError
  {
  }
}
