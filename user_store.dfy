/**
 * The `users` collection and its two writers: `POST /api/register`
 * (src/app/api/register/route.ts) inserts an account with an open policy,
 * and `/api/user/settings` (src/app/api/user/settings/route.ts) reads the
 * policy with defaults and `$set`s its three fields.
 */
module UserStore {
  import opened Wrappers
  import opened Records
  import FileAccess

  /** The answer of `GET /api/user/settings`. */
  datatype SettingsReply =
    | SettingsUnauthorized
    | SettingsUserNotFound
    | Policy(allowedIPs: seq<string>, enableAuthKey: bool, authKey: string)

  /** The answer of `POST /api/user/settings`. */
  datatype UpdateReply = UpdateUnauthorized | UpdateUserNotFound | Updated

  /** The answer of `POST /api/register`. */
  datatype RegisterReply = InvalidPin | UserExists | Created(userId: ObjectId)

  /** The HTTP status of a `GET /api/user/settings` answer. */
  function SettingsStatus(r: SettingsReply): (s: int)
    ensures s == 401 <==> r.SettingsUnauthorized?
    ensures s == 404 <==> r.SettingsUserNotFound?
    ensures s == 200 <==> r.Policy?
  {
    match r
    case SettingsUnauthorized => 401
    case SettingsUserNotFound => 404
    case Policy(_, _, _) => 200
  }

  /** The HTTP status of a `POST /api/user/settings` answer. */
  function UpdateStatus(r: UpdateReply): (s: int)
    ensures s == 401 <==> r.UpdateUnauthorized?
    ensures s == 404 <==> r.UpdateUserNotFound?
    ensures s == 200 <==> r.Updated?
  {
    match r
    case UpdateUnauthorized => 401
    case UpdateUserNotFound => 404
    case Updated => 200
  }

  /** The HTTP status of a `POST /api/register` answer: both refusals are 400. */
  function RegisterStatus(r: RegisterReply): (s: int)
    ensures s == 400 <==> r.InvalidPin? || r.UserExists?
    ensures s == 201 <==> r.Created?
  {
    match r
    case InvalidPin => 400
    case UserExists => 400
    case Created(_) => 201
  }

  /**
   * `GET /api/user/settings`: the caller's policy, with `[]`, `false` and `""`
   * for absent fields. What it reports is what the access route enforces.
   */
  function ReadSettings(users: map<string, Account>, session: Session): (r: SettingsReply)
    ensures r.SettingsUnauthorized? <==> SignedInEmail(session).None?
    ensures r.SettingsUserNotFound? <==> SignedInEmail(session).Some? && SignedInEmail(session).value !in users
    ensures r.Policy? ==> SignedInEmail(session).Some? && SignedInEmail(session).value in users
    ensures r.Policy? ==>
      var owner := users[SignedInEmail(session).value];
      && (r.allowedIPs == [] <==> forall ip :: FileAccess.AddressAllowed(owner, ip))
      && (forall ip :: r.allowedIPs != [] ==> (ip in r.allowedIPs <==> FileAccess.AddressAllowed(owner, ip)))
      && (r.enableAuthKey && r.authKey != "" <==> FileAccess.KeyRequired(owner))
      && (FileAccess.KeyRequired(owner) ==> r.authKey == owner.authKey.value)
    ensures r.Policy? ==>
      var owner := users[SignedInEmail(session).value];
      && r.allowedIPs == (if owner.allowedIPs.Some? then owner.allowedIPs.value else [])
      && (r.enableAuthKey <==> owner.enableAuthKey == Some(true))
      && r.authKey == (if owner.authKey.Some? then owner.authKey.value else "")
  {
    match SignedInEmail(session)
    case None => SettingsUnauthorized
    case Some(email) =>
      if email !in users then SettingsUserNotFound
      else
        var user := users[email];
        FileAccess.ListedAddressesRestrict(user);
        Policy(user.allowedIPs.GetOr([]), user.enableAuthKey.GetOr(false), user.authKey.GetOr(""))
  }

  /** `$set: { allowedIPs, enableAuthKey, authKey }` on one document, with absent request fields stored as null. */
  function WithPolicy(a: Account, allowedIPs: Option<seq<string>>, enableAuthKey: Option<bool>, authKey: Option<string>): (b: Account)
    ensures b.id == a.id && b.name == a.name && b.email == a.email && b.password == a.password
  {
    a.(allowedIPs := allowedIPs, enableAuthKey := enableAuthKey, authKey := authKey)
  }

  /** The document `POST /api/register` inserts: no address restriction and no key. */
  function OpenAccount(id: ObjectId, name: string, email: string, passwordHash: string): (a: Account)
    ensures forall ip :: FileAccess.AddressAllowed(a, ip)
    ensures !FileAccess.KeyRequired(a)
  {
    Account(id, name, email, passwordHash, Some([]), Some(false), Some(""))
  }

  /** The `users` collection, keyed by email; `nextId` is the next `_id` the store allocates. */
  class UserCollection {
    var users: map<string, Account>
    var nextId: ObjectId

    ghost predicate Valid()
      reads this
    {
      forall email :: email in users ==> users[email].email == email && users[email].id < nextId
    }

    constructor ()
      ensures Valid() && users == map[] && nextId == 0
    {
      users := map[];
      nextId := 0;
    }

    /** `POST /api/register`: the PIN gate, then duplicate rejection, then the insertion. */
    method Register(name: string, email: string, password: string, pin: Option<string>,
                    registerPin: Option<string>, hash: string -> string) returns (r: RegisterReply)
      requires Valid()
      modifies this
      ensures Valid()
      ensures r == InvalidPin <==> pin != registerPin
      ensures r == UserExists <==> pin == registerPin && email in old(users)
      ensures r.Created? ==> r.userId == old(nextId) && nextId == old(nextId) + 1
      ensures r.Created? ==> users == old(users)[email := OpenAccount(old(nextId), name, email, hash(password))]
      ensures !r.Created? ==> users == old(users) && nextId == old(nextId)
    {
      if pin != registerPin {
        return InvalidPin;
      }
      if email in users {
        return UserExists;
      }
      users := users[email := OpenAccount(nextId, name, email, hash(password))];
      r := Created(nextId);
      nextId := nextId + 1;
    }

    /** `POST /api/user/settings`: overwrite the caller's three policy fields. */
    method UpdateSettings(session: Session, allowedIPs: Option<seq<string>>, enableAuthKey: Option<bool>,
                          authKey: Option<string>) returns (r: UpdateReply)
      requires Valid()
      modifies this
      ensures Valid() && nextId == old(nextId)
      ensures r == UpdateUnauthorized <==> SignedInEmail(session).None?
      ensures r == UpdateUserNotFound <==> SignedInEmail(session).Some? && SignedInEmail(session).value !in old(users)
      ensures r != Updated ==> users == old(users)
      ensures r == Updated ==>
        var email := SignedInEmail(session).value;
        users == old(users)[email := WithPolicy(old(users)[email], allowedIPs, enableAuthKey, authKey)]
    {
      var email := SignedInEmail(session);
      if email.None? {
        return UpdateUnauthorized;
      }
      if email.value !in users {
        return UpdateUserNotFound;
      }
      users := users[email.value := WithPolicy(users[email.value], allowedIPs, enableAuthKey, authKey)];
      r := Updated;
    }
  }

  /** After a successful update with well-typed values, reading the settings returns exactly those values. */
  lemma UpdateThenRead(users: map<string, Account>, session: Session, allowedIPs: seq<string>,
                       enableAuthKey: bool, authKey: string)
    requires SignedInEmail(session).Some? && SignedInEmail(session).value in users
    ensures var email := SignedInEmail(session).value;
            ReadSettings(users[email := WithPolicy(users[email], Some(allowedIPs), Some(enableAuthKey), Some(authKey))], session)
              == Policy(allowedIPs, enableAuthKey, authKey)
  {
  }

  /** Anyone may open a file of a freshly registered owner: any address, any key or none. */
  lemma RegisteredOwnerIsOpen(ident: string, encodedClientIp: string, authKey: Option<string>,
                              files: seq<FileRecord>, users: map<string, Account>, foreign: FileAccess.Foreign,
                              id: ObjectId, name: string, email: string, passwordHash: string)
    requires ident != "" && encodedClientIp != ""
    requires foreign.decodeUriComponent(encodedClientIp).Some?
    requires FileAccess.FindFile(files, ident, foreign).Some?
    requires FileAccess.FindFile(files, ident, foreign).value.userId == email
    ensures FileAccess.Decide(Some(ident), Some(encodedClientIp), authKey,
                              FileAccess.Db(files, users[email := OpenAccount(id, name, email, passwordHash)], FileAccess.NoOutage),
                              foreign) == FileAccess.Granted
  {
  }
}
