/**
 * The security settings form of src/app/dashboard/settings/page.tsx: its
 * schema, how loaded settings are shown, how the IP list is parsed on
 * submit, and the API key it displays.
 */
module SettingsPage {
  import opened Wrappers
  import opened JsStrings
  import opened Records
  import UserStore
  import FileAccess

  /** `SecurityFormData`: the switch, the key and the comma-separated address list. */
  datatype FormData = FormData(enableAuthKey: bool, authKey: string, allowedIPs: Option<string>)

  /** The body `onSubmit` posts to `/api/user/settings`. */
  datatype Submission = Submission(allowedIPs: seq<string>, enableAuthKey: bool, authKey: string)

  /** `securitySchema`: the key must be non-empty even when the switch is off. */
  predicate SchemaAccepts(f: FormData) {
    |f.authKey| >= 1
  }

  /** `data.allowedIPs ? data.allowedIPs.split(',').map((ip) => ip.trim()) : []` */
  function ParseAllowedIps(s: Option<string>): (r: seq<string>)
    ensures s.None? || s.value == "" ==> r == []
    ensures s.Some? && s.value != "" ==> |r| == |Split(s.value, ',')| >= 1
    ensures s.Some? && s.value != "" ==> forall i :: 0 <= i < |r| ==> r[i] == Trim(Split(s.value, ',')[i])
    ensures forall i :: 0 <= i < |r| ==> ',' !in r[i]
    ensures forall i :: 0 <= i < |r| && |r[i]| > 0 ==> !IsJsWhitespace(r[i][0]) && !IsJsWhitespace(r[i][|r[i]| - 1])
  {
    if s.None? || s.value == "" then []
    else
      var pieces := Split(s.value, ',');
      seq(|pieces|, i requires 0 <= i < |pieces| => Trim(pieces[i]))
  }

  /** `data.allowedIPs.join(', ')`, the text shown after loading. */
  function FormatAllowedIps(ips: seq<string>): (r: string)
    ensures r == "" <==> ips == [] || ips == [""]
  {
    Join(ips, ", ")
  }

  /** The `apiKey` effect: `Bearer <key>` when the switch is on and the key is non-empty, else nothing. */
  function ApiKeyOf(enableAuthKey: bool, authKey: string): (r: Option<string>)
    ensures r.Some? <==> enableAuthKey && authKey != ""
    ensures r.Some? ==> r.value == FileAccess.BearerOf(authKey)
  {
    if enableAuthKey && authKey != "" then Some("Bearer " + authKey) else None
  }

  /** `handleSubmit(onSubmit)`: nothing is posted when the schema rejects the form. */
  function SubmissionOf(f: FormData): (r: Option<Submission>)
    ensures r.Some? <==> f.authKey != ""
    ensures r.Some? ==> r.value.enableAuthKey == f.enableAuthKey && r.value.authKey == f.authKey
    ensures r.Some? ==> r.value.allowedIPs == ParseAllowedIps(f.allowedIPs)
  {
    if SchemaAccepts(f) then Some(Submission(ParseAllowedIps(f.allowedIPs), f.enableAuthKey, f.authKey)) else None
  }

  /** The form state of `SecurityTab`. */
  class SecurityForm {
    var enableAuthKey: bool
    var authKey: string
    var allowedIPs: Option<string>
    var apiKey: Option<string>

    /** `defaultValues` and the initial `apiKey` state. */
    constructor ()
      ensures enableAuthKey == false && authKey == "" && allowedIPs == Some("") && apiKey == None
    {
      enableAuthKey, authKey, allowedIPs, apiKey := false, "", Some(""), None;
    }

    function Data(): FormData
      reads this
    {
      FormData(enableAuthKey, authKey, allowedIPs)
    }

    /** `fetchSettings`: an ok answer fills the three fields; any other leaves the form as it was. */
    method Load(reply: UserStore.SettingsReply)
      modifies this
      ensures reply.Policy? ==> Data() == FormData(reply.enableAuthKey, reply.authKey, Some(FormatAllowedIps(reply.allowedIPs)))
      ensures !reply.Policy? ==> Data() == old(Data())
      ensures apiKey == old(apiKey)
    {
      if reply.Policy? {
        enableAuthKey := reply.enableAuthKey;
        authKey := reply.authKey;
        allowedIPs := Some(FormatAllowedIps(reply.allowedIPs));
      }
    }

    /** The user typing into the inputs or flipping the switch. */
    method Edit(f: FormData)
      modifies this
      ensures Data() == f && apiKey == old(apiKey)
    {
      enableAuthKey, authKey, allowedIPs := f.enableAuthKey, f.authKey, f.allowedIPs;
    }

    /** The `useEffect` on `[enableAuthKey, authKey]`. */
    method SyncApiKey()
      modifies this
      ensures Data() == old(Data())
      ensures apiKey == ApiKeyOf(enableAuthKey, authKey)
    {
      if enableAuthKey && authKey != "" {
        apiKey := Some("Bearer " + authKey);
      } else {
        apiKey := None;
      }
    }

    /** `onSubmit` through the schema: the body posted, if any. */
    method Submit() returns (body: Option<Submission>)
      ensures body == SubmissionOf(Data())
    {
      if |authKey| >= 1 {
        body := Some(Submission(ParseAllowedIps(allowedIPs), enableAuthKey, authKey));
      } else {
        body := None;
      }
    }
  }

  // ---------------------------------------------------------------------------
  // the address list round trip

  /** The pieces `", "`-joined text splits into at `','`: every entry after the first keeps a leading space. */
  function Spaced(ips: seq<string>): (r: seq<string>)
    requires |ips| >= 1
    ensures |r| == |ips| && r[0] == ips[0]
    ensures forall i :: 1 <= i < |ips| ==> r[i] == " " + ips[i]
  {
    [ips[0]] + seq(|ips| - 1, i requires 0 <= i < |ips| - 1 => " " + ips[i + 1])
  }

  lemma {:induction false} JoinCommaSpace(ips: seq<string>)
    requires |ips| >= 1
    ensures FormatAllowedIps(ips) == Join(Spaced(ips), ",")
  {
    if |ips| > 1 {
      JoinCommaSpace(ips[1..]);
      var tail := Spaced(ips)[2..];
      assert Spaced(ips) == [ips[0]] + ([" " + ips[1]] + tail);
      assert Spaced(ips[1..]) == [ips[1]] + tail;
      JoinCons(ips[0], [" " + ips[1]] + tail, ",");
      JoinCons(" " + ips[1], tail, ",");
      JoinCons(ips[1], tail, ",");
      assert ips == [ips[0]] + ips[1..];
      JoinCons(ips[0], ips[1..], ", ");
    }
  }

  /**
   * Showing a stored list and submitting it unchanged gives the list back,
   * provided its entries hold no comma and no surrounding whitespace; the one
   * list that does not survive is `[""]`, which shows as empty text.
   */
  lemma ParseFormatRoundTrip(ips: seq<string>)
    requires ips != [""]
    requires forall i :: 0 <= i < |ips| ==> ',' !in ips[i] && Trim(ips[i]) == ips[i]
    ensures ParseAllowedIps(Some(FormatAllowedIps(ips))) == ips
  {
    if |ips| > 0 {
      JoinCommaSpace(ips);
      var pieces := Spaced(ips);
      SplitJoin(pieces, ',');
      if |ips| == 1 {
        assert FormatAllowedIps(ips) == ips[0] != "";
      } else {
        assert |FormatAllowedIps(ips)| >= 2;
      }
      forall i | 1 <= i < |ips|
        ensures Trim(pieces[i]) == ips[i]
      {
        TrimAfterSpace(ips[i]);
      }
    }
  }

  lemma SingletonEmptyIsLost()
    ensures ParseAllowedIps(Some(FormatAllowedIps([""]))) == []
  {
  }

  /**
   * Loading the settings and saving without edits posts them back unchanged
   * (for a round-tripping list), except that a stored empty key blocks the save.
   */
  lemma LoadThenSave(ips: seq<string>, enableAuthKey: bool, authKey: string)
    requires ips != [""]
    requires forall i :: 0 <= i < |ips| ==> ',' !in ips[i] && Trim(ips[i]) == ips[i]
    ensures SubmissionOf(FormData(enableAuthKey, authKey, Some(FormatAllowedIps(ips)))) ==
              if authKey == "" then None else Some(Submission(ips, enableAuthKey, authKey))
  {
    ParseFormatRoundTrip(ips);
  }

  /** The key the page displays for the settings it loaded is exactly the one the access route demands. */
  lemma DisplayedKeyIsAccepted(users: map<string, Account>, session: Session, offered: Option<string>)
    requires UserStore.ReadSettings(users, session).Policy?
    ensures var r := UserStore.ReadSettings(users, session);
            var owner := users[SignedInEmail(session).value];
            && (ApiKeyOf(r.enableAuthKey, r.authKey).Some? <==> FileAccess.KeyRequired(owner))
            && (FileAccess.KeyAccepted(owner, offered) <==>
                  ApiKeyOf(r.enableAuthKey, r.authKey).None? || offered == ApiKeyOf(r.enableAuthKey, r.authKey))
  {
  }
}
