/**
 * accounts/serializers.py: how a user is shown and validated, how registration sends the
 * verification link, how a profile update stores the password, and how the link is checked.
 */
module UserSerializers {
  import opened Wrappers
  import opened Http
  import Users
  import Uid
  import Base64Url
  import opened CharFields

  /** Django's default_token_generator: `make_token` and `check_token`, both library code. */
  datatype TokenGenerator = TokenGenerator(make: Users.UserRecord -> string, check: (Users.UserRecord, string) -> bool)

  /** UserSerializer's output: id, email, username and fullname; the password is write-only. */
  function Representation(u: Users.UserRecord): (r: map<string, Json>)
    ensures r.Keys == {"id", "email", "username", "fullname"}
    ensures "password" !in r
    ensures r["id"] == JInt(u.id) && r["email"] == JStr(u.email)
    ensures r["username"] == JStr(u.username) && r["fullname"] == JStr(u.fullname)
  {
    map["id" := JInt(u.id), "email" := JStr(u.email), "username" := JStr(u.username), "fullname" := JStr(u.fullname)]
  }

  const VerificationPrefix: string := "http://localhost:8000/api/v1/accounts/activate/"

  /** The link _send_verification_email mails: the prefix, the encoded uid, '/', the token. */
  function VerificationUrl(id: nat, token: string): (url: string)
    ensures |url| == |VerificationPrefix| + |Uid.EncodeUid(id)| + 1 + |token|
    ensures url[..|VerificationPrefix|] == VerificationPrefix
  {
    VerificationPrefix + Uid.EncodeUid(id) + "/" + token
  }

  /** The position of the first occurrence of `c` in `s`. */
  function IndexOf(s: string, c: char): (r: Option<nat>)
    ensures r.Some? ==> r.value < |s| && s[r.value] == c && c !in s[..r.value]
    ensures r.None? ==> c !in s
    decreases |s|
  {
    if |s| == 0 then None
    else if s[0] == c then Some(0)
    else match IndexOf(s[1..], c)
      case None => None
      case Some(i) => Some(i + 1)
  }

  /**
   * The route `activate/<str:uidb64>/<str:token>` under the verification prefix: each part is
   * a non-empty run of characters other than '/'.
   */
  function ActivationRoute(url: string): (r: Option<(string, string)>)
    ensures r.Some? ==> url == VerificationPrefix + r.value.0 + "/" + r.value.1
    ensures r.Some? ==> r.value.0 != "" && r.value.1 != "" && '/' !in r.value.0 && '/' !in r.value.1
  {
    if |url| < |VerificationPrefix| || url[..|VerificationPrefix|] != VerificationPrefix then None
    else
      var rest := url[|VerificationPrefix|..];
      match IndexOf(rest, '/')
      case None => None
      case Some(k) =>
        var uidb64, token := rest[..k], rest[k + 1..];
        if uidb64 == "" || token == "" || '/' in token then None
        else
          assert rest == uidb64 + "/" + token;
          assert url == VerificationPrefix + rest;
          Some((uidb64, token))
  }

  lemma {:induction false} IndexOfAfterPrefix(p: string, c: char, tail: string)
    requires c !in p
    ensures IndexOf(p + [c] + tail, c) == Some(|p|)
    decreases |p|
  {
    if |p| > 0 {
      assert (p + [c] + tail)[1..] == p[1..] + [c] + tail;
      IndexOfAfterPrefix(p[1..], c, tail);
    }
  }

  /**
   * The mailed link routes back to the verification view with the encoded uid and the token,
   * and the uid decodes to the new user's id.
   */
  lemma VerificationLinkRoundTrip(id: nat, token: string)
    requires token != "" && '/' !in token
    ensures ActivationRoute(VerificationUrl(id, token)) == Some((Uid.EncodeUid(id), token))
    ensures Uid.DecodeUid(Uid.EncodeUid(id)) == Some(id)
  {
    var uid := Uid.EncodeUid(id);
    var url := VerificationUrl(id, token);
    assert '/' !in uid by {
      forall i | 0 <= i < |uid| ensures uid[i] != '/' {
        assert Base64Url.IsUrlSafeChar(uid[i]);
      }
    }
    assert url[|VerificationPrefix|..] == uid + "/" + token;
    IndexOfAfterPrefix(uid, '/', token);
    assert (uid + "/" + token)[..|uid|] == uid;
    assert (uid + "/" + token)[|uid| + 1..] == token;
    Uid.DecodeEncodeUid(id);
  }

  /** A verification mail handed to the background worker: (username, email, url). */
  datatype Mail = Mail(username: string, email: string, url: string)

  /** The queue of send_verification_mail tasks. */
  class MailQueue {
    var sent: seq<Mail>

    constructor ()
      ensures sent == []
    {
      sent := [];
    }

    /** _send_verification_email: queues exactly one mail carrying the user's verification link. */
    method SendVerificationEmail(user: Users.UserRecord, generator: TokenGenerator)
      modifies this
      ensures sent == old(sent) + [Mail(user.username, user.email, VerificationUrl(user.id, generator.make(user)))]
    {
      var token := generator.make(user);
      var url := VerificationUrl(user.id, token);
      sent := sent + [Mail(user.username, user.email, url)];
    }
  }

  /**
   * UserSerializer.create: create_user with the validated fields (no flags, so the account
   * starts inactive), then exactly one verification mail for the new user.
   */
  method Create(users: Users.UserTable, queue: MailQueue, fields: map<string, string>, generator: TokenGenerator,
                normalize: string -> string, hash: string -> string) returns (user: Users.UserRecord)
    requires users.Valid() && UserFields <= fields.Keys && !users.UsernameTaken(fields["username"])
    modifies users, queue
    ensures users.Valid()
    ensures user == Users.NewUser(old(users.nextId), fields["username"], fields["email"], fields["fullname"],
                                  Some(fields["password"]), Users.ExtraFields(None, None, None), normalize, hash)
    ensures !user.isActive && user.password == Users.Hashed(hash(fields["password"]))
    ensures user.id !in old(users.rows) && users.rows == old(users.rows)[user.id := user]
    ensures users.nextId == old(users.nextId) + 1
    ensures queue.sent == old(queue.sent) + [Mail(user.username, user.email, VerificationUrl(user.id, generator.make(user)))]
  {
    var id := users.CreateUser(fields["username"], fields["email"], fields["fullname"], Some(fields["password"]),
                               Users.ExtraFields(None, None, None), normalize, hash);
    user := users.rows[id.value];
    queue.SendVerificationEmail(user, generator);
  }

  /** UserSerializer's writable fields; anything else in the request body is ignored. */
  const UserFields: set<string> := {"username", "email", "password", "fullname"}

  /**
   * The CharField step of UserSerializer's validation: no supplied writable field may be blank
   * or hold a NUL, and the validated data hold the trimmed values of the writable fields
   * supplied. A blank field is reported before a NUL.
   */
  function CleanUserFields(data: map<string, string>): (r: Result<map<string, string>, ApiError>)
    ensures r.Ok? <==> forall k :: k in data && k in UserFields ==> Acceptable(data[k])
    ensures r.Ok? ==> r.value.Keys == data.Keys * UserFields
    ensures r.Ok? ==> forall k :: k in r.value ==> r.value[k] == Trim(data[k]) && r.value[k] != ""
    ensures (exists k :: k in data && k in UserFields && IsBlank(data[k])) ==> r == Err(ValidationError(BlankMessage))
    ensures r.Err? && (forall k :: k in data && k in UserFields ==> !IsBlank(data[k])) ==> r == Err(ValidationError(NullMessage))
  {
    if exists k :: k in data && k in UserFields && IsBlank(data[k]) then
      var k :| k in data && k in UserFields && IsBlank(data[k]);
      assert !Acceptable(data[k]);
      Err(ValidationError(BlankMessage))
    else if exists k :: k in data && k in UserFields && !Acceptable(data[k]) then
      var k :| k in data && k in UserFields && !Acceptable(data[k]);
      Err(ValidationError(NullMessage))
    else Ok(TrimmedWritable(data))
  }

  /** The writable fields of a request body, each trimmed. */
  function TrimmedWritable(data: map<string, string>): (r: map<string, string>)
    ensures r.Keys == data.Keys * UserFields
    ensures forall k :: k in r ==> r[k] == Trim(data[k])
  {
    map k | k in data && k in UserFields :: Trim(data[k])
  }

  /**
   * The model-derived checks on the trimmed fields: every field present unless the update is
   * partial, the length limits, and a username no other user holds.
   */
  function CheckUserFields(rows: map<nat, Users.UserRecord>, self: Option<nat>, fields: map<string, string>, partial: bool)
    : (e: Option<ApiError>)
    ensures e.None? <==>
      && (!partial ==> UserFields <= fields.Keys)
      && ("username" in fields ==> |fields["username"]| <= Users.UsernameMaxLength)
      && ("username" in fields ==> forall id :: id in rows && rows[id].username == fields["username"] ==> self == Some(id))
      && ("fullname" in fields ==> |fields["fullname"]| <= Users.FullnameMaxLength)
      && ("email" in fields ==> |fields["email"]| <= Users.EmailMaxLength)
    ensures e.Some? ==> e.value.ValidationError? && Status(e.value) == 400
  {
    if !partial && !(UserFields <= fields.Keys) then Some(ValidationError("This field is required."))
    else if "username" in fields && |fields["username"]| > Users.UsernameMaxLength then Some(ValidationError("username"))
    else if "username" in fields && exists id :: id in rows && rows[id].username == fields["username"] && self != Some(id) then
      Some(ValidationError("username"))
    else if "fullname" in fields && |fields["fullname"]| > Users.FullnameMaxLength then Some(ValidationError("fullname"))
    else if "email" in fields && |fields["email"]| > Users.EmailMaxLength then Some(ValidationError("email"))
    else None
  }

  /**
   * The validation UserSerializer derives from the model: each field a CharField (trimmed, not
   * blank, no NUL), every field present unless the update is partial, the length limits of the model
   * on the trimmed text, and a username no other user holds. The validated data are the
   * trimmed values of the writable fields supplied.
   */
  function ValidateUser(rows: map<nat, Users.UserRecord>, self: Option<nat>, data: map<string, string>, partial: bool)
    : (r: Result<map<string, string>, ApiError>)
    ensures r.Ok? <==>
      && (forall k :: k in data && k in UserFields ==> Acceptable(data[k]))
      && (!partial ==> UserFields <= data.Keys)
      && ("username" in data ==> |Trim(data["username"])| <= Users.UsernameMaxLength)
      && ("username" in data ==> forall id :: id in rows && rows[id].username == Trim(data["username"]) ==> self == Some(id))
      && ("fullname" in data ==> |Trim(data["fullname"])| <= Users.FullnameMaxLength)
      && ("email" in data ==> |Trim(data["email"])| <= Users.EmailMaxLength)
    ensures r.Ok? ==> r.value.Keys == data.Keys * UserFields
    ensures r.Ok? ==> forall k :: k in r.value ==> r.value[k] == Trim(data[k]) && r.value[k] != ""
    ensures r.Err? ==> r.error.ValidationError? && Status(r.error) == 400
  {
    match CleanUserFields(data)
    case Err(e) =>
      assert !(forall k :: k in data && k in UserFields ==> Acceptable(data[k]));
      Err(e)
    case Ok(fields) =>
      CheckTrimmed(rows, self, data, fields, partial);
      match CheckUserFields(rows, self, fields, partial)
      case Some(e) => Err(e)
      case None => Ok(fields)
  }

  /** CheckUserFields on the trimmed fields is the same check stated on the supplied text. */
  lemma CheckTrimmed(rows: map<nat, Users.UserRecord>, self: Option<nat>, data: map<string, string>,
                     fields: map<string, string>, partial: bool)
    requires fields.Keys == data.Keys * UserFields
    requires forall k :: k in fields ==> fields[k] == Trim(data[k])
    ensures CheckUserFields(rows, self, fields, partial).None? <==>
      && (!partial ==> UserFields <= data.Keys)
      && ("username" in data ==> |Trim(data["username"])| <= Users.UsernameMaxLength)
      && ("username" in data ==> forall id :: id in rows && rows[id].username == Trim(data["username"]) ==> self == Some(id))
      && ("fullname" in data ==> |Trim(data["fullname"])| <= Users.FullnameMaxLength)
      && ("email" in data ==> |Trim(data["email"])| <= Users.EmailMaxLength)
  {
    assert UserFields <= data.Keys <==> UserFields <= fields.Keys;
    assert "username" in data <==> "username" in fields;
    assert "fullname" in data <==> "fullname" in fields;
    assert "email" in data <==> "email" in fields;
  }

  /**
   * update, first step: a supplied password is replaced by its hash; every other field
   * passes through as supplied.
   */
  function HashPassword(validated: map<string, string>, hash: string -> string): (r: map<string, string>)
    ensures r.Keys == validated.Keys
    ensures "password" in validated ==> r["password"] == hash(validated["password"])
    ensures forall k :: k in validated && k != "password" ==> r[k] == validated[k]
  {
    if "password" in validated then validated["password" := hash(validated["password"])] else validated
  }

  /** The framework's ModelSerializer.update: each supplied attribute is set on the user, then saved. */
  function ApplyUpdate(u: Users.UserRecord, data: map<string, string>): (r: Users.UserRecord)
    ensures r.id == u.id && r.isActive == u.isActive && r.isStaff == u.isStaff && r.isSuperuser == u.isSuperuser
  {
    u.(
      username := if "username" in data then data["username"] else u.username,
      email := if "email" in data then data["email"] else u.email,
      fullname := if "fullname" in data then data["fullname"] else u.fullname,
      password := if "password" in data then Users.Hashed(data["password"]) else u.password)
  }

  /**
   * A profile update stores the hash of a supplied password, never the plaintext, keeps the
   * stored password when none is supplied, and sets the other supplied fields as given.
   */
  lemma UpdateStoresHash(u: Users.UserRecord, validated: map<string, string>, hash: string -> string)
    ensures var r := ApplyUpdate(u, HashPassword(validated, hash));
      && ("password" in validated ==> r.password == Users.Hashed(hash(validated["password"])))
      && ("password" !in validated ==> r.password == u.password)
      && ("username" in validated ==> r.username == validated["username"])
      && ("username" !in validated ==> r.username == u.username)
      && ("email" in validated ==> r.email == validated["email"])
      && ("email" !in validated ==> r.email == u.email)
      && ("fullname" in validated ==> r.fullname == validated["fullname"])
      && ("fullname" !in validated ==> r.fullname == u.fullname)
  {
  }

  const InvalidTokenMessage: string := "잘못된 토큰입니다."

  /** EmailVerificationSerializer's validated data: its input plus the `user` key. */
  datatype Verified = Verified(uidb64: string, token: string, user: Users.UserRecord)

  /**
   * EmailVerificationSerializer: both fields are CharFields (blank or NUL: 400); the decoded uid must
   * name a user (404 otherwise, including when decoding fails), and the token must check out
   * for that user (400 "잘못된 토큰입니다." otherwise). The validated data are the trimmed
   * fields plus the user.
   */
  function ValidateVerification(rows: map<nat, Users.UserRecord>, uidb64: string, token: string,
                                generator: TokenGenerator): (r: Result<Verified, ApiError>)
    ensures IsBlank(uidb64) ==> r == Err(ValidationError(BlankMessage))
    ensures !Acceptable(uidb64) || !Acceptable(token) ==>
      r == Err(ValidationError(BlankMessage)) || r == Err(ValidationError(NullMessage))
    ensures Acceptable(uidb64) && Acceptable(token) ==>
      var uid := Uid.DecodeUid(Trim(uidb64));
      (uid.None? || uid.value < 0 || uid.value as nat !in rows) ==> r == Err(NotFound)
    ensures Acceptable(uidb64) && Acceptable(token) ==>
      var uid := Uid.DecodeUid(Trim(uidb64));
      uid.Some? && uid.value >= 0 && uid.value as nat in rows ==>
        && (r.Ok? <==> generator.check(rows[uid.value as nat], Trim(token)))
        && (r.Err? ==> r.error == ValidationError(InvalidTokenMessage))
    ensures r.Ok? ==> Uid.DecodeUid(r.value.uidb64).Some? && Uid.DecodeUid(r.value.uidb64).value >= 0
    ensures r.Ok? ==> var n := Uid.DecodeUid(r.value.uidb64).value as nat;
      n in rows && r.value == Verified(Trim(uidb64), Trim(token), rows[n])
    ensures r.Ok? ==> generator.check(r.value.user, r.value.token)
  {
    match CleanText(uidb64)
    case Err(e) => Err(e)
    case Ok(uidText) =>
      match CleanText(token)
      case Err(e) => Err(e)
      case Ok(tokenText) =>
        var uid := Uid.DecodeUid(uidText);
        if uid.None? || uid.value < 0 || uid.value as nat !in rows then Err(NotFound)
        else
          var user := rows[uid.value as nat];
          if !generator.check(user, tokenText) then Err(ValidationError(InvalidTokenMessage))
          else Ok(Verified(uidText, tokenText, user))
  }
}
