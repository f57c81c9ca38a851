/**
 * boards/views.py: the post and comment endpoints. Every one of them is guarded by
 * IsOwnerOrReadOnly; creation stores the requester as owner whatever `owner` was supplied;
 * the post list is paged ten at a time, newest first.
 */
module BoardViews {
  import opened Wrappers
  import opened Http
  import opened Posts
  import opened PostSerializers
  import BoardPermissions
  import opened CharFields

  /** PostCursorPagination.page_size. */
  const PageSize: nat := 10

  /** `serializer.save(owner=request.user)`: the keyword argument overrides any supplied owner. */
  function OverrideOwner(validated: map<string, Value>, requester: nat): (r: map<string, Value>)
    ensures r.Keys == validated.Keys + {"owner"}
    ensures r["owner"] == UserRef(requester)
    ensures forall k :: k in validated && k != "owner" ==> r[k] == validated[k]
  {
    validated["owner" := UserRef(requester)]
  }

  /** A supplied value as its field hands it on: text is trimmed, a user reference is kept. */
  function Cleaned(v: Value): (r: Value)
    ensures r.Text? <==> v.Text?
    ensures r.Text? ==> r.s == Trim(v.s)
    ensures r.UserRef? ==> r == v
  {
    if v.Text? then Text(Trim(v.s)) else v
  }

  /**
   * The CharField step of the post serializer: only the writable fields are kept; title and
   * contents are trimmed and may be neither blank, since the model gives neither
   * `blank=True`, nor hold a NUL. A blank field is reported before a NUL.
   */
  function CleanPostFields(data: map<string, Value>): (r: Result<map<string, Value>, ApiError>)
    requires WritableTyped(data)
    ensures r.Ok? <==>
      && ("title" in data ==> Acceptable(data["title"].s))
      && ("contents" in data ==> Acceptable(data["contents"].s))
    ensures r.Ok? ==> WellTyped(r.value) && r.value.Keys == data.Keys * PostFields
    ensures r.Ok? ==> forall k :: k in r.value ==> r.value[k] == Cleaned(data[k])
    ensures ("title" in data && IsBlank(data["title"].s)) || ("contents" in data && IsBlank(data["contents"].s)) ==>
      r == Err(ValidationError(BlankMessage))
    ensures r.Err? && ("title" in data ==> !IsBlank(data["title"].s)) && ("contents" in data ==> !IsBlank(data["contents"].s)) ==>
      r == Err(ValidationError(NullMessage))
  {
    if ("title" in data && IsBlank(data["title"].s)) || ("contents" in data && IsBlank(data["contents"].s)) then
      Err(ValidationError(BlankMessage))
    else if ("title" in data && !Acceptable(data["title"].s)) || ("contents" in data && !Acceptable(data["contents"].s)) then
      Err(ValidationError(NullMessage))
    else Ok(CleanedWritable(data))
  }

  /** The writable fields of a request body, each as its field hands it on. */
  function CleanedWritable(data: map<string, Value>): (r: map<string, Value>)
    requires WritableTyped(data)
    ensures WellTyped(r) && r.Keys == data.Keys * PostFields
    ensures forall k :: k in r ==> r[k] == Cleaned(data[k])
  {
    map k | k in data && k in PostFields :: Cleaned(data[k])
  }

  /**
   * The checks the post serializer makes on input: title and contents neither blank nor
   * holding a NUL, both present when the whole post is sent (create, PUT), and the trimmed
   * title no longer than the model allows. Keys other than the writable fields are ignored;
   * the validated data are the cleaned values of the writable fields supplied.
   */
  function ValidatePost(data: map<string, Value>, partial: bool): (r: Result<map<string, Value>, ApiError>)
    requires WritableTyped(data)
    ensures r.Ok? <==>
      && ("title" in data ==> Acceptable(data["title"].s))
      && ("contents" in data ==> Acceptable(data["contents"].s))
      && (!partial ==> "title" in data && "contents" in data)
      && ("title" in data ==> |Trim(data["title"].s)| <= TitleMaxLength)
    ensures r.Ok? ==> WellTyped(r.value) && r.value.Keys == data.Keys * PostFields
    ensures r.Ok? ==> forall k :: k in r.value ==> r.value[k] == Cleaned(data[k])
    ensures r.Err? ==> r.error.ValidationError? && Status(r.error) == 400
  {
    match CleanPostFields(data)
    case Err(e) => Err(e)
    case Ok(fields) =>
      CheckTrimmedPost(data, fields, partial);
      match CheckPostFields(fields, partial)
      case Some(e) => Err(e)
      case None => Ok(fields)
  }

  /** The model-derived checks on the cleaned fields: both present unless partial, the title length. */
  function CheckPostFields(fields: map<string, Value>, partial: bool): (e: Option<ApiError>)
    requires WellTyped(fields)
    ensures e.None? <==>
      && (!partial ==> "title" in fields && "contents" in fields)
      && ("title" in fields ==> |fields["title"].s| <= TitleMaxLength)
    ensures e.Some? ==> e.value.ValidationError? && Status(e.value) == 400
  {
    if !partial && ("title" !in fields || "contents" !in fields) then Some(ValidationError("This field is required."))
    else if "title" in fields && |fields["title"].s| > TitleMaxLength then Some(ValidationError("title"))
    else None
  }

  /** CheckPostFields on the cleaned fields is the same check stated on the supplied values. */
  lemma CheckTrimmedPost(data: map<string, Value>, fields: map<string, Value>, partial: bool)
    requires WritableTyped(data) && WellTyped(fields) && fields.Keys == data.Keys * PostFields
    requires forall k :: k in fields ==> fields[k] == Cleaned(data[k])
    ensures CheckPostFields(fields, partial).None? <==>
      && (!partial ==> "title" in data && "contents" in data)
      && ("title" in data ==> |Trim(data["title"].s)| <= TitleMaxLength)
  {
    assert "title" in fields <==> "title" in data;
    assert "contents" in fields <==> "contents" in data;
  }

  /**
   * PostListCreateAPIView.post: a signed-in user creates a post they own; the supplied owner
   * is ignored. Anonymous callers get 401 and invalid input 400, with nothing stored.
   */
  method CreatePost(board: Board, user: Requester, data: map<string, Value>, now: int)
    returns (r: Result<PostRecord, ApiError>)
    requires board.Valid() && WritableTyped(data)
    modifies board
    ensures board.Valid()
    ensures user.Anonymous? ==> r == Err(NotAuthenticated)
    ensures user.Member? && ValidatePost(data, false).Err? ==> r == Err(ValidatePost(data, false).error)
    ensures r.Ok? <==> user.Member? && ValidatePost(data, false).Ok?
    ensures r.Err? ==> board.rows == old(board.rows) && board.nextId == old(board.nextId)
    ensures r.Ok? ==> r.value.owner == user.id
    ensures r.Ok? ==> r.value.title == Trim(data["title"].s) && r.value.contents == Trim(data["contents"].s)
    ensures r.Ok? ==> r.value.createdDate == now && r.value.updatedDate == now
    ensures r.Ok? ==> r.value.id !in old(board.rows) && board.rows == old(board.rows)[r.value.id := r.value]
    ensures r.Ok? ==> r.value.id == old(board.nextId) && board.nextId == old(board.nextId) + 1
  {
    if !BoardPermissions.HasPermission(POST, user) {
      return Err(Refusal(user));
    }
    var check := ValidatePost(data, false);
    if check.Err? {
      return Err(check.error);
    }
    assert check.value["title"] == Cleaned(data["title"]) && check.value["contents"] == Cleaned(data["contents"]);
    var post := SaveWithOwner(board, check.value, user.id, now);
    r := Ok(post);
  }

  /**
   * `serializer.save(owner=request.user)` on a create: the owner override, then a new row
   * holding the validated title and contents.
   */
  method SaveWithOwner(board: Board, validated: map<string, Value>, owner: nat, now: int) returns (post: PostRecord)
    requires board.Valid() && WellTyped(validated) && "title" in validated && "contents" in validated
    modifies board
    ensures board.Valid()
    ensures post == PostRecord(old(board.nextId), owner, validated["title"].s, validated["contents"].s, now, now)
    ensures post.id !in old(board.rows) && board.rows == old(board.rows)[post.id := post]
    ensures board.nextId == old(board.nextId) + 1
  {
    var fields := OverrideOwner(validated, owner);
    post := board.Insert(fields["owner"].id, fields["title"].s, fields["contents"].s, now);
  }

  /**
   * CommentCreateAPIView.post up to the save: a signed-in user's comment data with `owner`
   * set to that user, whatever was supplied; 401 for an anonymous caller.
   */
  function CreateCommentData(user: Requester, validated: map<string, Value>): (r: Result<map<string, Value>, ApiError>)
    ensures user.Anonymous? ==> r == Err(NotAuthenticated)
    ensures user.Member? ==> r.Ok? && "owner" in r.value && r.value["owner"] == UserRef(user.id)
    ensures r.Ok? ==> forall k :: k in validated && k != "owner" ==> k in r.value && r.value[k] == validated[k]
  {
    if !BoardPermissions.HasPermission(POST, user) then Err(Refusal(user))
    else Ok(OverrideOwner(validated, user.id))
  }

  /**
   * PostDetailAPIView.put / patch: 401 for an anonymous caller, 404 for a missing post, 403
   * for anyone but the owner, 400 for invalid input; otherwise the update is applied, saved
   * and written back.
   */
  method UpdatePost(board: Board, user: Requester, id: nat, partial: bool, data: map<string, Value>, now: int)
    returns (r: Result<PostRecord, ApiError>)
    requires board.Valid() && WritableTyped(data)
    modifies board
    ensures board.Valid()
    ensures user.Anonymous? ==> r == Err(NotAuthenticated)
    ensures user.Member? && id !in old(board.rows) ==> r == Err(NotFound)
    ensures user.Member? && id in old(board.rows) && old(board.rows)[id].owner != user.id ==> r == Err(PermissionDenied)
    ensures id in old(board.rows) && user == Member(old(board.rows)[id].owner) ==>
      && (ValidatePost(data, partial).Err? ==> r == Err(ValidatePost(data, partial).error))
      && (ValidatePost(data, partial).Ok? ==> r.Ok?)
    ensures r.Err? ==> board.rows == old(board.rows)
    ensures r.Ok? ==> id in old(board.rows) && user == Member(old(board.rows)[id].owner) && ValidatePost(data, partial).Ok?
    ensures r.Ok? ==> r.value == Patched(old(board.rows)[id], ValidatePost(data, partial).value).(updatedDate := now)
    ensures r.Ok? ==> board.rows == old(board.rows)[id := r.value]
    ensures board.nextId == old(board.nextId)
  {
    var verb := if partial then PATCH else PUT;
    if !BoardPermissions.HasPermission(verb, user) {
      return Err(Refusal(user));
    }
    if id !in board.rows {
      return Err(NotFound);
    }
    if BoardPermissions.CheckObjectAccess(verb, user, board.rows[id].owner).Some? {
      return Err(Refusal(user));
    }
    var check := ValidatePost(data, partial);
    if check.Err? {
      return Err(check.error);
    }
    var post := SaveUpdate(board, id, check.value, now);
    r := Ok(post);
  }

  /**
   * `serializer.save()` on an update: the row is loaded as an instance, the serializer's
   * update sets the supplied fields and saves, and the instance is written back.
   */
  method SaveUpdate(board: Board, id: nat, validated: map<string, Value>, now: int) returns (post: PostRecord)
    requires board.Valid() && id in board.rows && WellTyped(validated)
    modifies board
    ensures board.Valid()
    ensures post == Patched(old(board.rows)[id], validated).(updatedDate := now)
    ensures board.rows == old(board.rows)[id := post] && board.nextId == old(board.nextId)
  {
    var instance := board.Load(id);
    instance := Update(instance, validated, now);
    board.Store(instance);
    post := instance.Record();
  }

  /** PostDetailAPIView.delete: the same guards as an update; the owner's delete removes the row. */
  method DeletePost(board: Board, user: Requester, id: nat) returns (r: Result<int, ApiError>)
    requires board.Valid()
    modifies board
    ensures board.Valid()
    ensures user.Anonymous? ==> r == Err(NotAuthenticated)
    ensures user.Member? && id !in old(board.rows) ==> r == Err(NotFound)
    ensures user.Member? && id in old(board.rows) && old(board.rows)[id].owner != user.id ==> r == Err(PermissionDenied)
    ensures r.Err? ==> board.rows == old(board.rows)
    ensures r.Ok? <==> id in old(board.rows) && user == Member(old(board.rows)[id].owner)
    ensures r.Ok? ==> r.value == 204
    ensures r.Ok? ==> board.rows == old(board.rows) - {id}
    ensures board.nextId == old(board.nextId)
  {
    if !BoardPermissions.HasPermission(DELETE, user) {
      return Err(Refusal(user));
    }
    if id !in board.rows {
      return Err(NotFound);
    }
    if BoardPermissions.CheckObjectAccess(DELETE, user, board.rows[id].owner).Some? {
      return Err(Refusal(user));
    }
    board.Delete(id);
    r := Ok(204);
  }

  /**
   * A page of the cursor pagination over `-id`: the first PageSize posts of the newest-first
   * list whose id lies below the cursor position (all of them without a cursor).
   */
  function CursorPage(posts: seq<PostRecord>, before: Option<nat>): (page: seq<PostRecord>)
    ensures |page| <= PageSize
    ensures forall p :: p in page ==> p in posts && (before.Some? ==> p.id < before.value)
    decreases |posts|
  {
    if |posts| == 0 then []
    else if before.Some? && posts[0].id >= before.value then CursorPage(posts[1..], before)
    else
      var rest := CursorPage(posts[1..], before);
      var kept := if |rest| == PageSize then rest[..PageSize - 1] else rest;
      assert forall p :: p in kept ==> p in rest;
      [posts[0]] + kept
  }

  /**
   * On a newest-first list, a page is exactly the first PageSize posts below the cursor, in
   * list order.
   */
  lemma {:induction false} CursorPageIsPrefix(posts: seq<PostRecord>, before: Option<nat>)
    requires forall i, j :: 0 <= i < j < |posts| ==> posts[i].id > posts[j].id
    ensures var eligible := Eligible(posts, before);
      CursorPage(posts, before) == eligible[..if |eligible| < PageSize then |eligible| else PageSize]
    decreases |posts|
  {
    if |posts| > 0 {
      CursorPageIsPrefix(posts[1..], before);
    }
  }

  /** The posts of the list that lie below the cursor, in list order. */
  function Eligible(posts: seq<PostRecord>, before: Option<nat>): (r: seq<PostRecord>)
    ensures forall p :: p in r <==> p in posts && (before.None? || p.id < before.value)
    decreases |posts|
  {
    if |posts| == 0 then []
    else if before.Some? && posts[0].id >= before.value then Eligible(posts[1..], before)
    else [posts[0]] + Eligible(posts[1..], before)
  }
}
