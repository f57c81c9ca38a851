/**
 * boards/serializers.py: a post is shown with its owner's username in place of the owner's
 * id, and an update sets every supplied field except `owner`, then saves.
 */
module PostSerializers {
  import opened Http
  import opened Posts

  /** A validated input value: a reference to a user (the owner field) or text. */
  datatype Value = UserRef(id: nat) | Text(s: string)

  /**
   * The writable fields of `fields = '__all__'`: the primary key and the two automatic dates
   * are read-only, and any other key of the request body is ignored.
   */
  const PostFields: set<string> := {"owner", "title", "contents"}

  /**
   * A request body whose writable fields carry values of their field's type: `owner` a user
   * reference, `title` and `contents` text. Other keys may hold anything.
   */
  predicate WritableTyped(data: map<string, Value>) {
    && ("owner" in data ==> data["owner"].UserRef?)
    && ("title" in data ==> data["title"].Text?)
    && ("contents" in data ==> data["contents"].Text?)
  }

  /**
   * The validated data the serializer hands to update: a subset of the writable fields,
   * `owner` a user reference, `title` and `contents` text.
   */
  predicate WellTyped(validated: map<string, Value>) {
    validated.Keys <= PostFields && WritableTyped(validated)
  }

  /**
   * to_representation: the default rendering of every model field, with `owner` then
   * replaced by the owner's username.
   */
  function ToRepresentation(p: PostRecord, ownerUsername: string): (r: map<string, Json>)
    ensures r.Keys == {"id", "owner", "title", "contents", "created_date", "updated_date"}
    ensures r["owner"] == JStr(ownerUsername)
    ensures r["id"] == JInt(p.id) && r["title"] == JStr(p.title) && r["contents"] == JStr(p.contents)
    ensures r["created_date"] == JInt(p.createdDate) && r["updated_date"] == JInt(p.updatedDate)
  {
    var default := map[
      "id" := JInt(p.id), "owner" := JInt(p.owner), "title" := JStr(p.title),
      "contents" := JStr(p.contents), "created_date" := JInt(p.createdDate), "updated_date" := JInt(p.updatedDate)];
    default["owner" := JStr(ownerUsername)]
  }

  /** The record after `setattr` of every supplied field but `owner` (before the save stamps the time). */
  function Patched(p: PostRecord, validated: map<string, Value>): PostRecord
    requires WellTyped(validated)
  {
    p.(title := if "title" in validated then validated["title"].s else p.title,
       contents := if "contents" in validated then validated["contents"].s else p.contents)
  }

  /**
   * update: a `for` loop over the supplied items that skips `owner` and sets the rest on the
   * instance, then save(); the same instance is returned.
   */
  method Update(instance: Post, validated: map<string, Value>, now: int) returns (r: Post)
    requires WellTyped(validated)
    modifies instance
    ensures r == instance
    ensures instance.Record() == Patched(old(instance.Record()), validated).(updatedDate := now)
  {
    var pending := validated.Keys;
    while pending != {}
      invariant pending <= validated.Keys
      invariant instance.Record() == Patched(old(instance.Record()), map k | k in validated && k !in pending :: validated[k])
      decreases pending
    {
      var key :| key in pending;
      if key != "owner" {
        if key == "title" {
          instance.title := validated[key].s;
        } else {
          instance.contents := validated[key].s;
        }
      }
      pending := pending - {key};
    }
    assert (map k | k in validated && k !in pending :: validated[k]) == validated;
    instance.Save(now);
    r := instance;
  }

  /**
   * What an update promises: the owner never changes, even when supplied; each supplied
   * field takes its value; fields not supplied keep theirs (a partial update); id and
   * creation time stay; applying the same data twice is the same as applying it once.
   */
  lemma PatchedProperties(p: PostRecord, validated: map<string, Value>)
    requires WellTyped(validated)
    ensures var q := Patched(p, validated);
      && q.owner == p.owner && q.id == p.id && q.createdDate == p.createdDate
      && ("title" in validated ==> q.title == validated["title"].s)
      && ("title" !in validated ==> q.title == p.title)
      && ("contents" in validated ==> q.contents == validated["contents"].s)
      && ("contents" !in validated ==> q.contents == p.contents)
      && Patched(q, validated) == q
  {
  }
}
