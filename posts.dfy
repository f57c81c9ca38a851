/**
 * boards/models.py: a post belongs to one user, keeps its creation time and the time of its
 * last save, and posts are listed newest first (descending id).
 */
module Posts {

  const TitleMaxLength: nat := 255

  datatype PostRecord = PostRecord(id: nat, owner: nat, title: string, contents: string, createdDate: int, updatedDate: int)

  /** PostModel.__str__ is the title. */
  function Str(p: PostRecord): string
  {
    p.title
  }

  /** A post loaded from its table: the object that serializers change and save. */
  class Post {
    var id: nat
    var owner: nat
    var title: string
    var contents: string
    var createdDate: int
    var updatedDate: int

    constructor FromRecord(r: PostRecord)
      ensures Record() == r
    {
      id, owner, title, contents := r.id, r.owner, r.title, r.contents;
      createdDate, updatedDate := r.createdDate, r.updatedDate;
    }

    function Record(): PostRecord
      reads this
    {
      PostRecord(id, owner, title, contents, createdDate, updatedDate)
    }

    /** save(): `updated_date` has auto_now, so every save stamps it with the current time. */
    method Save(now: int)
      modifies this`updatedDate
      ensures Record() == old(Record()).(updatedDate := now)
    {
      updatedDate := now;
    }
  }

  predicate StrictlyDecreasing(s: seq<nat>) {
    forall i, j :: 0 <= i < j < |s| ==> s[i] > s[j]
  }

  /**
   * Meta.ordering = ['-id'] over the ids below `bound`: every such id exactly once, largest
   * first.
   */
  function DescendingBelow(ids: set<nat>, bound: nat): (s: seq<nat>)
    ensures StrictlyDecreasing(s)
    ensures forall x :: x in s <==> x in ids && x < bound
    ensures forall i :: 0 <= i < |s| ==> s[i] < bound
    decreases bound
  {
    if bound == 0 then []
    else if bound - 1 in ids then [bound - 1] + DescendingBelow(ids, bound - 1)
    else DescendingBelow(ids, bound - 1)
  }

  /** The posts table. */
  class Board {
    var rows: map<nat, PostRecord>
    var nextId: nat

    /** Every row is stored under its own id, below the next id the database will hand out. */
    ghost predicate Valid()
      reads this
    {
      forall id :: id in rows ==> rows[id].id == id && id < nextId
    }

    constructor ()
      ensures Valid() && rows == map[] && nextId == 1
    {
      rows := map[];
      nextId := 1;
    }

    /** The default queryset: all posts, newest (largest id) first. */
    function List(): (posts: seq<PostRecord>)
      reads this
      requires Valid()
      ensures forall i, j :: 0 <= i < j < |posts| ==> posts[i].id > posts[j].id
      ensures forall p :: p in posts <==> p in rows.Values
    {
      var ids := DescendingBelow(rows.Keys, nextId);
      var table := rows;
      var posts := seq(|ids|, i requires 0 <= i < |ids| => table[ids[i]]);
      assert forall p :: p in rows.Values ==> p in posts by {
        forall p | p in rows.Values ensures p in posts {
          var id :| id in rows && rows[id] == p;
          var i :| 0 <= i < |ids| && ids[i] == id;
          assert posts[i] == p;
        }
      }
      posts
    }

    /**
     * `objects.create`: a new row under the next id, with creation and update time both set
     * to now (auto_now_add and auto_now).
     */
    method Insert(owner: nat, title: string, contents: string, now: int) returns (post: PostRecord)
      requires Valid()
      modifies this
      ensures Valid()
      ensures post == PostRecord(old(nextId), owner, title, contents, now, now)
      ensures post.id !in old(rows) && rows == old(rows)[post.id := post] && nextId == old(nextId) + 1
    {
      post := PostRecord(nextId, owner, title, contents, now, now);
      rows := rows[nextId := post];
      nextId := nextId + 1;
    }

    method Load(id: nat) returns (p: Post)
      requires id in rows
      ensures fresh(p) && p.Record() == rows[id]
    {
      p := new Post.FromRecord(rows[id]);
    }

    /** Writes a saved instance back to its row. */
    method Store(p: Post)
      requires Valid() && p.id in rows
      modifies this`rows
      ensures Valid()
      ensures rows == old(rows)[p.id := p.Record()]
    {
      rows := rows[p.id := p.Record()];
    }

    method Delete(id: nat)
      requires Valid()
      modifies this`rows
      ensures Valid()
      ensures rows == old(rows) - {id}
    {
      rows := rows - {id};
    }

    /** on_delete=CASCADE: deleting a user deletes every post they own, and only those. */
    method DeleteOwnerPosts(owner: nat)
      requires Valid()
      modifies this`rows
      ensures Valid()
      ensures rows == map id | id in old(rows) && old(rows)[id].owner != owner :: old(rows)[id]
      ensures forall id :: id in rows ==> rows[id].owner != owner
    {
      rows := map id | id in rows && rows[id].owner != owner :: rows[id];
    }
  }
}
