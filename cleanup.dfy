/**
 * accounts/tasks.py and accounts/scheduler.py: the periodic sweep of expired refresh tokens.
 * Both files hold the same loop over the outstanding-token table; the blacklist table refers to
 * outstanding rows by id, and deleting an outstanding row deletes the blacklist rows that refer
 * to it (the foreign key cascades).
 */
module TokenCleanup {

  /** An OutstandingToken row: the token's jti and its expiry time. */
  datatype OutstandingRow = OutstandingRow(jti: string, expiresAt: int)

  /** A BlacklistedToken row: a one-to-one reference to an outstanding row. */
  datatype BlacklistRow = BlacklistRow(tokenId: nat)

  /** The ids of the outstanding rows the sweep selects: `expires_at < now`. */
  function ExpiredIds(outstanding: map<nat, OutstandingRow>, now: int): (ids: set<nat>)
    ensures forall id :: id in ids <==> id in outstanding && outstanding[id].expiresAt < now
  {
    set id | id in outstanding && outstanding[id].expiresAt < now
  }

  /** The outstanding table once the rows in `ids` are deleted. */
  function Without(outstanding: map<nat, OutstandingRow>, ids: set<nat>): (r: map<nat, OutstandingRow>)
    ensures forall id :: id in r <==> id in outstanding && id !in ids
    ensures forall id :: id in r ==> r[id] == outstanding[id]
  {
    map id | id in outstanding && id !in ids :: outstanding[id]
  }

  /**
   * The blacklist table once the rows whose own id is in `byId`, and the rows referring to an
   * outstanding row in `byRef`, are deleted.
   */
  function Pruned(blacklist: map<nat, BlacklistRow>, byId: set<nat>, byRef: set<nat>): (r: map<nat, BlacklistRow>)
    ensures forall b :: b in r <==> b in blacklist && b !in byId && blacklist[b].tokenId !in byRef
    ensures forall b :: b in r ==> r[b] == blacklist[b]
  {
    map b | b in blacklist && b !in byId && blacklist[b].tokenId !in byRef :: blacklist[b]
  }

  lemma WithoutTwice(outstanding: map<nat, OutstandingRow>, a: set<nat>, b: set<nat>)
    ensures Without(Without(outstanding, a), b) == Without(outstanding, a + b)
  {
  }

  lemma PrunedTwice(blacklist: map<nat, BlacklistRow>, byId1: set<nat>, byRef1: set<nat>, byId2: set<nat>, byRef2: set<nat>)
    ensures Pruned(Pruned(blacklist, byId1, byRef1), byId2, byRef2) == Pruned(blacklist, byId1 + byId2, byRef1 + byRef2)
  {
  }

  /** Deleting the row with a given id, if there is one, is pruning by that id. */
  lemma RemoveIsPruned(blacklist: map<nat, BlacklistRow>, id: nat)
    ensures blacklist - {id} == Pruned(blacklist, {id}, {})
  {
  }

  /** The outstanding row `id` is revoked: some blacklist row refers to it. */
  predicate Revoked(blacklist: map<nat, BlacklistRow>, id: nat) {
    exists b :: b in blacklist && blacklist[b].tokenId == id
  }

  /** What the sweep as written leaves in the blacklist: rows looked up by their own id go too. */
  function SweptBlacklistAsWritten(outstanding: map<nat, OutstandingRow>, blacklist: map<nat, BlacklistRow>, now: int)
    : (r: map<nat, BlacklistRow>)
    ensures forall b :: b in r ==> b in blacklist && r[b] == blacklist[b]
  {
    Pruned(blacklist, ExpiredIds(outstanding, now), ExpiredIds(outstanding, now))
  }

  /** What the intended sweep leaves in the blacklist: only rows referring to expired tokens go. */
  function SweptBlacklist(outstanding: map<nat, OutstandingRow>, blacklist: map<nat, BlacklistRow>, now: int)
    : (r: map<nat, BlacklistRow>)
    ensures forall b :: b in r ==> b in blacklist && r[b] == blacklist[b]
  {
    Pruned(blacklist, {}, ExpiredIds(outstanding, now))
  }

  /** After the sweep no expired outstanding row remains, and every other row is untouched. */
  lemma SweepRemovesExactlyExpired(outstanding: map<nat, OutstandingRow>, now: int)
    ensures forall id :: id in Without(outstanding, ExpiredIds(outstanding, now)) ==>
      Without(outstanding, ExpiredIds(outstanding, now))[id].expiresAt >= now
    ensures forall id :: id in outstanding && outstanding[id].expiresAt >= now ==>
      id in Without(outstanding, ExpiredIds(outstanding, now)) &&
      Without(outstanding, ExpiredIds(outstanding, now))[id] == outstanding[id]
  {
  }

  /** A second sweep at the same time finds nothing to delete, in either table and either version. */
  lemma SweepIdempotent(outstanding: map<nat, OutstandingRow>, blacklist: map<nat, BlacklistRow>, now: int)
    ensures var o := Without(outstanding, ExpiredIds(outstanding, now));
      && ExpiredIds(o, now) == {}
      && Without(o, ExpiredIds(o, now)) == o
      && SweptBlacklistAsWritten(o, SweptBlacklistAsWritten(outstanding, blacklist, now), now) == SweptBlacklistAsWritten(outstanding, blacklist, now)
      && SweptBlacklist(o, SweptBlacklist(outstanding, blacklist, now), now) == SweptBlacklist(outstanding, blacklist, now)
  {
    var o := Without(outstanding, ExpiredIds(outstanding, now));
    assert ExpiredIds(o, now) == {};
  }

  /**
   * Outstanding rows 1 (expired) and 2 (not expired), and blacklist row 1 revoking token 2.
   * The sweep as written looks the blacklist up by the expired row's id, deletes row 1 and so
   * un-revokes token 2, which can then be refreshed again; the intended sweep keeps it revoked.
   */
  lemma SweepAsWrittenUnrevokes()
    ensures var outstanding := map[1 := OutstandingRow("expired", 10), 2 := OutstandingRow("live", 100)];
      var blacklist := map[1 := BlacklistRow(2)];
      && Revoked(blacklist, 2)
      && 2 in Without(outstanding, ExpiredIds(outstanding, 50))
      && !Revoked(SweptBlacklistAsWritten(outstanding, blacklist, 50), 2)
      && Revoked(SweptBlacklist(outstanding, blacklist, 50), 2)
  {
    var outstanding := map[1 := OutstandingRow("expired", 10), 2 := OutstandingRow("live", 100)];
    var blacklist := map[1 := BlacklistRow(2)];
    assert blacklist[1].tokenId == 2;
    assert ExpiredIds(outstanding, 50) == {1} by {
      assert outstanding[1].expiresAt < 50 && outstanding[2].expiresAt >= 50;
    }
    assert SweptBlacklist(outstanding, blacklist, 50)[1].tokenId == 2;
  }

  /** The intended sweep keeps every surviving token's revocation exactly as it was. */
  lemma SweepKeepsRevocations(outstanding: map<nat, OutstandingRow>, blacklist: map<nat, BlacklistRow>, now: int, id: nat)
    requires id in outstanding && outstanding[id].expiresAt >= now
    ensures Revoked(SweptBlacklist(outstanding, blacklist, now), id) <==> Revoked(blacklist, id)
  {
    var swept := SweptBlacklist(outstanding, blacklist, now);
    if Revoked(blacklist, id) {
      var b :| b in blacklist && blacklist[b].tokenId == id;
      assert b in swept && swept[b].tokenId == id;
    }
  }

  /** The two token tables of the blacklist app. */
  class TokenTables {
    var outstanding: map<nat, OutstandingRow>
    var blacklist: map<nat, BlacklistRow>

    /** Every blacklist row refers to an existing outstanding row. */
    ghost predicate Valid()
      reads this
    {
      forall b :: b in blacklist ==> blacklist[b].tokenId in outstanding
    }

    /** `instance.delete()` on an outstanding row: the blacklist rows referring to it go with it. */
    method DeleteOutstanding(id: nat)
      requires Valid()
      modifies this
      ensures Valid()
      ensures outstanding == Without(old(outstanding), {id})
      ensures blacklist == Pruned(old(blacklist), {}, {id})
    {
      outstanding := Without(outstanding, {id});
      blacklist := Pruned(blacklist, {}, {id});
    }

    /** `BlacklistedToken.objects.get(id=id).delete()`, with a missing row skipped silently. */
    method DeleteBlacklistRow(id: nat)
      requires Valid()
      modifies this`blacklist
      ensures Valid()
      ensures blacklist == Pruned(old(blacklist), {id}, {})
    {
      if id in blacklist {
        RemoveIsPruned(blacklist, id);
        blacklist := blacklist - {id};
      } else {
        assert blacklist == Pruned(blacklist, {id}, {});
      }
    }

    /** `BlacklistedToken.objects.filter(token_id=id).delete()`. */
    method DeleteBlacklistRowsReferring(id: nat)
      requires Valid()
      modifies this`blacklist
      ensures Valid()
      ensures blacklist == Pruned(old(blacklist), {}, {id})
    {
      blacklist := Pruned(blacklist, {}, {id});
    }

    /**
     * clean_expiry_token as written, in both files: for each expired outstanding row, delete
     * the blacklist row whose own id equals the row's id (skipping silently when there is none),
     * then delete the outstanding row.
     */
    method CleanExpiryToken(now: int)
      requires Valid()
      modifies this
      ensures Valid()
      ensures outstanding == Without(old(outstanding), ExpiredIds(old(outstanding), now))
      ensures blacklist == SweptBlacklistAsWritten(old(outstanding), old(blacklist), now)
    {
      var expired := ExpiredIds(outstanding, now);
      var pending := expired;
      ghost var done: set<nat> := {};
      while pending != {}
        invariant Valid()
        invariant pending <= expired && done == expired - pending
        invariant outstanding == Without(old(outstanding), done)
        invariant blacklist == Pruned(old(blacklist), done, done)
        decreases pending
      {
        var id :| id in pending;
        DeleteBlacklistRow(id);
        PrunedTwice(old(blacklist), done, done, {id}, {});
        DeleteOutstanding(id);
        WithoutTwice(old(outstanding), done, {id});
        PrunedTwice(old(blacklist), done + {id}, done, {}, {id});
        pending := pending - {id};
        done := done + {id};
      }
    }

    /**
     * The sweep as evidently intended: for each expired outstanding row, delete the blacklist
     * row referring to it, then the outstanding row.
     */
    method CleanExpiryTokenByReference(now: int)
      requires Valid()
      modifies this
      ensures Valid()
      ensures outstanding == Without(old(outstanding), ExpiredIds(old(outstanding), now))
      ensures blacklist == SweptBlacklist(old(outstanding), old(blacklist), now)
    {
      var expired := ExpiredIds(outstanding, now);
      var pending := expired;
      ghost var done: set<nat> := {};
      while pending != {}
        invariant Valid()
        invariant pending <= expired && done == expired - pending
        invariant outstanding == Without(old(outstanding), done)
        invariant blacklist == Pruned(old(blacklist), {}, done)
        decreases pending
      {
        var id :| id in pending;
        DeleteBlacklistRowsReferring(id);
        PrunedTwice(old(blacklist), {}, done, {}, {id});
        DeleteOutstanding(id);
        WithoutTwice(old(outstanding), done, {id});
        PrunedTwice(old(blacklist), {}, done + {id}, {}, {id});
        pending := pending - {id};
        done := done + {id};
      }
    }
  }
}
