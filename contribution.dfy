/**
 The Contribution handlers: creation with denormalised author data, the vote
 ledger with its flip tombstones, content edits, and removal by tombstone.
 Each handler is a function on the store, which is its specification, and a
 method that performs it on an EntityStore.
 */
module ContributionMapping {
  import opened Entities

  /** `m2` is `m` with the record at `k`, if any, tombstoned, and nothing else changed. */
  ghost predicate TombstonedAt(m: map<VoteKey, ActionRecord>, m2: map<VoteKey, ActionRecord>, k: VoteKey)
  {
    && m2.Keys == m.Keys
    && (k in m ==> m2[k] == m[k].(from := Dead))
    && forall x :: x in m && x != k ==> m2[x] == m[x]
  }

  /** The vote ledger is consistent: every vote record holds its own voter
      or the dead sentinel, and no (contribution, voter) key has both a live
      upvote and a live downvote. */
  ghost predicate VoteLedgerValid(st: Store)
  {
    && (forall k :: k in st.upvotes ==> st.upvotes[k].from == k.voter || st.upvotes[k].from == Dead)
    && (forall k :: k in st.downvotes ==> st.downvotes[k].from == k.voter || st.downvotes[k].from == Dead)
    && (forall k :: k in st.upvotes && k in st.downvotes ==>
          st.upvotes[k].from == Dead || st.downvotes[k].from == Dead)
  }

  /** handleContributionCreated: a fresh row with no votes, the author's profile
      username and status copied as they stand now, and the raw row. The host
      merges a saved entity into a row already stored under its id, so when
      the author has no profile the username the new entity leaves unset keeps
      its stored value. */
  function Created(st: Store, e: ContentRecord): (r: Store)
    ensures OnlyAt(st.contributions, r.contributions, e.contributionId)
    ensures var c := r.contributions[e.contributionId];
      && c.from == e.from && c.contributionId == e.contributionId && c.timestamp == e.timestamp
      && c.category == e.category && c.title == e.title && c.url == e.url
      && c.votes == 0 && !c.bestContribution
      && (c.hasProfile <==> e.from in st.profiles)
      && (c.hasProfile ==> c.username == Some(st.profiles[e.from].username))
      && (!c.hasProfile && e.contributionId in st.contributions ==>
            c.username == st.contributions[e.contributionId].username)
      && (!c.hasProfile && e.contributionId !in st.contributions ==> c.username == None)
      && (e.from in st.statuses ==> c.fromStatus == st.statuses[e.from])
      && (e.from !in st.statuses ==> c.fromStatus == 0)
    ensures OnlyAt(st.log.contributionCreated, r.log.contributionCreated, e.contributionId)
    ensures r.log.contributionCreated[e.contributionId] == e
    ensures r.log == st.log.(contributionCreated := r.log.contributionCreated)
    ensures r == st.(contributions := r.contributions, log := r.log)
  {
    var id := e.contributionId;
    var hasProfile := e.from in st.profiles;
    var username := if hasProfile then Some(st.profiles[e.from].username)
                    else if id in st.contributions then st.contributions[id].username
                    else None;
    var fromStatus := if e.from in st.statuses then st.statuses[e.from] else 0;
    var c := Contribution(e.from, id, e.timestamp, e.category, e.title, e.url, 0,
                          hasProfile, username, false, fromStatus);
    UpdateOnlyAt(st.log.contributionCreated, id, e);
    UpdateOnlyAt(st.contributions, id, c);
    st.(log := st.log.(contributionCreated := st.log.contributionCreated[id := e]),
        contributions := st.contributions[id := c])
  }

  /** handleContributionUpvoted: records the upvote, tombstones the same voter's
      downvote on this contribution, and adds exactly one vote. Halts when the
      contribution does not exist. */
  function Upvoted(st: Store, e: ActionRecord): (r: Outcome)
    ensures r.Halted? <==> e.contributionId !in st.contributions
    ensures r.Applied? ==>
      OnlyAt(st.upvotes, r.store.upvotes, VoteKey(e.contributionId, e.from))
      && r.store.upvotes[VoteKey(e.contributionId, e.from)] == e
    ensures r.Applied? ==> TombstonedAt(st.downvotes, r.store.downvotes, VoteKey(e.contributionId, e.from))
    ensures r.Applied? ==>
      var id := e.contributionId;
      && OnlyAt(st.contributions, r.store.contributions, id)
      && r.store.contributions[id].votes == st.contributions[id].votes + 1
      && r.store.contributions[id] == st.contributions[id].(votes := r.store.contributions[id].votes)
    ensures r.Applied? ==>
      r.store == st.(upvotes := r.store.upvotes, downvotes := r.store.downvotes, contributions := r.store.contributions)
  {
    var id, key := e.contributionId, VoteKey(e.contributionId, e.from);
    if id !in st.contributions then Halted
    else
      var downvotes := if key in st.downvotes
                       then st.downvotes[key := st.downvotes[key].(from := Dead)]
                       else st.downvotes;
      var c := st.contributions[id];
      Applied(st.(upvotes := st.upvotes[key := e], downvotes := downvotes,
                  contributions := st.contributions[id := c.(votes := c.votes + 1)]))
  }

  /** handleContributionDownvoted: records the downvote, tombstones the same
      voter's upvote on this contribution, and removes exactly one vote. Halts
      when the contribution does not exist. */
  function Downvoted(st: Store, e: ActionRecord): (r: Outcome)
    ensures r.Halted? <==> e.contributionId !in st.contributions
    ensures r.Applied? ==>
      OnlyAt(st.downvotes, r.store.downvotes, VoteKey(e.contributionId, e.from))
      && r.store.downvotes[VoteKey(e.contributionId, e.from)] == e
    ensures r.Applied? ==> TombstonedAt(st.upvotes, r.store.upvotes, VoteKey(e.contributionId, e.from))
    ensures r.Applied? ==>
      var id := e.contributionId;
      && OnlyAt(st.contributions, r.store.contributions, id)
      && r.store.contributions[id].votes == st.contributions[id].votes - 1
      && r.store.contributions[id] == st.contributions[id].(votes := r.store.contributions[id].votes)
    ensures r.Applied? ==>
      r.store == st.(upvotes := r.store.upvotes, downvotes := r.store.downvotes, contributions := r.store.contributions)
  {
    var id, key := e.contributionId, VoteKey(e.contributionId, e.from);
    if id !in st.contributions then Halted
    else
      var upvotes := if key in st.upvotes
                     then st.upvotes[key := st.upvotes[key].(from := Dead)]
                     else st.upvotes;
      var c := st.contributions[id];
      Applied(st.(downvotes := st.downvotes[key := e], upvotes := upvotes,
                  contributions := st.contributions[id := c.(votes := c.votes - 1)]))
  }

  /** An upvote keeps the vote ledger consistent: the voter's new upvote is
      live and the same voter's downvote on that contribution is tombstoned. */
  lemma UpvotedKeepsVoteLedger(st: Store, e: ActionRecord)
    requires VoteLedgerValid(st)
    ensures Upvoted(st, e).Applied? ==> VoteLedgerValid(Upvoted(st, e).store)
  {
  }

  /** A downvote keeps the vote ledger consistent, symmetrically. */
  lemma DownvotedKeepsVoteLedger(st: Store, e: ActionRecord)
    requires VoteLedgerValid(st)
    ensures Downvoted(st, e).Applied? ==> VoteLedgerValid(Downvoted(st, e).store)
  {
  }

  /** handleContributionUpdated: overwrites the content fields and nothing else
      of the row. Halts when the contribution does not exist. */
  function Updated(st: Store, e: ContentRecord): (r: Outcome)
    ensures r.Halted? <==> e.contributionId !in st.contributions
    ensures r.Applied? ==>
      var s, id := r.store, e.contributionId;
      && OnlyAt(st.contributions, s.contributions, id)
      && var c, c2 := st.contributions[id], s.contributions[id];
      && c2.timestamp == e.timestamp && c2.category == e.category
      && c2.title == e.title && c2.url == e.url
      && c2.votes == c.votes && c2.from == c.from && c2.contributionId == c.contributionId
      && c2.bestContribution == c.bestContribution && c2.hasProfile == c.hasProfile
      && c2.username == c.username && c2.fromStatus == c.fromStatus
      && OnlyAt(st.log.contributionUpdated, s.log.contributionUpdated, id) && s.log.contributionUpdated[id] == e
      && s.log == st.log.(contributionUpdated := s.log.contributionUpdated)
      && s == st.(contributions := s.contributions, log := s.log)
  {
    var id := e.contributionId;
    if id !in st.contributions then Halted
    else
      var c := st.contributions[id];
      var c2 := c.(timestamp := e.timestamp, category := e.category, title := e.title, url := e.url);
      Applied(st.(log := st.log.(contributionUpdated := st.log.contributionUpdated[id := e]),
                  contributions := st.contributions[id := c2]))
  }

  /** handleContributionRemoved: tombstones the author; the row keeps all its
      other fields and stays retrievable. Halts when the contribution does not
      exist. */
  function Removed(st: Store, e: ActionRecord): (r: Outcome)
    ensures r.Halted? <==> e.contributionId !in st.contributions
    ensures r.Applied? ==>
      var s, id := r.store, e.contributionId;
      && OnlyAt(st.contributions, s.contributions, id)
      && s.contributions[id].from == Dead
      && s.contributions[id] == st.contributions[id].(from := s.contributions[id].from)
      && OnlyAt(st.log.contributionRemoved, s.log.contributionRemoved, id) && s.log.contributionRemoved[id] == e
      && s.log == st.log.(contributionRemoved := s.log.contributionRemoved)
      && s == st.(contributions := s.contributions, log := s.log)
  {
    var id := e.contributionId;
    if id !in st.contributions then Halted
    else
      Applied(st.(log := st.log.(contributionRemoved := st.log.contributionRemoved[id := e]),
                  contributions := st.contributions[id := st.contributions[id].(from := Dead)]))
  }

  method HandleContributionCreated(store: EntityStore, e: ContentRecord)
    modifies store`log, store`contributions
    ensures store.Snapshot() == Created(old(store.Snapshot()), e)
  {
    var id := e.contributionId;
    store.log := store.log.(contributionCreated := store.log.contributionCreated[id := e]);

    var contribution := Contribution(e.from, id, e.timestamp, e.category, e.title, e.url,
                                     0, false, None, false, 0);
    if e.from in store.profiles {
      contribution := contribution.(hasProfile := true, username := Some(store.profiles[e.from].username));
    } else if id in store.contributions {
      // saving over a stored row keeps the field the new entity leaves unset
      contribution := contribution.(username := store.contributions[id].username);
    }
    contribution := contribution.(fromStatus := if e.from in store.statuses then store.statuses[e.from] else 0);
    store.contributions := store.contributions[id := contribution];
  }

  // In the four handlers below the source dereferences the loaded row with `!`.
  // On a missing row that traps after the raw row was saved; the host then
  // discards every write of the handler and stops indexing, so the methods
  // test for the row first and write nothing when it is missing.

  method HandleContributionUpvoted(store: EntityStore, e: ActionRecord) returns (applied: bool)
    modifies store`upvotes, store`downvotes, store`contributions
    ensures applied == Upvoted(old(store.Snapshot()), e).Applied?
    ensures applied ==> store.Snapshot() == Upvoted(old(store.Snapshot()), e).store
    ensures !applied ==> store.Snapshot() == old(store.Snapshot())
  {
    var id, key := e.contributionId, VoteKey(e.contributionId, e.from);
    if id !in store.contributions {
      return false;
    }
    store.upvotes := store.upvotes[key := e];
    if key in store.downvotes {
      store.downvotes := store.downvotes[key := store.downvotes[key].(from := Dead)];
    }
    var contribution := store.contributions[id];
    store.contributions := store.contributions[id := contribution.(votes := contribution.votes + 1)];
    applied := true;
  }

  method HandleContributionDownvoted(store: EntityStore, e: ActionRecord) returns (applied: bool)
    modifies store`upvotes, store`downvotes, store`contributions
    ensures applied == Downvoted(old(store.Snapshot()), e).Applied?
    ensures applied ==> store.Snapshot() == Downvoted(old(store.Snapshot()), e).store
    ensures !applied ==> store.Snapshot() == old(store.Snapshot())
  {
    var id, key := e.contributionId, VoteKey(e.contributionId, e.from);
    if id !in store.contributions {
      return false;
    }
    store.downvotes := store.downvotes[key := e];
    if key in store.upvotes {
      store.upvotes := store.upvotes[key := store.upvotes[key].(from := Dead)];
    }
    var contribution := store.contributions[id];
    store.contributions := store.contributions[id := contribution.(votes := contribution.votes - 1)];
    applied := true;
  }

  method HandleContributionUpdated(store: EntityStore, e: ContentRecord) returns (applied: bool)
    modifies store`log, store`contributions
    ensures applied == Updated(old(store.Snapshot()), e).Applied?
    ensures applied ==> store.Snapshot() == Updated(old(store.Snapshot()), e).store
    ensures !applied ==> store.Snapshot() == old(store.Snapshot())
  {
    var id := e.contributionId;
    if id !in store.contributions {
      return false;
    }
    store.log := store.log.(contributionUpdated := store.log.contributionUpdated[id := e]);
    var contribution := store.contributions[id];
    contribution := contribution.(timestamp := e.timestamp, category := e.category, title := e.title, url := e.url);
    store.contributions := store.contributions[id := contribution];
    applied := true;
  }

  method HandleContributionRemoved(store: EntityStore, e: ActionRecord) returns (applied: bool)
    modifies store`log, store`contributions
    ensures applied == Removed(old(store.Snapshot()), e).Applied?
    ensures applied ==> store.Snapshot() == Removed(old(store.Snapshot()), e).store
    ensures !applied ==> store.Snapshot() == old(store.Snapshot())
  {
    var id := e.contributionId;
    if id !in store.contributions {
      return false;
    }
    store.log := store.log.(contributionRemoved := store.log.contributionRemoved[id := e]);
    store.contributions := store.contributions[id := store.contributions[id].(from := Dead)];
    applied := true;
  }
}
