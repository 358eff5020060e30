/**
 The indexer as a whole: the events the three contracts emit, the dispatch
 of each event to its handler, the in-order application of an event log,
 and the properties that hold across any sequence of events: the vote
 ledger never holds two live votes of one voter on one contribution, votes
 move by exactly one per vote event, tombstones, the best-contribution flag
 and the denormalised author data are never undone, and leaderboard counts
 equal the number of mints.
 */
module Indexer {
  import opened Entities
  import ContributionMapping
  import ProfileMapping
  import SbtMapping

  /** One event of the AmpliFrensContribution, AmpliFrensProfile or
      AmpliFrensSBT contract. Mint and revoke records are keyed by the
      transaction hash and log index of the event. */
  datatype Event =
    | ContributionCreated(content: ContentRecord)
    | ContributionUpvoted(action: ActionRecord)
    | ContributionDownvoted(action: ActionRecord)
    | ContributionUpdated(content: ContentRecord)
    | ContributionRemoved(action: ActionRecord)
    | ProfileCreated(profile: ProfileRecord)
    | ProfileUpdated(profile: ProfileRecord)
    | ProfileDeleted(stamp: ProfileStamp)
    | ProfileBlacklisted(blacklist: BlacklistRecord)
    | SBTBestContribution(best: BestEvent)
    | SBTMinted(logId: LogId, token: TokenRecord)
    | SBTRevoked(logId: LogId, token: TokenRecord)

  /** The event's handler dereferences a row with `!` and that row is missing. */
  predicate Traps(st: Store, ev: Event)
  {
    match ev
    case ContributionUpvoted(a) => a.contributionId !in st.contributions
    case ContributionDownvoted(a) => a.contributionId !in st.contributions
    case ContributionUpdated(c) => c.contributionId !in st.contributions
    case ContributionRemoved(a) => a.contributionId !in st.contributions
    case ProfileUpdated(p) => p.address !in st.profiles
    case ProfileDeleted(p) => p.address !in st.profiles
    case ProfileBlacklisted(b) => b.address !in st.profiles
    case _ => false
  }

  /** Runs the handler of `ev`. `getStatus` is the contract's tier view at
      the event's block; only SBTMinted consults it. */
  function Apply(st: Store, ev: Event, getStatus: Address -> int): (r: Outcome)
    ensures r.Halted? <==> Traps(st, ev)
  {
    match ev
    case ContributionCreated(c) => Applied(ContributionMapping.Created(st, c))
    case ContributionUpvoted(a) => ContributionMapping.Upvoted(st, a)
    case ContributionDownvoted(a) => ContributionMapping.Downvoted(st, a)
    case ContributionUpdated(c) => ContributionMapping.Updated(st, c)
    case ContributionRemoved(a) => ContributionMapping.Removed(st, a)
    case ProfileCreated(p) => Applied(ProfileMapping.Created(st, p))
    case ProfileUpdated(p) => ProfileMapping.Updated(st, p)
    case ProfileDeleted(p) => ProfileMapping.Deleted(st, p)
    case ProfileBlacklisted(b) => ProfileMapping.Blacklisted(st, b)
    case SBTBestContribution(b) => Applied(SbtMapping.BestContribution(st, b))
    case SBTMinted(logId, t) => Applied(SbtMapping.Minted(st, logId, t, getStatus))
    case SBTRevoked(logId, t) => Applied(SbtMapping.Revoked(st, logId, t))
  }

  /** Applies the events in chain order, the i-th with the tier view
      `views[i]`; indexing stops at the first handler that traps. */
  function Replay(st: Store, evs: seq<Event>, views: seq<Address -> int>): Outcome
    requires |views| == |evs|
    decreases |evs|
  {
    if evs == [] then Applied(st)
    else match Apply(st, evs[0], views[0])
      case Halted => Halted
      case Applied(s) => Replay(s, evs[1..], views[1..])
  }

  /** The event comes from the AmpliFrensContribution contract. */
  predicate IsContributionEvent(ev: Event)
  {
    ev.ContributionCreated? || ev.ContributionUpvoted? || ev.ContributionDownvoted?
    || ev.ContributionUpdated? || ev.ContributionRemoved?
  }

  /** The event comes from the AmpliFrensProfile contract. */
  predicate IsProfileEvent(ev: Event)
  {
    ev.ProfileCreated? || ev.ProfileUpdated? || ev.ProfileDeleted? || ev.ProfileBlacklisted?
  }

  /** Contribution handlers write no profile, leaderboard or status row, and
      only the two vote handlers write the vote ledger. */
  lemma ContributionEventsFrame(st: Store, ev: Event, getStatus: Address -> int)
    requires IsContributionEvent(ev)
    ensures var r := Apply(st, ev, getStatus);
      r.Applied? ==>
        && r.store.profiles == st.profiles && r.store.leaderboards == st.leaderboards
        && r.store.statuses == st.statuses
        && (!ev.ContributionUpvoted? && !ev.ContributionDownvoted? ==>
              r.store.upvotes == st.upvotes && r.store.downvotes == st.downvotes)
  {
  }

  /** Profile handlers write no contribution, vote record, leaderboard or
      status row, so a username copied into a contribution is never changed
      by a later profile edit or tombstone. */
  lemma ProfileEventsFrame(st: Store, ev: Event, getStatus: Address -> int)
    requires IsProfileEvent(ev)
    ensures var r := Apply(st, ev, getStatus);
      r.Applied? ==>
        && r.store.contributions == st.contributions
        && r.store.upvotes == st.upvotes && r.store.downvotes == st.downvotes
        && r.store.leaderboards == st.leaderboards && r.store.statuses == st.statuses
  {
  }

  /** Badge handlers write no vote record or profile, add or drop no
      contribution, and on a contribution row they can only set the best flag.
      They never halt: the tier view `getStatus` is a total function here. */
  lemma BadgeEventsFrame(st: Store, ev: Event, getStatus: Address -> int)
    requires !IsContributionEvent(ev) && !IsProfileEvent(ev)
    ensures var r := Apply(st, ev, getStatus);
      && r.Applied?
      && r.store.upvotes == st.upvotes && r.store.downvotes == st.downvotes
      && r.store.profiles == st.profiles
      && r.store.contributions.Keys == st.contributions.Keys
      && forall id :: id in st.contributions ==>
           r.store.contributions[id] == st.contributions[id]
           || (ev.SBTBestContribution? && r.store.contributions[id] == st.contributions[id].(bestContribution := true))
  {
  }

  // ---------------------------------------------------------------------
  // The vote ledger
  //
  // The one-step lemmas below split on the event's contract and let a frame
  // lemma settle the events that cannot affect the property, which keeps each
  // proof obligation small.

  lemma ApplyKeepsVoteLedger(st: Store, ev: Event, getStatus: Address -> int)
    requires ContributionMapping.VoteLedgerValid(st)
    ensures var r := Apply(st, ev, getStatus);
      r.Applied? ==> ContributionMapping.VoteLedgerValid(r.store)
  {
    if ev.ContributionUpvoted? {
      ContributionMapping.UpvotedKeepsVoteLedger(st, ev.action);
    } else if ev.ContributionDownvoted? {
      ContributionMapping.DownvotedKeepsVoteLedger(st, ev.action);
    } else if IsContributionEvent(ev) {
      ContributionEventsFrame(st, ev, getStatus);
    } else if IsProfileEvent(ev) {
      ProfileEventsFrame(st, ev, getStatus);
    } else {
      BadgeEventsFrame(st, ev, getStatus);
    }
  }

  /** Vote exclusivity holds after any sequence of events that started from a
      valid ledger. */
  lemma {:induction false} ReplayKeepsVoteLedger(st: Store, evs: seq<Event>, views: seq<Address -> int>)
    requires |views| == |evs|
    requires ContributionMapping.VoteLedgerValid(st)
    ensures Replay(st, evs, views).Applied? ==> ContributionMapping.VoteLedgerValid(Replay(st, evs, views).store)
    decreases |evs|
  {
    if evs != [] {
      ApplyKeepsVoteLedger(st, evs[0], views[0]);
      var r := Apply(st, evs[0], views[0]);
      if r.Applied? {
        ReplayKeepsVoteLedger(r.store, evs[1..], views[1..]);
      }
    }
  }

  /** From an empty store, no voter ever holds a live upvote and a live
      downvote on the same contribution. */
  lemma AtMostOneLiveVote(evs: seq<Event>, views: seq<Address -> int>, id: nat, voter: Address)
    requires |views| == |evs|
    requires voter != Dead
    ensures var r := Replay(EmptyStore(), evs, views);
      r.Applied? ==>
        var k := VoteKey(id, voter);
        !(k in r.store.upvotes && r.store.upvotes[k].from == voter
          && k in r.store.downvotes && r.store.downvotes[k].from == voter)
  {
    ReplayKeepsVoteLedger(EmptyStore(), evs, views);
  }

  /** Flipping a vote: an upvote followed by a downvote from the same voter
      leaves the count where it was, the upvote record tombstoned and the
      downvote record live. */
  lemma FlipNetsOneEach(st: Store, id: nat, voter: Address, t1: int, t2: int, v1: Address -> int, v2: Address -> int)
    requires id in st.contributions
    ensures var r := Replay(st, [ContributionUpvoted(ActionRecord(voter, id, t1)),
                                 ContributionDownvoted(ActionRecord(voter, id, t2))], [v1, v2]);
      && r.Applied?
      && id in r.store.contributions
      && r.store.contributions[id].votes == st.contributions[id].votes
      && VoteKey(id, voter) in r.store.upvotes && r.store.upvotes[VoteKey(id, voter)].from == Dead
      && VoteKey(id, voter) in r.store.downvotes
      && r.store.downvotes[VoteKey(id, voter)] == ActionRecord(voter, id, t2)
  {
    var up, down := ActionRecord(voter, id, t1), ActionRecord(voter, id, t2);
    var s1 := ContributionMapping.Upvoted(st, up).store;
    assert s1.contributions[id].votes == st.contributions[id].votes + 1;
    var s2 := ContributionMapping.Downvoted(s1, down).store;
    assert s2.contributions[id].votes == st.contributions[id].votes;
    assert Replay(s1, [ContributionDownvoted(down)], [v2]) == Applied(s2);
  }

  /** Flipping back: a downvote followed by an upvote from the same voter
      also leaves the count where it was, now with the downvote record
      tombstoned and the upvote record live. */
  lemma FlipBackNetsOneEach(st: Store, id: nat, voter: Address, t1: int, t2: int, v1: Address -> int, v2: Address -> int)
    requires id in st.contributions
    ensures var r := Replay(st, [ContributionDownvoted(ActionRecord(voter, id, t1)),
                                 ContributionUpvoted(ActionRecord(voter, id, t2))], [v1, v2]);
      && r.Applied?
      && id in r.store.contributions
      && r.store.contributions[id].votes == st.contributions[id].votes
      && VoteKey(id, voter) in r.store.downvotes && r.store.downvotes[VoteKey(id, voter)].from == Dead
      && VoteKey(id, voter) in r.store.upvotes
      && r.store.upvotes[VoteKey(id, voter)] == ActionRecord(voter, id, t2)
  {
    var down, up := ActionRecord(voter, id, t1), ActionRecord(voter, id, t2);
    var s1 := ContributionMapping.Downvoted(st, down).store;
    assert s1.contributions[id].votes == st.contributions[id].votes - 1;
    var s2 := ContributionMapping.Upvoted(s1, up).store;
    assert s2.contributions[id].votes == st.contributions[id].votes;
    assert Replay(s1, [ContributionUpvoted(up)], [v2]) == Applied(s2);
  }

  // ---------------------------------------------------------------------
  // What no later event undoes on a contribution

  /** `ev` is a ContributionCreated for `id`, the one event that sets every
      field of the row anew (only a username it leaves unset survives). */
  predicate Recreates(ev: Event, id: nat)
  {
    ev.ContributionCreated? && ev.content.contributionId == id
  }

  /** The effect of `ev` on the vote count of contribution `id`. */
  function VoteDelta(ev: Event, id: nat): int
  {
    match ev
    case ContributionUpvoted(a) => if a.contributionId == id then 1 else 0
    case ContributionDownvoted(a) => if a.contributionId == id then -1 else 0
    case _ => 0
  }

  /** Upvote events minus downvote events for `id`. */
  function NetVotes(evs: seq<Event>, id: nat): int
  {
    if evs == [] then 0 else VoteDelta(evs[0], id) + NetVotes(evs[1..], id)
  }

  /** `c2` is a later state of row `c`: a tombstoned author stays the
      sentinel, a best flag stays set, and the id and the data copied from
      the author's profile and status at creation are unchanged. */
  ghost predicate Kept(c: Contribution, c2: Contribution)
  {
    && (c.from == Dead ==> c2.from == Dead)
    && (c.bestContribution ==> c2.bestContribution)
    && c2.contributionId == c.contributionId
    && c2.hasProfile == c.hasProfile
    && c2.username == c.username
    && c2.fromStatus == c.fromStatus
  }

  lemma ApplyKeepsContribution(st: Store, ev: Event, getStatus: Address -> int, id: nat)
    requires id in st.contributions && !Recreates(ev, id)
    ensures var r := Apply(st, ev, getStatus);
      r.Applied? ==>
        && id in r.store.contributions
        && Kept(st.contributions[id], r.store.contributions[id])
        && r.store.contributions[id].votes == st.contributions[id].votes + VoteDelta(ev, id)
  {
    if IsProfileEvent(ev) {
      ProfileEventsFrame(st, ev, getStatus);
    } else if !IsContributionEvent(ev) {
      BadgeEventsFrame(st, ev, getStatus);
    } else {
      match ev
      case ContributionCreated(c) =>
      case ContributionUpvoted(a) =>
      case ContributionDownvoted(a) =>
      case ContributionUpdated(c) =>
      case ContributionRemoved(a) =>
    }
  }

  /** Along any event log without a re-creation of `id`, the row stays
      present, its vote count moves by exactly the net number of vote
      events, and tombstone, best flag and denormalised author data persist. */
  lemma {:induction false} ReplayKeepsContribution(st: Store, evs: seq<Event>, views: seq<Address -> int>, id: nat)
    requires |views| == |evs|
    requires id in st.contributions
    requires forall i :: 0 <= i < |evs| ==> !Recreates(evs[i], id)
    ensures var r := Replay(st, evs, views);
      r.Applied? ==>
        && id in r.store.contributions
        && Kept(st.contributions[id], r.store.contributions[id])
        && r.store.contributions[id].votes == st.contributions[id].votes + NetVotes(evs, id)
    decreases |evs|
  {
    if evs != [] {
      ApplyKeepsContribution(st, evs[0], views[0], id);
      var r := Apply(st, evs[0], views[0]);
      if r.Applied? {
        assert forall i :: 0 <= i < |evs[1..]| ==> evs[1..][i] == evs[i + 1];
        ReplayKeepsContribution(r.store, evs[1..], views[1..], id);
      }
    }
  }

  /** A contribution's vote count is the number of upvote events minus the
      number of downvote events since its creation. */
  lemma VotesSinceCreation(st: Store, e: ContentRecord, evs: seq<Event>, views: seq<Address -> int>)
    requires |views| == |evs|
    requires forall i :: 0 <= i < |evs| ==> !Recreates(evs[i], e.contributionId)
    ensures var r := Replay(ContributionMapping.Created(st, e), evs, views);
      r.Applied? ==>
        && e.contributionId in r.store.contributions
        && r.store.contributions[e.contributionId].votes == NetVotes(evs, e.contributionId)
  {
    ReplayKeepsContribution(ContributionMapping.Created(st, e), evs, views, e.contributionId);
  }

  // ---------------------------------------------------------------------
  // Profiles

  /** `ev` is a ProfileCreated for `a`, the one event that rewrites the row. */
  predicate RecreatesProfile(ev: Event, a: Address)
  {
    ev.ProfileCreated? && ev.profile.address == a
  }

  lemma ApplyKeepsProfileTombstone(st: Store, ev: Event, getStatus: Address -> int, a: Address)
    requires a in st.profiles && st.profiles[a].address == Dead && !RecreatesProfile(ev, a)
    ensures var r := Apply(st, ev, getStatus);
      r.Applied? ==> a in r.store.profiles && r.store.profiles[a].address == Dead
  {
    if IsContributionEvent(ev) {
      ContributionEventsFrame(st, ev, getStatus);
    } else if !IsProfileEvent(ev) {
      BadgeEventsFrame(st, ev, getStatus);
    } else {
      match ev
      case ProfileCreated(p) =>
      case ProfileUpdated(p) =>
      case ProfileDeleted(p) =>
      case ProfileBlacklisted(b) =>
    }
  }

  /** A deleted or blacklisted profile stays tombstoned along any event log
      without a new ProfileCreated for that address. */
  lemma {:induction false} ReplayKeepsProfileTombstone(st: Store, evs: seq<Event>, views: seq<Address -> int>, a: Address)
    requires |views| == |evs|
    requires a in st.profiles && st.profiles[a].address == Dead
    requires forall i :: 0 <= i < |evs| ==> !RecreatesProfile(evs[i], a)
    ensures var r := Replay(st, evs, views);
      r.Applied? ==> a in r.store.profiles && r.store.profiles[a].address == Dead
    decreases |evs|
  {
    if evs != [] {
      ApplyKeepsProfileTombstone(st, evs[0], views[0], a);
      var r := Apply(st, evs[0], views[0]);
      if r.Applied? {
        assert forall i :: 0 <= i < |evs[1..]| ==> evs[1..][i] == evs[i + 1];
        ReplayKeepsProfileTombstone(r.store, evs[1..], views[1..], a);
      }
    }
  }

  // ---------------------------------------------------------------------
  // The badge leaderboard

  /** The number of SBTMinted events for `owner`. */
  function MintCount(evs: seq<Event>, owner: Address): nat
  {
    if evs == [] then 0
    else (if evs[0].SBTMinted? && evs[0].token.owner == owner then 1 else 0) + MintCount(evs[1..], owner)
  }

  lemma ApplyCountsMint(st: Store, ev: Event, getStatus: Address -> int, owner: Address)
    ensures var r := Apply(st, ev, getStatus);
      var minted := if ev.SBTMinted? && ev.token.owner == owner then 1 else 0;
      r.Applied? ==>
        && SbtMapping.BadgeCount(r.store, owner) == SbtMapping.BadgeCount(st, owner) + minted
        && (owner in r.store.leaderboards <==> owner in st.leaderboards || minted > 0)
  {
    if IsContributionEvent(ev) {
      ContributionEventsFrame(st, ev, getStatus);
    } else if IsProfileEvent(ev) {
      ProfileEventsFrame(st, ev, getStatus);
    } else {
      match ev
      case SBTBestContribution(b) =>
      case SBTMinted(logId, t) =>
      case SBTRevoked(logId, t) =>
    }
  }

  /** Each mint adds one to its owner's badge count, no other event changes
      any count, and an owner has a leaderboard row once minted to. */
  lemma {:induction false} ReplayCountsMints(st: Store, evs: seq<Event>, views: seq<Address -> int>, owner: Address)
    requires |views| == |evs|
    ensures var r := Replay(st, evs, views);
      r.Applied? ==>
        && SbtMapping.BadgeCount(r.store, owner) == SbtMapping.BadgeCount(st, owner) + MintCount(evs, owner)
        && (owner in r.store.leaderboards <==> owner in st.leaderboards || MintCount(evs, owner) > 0)
    decreases |evs|
  {
    if evs != [] {
      ApplyCountsMint(st, evs[0], views[0], owner);
      var r := Apply(st, evs[0], views[0]);
      if r.Applied? {
        ReplayCountsMints(r.store, evs[1..], views[1..], owner);
      }
    }
  }

  /** Starting from an empty store, an owner's leaderboard count is exactly
      the number of badges minted to it, and the row exists exactly when
      there was at least one. */
  lemma LeaderboardCountsMints(evs: seq<Event>, views: seq<Address -> int>, owner: Address)
    requires |views| == |evs|
    ensures var r := Replay(EmptyStore(), evs, views);
      r.Applied? ==>
        && (owner in r.store.leaderboards <==> MintCount(evs, owner) > 0)
        && (owner in r.store.leaderboards ==> r.store.leaderboards[owner].topContributionsCount == MintCount(evs, owner))
  {
    ReplayCountsMints(EmptyStore(), evs, views, owner);
  }

  // ---------------------------------------------------------------------
  // The dispatching handler on the mutable store

  method HandleEvent(store: EntityStore, ev: Event, getStatus: Address -> int) returns (applied: bool)
    modifies store
    ensures applied == Apply(old(store.Snapshot()), ev, getStatus).Applied?
    ensures applied ==> store.Snapshot() == Apply(old(store.Snapshot()), ev, getStatus).store
    ensures !applied ==> store.Snapshot() == old(store.Snapshot())
  {
    ghost var before := store.Snapshot();
    match ev {
      case ContributionCreated(c) =>
        assert Apply(before, ev, getStatus) == Applied(ContributionMapping.Created(before, c));
        ContributionMapping.HandleContributionCreated(store, c);
        applied := true;
      case ContributionUpvoted(a) =>
        assert Apply(before, ev, getStatus) == ContributionMapping.Upvoted(before, a);
        applied := ContributionMapping.HandleContributionUpvoted(store, a);
      case ContributionDownvoted(a) =>
        assert Apply(before, ev, getStatus) == ContributionMapping.Downvoted(before, a);
        applied := ContributionMapping.HandleContributionDownvoted(store, a);
      case ContributionUpdated(c) =>
        assert Apply(before, ev, getStatus) == ContributionMapping.Updated(before, c);
        applied := ContributionMapping.HandleContributionUpdated(store, c);
      case ContributionRemoved(a) =>
        assert Apply(before, ev, getStatus) == ContributionMapping.Removed(before, a);
        applied := ContributionMapping.HandleContributionRemoved(store, a);
      case ProfileCreated(p) =>
        assert Apply(before, ev, getStatus) == Applied(ProfileMapping.Created(before, p));
        ProfileMapping.HandleProfileCreated(store, p);
        applied := true;
      case ProfileUpdated(p) =>
        assert Apply(before, ev, getStatus) == ProfileMapping.Updated(before, p);
        applied := ProfileMapping.HandleProfileUpdated(store, p);
      case ProfileDeleted(p) =>
        assert Apply(before, ev, getStatus) == ProfileMapping.Deleted(before, p);
        applied := ProfileMapping.HandleProfileDeleted(store, p);
      case ProfileBlacklisted(b) =>
        assert Apply(before, ev, getStatus) == ProfileMapping.Blacklisted(before, b);
        applied := ProfileMapping.HandleProfileBlacklisted(store, b);
      case SBTBestContribution(b) =>
        assert Apply(before, ev, getStatus) == Applied(SbtMapping.BestContribution(before, b));
        SbtMapping.HandleSBTBestContribution(store, b);
        applied := true;
      case SBTMinted(logId, t) =>
        assert Apply(before, ev, getStatus) == Applied(SbtMapping.Minted(before, logId, t, getStatus));
        SbtMapping.HandleSBTMinted(store, logId, t, getStatus);
        applied := true;
      case SBTRevoked(logId, t) =>
        assert Apply(before, ev, getStatus) == Applied(SbtMapping.Revoked(before, logId, t));
        SbtMapping.HandleSBTRevoked(store, logId, t);
        applied := true;
    }
  }
}
