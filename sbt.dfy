/**
 The soulbound-badge handlers: flagging the day's best contribution, the
 per-owner leaderboard counter and status upsert on each mint, and the
 revocation record. The contract's `getStatus` view is an input: the tier
 function the chain answers with at the event's block.
 */
module SbtMapping {
  import opened Entities

  /** handleSBTBestContribution: always records the raw row; flags the
      contribution as best only when it exists, and otherwise changes no
      projected row. */
  function BestContribution(st: Store, e: BestEvent): (r: Store)
    ensures OnlyAt(st.log.bestContributions, r.log.bestContributions, e.topContributionId)
    ensures r.log.bestContributions[e.topContributionId] == BestRecord(e.from, e.timestamp)
    ensures e.topContributionId in st.contributions ==>
      && OnlyAt(st.contributions, r.contributions, e.topContributionId)
      && r.contributions[e.topContributionId] == st.contributions[e.topContributionId].(bestContribution := true)
    ensures e.topContributionId !in st.contributions ==> r.contributions == st.contributions
    ensures r.log == st.log.(bestContributions := r.log.bestContributions)
    ensures r == st.(log := r.log, contributions := r.contributions)
  {
    var id := e.topContributionId;
    UpdateOnlyAt(st.log.bestContributions, id, BestRecord(e.from, e.timestamp));
    var st1 := st.(log := st.log.(bestContributions := st.log.bestContributions[id := BestRecord(e.from, e.timestamp)]));
    if id in st.contributions then
      UpdateOnlyAt(st.contributions, id, st.contributions[id].(bestContribution := true));
      st1.(contributions := st.contributions[id := st.contributions[id].(bestContribution := true)])
    else st1
  }

  /** The number of badges the leaderboard credits to `owner`; zero while it
      has no row. */
  function BadgeCount(st: Store, owner: Address): int
  {
    if owner in st.leaderboards then st.leaderboards[owner].topContributionsCount else 0
  }

  /** The leaderboard row after one more mint to `owner`: a first mint
      creates it with a count of one and the owner's profile username, if a
      profile row exists; a later mint adds one and keeps the username. */
  function Credited(st: Store, owner: Address): (b: Leaderboard)
    ensures b.topContributionsCount == BadgeCount(st, owner) + 1
    ensures owner in st.leaderboards ==> b.username == st.leaderboards[owner].username
    ensures owner !in st.leaderboards && owner in st.profiles ==> b.username == Some(st.profiles[owner].username)
    ensures owner !in st.leaderboards && owner !in st.profiles ==> b.username == None
  {
    if owner !in st.leaderboards then
      var username := if owner in st.profiles then Some(st.profiles[owner].username) else None;
      Leaderboard(username, 1)
    else
      var b := st.leaderboards[owner];
      b.(topContributionsCount := b.topContributionsCount + 1)
  }

  /** handleSBTMinted: records the mint under its log id, credits the owner's
      leaderboard row and upserts the owner's status with the tier the
      contract reports. */
  function Minted(st: Store, logId: LogId, e: TokenRecord, getStatus: Address -> int): (r: Store)
    ensures OnlyAt(st.log.minted, r.log.minted, logId) && r.log.minted[logId] == e
    ensures OnlyAt(st.leaderboards, r.leaderboards, e.owner)
    ensures r.leaderboards[e.owner] == Credited(st, e.owner)
    ensures BadgeCount(r, e.owner) == BadgeCount(st, e.owner) + 1
    ensures e.owner in st.leaderboards ==> r.leaderboards[e.owner].username == st.leaderboards[e.owner].username
    ensures OnlyAt(st.statuses, r.statuses, e.owner) && r.statuses[e.owner] == getStatus(e.owner)
    ensures r.log == st.log.(minted := r.log.minted)
    ensures r == st.(log := r.log, leaderboards := r.leaderboards, statuses := r.statuses)
  {
    var owner := e.owner;
    UpdateOnlyAt(st.log.minted, logId, e);
    UpdateOnlyAt(st.leaderboards, owner, Credited(st, owner));
    UpdateOnlyAt(st.statuses, owner, getStatus(owner));
    st.(log := st.log.(minted := st.log.minted[logId := e]),
        leaderboards := st.leaderboards[owner := Credited(st, owner)],
        statuses := st.statuses[owner := getStatus(owner)])
  }

  /** handleSBTRevoked: records the revocation and nothing else; in particular
      the leaderboard count is not decremented. */
  function Revoked(st: Store, logId: LogId, e: TokenRecord): (r: Store)
    ensures OnlyAt(st.log.revoked, r.log.revoked, logId) && r.log.revoked[logId] == e
    ensures r.leaderboards == st.leaderboards && r.statuses == st.statuses && r.contributions == st.contributions
    ensures r == st.(log := st.log.(revoked := r.log.revoked))
  {
    UpdateOnlyAt(st.log.revoked, logId, e);
    st.(log := st.log.(revoked := st.log.revoked[logId := e]))
  }

  method HandleSBTBestContribution(store: EntityStore, e: BestEvent)
    modifies store`log, store`contributions
    ensures store.Snapshot() == BestContribution(old(store.Snapshot()), e)
  {
    var id := e.topContributionId;
    store.log := store.log.(bestContributions := store.log.bestContributions[id := BestRecord(e.from, e.timestamp)]);
    if id in store.contributions {
      var contribution := store.contributions[id];
      store.contributions := store.contributions[id := contribution.(bestContribution := true)];
    }
  }

  method HandleSBTMinted(store: EntityStore, logId: LogId, e: TokenRecord, getStatus: Address -> int)
    modifies store`log, store`leaderboards, store`statuses
    ensures store.Snapshot() == Minted(old(store.Snapshot()), logId, e, getStatus)
  {
    var owner := e.owner;
    store.log := store.log.(minted := store.log.minted[logId := e]);

    var leaderboard: Leaderboard;
    if owner !in store.leaderboards {
      leaderboard := Leaderboard(None, 1);
      if owner in store.profiles {
        leaderboard := leaderboard.(username := Some(store.profiles[owner].username));
      }
    } else {
      leaderboard := store.leaderboards[owner];
      leaderboard := leaderboard.(topContributionsCount := leaderboard.topContributionsCount + 1);
    }
    var status := getStatus(owner);
    store.statuses := store.statuses[owner := status];
    store.leaderboards := store.leaderboards[owner := leaderboard];
  }

  method HandleSBTRevoked(store: EntityStore, logId: LogId, e: TokenRecord)
    modifies store`log
    ensures store.Snapshot() == Revoked(old(store.Snapshot()), logId, e)
  {
    store.log := store.log.(revoked := store.log.revoked[logId := e]);
  }
}
