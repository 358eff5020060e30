/**
 The entity store of the AmpliFrens subgraph: the schema of every projected
 and raw entity the mapping handlers write, the store as one value, and the
 mutable store object the handlers update in place.
 */
module Entities {

  datatype Option<+T> = None | Some(value: T)

  /** A 20-byte account address. Rows are keyed by an address's hex string;
      that conversion is injective, so the address itself serves as key. */
  type Address = a: nat | a < 0x1_0000_0000_0000_0000_0000_0000_0000_0000_0000_0000

  /** The sentinel 0x000000000000000000000000000000000000dEaD written over an
      author or owner to tombstone a row. */
  const Dead: Address := 0xdead

  /** Key `contributionId + "-" + voterHex` of a vote record. */
  datatype VoteKey = VoteKey(contributionId: nat, voter: Address)

  /** Key `txHashHex + "-" + logIndex` of a minted or revoked token record. */
  datatype LogId = LogId(txHash: nat, logIndex: nat)

  /** The projected Contribution entity. */
  datatype Contribution = Contribution(
    from: Address,
    contributionId: nat,
    timestamp: int,
    category: int,
    title: string,
    url: string,
    votes: int,
    hasProfile: bool,
    username: Option<string>,
    bestContribution: bool,
    fromStatus: int)

  /** The projected Profile entity. */
  datatype Profile = Profile(address: Address, username: string, timestamp: int)

  /** The projected SBTLeaderboard entity; `username` is unset when the owner
      had no profile at its creation. */
  datatype Leaderboard = Leaderboard(username: Option<string>, topContributionsCount: int)

  /** Payload of ContributionCreated / ContributionUpdated, and the raw row
      that records it. */
  datatype ContentRecord = ContentRecord(
    from: Address, contributionId: nat, timestamp: int, category: int, title: string, url: string)

  /** Payload of ContributionUpvoted / ContributionDownvoted / ContributionRemoved,
      and the raw row that records it. */
  datatype ActionRecord = ActionRecord(from: Address, contributionId: nat, timestamp: int)

  /** Payload of ProfileCreated / ProfileUpdated; also the ProfileCreated raw row. */
  datatype ProfileRecord = ProfileRecord(address: Address, username: string, timestamp: int)

  /** Payload of ProfileDeleted; also the ProfileUpdated and ProfileDeleted raw rows. */
  datatype ProfileStamp = ProfileStamp(address: Address, timestamp: int)

  /** Payload of ProfileBlacklisted, and its raw row. */
  datatype BlacklistRecord = BlacklistRecord(address: Address, reason: string, timestamp: int)

  /** Payload of SBTBestContribution. */
  datatype BestEvent = BestEvent(topContributionId: nat, from: Address, timestamp: int)

  /** The SBTBestContribution raw row. */
  datatype BestRecord = BestRecord(from: Address, timestamp: int)

  /** The SBTMinted / SBTRevoked raw row. */
  datatype TokenRecord = TokenRecord(owner: Address, tokenId: nat, timestamp: int)

  /** The raw rows that record each event as emitted, one table per event
      kind. Handlers only ever write these by key. */
  datatype AuditLog = AuditLog(
    contributionCreated: map<nat, ContentRecord>,
    contributionUpdated: map<nat, ContentRecord>,
    contributionRemoved: map<nat, ActionRecord>,
    profileCreated: map<Address, ProfileRecord>,
    profileUpdated: map<Address, ProfileStamp>,
    profileDeleted: map<Address, ProfileStamp>,
    profileBlacklisted: map<Address, BlacklistRecord>,
    bestContributions: map<nat, BestRecord>,
    minted: map<LogId, TokenRecord>,
    revoked: map<LogId, TokenRecord>)

  /** Every table of the store: the projected entities, the vote ledger (the
      ContributionUpvoted and ContributionDownvoted rows, which handlers
      tombstone in place) and the audit log. */
  datatype Store = Store(
    contributions: map<nat, Contribution>,
    upvotes: map<VoteKey, ActionRecord>,
    downvotes: map<VoteKey, ActionRecord>,
    profiles: map<Address, Profile>,
    leaderboards: map<Address, Leaderboard>,
    statuses: map<Address, int>,
    log: AuditLog)

  /** What a handler does to the store: it completes, or a non-null assertion
      on a missing row traps, the host discards the handler's writes and
      indexing halts. */
  datatype Outcome = Applied(store: Store) | Halted

  function EmptyStore(): (s: Store)
    ensures s.contributions == map[] && s.profiles == map[] && s.leaderboards == map[]
    ensures s.upvotes == map[] && s.downvotes == map[]
  {
    Store(map[], map[], map[], map[], map[], map[],
          AuditLog(map[], map[], map[], map[], map[], map[], map[], map[], map[], map[]))
  }

  /** `m2` is `m` with the row at key `k` inserted or replaced, and no other row changed. */
  ghost predicate OnlyAt<K, V>(m: map<K, V>, m2: map<K, V>, k: K)
  {
    && k in m2
    && (forall x :: x in m2 ==> x in m || x == k)
    && forall x :: x in m && x != k ==> x in m2 && m2[x] == m[x]
  }

  lemma UpdateOnlyAt<K, V>(m: map<K, V>, k: K, v: V)
    ensures OnlyAt(m, m[k := v], k) && m[k := v][k] == v
  {
  }

  /** The store as the handlers see it: one mutable table per projected
      entity, the vote ledger, and the audit log. */
  class EntityStore {
    var contributions: map<nat, Contribution>
    var upvotes: map<VoteKey, ActionRecord>
    var downvotes: map<VoteKey, ActionRecord>
    var profiles: map<Address, Profile>
    var leaderboards: map<Address, Leaderboard>
    var statuses: map<Address, int>
    var log: AuditLog

    /** The value of every table. */
    function Snapshot(): Store
      reads this
    {
      Store(contributions, upvotes, downvotes, profiles, leaderboards, statuses, log)
    }

    constructor ()
      ensures Snapshot() == EmptyStore()
    {
      contributions, upvotes, downvotes := map[], map[], map[];
      profiles, leaderboards, statuses := map[], map[], map[];
      log := AuditLog(map[], map[], map[], map[], map[], map[], map[], map[], map[], map[]);
    }
  }
}
