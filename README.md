# AmpliFrens subgraph mappings in Dafny

This project models the off-chain indexer of AmpliFrens: the three subgraph
mapping files that turn events of the AmpliFrensContribution,
AmpliFrensProfile and AmpliFrensSBT contracts into rows of a keyed entity
store. Each `handleX` function loads rows by id, changes their fields and
saves them back. The properties proved are the ones the indexer relies on:

- each vote event moves a contribution's `votes` by exactly one;
- the vote ledger never holds a live upvote and a live downvote of one voter
  on one contribution;
- every handler writes only the rows keyed by its own id, vote key or owner;
- tombstones (the `0x…dEaD` sentinel written over an author or owner), the
  best-contribution flag and the author data copied at creation are never
  undone by a later event, except a new creation event at the same key,
  which sets the row's fields anew;
- leaderboard counts equal the number of badge mints.

Layout:

- `entities.dfy` (module `Entities`) holds the entity schema. `Address` is a
  160-bit number and `Dead` is the sentinel `0x…dEaD`. The store is one
  value, `Store`: a map per projected entity, the vote ledger and an
  `AuditLog` of raw event rows. `EntityStore` is the mutable store the
  handlers update in place.
- `contribution.dfy`, `profile.dfy` and `sbt.dfy` model one mapping file
  each. Every handler appears twice:
  - as a function on `Store`, which is its specification and carries the
    handler's contract;
  - as a method on `EntityStore` that performs the same steps in place and
    is proved equal to that function.
- `indexer.dfy` (module `Indexer`) holds:
  - the event union and `Apply`, which dispatches an event to its handler;
  - `Replay`, which applies an event log in chain order;
  - the lemmas that hold across any sequence of events;
  - `HandleEvent`, the dispatching method on `EntityStore`.

Modelling decisions:

- **Keys.** Rows are keyed by an address's hex string. That conversion is
  injective, so the address itself is the key. The vote key
  `contributionId + "-" + voterHex` is the pair `VoteKey(id, voter)`. The
  mint and revoke key `txHash + "-" + logIndex` is `LogId(txHash, logIndex)`.
- **Missing rows.** A handler that dereferences a missing row with `!` traps.
  The host then discards all of that handler's writes, including the raw row
  it had already saved, and indexing stops. The functions return `Halted`
  in that case. The methods check for the row first, return `false` and
  leave the store unchanged.
- **Re-creation.** `new X(id).save()` on an id that is already used merges
  the new entity into the stored row: every field the new entity sets is
  replaced, and a field it leaves unset keeps its stored value. A
  ProfileCreated sets every profile field, so it revives a deleted or
  blacklisted profile. A second ContributionCreated for an id sets every
  contribution field except `username` when the author has no profile; that
  username keeps its stored value. The persistence lemmas are stated for
  event logs without such a re-creation.
- **What `votes` counts.** `votes` equals the number of upvote events minus
  the number of downvote events since creation (`VotesSinceCreation`). It is
  not the number of live upvote records minus live downvote records:
  - after a voter flips from up to down, the count is back where it was
    (`FlipNetsOneEach`);
  - yet that voter now holds one live downvote and no live upvote.
- **Profile lookups.** `hasProfile` and the leaderboard `username` come from
  the profile row whenever one exists, even a tombstoned one, because the
  handlers look profiles up only by key.

## Model

| member | source | states |
|---|---|---|
| ContributionMapping.Created | subgraph/src/ampli-frens-contribution.ts:22-55 | the new row has the event's author, content and time, zero votes and no best flag; `hasProfile` holds exactly when the author has a profile row, and then `username` is that profile's; without a profile `username` is unset on a new id and keeps its stored value on a re-created one; `fromStatus` is the author's stored status or 0; the raw row is the event; nothing else changes |
| ContributionMapping.Upvoted | subgraph/src/ampli-frens-contribution.ts:113-131 | halts exactly when the contribution is missing; otherwise it stores the upvote under (id, voter), tombstones that key's downvote if any, raises `votes` by exactly 1, changes no other field or row |
| ContributionMapping.Downvoted | subgraph/src/ampli-frens-contribution.ts:57-77 | halts exactly when the contribution is missing; otherwise it stores the downvote under (id, voter), tombstones that key's upvote if any, lowers `votes` by exactly 1, changes no other field or row |
| ContributionMapping.UpvotedKeepsVoteLedger | subgraph/src/ampli-frens-contribution.ts:113-126 | after an upvote, every vote record still holds its voter or the sentinel, and no key has two live records |
| ContributionMapping.DownvotedKeepsVoteLedger | subgraph/src/ampli-frens-contribution.ts:57-72 | the same for a downvote |
| ContributionMapping.Updated | subgraph/src/ampli-frens-contribution.ts:93-111 | halts exactly when the contribution is missing; otherwise it overwrites timestamp, category, title and url only; votes, author, best flag, hasProfile, username and fromStatus are kept; the raw row is the event |
| ContributionMapping.Removed | subgraph/src/ampli-frens-contribution.ts:79-91 | halts exactly when the contribution is missing; otherwise the author becomes the sentinel, every other field is kept and the row stays under its id |
| ContributionMapping.HandleContributionCreated | subgraph/src/ampli-frens-contribution.ts:22-55 | the in-place handler leaves exactly the store `Created` specifies |
| ContributionMapping.HandleContributionUpvoted | subgraph/src/ampli-frens-contribution.ts:113-131 | reports whether the handler completed; if so the store is exactly `Upvoted`'s, otherwise unchanged |
| ContributionMapping.HandleContributionDownvoted | subgraph/src/ampli-frens-contribution.ts:57-77 | the same against `Downvoted` |
| ContributionMapping.HandleContributionUpdated | subgraph/src/ampli-frens-contribution.ts:93-111 | the same against `Updated` |
| ContributionMapping.HandleContributionRemoved | subgraph/src/ampli-frens-contribution.ts:79-91 | the same against `Removed` |
| ProfileMapping.Created | subgraph/src/ampli-frens-profile.ts:27-41 | the profile under the address has that address, the event's username and time; the ProfileCreated raw row is the event under the same key; nothing else changes |
| ProfileMapping.Updated | subgraph/src/ampli-frens-profile.ts:57-69 | halts exactly when the profile is missing; otherwise only username and timestamp change and the stored address is kept, so a tombstone stays; the raw row holds address and time |
| ProfileMapping.Tombstoned | subgraph/src/ampli-frens-profile.ts:51-54 | a tombstoned profile has the sentinel address, the event's time and its old username |
| ProfileMapping.Deleted | subgraph/src/ampli-frens-profile.ts:43-55 | halts exactly when the profile is missing; otherwise the profile is tombstoned and the deletion recorded; nothing else changes |
| ProfileMapping.Blacklisted | subgraph/src/ampli-frens-profile.ts:12-25 | halts exactly when the profile is missing; otherwise the same tombstone, recorded as a blacklisting with its reason |
| ProfileMapping.DeleteAndBlacklistAgree | subgraph/src/ampli-frens-profile.ts:12-55 | Deleted and Blacklisted halt alike and leave the same profiles and store; only the raw table they write differs |
| ProfileMapping.HandleProfileCreated | subgraph/src/ampli-frens-profile.ts:27-41 | the in-place handler leaves exactly the store `Created` specifies |
| ProfileMapping.HandleProfileUpdated | subgraph/src/ampli-frens-profile.ts:57-69 | reports whether the handler completed; if so the store is exactly `Updated`'s, otherwise unchanged |
| ProfileMapping.HandleProfileDeleted | subgraph/src/ampli-frens-profile.ts:43-55 | the same against `Deleted` |
| ProfileMapping.HandleProfileBlacklisted | subgraph/src/ampli-frens-profile.ts:12-25 | the same against `Blacklisted` |
| SbtMapping.BestContribution | subgraph/src/ampli-frens-sbt.ts:10-22 | always records the raw row under the top contribution id; sets that contribution's best flag, and changes nothing else of it, only when it exists; otherwise no projected row changes |
| SbtMapping.Credited | subgraph/src/ampli-frens-sbt.ts:33-43 | the leaderboard row after a mint counts one more badge; a first mint takes the username from the owner's profile if there is one; a later mint keeps the stored username |
| SbtMapping.Minted | subgraph/src/ampli-frens-sbt.ts:24-51 | records the mint under its log id, stores the owner's leaderboard row as `Credited` gives it (one more badge; on a first mint the profile's username, if any), raises the owner's badge count by exactly 1, sets the owner's status to the contract's `getStatus(owner)` (creating the row if missing), and changes no other row |
| SbtMapping.Revoked | subgraph/src/ampli-frens-sbt.ts:53-59 | records the revocation only; leaderboards, statuses and contributions are unchanged |
| SbtMapping.HandleSBTBestContribution | subgraph/src/ampli-frens-sbt.ts:10-22 | the in-place handler leaves exactly the store `BestContribution` specifies |
| SbtMapping.HandleSBTMinted | subgraph/src/ampli-frens-sbt.ts:24-51 | the same against `Minted` |
| SbtMapping.HandleSBTRevoked | subgraph/src/ampli-frens-sbt.ts:53-59 | the same against `Revoked` |
| Indexer.Apply | subgraph/src/ampli-frens-contribution.ts:22-131 | dispatches each event to its handler in ampli-frens-contribution.ts, ampli-frens-profile.ts (the `!` at lines 22, 52 and 66) or ampli-frens-sbt.ts; an event halts indexing exactly when its handler dereferences a missing contribution or profile with `!` |
| Indexer.ContributionEventsFrame | subgraph/src/ampli-frens-contribution.ts:22-131 | contribution handlers write no profile, leaderboard or status row; only the two vote handlers write vote records |
| Indexer.ProfileEventsFrame | subgraph/src/ampli-frens-profile.ts:12-69 | profile handlers write no contribution, vote record, leaderboard or status, so a username already copied into a contribution never changes |
| Indexer.BadgeEventsFrame | subgraph/src/ampli-frens-sbt.ts:10-59 | badge handlers never halt, write no vote record or profile, add no contribution, and can only set a contribution's best flag |
| Indexer.ApplyKeepsVoteLedger | subgraph/src/ampli-frens-contribution.ts:57-131 | every event keeps the vote ledger consistent |
| Indexer.ReplayKeepsVoteLedger | subgraph/src/ampli-frens-contribution.ts:57-131 | any event log keeps the vote ledger consistent |
| Indexer.AtMostOneLiveVote | subgraph/src/ampli-frens-contribution.ts:66-72 | from an empty store, no real voter ever holds both a live upvote and a live downvote on one contribution |
| Indexer.FlipNetsOneEach | subgraph/src/ampli-frens-contribution.ts:113-131 | an upvote then a downvote by one voter moves the count +1 then −1 (net 0, never ±2), leaves the upvote tombstoned and the downvote live |
| Indexer.FlipBackNetsOneEach | subgraph/src/ampli-frens-contribution.ts:57-77 | a downvote then an upvote by one voter moves the count −1 then +1 (net 0), leaves the downvote tombstoned and the upvote live |
| Indexer.ApplyKeepsContribution | subgraph/src/ampli-frens-contribution.ts:74-76 | an event other than its re-creation keeps a contribution present, moves its votes by that event's vote delta, keeps a tombstone and a best flag, and keeps the copied author data |
| Indexer.ReplayKeepsContribution | subgraph/src/ampli-frens-contribution.ts:128-130 | along any log without a re-creation, the contribution stays retrievable, its votes change by exactly upvote events minus downvote events, its tombstone and best flag are never undone and its copied username, hasProfile and fromStatus never change |
| Indexer.VotesSinceCreation | subgraph/src/ampli-frens-contribution.ts:41 | a contribution's votes equal the upvote events minus the downvote events since its creation |
| Indexer.ApplyKeepsProfileTombstone | subgraph/src/ampli-frens-profile.ts:65-68 | no event but a new ProfileCreated for that address undoes a profile tombstone |
| Indexer.ReplayKeepsProfileTombstone | subgraph/src/ampli-frens-profile.ts:57-69 | a deleted or blacklisted profile stays tombstoned along any log without a new ProfileCreated for that address |
| Indexer.ApplyCountsMint | subgraph/src/ampli-frens-sbt.ts:33-43 | a mint adds one to its owner's badge count and creates the row; no other event changes any count |
| Indexer.ReplayCountsMints | subgraph/src/ampli-frens-sbt.ts:33-43 | along any log, each owner's count grows by exactly its number of mints, and the owner has a row once minted to |
| Indexer.LeaderboardCountsMints | subgraph/src/ampli-frens-sbt.ts:53-59 | from an empty store, an owner's leaderboard count equals its number of SBTMinted events, revocations included; the row exists exactly when there was one |
| Indexer.HandleEvent | subgraph/src/ampli-frens-contribution.ts:22-131 | dispatching any event (contribution, profile or badge, the last two handled in ampli-frens-profile.ts:12-69 and ampli-frens-sbt.ts:10-59) to its in-place handler leaves exactly the store `Apply` gives, or an unchanged store when the handler halts |

## Left out

- The daily top-contribution selection, the upkeep interval (cooldown), the
  pause switch and the `AlreadyVoted`, `Unauthorized` and `OutOfBounds`
  rejections all live in the Solidity contracts. The contract source is not
  part of this model. The mappings only see events that the contracts have
  already accepted.
- Monotonic, never-reused contribution ids are a contract guarantee.
  Re-creation at a used id is modelled as the merge the host performs on
  `save()`.
- `AmpliFrensSBT.bind(...).getStatus` is a view call into the contract. It
  is a parameter `getStatus: Address -> int`, one per event in `Replay`.
- Indexer.BadgeEventsFrame: a revert of `getStatus` is not modelled. The
  handler calls it without the `try_` form (ampli-frens-sbt.ts:44), and the
  contract reverts for an address holding no token, which would abort the
  handler and stop indexing. The model takes `getStatus` to answer for
  every owner, which holds right after a mint to that owner; so "badge
  handlers never halt" rests on that assumption.
- `save()`/`load()` persistence, ordering and deduplication of events by
  (transaction hash, log index), and rollback on a failed handler are
  host guarantees. The store is a set of maps, and a failed handler writes
  nothing.
- Hex-string conversion of addresses and keys is abstracted as an injective
  map. `BigInt` is `int`. Category and status are `int`, with no 8- or
  32-bit width.
- The deployment tasks, IPFS metadata upload, Hardhat configuration, the
  NFT contract and the test suites are not part of this model.
