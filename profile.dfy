/**
 The Profile handlers: creation, username edits, and the two tombstones
 (deletion by the owner, blacklisting by an admin) that overwrite the
 profile's address with the dead sentinel but keep distinct raw rows.
 As for contributions, each handler is a function on the store and a method
 that performs it on an EntityStore.
 */
module ProfileMapping {
  import opened Entities

  /** handleProfileCreated: writes the profile row (replacing any row already
      at that address) and the ProfileCreated raw row under the same key. */
  function Created(st: Store, e: ProfileRecord): (r: Store)
    ensures OnlyAt(st.profiles, r.profiles, e.address)
    ensures r.profiles[e.address] == Profile(e.address, e.username, e.timestamp)
    ensures OnlyAt(st.log.profileCreated, r.log.profileCreated, e.address) && r.log.profileCreated[e.address] == e
    ensures r.log == st.log.(profileCreated := r.log.profileCreated)
    ensures r == st.(profiles := r.profiles, log := r.log)
  {
    var id := e.address;
    UpdateOnlyAt(st.log.profileCreated, id, e);
    UpdateOnlyAt(st.profiles, id, Profile(e.address, e.username, e.timestamp));
    st.(log := st.log.(profileCreated := st.log.profileCreated[id := e]),
        profiles := st.profiles[id := Profile(e.address, e.username, e.timestamp)])
  }

  /** handleProfileUpdated: replaces the username and timestamp and keeps the
      stored address, so a tombstoned profile stays tombstoned. The raw row
      keeps only the address and the time. Halts when there is no profile. */
  function Updated(st: Store, e: ProfileRecord): (r: Outcome)
    ensures r.Halted? <==> e.address !in st.profiles
    ensures r.Applied? ==>
      var s, a := r.store, e.address;
      && OnlyAt(st.profiles, s.profiles, a)
      && s.profiles[a].username == e.username && s.profiles[a].timestamp == e.timestamp
      && s.profiles[a].address == st.profiles[a].address
      && OnlyAt(st.log.profileUpdated, s.log.profileUpdated, a)
      && s.log.profileUpdated[a] == ProfileStamp(e.address, e.timestamp)
      && s.log == st.log.(profileUpdated := s.log.profileUpdated)
      && s == st.(profiles := s.profiles, log := s.log)
  {
    var a := e.address;
    if a !in st.profiles then Halted
    else
      var p := st.profiles[a];
      Applied(st.(log := st.log.(profileUpdated := st.log.profileUpdated[a := ProfileStamp(e.address, e.timestamp)]),
                  profiles := st.profiles[a := p.(username := e.username, timestamp := e.timestamp)]))
  }

  /** The tombstone both Deleted and Blacklisted apply to an existing profile:
      the address becomes the sentinel, the time is the event's, the username
      is kept. */
  function Tombstoned(p: Profile, timestamp: int): (q: Profile)
    ensures q.address == Dead && q.timestamp == timestamp && q.username == p.username
  {
    p.(address := Dead, timestamp := timestamp)
  }

  /** handleProfileDeleted: tombstones the profile and records the deletion.
      Halts when there is no profile. */
  function Deleted(st: Store, e: ProfileStamp): (r: Outcome)
    ensures r.Halted? <==> e.address !in st.profiles
    ensures r.Applied? ==>
      var s, a := r.store, e.address;
      && OnlyAt(st.profiles, s.profiles, a)
      && s.profiles[a] == Tombstoned(st.profiles[a], e.timestamp)
      && OnlyAt(st.log.profileDeleted, s.log.profileDeleted, a) && s.log.profileDeleted[a] == e
      && s.log == st.log.(profileDeleted := s.log.profileDeleted)
      && s == st.(profiles := s.profiles, log := s.log)
  {
    var a := e.address;
    if a !in st.profiles then Halted
    else
      Applied(st.(log := st.log.(profileDeleted := st.log.profileDeleted[a := e]),
                  profiles := st.profiles[a := Tombstoned(st.profiles[a], e.timestamp)]))
  }

  /** handleProfileBlacklisted: the same tombstone as Deleted, recorded as a
      blacklisting that carries the reason. Halts when there is no profile. */
  function Blacklisted(st: Store, e: BlacklistRecord): (r: Outcome)
    ensures r.Halted? <==> e.address !in st.profiles
    ensures r.Applied? ==>
      var s, a := r.store, e.address;
      && OnlyAt(st.profiles, s.profiles, a)
      && s.profiles[a] == Tombstoned(st.profiles[a], e.timestamp)
      && OnlyAt(st.log.profileBlacklisted, s.log.profileBlacklisted, a) && s.log.profileBlacklisted[a] == e
      && s.log == st.log.(profileBlacklisted := s.log.profileBlacklisted)
      && s == st.(profiles := s.profiles, log := s.log)
  {
    var a := e.address;
    if a !in st.profiles then Halted
    else
      Applied(st.(log := st.log.(profileBlacklisted := st.log.profileBlacklisted[a := e]),
                  profiles := st.profiles[a := Tombstoned(st.profiles[a], e.timestamp)]))
  }

  /** Deleted and Blacklisted leave the same projection: they differ only in
      which raw row records the event. */
  lemma DeleteAndBlacklistAgree(st: Store, a: Address, reason: string, timestamp: int)
    ensures var d, b := Deleted(st, ProfileStamp(a, timestamp)), Blacklisted(st, BlacklistRecord(a, reason, timestamp));
      && d.Applied? == b.Applied?
      && (d.Applied? ==>
            && d.store.profiles == b.store.profiles
            && d.store.log.(profileDeleted := st.log.profileDeleted) == b.store.log.(profileBlacklisted := st.log.profileBlacklisted))
  {
  }

  method HandleProfileCreated(store: EntityStore, e: ProfileRecord)
    modifies store`log, store`profiles
    ensures store.Snapshot() == Created(old(store.Snapshot()), e)
  {
    var id := e.address;
    store.log := store.log.(profileCreated := store.log.profileCreated[id := e]);
    var profile := Profile(e.address, e.username, e.timestamp);
    store.profiles := store.profiles[id := profile];
  }

  method HandleProfileUpdated(store: EntityStore, e: ProfileRecord) returns (applied: bool)
    modifies store`log, store`profiles
    ensures applied == Updated(old(store.Snapshot()), e).Applied?
    ensures applied ==> store.Snapshot() == Updated(old(store.Snapshot()), e).store
    ensures !applied ==> store.Snapshot() == old(store.Snapshot())
  {
    var id := e.address;
    if id !in store.profiles {
      return false;
    }
    store.log := store.log.(profileUpdated := store.log.profileUpdated[id := ProfileStamp(e.address, e.timestamp)]);
    var profile := store.profiles[id];
    profile := profile.(username := e.username, timestamp := e.timestamp);
    store.profiles := store.profiles[id := profile];
    applied := true;
  }

  method HandleProfileDeleted(store: EntityStore, e: ProfileStamp) returns (applied: bool)
    modifies store`log, store`profiles
    ensures applied == Deleted(old(store.Snapshot()), e).Applied?
    ensures applied ==> store.Snapshot() == Deleted(old(store.Snapshot()), e).store
    ensures !applied ==> store.Snapshot() == old(store.Snapshot())
  {
    var id := e.address;
    if id !in store.profiles {
      return false;
    }
    store.log := store.log.(profileDeleted := store.log.profileDeleted[id := e]);
    var profile := store.profiles[id];
    profile := profile.(address := Dead, timestamp := e.timestamp);
    store.profiles := store.profiles[id := profile];
    applied := true;
  }

  method HandleProfileBlacklisted(store: EntityStore, e: BlacklistRecord) returns (applied: bool)
    modifies store`log, store`profiles
    ensures applied == Blacklisted(old(store.Snapshot()), e).Applied?
    ensures applied ==> store.Snapshot() == Blacklisted(old(store.Snapshot()), e).store
    ensures !applied ==> store.Snapshot() == old(store.Snapshot())
  {
    var id := e.address;
    if id !in store.profiles {
      return false;
    }
    store.log := store.log.(profileBlacklisted := store.log.profileBlacklisted[id := e]);
    var profile := store.profiles[id];
    profile := profile.(address := Dead, timestamp := e.timestamp);
    store.profiles := store.profiles[id := profile];
    applied := true;
  }
}
