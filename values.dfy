/** The persisted key layout: the three fixed keys, what each holds, and
    which named event a write to each is announced under. */
module Values {
  import opened Wrappers
  import opened Settings
  import opened Broadcasts
  import opened Users

  type Key = string

  const SettingsKey: Key := "vip_system_settings_v2"
  const BroadcastsKey: Key := "vip_broadcast_messages_v2"
  const UsersKey: Key := "vip_connected_users_v2"

  /** A stored item, decoded. `Malformed` is a string that does not parse
      as JSON (written by some other code); `Null` is JSON `null`. */
  datatype Value =
    | Null
    | Malformed
    | SettingsDoc(doc: Doc)
    | BroadcastList(broadcasts: seq<Broadcast>)
    | UserList(users: seq<User>)

  /** A value `set` can write under `key` so that the key's readers find the
      shape they expect. */
  predicate Fits(key: Key, v: Value)
  {
    && !v.Malformed?
    && (key == SettingsKey ==> v.Null? || v.SettingsDoc?)
    && (key == BroadcastsKey ==> v.Null? || v.BroadcastList?)
    && (key == UsersKey ==> v.Null? || v.UserList?)
  }

  /** Every item either fails to parse or has its key's shape. */
  predicate WellTyped(store: map<Key, Value>)
  {
    forall k :: k in store ==> store[k].Malformed? || Fits(k, store[k])
  }

  /** The named event the storage-event handler republishes a write to
      `key` under; writes to any other key are not republished. */
  function EventFor(key: Key): (e: Option<string>)
    ensures e == Some("settings") <==> key == SettingsKey
    ensures e == Some("broadcasts") <==> key == BroadcastsKey
    ensures e.Some? ==> e.value in {"settings", "broadcasts"}
  {
    if key == SettingsKey then Some("settings")
    else if key == BroadcastsKey then Some("broadcasts")
    else None
  }

  /** `get(key)`: the decoded item, or nothing when the key is absent, the
      item does not parse, or it is JSON `null`. */
  function Read(store: map<Key, Value>, key: Key): (r: Option<Value>)
    ensures r.None? <==> key !in store || store[key].Null? || store[key].Malformed?
    ensures r.Some? ==> r.value == store[key]
  {
    if key in store && !store[key].Null? && !store[key].Malformed? then Some(store[key]) else None
  }

  /** `get(SETTINGS)`, when it yields a document. */
  function StoredSettings(store: map<Key, Value>): (r: Option<Doc>)
    ensures SettingsKey in store && store[SettingsKey].SettingsDoc? ==> r == Some(store[SettingsKey].doc)
    ensures SettingsKey !in store || store[SettingsKey].Null? || store[SettingsKey].Malformed? ==> r == None
  {
    match Read(store, SettingsKey)
    case Some(SettingsDoc(d)) => Some(d)
    case _ => None
  }

  /** `get(BROADCASTS) || []`. */
  function StoredBroadcasts(store: map<Key, Value>): (r: seq<Broadcast>)
    ensures BroadcastsKey in store && store[BroadcastsKey].BroadcastList? ==> r == store[BroadcastsKey].broadcasts
    ensures BroadcastsKey !in store || store[BroadcastsKey].Null? || store[BroadcastsKey].Malformed? ==> r == []
  {
    match Read(store, BroadcastsKey)
    case Some(BroadcastList(l)) => l
    case _ => []
  }

  /** `get(USERS) || []`. */
  function StoredUsers(store: map<Key, Value>): (r: seq<User>)
    ensures UsersKey in store && store[UsersKey].UserList? ==> r == store[UsersKey].users
    ensures UsersKey !in store || store[UsersKey].Null? || store[UsersKey].Malformed? ==> r == []
  {
    match Read(store, UsersKey)
    case Some(UserList(l)) => l
    case _ => []
  }

  /** The store after one cleanup sweep at `now`, when writes succeed: the
      broadcast key is rewritten only if some broadcast is recent enough,
      the user key always. */
  function Swept(store: map<Key, Value>, now: int): (r: map<Key, Value>)
    ensures r.Keys == store.Keys + {UsersKey}
    ensures r[UsersKey].UserList?
    ensures forall k :: k in store && k != BroadcastsKey && k != UsersKey ==> r[k] == store[k]
    ensures BroadcastsKey in r ==> r[BroadcastsKey].BroadcastList? || r[BroadcastsKey] == store[BroadcastsKey]
  {
    var kept := Recent(StoredBroadcasts(store), now);
    var afterBroadcasts := if |kept| > 0 then store[BroadcastsKey := BroadcastList(kept)] else store;
    afterBroadcasts[UsersKey := UserList(Active(StoredUsers(afterBroadcasts), now))]
  }

  /** The user pass: after a sweep no stored user is stale, and every user
      that was fresh is still there, in order. */
  lemma SweepEvictsStaleUsers(store: map<Key, Value>, now: int)
    ensures StoredUsers(Swept(store, now)) == Active(StoredUsers(store), now)
    ensures forall u :: u in StoredUsers(Swept(store, now)) <==>
      u in StoredUsers(store) && now - u.lastSeen < UserTtl
  {
  }

  /** The broadcast pass when something is recent enough: the stored list
      becomes exactly the recent broadcasts, in order. */
  lemma SweepKeepsRecentBroadcasts(store: map<Key, Value>, now: int)
    requires Recent(StoredBroadcasts(store), now) != []
    ensures StoredBroadcasts(Swept(store, now)) == Recent(StoredBroadcasts(store), now)
    ensures forall b :: b in StoredBroadcasts(Swept(store, now)) ==> now - b.timestamp < BroadcastTtl
  {
  }

  /** The broadcast pass when nothing is recent enough: the broadcast key is
      left as it was, so a list whose every entry has expired survives. */
  lemma SweepSkipsExpiredBroadcasts(store: map<Key, Value>, now: int)
    requires Recent(StoredBroadcasts(store), now) == []
    ensures BroadcastsKey in Swept(store, now) <==> BroadcastsKey in store
    ensures BroadcastsKey in store ==> Swept(store, now)[BroadcastsKey] == store[BroadcastsKey]
    ensures forall b :: b in StoredBroadcasts(store) ==> b in StoredBroadcasts(Swept(store, now))
  {
  }
}
