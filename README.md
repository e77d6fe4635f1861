# SharedStorage, modelled in Dafny

`shared-config.js` shares a simulated "VIP system" configuration between the
pages of one origin through the browser's persistent key-value storage. Its
one piece of logic is the `SharedStorage` class. The class keeps three
collections under fixed keys:

- the settings document (per-game tunables plus `version` and `lastUpdated`);
- the broadcast list (newest first, at most 20, each with a `read` flag);
- the user list (dropped once `lastSeen` is five minutes old).

On top of the store it runs an observer registry. Listeners subscribe to the
`settings` or `broadcasts` event, or to `*` for both. Every successful write
under the settings or broadcasts key is republished to them. A periodic
sweep purges broadcasts older than 24 hours and users idle for five minutes.

The model:

- `Storage.SharedStorage` is a class. Its fields are the store
  (`map<Key, Value>`), whether the store accepts writes (`writable`), the
  defaults document, the listener registry (`seq<Listener>`, in insertion
  order), the handle the next `addListener` issues (`nextHandle`), and a log
  of the listener calls made. Every operation of the class is a method; the
  ones that read the clock (`UpdateSettings`, `SendBroadcast`,
  `RegisterUser`, `UpdateUserActivity`, `Cleanup`) take the current time
  `now` in milliseconds.
- The list and record transformations are pure functions, mirroring the
  `map`/`filter` expressions of the source: `Broadcasts`, `Users`,
  `Settings`, and `Lists` for the generic filter and map.
- `Listeners` holds the registry's matching rule. `Values` holds the key
  layout, the key-to-event routing and the sweep.

Files: `json.dfy`, `wrappers.dfy`, `lists.dfy`, `broadcasts.dfy`,
`users.dfy`, `settings.dfy`, `listeners.dfy`, `values.dfy`, `storage.dfy`.

Behaviour kept as the code has it:

- `updateSettings` starts from `DEFAULT_SETTINGS` itself when nothing is
  stored, and edits it in place. The field `defaults` carries those edits
  into later calls.
- The broadcast pass of the sweep skips its write when no broadcast is
  recent enough. A list whose entries have all expired therefore stays
  stored (`SweepSkipsExpiredBroadcasts`). The user pass always writes.
- A user is stale once `now - lastSeen` reaches 300000 ms. So "stale"
  means five minutes or more, not strictly more.
- `markBroadcastAsRead` and `updateUserActivity` always write the list
  back. When the key was empty they write `[]`, and the broadcast write is
  announced even when no record matched.
- The sweep's own comment (shared-config.js:225) says it cleans up
  broadcasts older than one day. The code does not do so when every stored
  broadcast has expired, and the model follows the code.

## Model

| member | source | states |
|---|---|---|
| `Lists.Filter` | shared-config.js:154 | the result holds exactly the accepted elements of the input and is no longer than it |
| `Lists.FilterConcat` | shared-config.js:181-183 | filtering keeps relative order: it distributes over concatenation |
| `Lists.FilterKeepsAll` | shared-config.js:229-232 | a filter returns its input unchanged exactly when every element is accepted |
| `Lists.FilterIdempotent` | shared-config.js:242-245 | filtering twice with one predicate equals filtering once |
| `Lists.Map` | shared-config.js:162-164 | the result has the input's length and holds `f` of each element at the same position |
| `Broadcasts.NewBroadcast` | shared-config.js:132-137 | the new record has the given id, `timestamp == now` and `read == false`; caller fields named `id`, `timestamp` or `read` are overridden, and all other caller fields are kept |
| `Broadcasts.Push` | shared-config.js:139-144 | the list after a send has length `min(old + 1, 20)`; its head is the new record and its tail is the old list in order, cut to fit |
| `Broadcasts.SendAll` | shared-config.js:128-148 | repeated sends: with nothing sent the list is unchanged, otherwise its length is `min(old + sent, 20)` |
| `Broadcasts.SendAllKeepsNewest` | shared-config.js:128-148 | any sequence of sends onto any stored list leaves the sent records newest first ahead of the old list, cut to 20 (a list longer than 20 is only cut once something is sent) |
| `Broadcasts.NewestTwentyAfterManySends` | shared-config.js:141-144 | after 20 or more sends onto any stored list, the list is exactly the last 20 sent, newest first |
| `Broadcasts.Unread` | shared-config.js:154 | the result holds exactly the records with `read == false` |
| `Broadcasts.SentIsFirstUnread` | shared-config.js:136-139 | a record just sent is the first of the unread records |
| `Broadcasts.MarkRead` | shared-config.js:162-164 | length and order are kept and only `read` can change; it becomes true on exactly the records whose id matches |
| `Broadcasts.MarkReadAbsent` | shared-config.js:162-164 | marking an id no record carries leaves the list unchanged |
| `Broadcasts.MarkReadIdempotent` | shared-config.js:162-164 | marking the same id twice equals marking it once |
| `Broadcasts.MarkReadHidesFromUnread` | shared-config.js:151-164 | after marking an id, the unread records are the earlier unread ones without that id, in the same order |
| `Broadcasts.Recent` | shared-config.js:229-232 | the sweep keeps exactly the broadcasts with `now - timestamp < 86400000` |
| `Users.NewUser` | shared-config.js:174-179 | the new user has the given id, `lastSeen == now` and `active == true`; caller fields of those names are overridden, and all other caller fields are kept |
| `Users.Active` | shared-config.js:181-183 | keeps exactly the users with `now - lastSeen < 300000` |
| `Users.Registered` | shared-config.js:181-185 | the stored list ends with the new user, preceded by exactly the fresh prior users |
| `Users.RegistrationEvictsStale` | shared-config.js:181-185 | after a registration no stored user is stale, including a user aged exactly 300000 ms |
| `Users.RegistrationKeepsOrder` | shared-config.js:181-185 | registration keeps the surviving users in stored order |
| `Users.Touch` | shared-config.js:195-197 | length and order are kept and only `lastSeen` can change; it becomes `now` on exactly the records whose id matches |
| `Users.TouchAbsent` | shared-config.js:195-197 | touching an id no record carries leaves the list unchanged |
| `Users.TouchedSurvivesSweep` | shared-config.js:195-197 | a user touched at `now` survives any sweep less than five minutes later |
| `Settings.DefaultSettings` | shared-config.js:13-26 | the default document has exactly the entries `version`, `lastUpdated`, `pg` and `pp` |
| `Settings.GroupOf` | shared-config.js:120 | spreading the game's entry contributes its fields when it is a group, and nothing when it is missing or a scalar |
| `Settings.Merge` | shared-config.js:118-121 | the game's group takes every field of `partial` and keeps its other fields; other entries are unchanged; `lastUpdated == now`; no entry is lost |
| `Settings.MergeIdempotent` | shared-config.js:120-121 | repeating an update at the same time changes nothing more |
| `Settings.MergeTwice` | shared-config.js:120 | two updates of one game equal one update where the later values win |
| `Settings.MergeCommutes` | shared-config.js:120-121 | updates of different games commute, except for the time stamp |
| `Settings.BaseWinExample` | shared-config.js:13-26 | setting `pg.baseWin` to 70 on the defaults keeps the other `pg` tunables, all of `pp`, and `version` |
| `Listeners.Hears` | shared-config.js:212 | a wildcard listener hears every event; any other listener hears exactly its own event |
| `Listeners.Matching` | shared-config.js:210-219 | the calls of one notification: at most one per listener, each carrying the notified data |
| `Listeners.Without` | shared-config.js:207 | unsubscribing removes exactly the listener with that handle |
| `Listeners.MatchingConcat` | shared-config.js:211 | notification follows registration order |
| `Listeners.MatchingMembers` | shared-config.js:211-219 | a notification calls exactly the listeners registered for the event or for `*`, each with the data |
| `Listeners.DeliveredOnce` | shared-config.js:211-219 | in a valid registry each listener is called once if it hears the event, otherwise never |
| `Listeners.UnsubscribedIsSilent` | shared-config.js:207-212 | a notification never calls an unsubscribed handle |
| `Listeners.NeverCalledAgain` | shared-config.js:203-212 | after unsubscribing, no later registration under another handle makes the old handle called again |
| `Listeners.WithoutKeepsRegistry` | shared-config.js:207 | unsubscribing keeps handles increasing and below the next handle |
| `Listeners.RoutingExample` | shared-config.js:211-212 | a `broadcasts` event reaches the `broadcasts` and `*` listeners but not the `settings` one |
| `Values.EventFor` | shared-config.js:76-81 | the settings key routes to `settings`, the broadcasts key to `broadcasts`, and every other key to no event |
| `Values.Read` | shared-config.js:86-94 | `get` yields nothing for an absent key, an unparsable item or `null`; otherwise it yields the stored value |
| `Values.StoredSettings` | shared-config.js:118 | the stored document, or nothing when the key is absent, unparsable or `null` |
| `Values.StoredBroadcasts` | shared-config.js:130 | read with an empty-list default, here and at lines 153, 160 and 227: the stored list, or `[]` when the key is absent, unparsable or `null` |
| `Values.StoredUsers` | shared-config.js:172 | read with an empty-list default, here and at lines 193 and 240: the stored list, or `[]` when the key is absent, unparsable or `null` |
| `Values.Swept` | shared-config.js:225-247 | a sweep always writes a user list, may rewrite only the broadcast key besides, and leaves every other key as it was |
| `Values.SweepEvictsStaleUsers` | shared-config.js:239-247 | after a sweep the user list is exactly the fresh users, in order |
| `Values.SweepKeepsRecentBroadcasts` | shared-config.js:226-236 | when some broadcast is recent, the sweep stores exactly the recent ones, in order |
| `Values.SweepSkipsExpiredBroadcasts` | shared-config.js:234-236 | when no broadcast is recent, the broadcast key is left as it was, expired entries included |
| `Storage.Announced` | shared-config.js:75-82 | writes to the settings or broadcasts key call that event's listeners with the decoded value; other keys and unparsable values call none |
| `Storage.SharedStorage.constructor` | shared-config.js:63-66 | starts with an empty registry over the existing store, with pristine defaults |
| `Storage.SharedStorage.SettingsBase` | shared-config.js:118 | updateSettings starts from the stored document, or from the defaults when nothing usable is stored |
| `Storage.SharedStorage.Get` | shared-config.js:86-94 | returns the decoded item, or nothing |
| `Storage.SharedStorage.Set` | shared-config.js:96-113 | on success stores the value and announces it, and a later `get` returns the value; on failure returns false and changes nothing |
| `Storage.SharedStorage.HandleStorageEvent` | shared-config.js:75-82 | calls the listeners of the key's event and nothing else |
| `Storage.SharedStorage.UpdateSettings` | shared-config.js:116-125 | returns the merged document, stores that same document, and announces `settings`; with nothing stored it starts from the defaults and updates them in place |
| `Storage.SharedStorage.SendBroadcast` | shared-config.js:128-148 | returns the new record; stores the pushed list (at most 20) and announces `broadcasts` |
| `Storage.SharedStorage.GetUnreadBroadcasts` | shared-config.js:151-155 | returns the unread stored records in order, or `[]` when nothing is stored; changes nothing |
| `Storage.SharedStorage.MarkBroadcastAsRead` | shared-config.js:158-167 | stores the marked list and announces `broadcasts` |
| `Storage.SharedStorage.RegisterUser` | shared-config.js:170-189 | returns the new user and stores the fresh prior users followed by it; calls no listener |
| `Storage.SharedStorage.UpdateUserActivity` | shared-config.js:191-200 | stores the touched list and calls no listener |
| `Storage.SharedStorage.AddListener` | shared-config.js:203-208 | appends a listener under a fresh handle and returns that handle |
| `Storage.SharedStorage.Unsubscribe` | shared-config.js:207 | removes that handle's listener and reports whether it was still registered |
| `Storage.SharedStorage.NotifyListeners` | shared-config.js:210-220 | records one call per matching listener, in registration order |
| `Storage.SharedStorage.Cleanup` | shared-config.js:224-248 | the store becomes the swept store; only a non-empty recent broadcast list is announced |

## Left out

- Serialisation: `localStorage` strings and `JSON.parse`/`JSON.stringify` are not modelled. The store holds decoded values, and the JSON round trip is taken as the identity. Text that does not parse is the single value `Malformed`.
- Storage.SharedStorage.Set: requires a value of the shape its key is read as (`Fits`). The source writes any JSON value under any key. A mis-shaped value under a fixed key makes the later operations throw, or read absent fields as `undefined`; that is not modelled.
- Storage.SharedStorage.constructor: requires the initial store to be well shaped (`WellTyped`), for the same reason. The source constructor never reads the store, so it accepts any stored content; a mis-shaped item left by other code is not modelled.
- Falsy JSON values other than `null` (`0`, `false`, `""`) stored under a fixed key: the code's `|| default` treats them like `null`. The model has only `Null`.
- Settings.GroupOf: when the game name names a string entry (`version`), the code spreads the string into character-indexed fields. The model starts from an empty group. Payload and settings values are scalars; nested objects are not modelled.
- Time: every `Date.now()` / `new Date()` in one call is the single `now`, in milliseconds. ISO-8601 formatting and parsing are not modelled.
- Ids: `'broadcast_' + Date.now()` and `'user_' + Date.now()` are parameters. Their uniqueness is not assumed.
- Write failure is the field `writable`, fixed per instance. It stands for `setItem` throwing (quota exceeded); the model does not let it vary from one write to the next.
- Browser event plumbing: `window.addEventListener`, `dispatchEvent` and `StorageEvent` are not modelled. The synchronous dispatch inside `set` is a direct call of `HandleStorageEvent`. The event's `oldValue` is read after the write, so it equals the new value; it is not modelled.
- Other tabs: their writes to the shared store and last-write-wins races are not modelled. Only the handler's routing of an incoming event is modelled.
- `setInterval`, the 60-second period, `POLL_INTERVAL`, and `init` starting the sweep: one sweep is the method `Cleanup(now)`.
- Callback bodies, their exceptions and `console` logging: a callback is an opaque id, and calling it appends a `Delivery`.
- `DEFAULT_SETTINGS` is one global object shared by all instances. The model gives each instance its own `defaults`; the source creates a single instance.
- Static tables and export glue (`GAME_DATA`, `WEB_NAMES`, `PROVIDER_LOGOS`, `window`/`module.exports` assignments): data, not logic.
