/** SharedStorage: a facade over the browser's shared key-value store that
    keeps the settings document, the broadcast list and the user list under
    fixed keys, republishes writes to the first two as named events to an
    in-process listener registry, and sweeps out expired records. */
module Storage {
  import opened Wrappers
  import opened Json
  import opened Settings
  import opened Broadcasts
  import opened Users
  import opened Listeners
  import opened Values

  /** The listener calls the storage-event handler makes for a write of
      `value` under `key`: the key's event, if it has one, carrying the
      decoded value; a value that does not parse stops the handler. */
  function Announced(ls: seq<Listener>, key: Key, value: Value): (r: seq<Delivery<Value>>)
    ensures key != SettingsKey && key != BroadcastsKey ==> r == []
    ensures value.Malformed? ==> r == []
    ensures !value.Malformed? && key == SettingsKey ==> r == Matching(ls, "settings", value)
    ensures !value.Malformed? && key == BroadcastsKey ==> r == Matching(ls, "broadcasts", value)
  {
    match EventFor(key)
    case None => []
    case Some(e) => if value.Malformed? then [] else Matching(ls, e, value)
  }

  class SharedStorage {
    /** The shared key-value store. */
    var store: map<Key, Value>
    /** Whether the store accepts writes; false models `setItem` throwing
        (quota exceeded, storage disabled). */
    var writable: bool
    /** DEFAULT_SETTINGS, which updateSettings edits in place when nothing
        is stored under the settings key. */
    var defaults: Doc
    /** The registry, in insertion order (the iteration order of a `Set`). */
    var listeners: seq<Listener>
    /** The handle the next addListener issues. */
    var nextHandle: nat
    /** Every listener call made so far, in order. */
    var delivered: seq<Delivery<Value>>

    ghost predicate Valid()
      reads this
    {
      WellTyped(store) && Registry(listeners, nextHandle)
    }

    /** The document updateSettings starts from: the stored one, or the
        defaults when `get` yields nothing. */
    function SettingsBase(): (d: Doc)
      reads this
      ensures SettingsKey in store && store[SettingsKey].SettingsDoc? ==> d == store[SettingsKey].doc
      ensures SettingsKey !in store || store[SettingsKey].Null? || store[SettingsKey].Malformed? ==> d == defaults
    {
      match StoredSettings(store)
      case Some(d) => d
      case None => defaults
    }

    constructor (initial: map<Key, Value>, storageWritable: bool, loadTime: int)
      requires WellTyped(initial)
      ensures Valid()
      ensures store == initial && writable == storageWritable
      ensures defaults == DefaultSettings(loadTime)
      ensures listeners == [] && nextHandle == 0 && delivered == []
    {
      store := initial;
      writable := storageWritable;
      defaults := DefaultSettings(loadTime);
      listeners := [];
      nextHandle := 0;
      delivered := [];
    }

    /** `get`: never fails; absence, an unparsable item and `null` all read
        as nothing. */
    method Get(key: Key) returns (r: Option<Value>)
      ensures r == Read(store, key)
    {
      if key in store && !store[key].Null? && !store[key].Malformed? {
        r := Some(store[key]);
      } else {
        r := None;
      }
    }

    /** `set`: writes and, on success, runs the storage-event handler for
        the write so that same-tab listeners see it; on failure nothing
        changes and the result is false. */
    method Set(key: Key, value: Value) returns (ok: bool)
      requires Valid() && Fits(key, value)
      modifies this
      ensures Valid()
      ensures ok == writable
      ensures store == if ok then old(store)[key := value] else old(store)
      ensures ok ==> Read(store, key) == if value.Null? then None else Some(value)
      ensures delivered == old(delivered) + if ok then Announced(listeners, key, value) else []
      ensures listeners == old(listeners) && nextHandle == old(nextHandle)
      ensures writable == old(writable) && defaults == old(defaults)
    {
      if !writable {
        return false;
      }
      store := store[key := value];
      HandleStorageEvent(key, value);
      return true;
    }

    /** The `storage` event handler registered at start-up; it also sees
        writes made by other tabs. */
    method HandleStorageEvent(key: Key, newValue: Value)
      modifies this`delivered
      ensures delivered == old(delivered) + Announced(listeners, key, newValue)
    {
      if key == SettingsKey {
        if !newValue.Malformed? {
          NotifyListeners("settings", newValue);
        }
      } else if key == BroadcastsKey {
        if !newValue.Malformed? {
          NotifyListeners("broadcasts", newValue);
        }
      }
    }

    /** `updateSettings`: merge `partial` into the game's group, stamp the
        document, write it back and return it. */
    method UpdateSettings(game: string, partial: Fields, now: int) returns (current: Doc)
      requires Valid()
      modifies this
      ensures Valid()
      ensures current == Merge(old(SettingsBase()), game, partial, now)
      ensures defaults == if old(StoredSettings(store)).Some? then old(defaults) else current
      ensures store == if writable then old(store)[SettingsKey := SettingsDoc(current)] else old(store)
      ensures delivered == old(delivered) + if writable then Matching(listeners, "settings", SettingsDoc(current)) else []
      ensures listeners == old(listeners) && nextHandle == old(nextHandle) && writable == old(writable)
    {
      var got := Get(SettingsKey);
      var fromDefaults: bool;
      match got {
        case Some(SettingsDoc(d)) =>
          current, fromDefaults := d, false;
        case _ =>
          current, fromDefaults := defaults, true;
      }
      current := Merge(current, game, partial, now);
      if fromDefaults {
        defaults := current;
      }
      var _ := Set(SettingsKey, SettingsDoc(current));
    }

    /** `sendBroadcast`: put a new unread record at the head of the list,
        keep at most `MaxBroadcasts`, write back and return the record. */
    method SendBroadcast(data: Fields, id: string, now: int) returns (b: Broadcast)
      requires Valid()
      modifies this
      ensures Valid()
      ensures b == NewBroadcast(data, id, now)
      ensures var list := BroadcastList(Push(b, old(StoredBroadcasts(store))));
        && store == (if writable then old(store)[BroadcastsKey := list] else old(store))
        && delivered == old(delivered) + if writable then Matching(listeners, "broadcasts", list) else []
      ensures listeners == old(listeners) && nextHandle == old(nextHandle)
      ensures writable == old(writable) && defaults == old(defaults)
    {
      var got := Get(BroadcastsKey);
      var broadcasts := match got case Some(BroadcastList(l)) => l case _ => [];
      b := NewBroadcast(data, id, now);
      broadcasts := Push(b, broadcasts);
      var _ := Set(BroadcastsKey, BroadcastList(broadcasts));
    }

    /** `getUnreadBroadcasts`: read-only. */
    method GetUnreadBroadcasts() returns (unread: seq<Broadcast>)
      ensures unread == Unread(StoredBroadcasts(store))
      ensures BroadcastsKey !in store ==> unread == []
    {
      var got := Get(BroadcastsKey);
      var broadcasts := match got case Some(BroadcastList(l)) => l case _ => [];
      unread := Unread(broadcasts);
    }

    /** `markBroadcastAsRead`: set `read` on the records with this id and
        write the whole list back, even when nothing matched. */
    method MarkBroadcastAsRead(id: string)
      requires Valid()
      modifies this
      ensures Valid()
      ensures var list := BroadcastList(MarkRead(old(StoredBroadcasts(store)), id));
        && store == (if writable then old(store)[BroadcastsKey := list] else old(store))
        && delivered == old(delivered) + if writable then Matching(listeners, "broadcasts", list) else []
      ensures listeners == old(listeners) && nextHandle == old(nextHandle)
      ensures writable == old(writable) && defaults == old(defaults)
    {
      var got := Get(BroadcastsKey);
      var broadcasts := match got case Some(BroadcastList(l)) => l case _ => [];
      broadcasts := MarkRead(broadcasts, id);
      var _ := Set(BroadcastsKey, BroadcastList(broadcasts));
    }

    /** `registerUser`: drop the stale users, append the new one, write back
        and return it. The user key has no event, so no listener is called. */
    method RegisterUser(data: Fields, id: string, now: int) returns (u: User)
      requires Valid()
      modifies this
      ensures Valid()
      ensures u == NewUser(data, id, now)
      ensures store == if writable
        then old(store)[UsersKey := UserList(Registered(old(StoredUsers(store)), u, now))]
        else old(store)
      ensures delivered == old(delivered)
      ensures listeners == old(listeners) && nextHandle == old(nextHandle)
      ensures writable == old(writable) && defaults == old(defaults)
    {
      var got := Get(UsersKey);
      var users := match got case Some(UserList(l)) => l case _ => [];
      u := NewUser(data, id, now);
      users := Active(users, now);
      users := users + [u];
      var _ := Set(UsersKey, UserList(users));
    }

    /** `updateUserActivity`: refresh `lastSeen` on the records with this id
        and write the whole list back. */
    method UpdateUserActivity(id: string, now: int)
      requires Valid()
      modifies this
      ensures Valid()
      ensures store == if writable
        then old(store)[UsersKey := UserList(Touch(old(StoredUsers(store)), id, now))]
        else old(store)
      ensures delivered == old(delivered)
      ensures listeners == old(listeners) && nextHandle == old(nextHandle)
      ensures writable == old(writable) && defaults == old(defaults)
    {
      var got := Get(UsersKey);
      var users := match got case Some(UserList(l)) => l case _ => [];
      users := Touch(users, id, now);
      var _ := Set(UsersKey, UserList(users));
    }

    /** `addListener`: register a new `{event, callback}` record and return
        the handle its unsubscribe closure deletes. */
    method AddListener(event: string, callback: nat) returns (handle: nat)
      requires Valid()
      modifies this`listeners, this`nextHandle
      ensures Valid()
      ensures handle == old(nextHandle) && handle !in old(Handles(listeners))
      ensures listeners == old(listeners) + [Listener(handle, event, callback)]
      ensures Handles(listeners) == old(Handles(listeners)) + {handle}
      ensures nextHandle == handle + 1
    {
      handle := nextHandle;
      listeners := listeners + [Listener(handle, event, callback)];
      nextHandle := nextHandle + 1;
    }

    /** The closure addListener returns: delete the record, answering
        whether it was still registered. */
    method Unsubscribe(handle: nat) returns (removed: bool)
      requires Valid()
      modifies this`listeners
      ensures Valid()
      ensures listeners == Without(old(listeners), handle)
      ensures handle !in Handles(listeners)
      ensures removed == (handle in old(Handles(listeners)))
    {
      removed := handle in Handles(listeners);
      WithoutKeepsRegistry(listeners, nextHandle, handle);
      listeners := Without(listeners, handle);
    }

    /** `notifyListeners`: call every listener registered for `event` or
        for the wildcard, in registration order. */
    method NotifyListeners(event: string, data: Value)
      modifies this`delivered
      ensures delivered == old(delivered) + Matching(listeners, event, data)
    {
      var i := 0;
      while i < |listeners|
        invariant 0 <= i <= |listeners|
        invariant delivered == old(delivered) + Matching(listeners[..i], event, data)
      {
        var l := listeners[i];
        if l.event == event || l.event == Wildcard {
          delivered := delivered + [Delivery(l.handle, l.callback, data)];
        }
        assert listeners[..i + 1] == listeners[..i] + [l];
        MatchingConcat(listeners[..i], [l], event, data);
        i := i + 1;
      }
      assert listeners[..i] == listeners;
    }

    /** One run of the periodic cleanup: keep the broadcasts younger than
        `BroadcastTtl` (writing only if any are left), then keep the users
        younger than `UserTtl` (always writing). */
    method Cleanup(now: int)
      requires Valid()
      modifies this
      ensures Valid()
      ensures store == if writable then Swept(old(store), now) else old(store)
      ensures var kept := Recent(old(StoredBroadcasts(store)), now);
        delivered == old(delivered) +
          if writable && kept != [] then Matching(listeners, "broadcasts", BroadcastList(kept)) else []
      ensures listeners == old(listeners) && nextHandle == old(nextHandle)
      ensures writable == old(writable) && defaults == old(defaults)
    {
      var got := Get(BroadcastsKey);
      var broadcasts := match got case Some(BroadcastList(l)) => l case _ => [];
      broadcasts := Recent(broadcasts, now);
      if |broadcasts| > 0 {
        var _ := Set(BroadcastsKey, BroadcastList(broadcasts));
      }
      var gotUsers := Get(UsersKey);
      var users := match gotUsers case Some(UserList(l)) => l case _ => [];
      users := Active(users, now);
      var _ := Set(UsersKey, UserList(users));
    }
  }
}
