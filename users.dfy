/** The connected-user list: one record per open session, appended on
    registration and dropped once its `lastSeen` is five minutes old. */
module Users {
  import opened Json
  import opened Lists

  datatype User = User(id: string, lastSeen: int, active: bool, payload: Fields)

  /** Inactivity, in milliseconds, from which a user is stale (5 minutes).
      Registration writes it as 300000, the cleanup sweep as 5 * 60 * 1000. */
  const UserTtl: int := 5 * 60 * 1000

  /** The record that registerUser builds from the caller's fields: `id`,
      `lastSeen` and `active` are written last and override caller fields
      of those names. */
  function NewUser(data: Fields, id: string, now: int): (u: User)
    ensures u.id == id && u.lastSeen == now && u.active
    ensures u.payload.Keys == data.Keys - {"id", "lastSeen", "active"}
    ensures forall f :: f in u.payload ==> u.payload[f] == data[f]
  {
    User(id, now, true, data - {"id", "lastSeen", "active"})
  }

  function FreshAt(now: int): User -> bool
  {
    (u: User) => now - u.lastSeen < UserTtl
  }

  /** The filter shared by registerUser and the cleanup sweep: the users
      seen less than `UserTtl` milliseconds before `now`, in stored order. */
  function Active(users: seq<User>, now: int): (r: seq<User>)
    ensures |r| <= |users|
    ensures forall u :: u in r <==> u in users && now - u.lastSeen < UserTtl
  {
    Filter(users, FreshAt(now))
  }

  /** The list registerUser stores: the fresh users, then the new one. */
  function Registered(users: seq<User>, u: User, now: int): (r: seq<User>)
    ensures |r| >= 1 && r[|r| - 1] == u
    ensures forall v :: v in r[..|r| - 1] <==> v in users && now - v.lastSeen < UserTtl
  {
    Active(users, now) + [u]
  }

  /** After a registration at `now`, no stored user is stale at `now`:
      a user seen exactly `UserTtl` milliseconds ago is gone as well. */
  lemma RegistrationEvictsStale(users: seq<User>, data: Fields, id: string, now: int)
    ensures forall v :: v in Registered(users, NewUser(data, id, now), now) ==> now - v.lastSeen < UserTtl
    ensures forall v :: v in users && v.lastSeen == now - UserTtl ==> v !in Active(users, now)
  {
    var r := Registered(users, NewUser(data, id, now), now);
    assert r == r[..|r| - 1] + [r[|r| - 1]];
  }

  /** Registering keeps the fresh users in their stored order. */
  lemma {:induction false} RegistrationKeepsOrder(a: seq<User>, b: seq<User>, u: User, now: int)
    ensures Registered(a + b, u, now) == Active(a, now) + Registered(b, u, now)
  {
    FilterConcat(a, b, FreshAt(now));
  }

  function TouchIfId(id: string, now: int): User -> User
  {
    (u: User) => if u.id == id then u.(lastSeen := now) else u
  }

  /** updateUserActivity's map: only `lastSeen` can change, and it becomes
      `now` on exactly the records whose id matches. */
  function Touch(users: seq<User>, id: string, now: int): (r: seq<User>)
    ensures |r| == |users|
    ensures forall i :: 0 <= i < |users| ==>
      && r[i].id == users[i].id
      && r[i].active == users[i].active
      && r[i].payload == users[i].payload
      && r[i].lastSeen == (if users[i].id == id then now else users[i].lastSeen)
  {
    Map(users, TouchIfId(id, now))
  }

  /** Touching an id that no record carries changes nothing. */
  lemma TouchAbsent(users: seq<User>, id: string, now: int)
    requires forall u :: u in users ==> u.id != id
    ensures Touch(users, id, now) == users
  {
    var r := Touch(users, id, now);
    assert forall i :: 0 <= i < |users| ==> r[i] == users[i];
  }

  /** A user touched at `now` survives a sweep at any time less than
      `UserTtl` later. */
  lemma TouchedSurvivesSweep(users: seq<User>, id: string, now: int, later: int)
    requires now <= later < now + UserTtl
    ensures forall i :: 0 <= i < |users| && users[i].id == id ==>
      Touch(users, id, now)[i] in Active(Touch(users, id, now), later)
  {
  }
}
