/** The in-process observer registry. A listener is the `{event, callback}`
    record that addListener puts in the registry; `handle` stands for the
    identity of that record, which the unsubscribe closure deletes. Callbacks
    are opaque ids; a call of one is recorded as a `Delivery`. */
module Listeners {
  import opened Lists

  datatype Listener = Listener(handle: nat, event: string, callback: nat)

  datatype Delivery<D> = Delivery(handle: nat, callback: nat, data: D)

  /** The event name that matches every event. */
  const Wildcard := "*"

  /** The test notifyListeners applies: a wildcard listener hears every
      event, any other listener only its own. */
  predicate Hears(l: Listener, event: string): (r: bool)
    ensures l.event == Wildcard ==> r
    ensures l.event != Wildcard ==> (r <==> l.event == event)
  {
    l.event == event || l.event == Wildcard
  }

  /** The call one listener receives for a notification: none, or one. */
  function Calls<D>(l: Listener, event: string, data: D): seq<Delivery<D>>
  {
    if Hears(l, event) then [Delivery(l.handle, l.callback, data)] else []
  }

  /** The calls notifyListeners makes: one per listener that hears `event`,
      in registration order. */
  function Matching<D>(ls: seq<Listener>, event: string, data: D): (r: seq<Delivery<D>>)
    ensures |r| <= |ls|
    ensures forall i :: 0 <= i < |r| ==> r[i].data == data
  {
    if ls == [] then [] else Calls(ls[0], event, data) + Matching(ls[1..], event, data)
  }

  function Handles(ls: seq<Listener>): set<nat>
  {
    set l | l in ls :: l.handle
  }

  /** The registry invariant: handles grow in registration order and are
      all below the next one to be issued. */
  predicate Registry(ls: seq<Listener>, next: nat)
  {
    && (forall i, j :: 0 <= i < j < |ls| ==> ls[i].handle < ls[j].handle)
    && (forall i :: 0 <= i < |ls| ==> ls[i].handle < next)
  }

  function NotHandle(h: nat): Listener -> bool
  {
    (l: Listener) => l.handle != h
  }

  /** The registry after the unsubscribe closure of `h` ran. */
  function Without(ls: seq<Listener>, h: nat): (r: seq<Listener>)
    ensures forall l :: l in r <==> l in ls && l.handle != h
    ensures h !in Handles(r)
  {
    Filter(ls, NotHandle(h))
  }

  /** Notifying a concatenation of registries notifies the first part, then
      the second. */
  lemma {:induction false} MatchingConcat<D>(a: seq<Listener>, b: seq<Listener>, event: string, data: D)
    ensures Matching(a + b, event, data) == Matching(a, event, data) + Matching(b, event, data)
  {
    if a == [] {
      assert a + b == b;
    } else {
      assert (a + b)[1..] == a[1..] + b;
      MatchingConcat(a[1..], b, event, data);
    }
  }

  ghost predicate Heard<D>(ls: seq<Listener>, event: string, data: D, x: Delivery<D>)
  {
    exists l :: l in ls && Hears(l, event) && x == Delivery(l.handle, l.callback, data)
  }

  /** A notification calls exactly the listeners that hear the event, each
      with the notified data. */
  lemma {:induction false} MatchingMembers<D>(ls: seq<Listener>, event: string, data: D)
    ensures forall x :: x in Matching(ls, event, data) <==> Heard(ls, event, data, x)
  {
    if ls != [] {
      MatchingMembers(ls[1..], event, data);
      assert forall l :: l in ls <==> l == ls[0] || l in ls[1..];
    }
  }

  /** Once a handle's listener is gone, no notification calls it. */
  lemma UnsubscribedIsSilent<D>(ls: seq<Listener>, h: nat, event: string, data: D)
    ensures forall x :: x in Matching(Without(ls, h), event, data) ==> x.handle != h
  {
    var r := Without(ls, h);
    MatchingMembers(r, event, data);
    forall x | x in Matching(r, event, data) ensures x.handle != h {
      assert Heard(r, event, data, x);
      var l :| l in r && Hears(l, event) && x == Delivery(l.handle, l.callback, data);
    }
  }

  /** After the unsubscribe closure of `h` ran, whatever is registered later
      under other handles, no notification calls `h` again. */
  lemma NeverCalledAgain<D>(ls: seq<Listener>, h: nat, later: seq<Listener>, event: string, data: D)
    requires forall l :: l in later ==> l.handle != h
    ensures forall x :: x in Matching(Without(ls, h) + later, event, data) ==> x.handle != h
  {
    MatchingConcat(Without(ls, h), later, event, data);
    UnsubscribedIsSilent(ls, h, event, data);
    MatchingMembers(later, event, data);
    forall x | x in Matching(later, event, data) ensures x.handle != h {
      assert Heard(later, event, data, x);
    }
  }

  /** A write announced as `broadcasts` reaches the `broadcasts` and `*`
      listeners and not the `settings` one; a `settings` write reaches the
      `settings` and `*` listeners. */
  lemma RoutingExample<D>(data: D)
    ensures var ls := [Listener(0, "broadcasts", 10), Listener(1, "settings", 11), Listener(2, Wildcard, 12)];
      && Matching(ls, "broadcasts", data) == [Delivery(0, 10, data), Delivery(2, 12, data)]
      && Matching(ls, "settings", data) == [Delivery(1, 11, data), Delivery(2, 12, data)]
  {
    var ls := [Listener(0, "broadcasts", 10), Listener(1, "settings", 11), Listener(2, Wildcard, 12)];
    assert "settings" != "broadcasts" && "settings" != Wildcard && "broadcasts" != Wildcard by {
      assert "settings"[0] != "broadcasts"[0];
    }
    assert ls[1..] == [ls[1], ls[2]] && ls[1..][1..] == [ls[2]] && ls[1..][1..][1..] == [];
    forall e | e in {"broadcasts", "settings"}
      ensures Matching(ls, e, data) == Calls(ls[0], e, data) + Calls(ls[1], e, data) + Calls(ls[2], e, data)
    {
      assert Matching([ls[2]], e, data) == Calls(ls[2], e, data);
      assert Matching([ls[1], ls[2]], e, data) == Calls(ls[1], e, data) + Calls(ls[2], e, data);
    }
  }

  /** Removing a listener keeps the registry invariant. */
  lemma {:induction false} WithoutKeepsRegistry(ls: seq<Listener>, next: nat, h: nat)
    requires Registry(ls, next)
    ensures Registry(Without(ls, h), next)
  {
    if ls != [] {
      WithoutKeepsRegistry(ls[1..], next, h);
      var rest := Without(ls[1..], h);
      assert ls == [ls[0]] + ls[1..];
      FilterConcat([ls[0]], ls[1..], NotHandle(h));
      forall l | l in rest ensures ls[0].handle < l.handle {
        var k :| 0 <= k < |ls[1..]| && ls[1..][k] == l;
        assert ls[k + 1] == l;
      }
    }
  }

  /** How many of `ds` went to the listener with handle `h`. */
  function CountFor<D>(ds: seq<Delivery<D>>, h: nat): nat
  {
    if ds == [] then 0 else (if ds[0].handle == h then 1 else 0) + CountFor(ds[1..], h)
  }

  lemma {:induction false} CountForConcat<D>(a: seq<Delivery<D>>, b: seq<Delivery<D>>, h: nat)
    ensures CountFor(a + b, h) == CountFor(a, h) + CountFor(b, h)
  {
    if a == [] {
      assert a + b == b;
    } else {
      assert (a + b)[1..] == a[1..] + b;
      CountForConcat(a[1..], b, h);
    }
  }

  lemma {:induction false} CountForUnregistered<D>(ls: seq<Listener>, h: nat, event: string, data: D)
    requires h !in Handles(ls)
    ensures CountFor(Matching(ls, event, data), h) == 0
  {
    if ls != [] {
      assert ls[0] in ls;
      assert Handles(ls[1..]) <= Handles(ls);
      CountForUnregistered(ls[1..], h, event, data);
      CountForConcat(Calls(ls[0], event, data), Matching(ls[1..], event, data), h);
    }
  }

  /** In a valid registry, a notification calls each registered listener
      once if it hears the event and not at all otherwise. */
  lemma {:induction false} DeliveredOnce<D>(ls: seq<Listener>, next: nat, l: Listener, event: string, data: D)
    requires Registry(ls, next) && l in ls
    ensures CountFor(Matching(ls, event, data), l.handle) == if Hears(l, event) then 1 else 0
  {
    CountForConcat(Calls(ls[0], event, data), Matching(ls[1..], event, data), l.handle);
    if ls[0] == l {
      forall m | m in ls[1..] ensures m.handle != l.handle {
        var k :| 0 <= k < |ls[1..]| && ls[1..][k] == m;
        assert ls[k + 1] == m;
      }
      CountForUnregistered(ls[1..], l.handle, event, data);
    } else {
      var k :| 0 <= k < |ls| && ls[k] == l;
      assert k > 0;
      DeliveredOnce(ls[1..], next, l, event, data);
    }
  }
}
