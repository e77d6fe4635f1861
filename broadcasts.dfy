/** The broadcast list: admin messages kept newest-first, at most
    `MaxBroadcasts` of them, each with a `read` flag. */
module Broadcasts {
  import opened Json
  import opened Lists

  datatype Broadcast = Broadcast(id: string, timestamp: int, read: bool, payload: Fields)

  /** Length the list is cut back to after a send. */
  const MaxBroadcasts: nat := 20

  /** Age, in milliseconds, from which the cleanup sweep drops a broadcast (24 hours). */
  const BroadcastTtl: int := 24 * 60 * 60 * 1000

  function Min(a: int, b: int): int { if a < b then a else b }

  /** The record that sendBroadcast builds from the caller's fields: `id`,
      `timestamp` and `read` are written last, so caller fields of those
      names are overridden. */
  function NewBroadcast(data: Fields, id: string, now: int): (b: Broadcast)
    ensures b.id == id && b.timestamp == now && !b.read
    ensures b.payload.Keys == data.Keys - {"id", "timestamp", "read"}
    ensures forall f :: f in b.payload ==> b.payload[f] == data[f]
  {
    Broadcast(id, now, false, data - {"id", "timestamp", "read"})
  }

  /** `unshift` followed by the cut to the first `MaxBroadcasts` entries. */
  function Push(b: Broadcast, list: seq<Broadcast>): (r: seq<Broadcast>)
    ensures |r| == Min(|list| + 1, MaxBroadcasts)
    ensures r[0] == b
    ensures r[1..] == list[..|r| - 1]
  {
    var l := [b] + list;
    if |l| > MaxBroadcasts then l[..MaxBroadcasts] else l
  }

  /** The list after sending `bs[0]`, then `bs[1]`, and so on: repeated
      sendBroadcast calls. Once anything is sent, it is cut to the cap. */
  function SendAll(list: seq<Broadcast>, bs: seq<Broadcast>): (r: seq<Broadcast>)
    ensures bs == [] ==> r == list
    ensures bs != [] ==> |r| == Min(|list| + |bs|, MaxBroadcasts)
    decreases |bs|
  {
    if bs == [] then list else SendAll(Push(bs[0], list), bs[1..])
  }

  /** Records given in sending order, listed newest first. */
  function NewestFirst<T>(sent: seq<T>): (r: seq<T>)
    ensures |r| == |sent|
  {
    if sent == [] then [] else NewestFirst(sent[1..]) + [sent[0]]
  }

  /** The `k`-th newest record is the `k`-th from the end of the sending order. */
  lemma {:induction false} NewestFirstAt<T>(sent: seq<T>, k: nat)
    requires k < |sent|
    ensures NewestFirst(sent)[k] == sent[|sent| - 1 - k]
  {
    var older := NewestFirst(sent[1..]);
    if k == |sent| - 1 {
      assert NewestFirst(sent)[k] == sent[0];
    } else {
      NewestFirstAt(sent[1..], k);
      assert NewestFirst(sent)[k] == older[k];
    }
  }

  /** Cutting `y` before appending it to `x` does not change a prefix that
      ends within the cut. */
  lemma PrefixOfCut<T>(x: seq<T>, y: seq<T>, k: nat, n: nat)
    requires k <= |y| && n <= |x| + k
    ensures (x + y[..k])[..n] == (x + y)[..n]
  {
    assert forall i :: 0 <= i < n ==> (x + y[..k])[i] == (x + y)[i];
  }

  /** Sends onto any stored list leave the sent records newest-first in
      front of the old list, cut to `MaxBroadcasts` entries. (With nothing
      sent, a list already longer than the cap stays as it is.) */
  lemma {:induction false} SendAllKeepsNewest(list: seq<Broadcast>, bs: seq<Broadcast>)
    requires |list| <= MaxBroadcasts || bs != []
    ensures SendAll(list, bs) == (NewestFirst(bs) + list)[..Min(|bs| + |list|, MaxBroadcasts)]
    decreases |bs|
  {
    if bs == [] {
      assert NewestFirst(bs) + list == list;
    } else {
      var b, rest := bs[0], bs[1..];
      var p := Push(b, list);
      var n := Min(|rest| + |p|, MaxBroadcasts);
      assert n == Min(|bs| + |list|, MaxBroadcasts);
      assert p == ([b] + list)[..|p|] by {
        assert p == [p[0]] + p[1..];
      }
      assert NewestFirst(bs) + list == NewestFirst(rest) + ([b] + list) by {
        assert NewestFirst(bs) == NewestFirst(rest) + [b];
      }
      calc {
        SendAll(list, bs);
        SendAll(p, rest);
        { SendAllKeepsNewest(p, rest); }
        (NewestFirst(rest) + p)[..n];
        { PrefixOfCut(NewestFirst(rest), [b] + list, |p|, n); }
        (NewestFirst(rest) + ([b] + list))[..n];
      }
    }
  }

  /** Once at least `MaxBroadcasts` records were sent, the list holds exactly
      the last `MaxBroadcasts` of them, newest first. */
  lemma {:induction false} NewestTwentyAfterManySends(list: seq<Broadcast>, bs: seq<Broadcast>)
    requires |bs| >= MaxBroadcasts
    ensures SendAll(list, bs) == NewestFirst(bs[|bs| - MaxBroadcasts..])
  {
    SendAllKeepsNewest(list, bs);
    var tail := bs[|bs| - MaxBroadcasts..];
    forall i | 0 <= i < MaxBroadcasts
      ensures SendAll(list, bs)[i] == NewestFirst(tail)[i]
    {
      NewestFirstAt(bs, i);
      NewestFirstAt(tail, i);
    }
  }

  predicate IsUnread(b: Broadcast) { !b.read }

  /** getUnreadBroadcasts' filter. */
  function Unread(list: seq<Broadcast>): (r: seq<Broadcast>)
    ensures |r| <= |list|
    ensures forall b :: b in r <==> b in list && !b.read
  {
    Filter(list, IsUnread)
  }

  /** A record just sent heads the unread records of the new list. */
  lemma SentIsFirstUnread(data: Fields, id: string, now: int, list: seq<Broadcast>)
    ensures Unread(Push(NewBroadcast(data, id, now), list)) != []
    ensures Unread(Push(NewBroadcast(data, id, now), list))[0] == NewBroadcast(data, id, now)
  {
    var b := NewBroadcast(data, id, now);
    var p := Push(b, list);
    assert p == [b] + p[1..];
    FilterConcat([b], p[1..], IsUnread);
    assert Filter([b], IsUnread) == [b];
  }

  function MarkIfId(id: string): Broadcast -> Broadcast
  {
    (b: Broadcast) => if b.id == id then b.(read := true) else b
  }

  /** markBroadcastAsRead's map: only the `read` flag can change, and it
      becomes true on exactly the records whose id matches. */
  function MarkRead(list: seq<Broadcast>, id: string): (r: seq<Broadcast>)
    ensures |r| == |list|
    ensures forall i :: 0 <= i < |list| ==>
      && r[i].id == list[i].id
      && r[i].timestamp == list[i].timestamp
      && r[i].payload == list[i].payload
      && (r[i].read <==> list[i].read || list[i].id == id)
  {
    Map(list, MarkIfId(id))
  }

  /** Marking an id that no record carries changes nothing. */
  lemma MarkReadAbsent(list: seq<Broadcast>, id: string)
    requires forall b :: b in list ==> b.id != id
    ensures MarkRead(list, id) == list
  {
    var r := MarkRead(list, id);
    assert forall i :: 0 <= i < |list| ==> r[i] == list[i];
  }

  /** Marking twice is marking once. */
  lemma MarkReadIdempotent(list: seq<Broadcast>, id: string)
    ensures MarkRead(MarkRead(list, id), id) == MarkRead(list, id)
  {
    var r := MarkRead(list, id);
    var rr := MarkRead(r, id);
    assert forall i :: 0 <= i < |r| ==> rr[i] == r[i];
  }

  function HasOtherId(id: string): Broadcast -> bool
  {
    (b: Broadcast) => b.id != id
  }

  /** After marking `id`, the unread records are the previously unread ones
      without that id, in the same order. */
  lemma {:induction false} MarkReadHidesFromUnread(list: seq<Broadcast>, id: string)
    ensures Unread(MarkRead(list, id)) == Filter(Unread(list), HasOtherId(id))
  {
    if list != [] {
      var r := MarkRead(list, id);
      MarkReadHidesFromUnread(list[1..], id);
      assert r[1..] == MarkRead(list[1..], id);
      assert r == [r[0]] + r[1..];
      assert list == [list[0]] + list[1..];
      FilterConcat([r[0]], r[1..], IsUnread);
      FilterConcat([list[0]], list[1..], IsUnread);
      FilterConcat(Filter([list[0]], IsUnread), Unread(list[1..]), HasOtherId(id));
    }
  }

  function RecentAt(now: int): Broadcast -> bool
  {
    (b: Broadcast) => now - b.timestamp < BroadcastTtl
  }

  /** The cleanup sweep's filter on broadcasts. */
  function Recent(list: seq<Broadcast>, now: int): (r: seq<Broadcast>)
    ensures |r| <= |list|
    ensures forall b :: b in r <==> b in list && now - b.timestamp < BroadcastTtl
  {
    Filter(list, RecentAt(now))
  }
}
