/**
 * A first-in-first-out queue of comment messages with read flags, changed in
 * place. Identifiers (`crypto.randomUUID`) and timestamps (`new Date()`) come
 * in as parameters.
 */
module MessageQueues {
  import opened Wrappers

  /** A queued message; `createdAt` and `readAt` are timestamps. */
  datatype Message = Message(id: string, text: string, isRead: bool, createdAt: int, readAt: Option<int>)

  /** `queue.filter(m => !m.isRead)`. */
  function UnreadOf(q: seq<Message>): (r: seq<Message>)
    ensures |r| <= |q|
    decreases |q|
  {
    if q == [] then []
    else UnreadOf(q[..|q| - 1]) + (if q[|q| - 1].isRead then [] else [q[|q| - 1]])
  }

  /** `queue.find(m => !m.isRead)`, as an index. */
  function FirstUnread(q: seq<Message>): (r: Option<nat>)
    ensures r.None? ==> forall j :: 0 <= j < |q| ==> q[j].isRead
    ensures r.Some? ==> r.value < |q| && !q[r.value].isRead && forall j :: 0 <= j < r.value ==> q[j].isRead
    decreases |q|
  {
    if q == [] then None
    else if !q[0].isRead then Some(0)
    else
      match FirstUnread(q[1..])
      case None => None
      case Some(i) => Some(i + 1)
  }

  /** `queue.find(m => m.id === id)`, as an index. */
  function FindId(q: seq<Message>, id: string): (r: Option<nat>)
    ensures r.None? ==> forall j :: 0 <= j < |q| ==> q[j].id != id
    ensures r.Some? ==> r.value < |q| && q[r.value].id == id && forall j :: 0 <= j < r.value ==> q[j].id != id
    decreases |q|
  {
    if q == [] then None
    else if q[0].id == id then Some(0)
    else
      match FindId(q[1..], id)
      case None => None
      case Some(i) => Some(i + 1)
  }

  /** A message after `markAllAsRead` has visited it, reading the clock as `now`. */
  function MarkRead(m: Message, now: int): (r: Message)
    ensures r.isRead && r.id == m.id && r.text == m.text && r.createdAt == m.createdAt
    ensures m.isRead ==> r == m
  {
    if m.isRead then m else m.(isRead := true, readAt := Some(now))
  }

  /**
   * The queue after `markAllAsRead`, where `clock[j]` is what `new Date()`
   * reads if the message at `j` is unread when the loop reaches it.
   */
  function MarkAll(q: seq<Message>, clock: seq<int>): (r: seq<Message>)
    requires |q| <= |clock|
    ensures |r| == |q|
    ensures forall j :: 0 <= j < |q| ==> r[j] == MarkRead(q[j], clock[j])
    ensures forall j :: 0 <= j < |q| && !q[j].isRead ==> r[j].readAt == Some(clock[j])
  {
    seq(|q|, j requires 0 <= j < |q| => MarkRead(q[j], clock[j]))
  }

  /**
   * Visiting the message at `i` extends the marked prefix by one: a read
   * message is left as it is, an unread one takes `clock[i]`.
   */
  lemma MarkStep(q: seq<Message>, i: nat, clock: seq<int>)
    requires i < |q| <= |clock|
    ensures var cur := MarkAll(q[..i], clock) + q[i..];
      && cur[i] == q[i]
      && (q[i].isRead ==> cur == MarkAll(q[..i + 1], clock) + q[i + 1..])
      && (!q[i].isRead ==>
            cur[i := q[i].(isRead := true, readAt := Some(clock[i]))] == MarkAll(q[..i + 1], clock) + q[i + 1..])
      && q[..i + 1] == q[..i] + [q[i]]
  {
    var cur := MarkAll(q[..i], clock) + q[i..];
    var next := MarkAll(q[..i + 1], clock) + q[i + 1..];
    assert cur[i] == q[i];
    assert cur[i := MarkRead(q[i], clock[i])] == next;
  }

  /** The unread messages of a queue with one more message at the end. */
  lemma UnreadSnoc(q: seq<Message>, m: Message)
    ensures UnreadOf(q + [m]) == UnreadOf(q) + (if m.isRead then [] else [m])
  {
    assert (q + [m])[..|q|] == q;
  }

  /** `unread()` keeps exactly the unread messages, in queue order. */
  lemma {:induction false} UnreadAppend(a: seq<Message>, b: seq<Message>)
    ensures UnreadOf(a + b) == UnreadOf(a) + UnreadOf(b)
    decreases |b|
  {
    if b == [] {
      assert a + b == a;
    } else {
      var init, x := b[..|b| - 1], b[|b| - 1];
      var tail := if x.isRead then [] else [x];
      assert b == init + [x];
      assert a + b == (a + init) + [x];
      UnreadAppend(a, init);
      calc {
        UnreadOf(a + b);
        { UnreadSnoc(a + init, x); }
        UnreadOf(a + init) + tail;
        (UnreadOf(a) + UnreadOf(init)) + tail;
        UnreadOf(a) + (UnreadOf(init) + tail);
        { UnreadSnoc(init, x); }
        UnreadOf(a) + UnreadOf(b);
      }
    }
  }

  /** Every message `unread()` returns is unread and queued, and there is none exactly when all are read. */
  lemma {:induction false} UnreadMembers(q: seq<Message>)
    ensures forall m :: m in UnreadOf(q) ==> !m.isRead && m in q
    ensures UnreadOf(q) == [] <==> forall j :: 0 <= j < |q| ==> q[j].isRead
    decreases |q|
  {
    if q != [] {
      var init := q[..|q| - 1];
      UnreadMembers(init);
      assert forall m :: m in init ==> m in q;
      if UnreadOf(q) == [] {
        forall j | 0 <= j < |q| ensures q[j].isRead {
          if j < |q| - 1 {
            assert q[j] == init[j];
          }
        }
      }
    }
  }

  /** After `markAllAsRead` nothing is unread. */
  lemma {:induction false} MarkAllLeavesNothingUnread(q: seq<Message>, clock: seq<int>)
    requires |q| <= |clock|
    ensures UnreadOf(MarkAll(q, clock)) == []
  {
    UnreadMembers(MarkAll(q, clock));
  }

  class MessageQueue {
    var queue: seq<Message>

    constructor()
      ensures queue == []
    {
      queue := [];
    }

    /** `add`: one more unread message at the end, returned; earlier messages are untouched. */
    method Add(text: string, id: string, now: int) returns (m: Message)
      modifies this
      ensures m == Message(id, text, false, now, None)
      ensures queue == old(queue) + [m]
      ensures UnreadOf(queue) == UnreadOf(old(queue)) + [m]
    {
      m := Message(id, text, false, now, None);
      queue := queue + [m];
      UnreadSnoc(old(queue), m);
    }

    /**
     * `getNextUnread`: the earliest unread message gets `isRead := isRed`
     * (`true` unless given) and `readAt := now` and is returned; with no
     * unread message nothing changes.
     */
    method GetNextUnread(now: int, isRed: bool := true) returns (r: Option<Message>)
      modifies this
      ensures FirstUnread(old(queue)).None? ==> r.None? && queue == old(queue)
      ensures FirstUnread(old(queue)).Some? ==>
        var i := FirstUnread(old(queue)).value;
        && queue == old(queue)[i := old(queue)[i].(isRead := isRed, readAt := Some(now))]
        && r == Some(queue[i])
    {
      match FirstUnread(queue)
      case None =>
        r := None;
      case Some(i) =>
        var msg := queue[i].(isRead := isRed, readAt := Some(now));
        queue := queue[i := msg];
        r := Some(msg);
    }

    /**
     * `markAsRead`: false and no change when no message has `id`; otherwise
     * the first message with `id` is marked read at `now`, and true.
     */
    method MarkAsRead(id: string, now: int) returns (found: bool)
      modifies this
      ensures found <==> FindId(old(queue), id).Some?
      ensures !found ==> queue == old(queue)
      ensures found ==>
        var i := FindId(old(queue), id).value;
        queue == old(queue)[i := old(queue)[i].(isRead := true, readAt := Some(now))]
    {
      match FindId(queue, id)
      case None =>
        return false;
      case Some(i) =>
        queue := queue[i := queue[i].(isRead := true, readAt := Some(now))];
        return true;
    }

    /**
     * `markAllAsRead`: marks every unread message read, the one at `j` at
     * its own clock reading `clock[j]`, and returns how many there were;
     * afterwards nothing is unread.
     */
    method MarkAllAsRead(clock: seq<int>) returns (count: nat)
      requires |queue| <= |clock|
      modifies this
      ensures count == |UnreadOf(old(queue))|
      ensures queue == MarkAll(old(queue), clock)
      ensures UnreadOf(queue) == []
    {
      ghost var q0 := queue;
      count := 0;
      var i := 0;
      while i < |queue|
        invariant |q0| <= |clock|
        invariant 0 <= i <= |q0| == |queue|
        invariant queue == MarkAll(q0[..i], clock) + q0[i..]
        invariant count == |UnreadOf(q0[..i])|
      {
        MarkStep(q0, i, clock);
        UnreadSnoc(q0[..i], q0[i]);
        if !queue[i].isRead {
          queue := queue[i := queue[i].(isRead := true, readAt := Some(clock[i]))];
          count := count + 1;
        }
        i := i + 1;
      }
      assert q0[..i] == q0 && q0[i..] == [];
      MarkAllLeavesNothingUnread(q0, clock);
    }

    /** `snapshot`: a copy equal to the queue. */
    method Snapshot() returns (r: seq<Message>)
      ensures r == queue
    {
      r := queue;
    }

    /** `unread`: the unread messages in queue order. */
    method Unread() returns (r: seq<Message>)
      ensures r == UnreadOf(queue)
      ensures forall m :: m in r ==> !m.isRead && m in queue
    {
      r := UnreadOf(queue);
      UnreadMembers(queue);
    }

    /** `size`: the number of queued messages. */
    method Size() returns (n: nat)
      ensures n == |queue|
    {
      n := |queue|;
    }

    /** `unreadSize`: the number of unread messages, the length of `unread()`. */
    method UnreadSize() returns (n: nat)
      ensures n == |UnreadOf(queue)|
      ensures n <= |queue|
    {
      n := |UnreadOf(queue)|;
    }

    /** `clear`: the queue becomes empty. */
    method Clear()
      modifies this
      ensures queue == []
    {
      queue := [];
    }

    /** `getAll`: the queue itself. */
    method GetAll() returns (r: seq<Message>)
      ensures r == queue
    {
      r := queue;
    }
  }
}
