/**
 The life of a message in an EagleMQ queue (queue_t.c): queued, unconfirmed, retired.

 `queue` lists messages from the head (newest) to the tail (oldest, where pops happen).  A
 message has an identity, which stands for its address; a link from a message to its list node
 is the position of that identity in the list.  Times do not wrap.
 */
module MessageQueue {

  import NodeList

  datatype Message = Message(id: nat, tag: nat, size: nat, confirm: nat, expiration: nat)

  /* --- Lists of messages ------------------------------------------------------------ */

  ghost function Ids(s: seq<Message>): multiset<nat>
  {
    if s == [] then multiset{} else Ids(s[..|s| - 1]) + multiset{s[|s| - 1].id}
  }

  lemma IdsSnoc(s: seq<Message>, m: Message)
    ensures Ids(s + [m]) == Ids(s) + multiset{m.id}
  {
    assert (s + [m])[..|s|] == s;
  }

  lemma {:induction false} IdsConcat(s: seq<Message>, t: seq<Message>)
    ensures Ids(s + t) == Ids(s) + Ids(t)
    decreases |t|
  {
    hide Ids;
    if t == [] {
      assert s + t == s;
      IdsNone();
    } else {
      var rest, last := t[..|t| - 1], t[|t| - 1];
      IdsConcat(s, rest);
      IdsSnoc(s + rest, last);
      IdsSnoc(rest, last);
      assert s + t == (s + rest) + [last];
      assert t == rest + [last];
    }
  }

  lemma IdsNone()
    ensures Ids([]) == multiset{}
  {
  }

  lemma IdsOne(m: Message)
    ensures Ids([m]) == multiset{m.id}
  {
    assert [m][..0] == [];
  }

  lemma {:induction false} IdsHold(s: seq<Message>, i: nat)
    requires i < |s|
    ensures s[i].id in Ids(s)
    decreases |s|
  {
    if i < |s| - 1 {
      IdsHold(s[..|s| - 1], i);
    }
  }

  /** The messages that satisfy a test, in order. */
  function Filter(s: seq<Message>, p: Message -> bool): (r: seq<Message>)
    ensures forall m :: m in r <==> m in s && p(m)
  {
    if s == [] then [] else
      assert s == s[..|s| - 1] + [s[|s| - 1]];
      if p(s[|s| - 1]) then Filter(s[..|s| - 1], p) + [s[|s| - 1]] else Filter(s[..|s| - 1], p)
  }

  lemma {:induction false} FilterConcat(s: seq<Message>, t: seq<Message>, p: Message -> bool)
    ensures Filter(s + t, p) == Filter(s, p) + Filter(t, p)
    decreases |t|
  {
    if t == [] {
      assert s + t == s;
    } else {
      FilterConcat(s, t[..|t| - 1], p);
      assert (s + t)[..|s + t| - 1] == s + t[..|t| - 1];
    }
  }

  lemma FilterOne(m: Message, p: Message -> bool)
    ensures Filter([m], p) == if p(m) then [m] else []
  {
    assert [m][..0] == [];
    assert Filter([m][..0], p) == [];
  }

  lemma {:induction false} FilterSame(s: seq<Message>, p: Message -> bool, q: Message -> bool)
    requires forall m :: m in s ==> p(m) == q(m)
    ensures Filter(s, p) == Filter(s, q)
    decreases |s|
  {
    if s != [] {
      FilterSame(s[..|s| - 1], p, q);
    }
  }

  lemma {:induction false} FilterTwice(s: seq<Message>, p: Message -> bool, q: Message -> bool)
    ensures Filter(Filter(s, p), q) == Filter(s, m => p(m) && q(m))
    decreases |s|
  {
    if s != [] {
      var rest, last := s[..|s| - 1], s[|s| - 1];
      FilterTwice(rest, p, q);
      if p(last) {
        FilterConcat(Filter(rest, p), [last], q);
        FilterOne(last, q);
      }
    }
  }

  /** Every identity occurs at most once. */
  ghost predicate Distinct(s: seq<Message>)
  {
    forall i, j :: 0 <= i < j < |s| ==> s[i].id != s[j].id
  }

  lemma {:induction false} DistinctIds(s: seq<Message>)
    requires forall k :: Ids(s)[k] <= 1
    ensures Distinct(s)
    decreases |s|
  {
    if s != [] {
      var rest, last := s[..|s| - 1], s[|s| - 1];
      assert forall k :: Ids(rest)[k] <= Ids(s)[k];
      DistinctIds(rest);
      forall i | 0 <= i < |rest| ensures rest[i].id != last.id {
        IdsHold(rest, i);
      }
    }
  }

  /** Unlinking the node of message `id`. */
  function Without(s: seq<Message>, id: nat): seq<Message>
  {
    Filter(s, (m: Message) => m.id != id)
  }

  predicate Expires(m: Message) { m.expiration != 0 }

  /** Expired by `time`. */
  predicate Expired(m: Message, time: nat) { m.expiration != 0 && m.expiration <= time }

  predicate TimedOut(m: Message, time: nat) { m.confirm <= time }

  function Except(s: seq<Message>, ids: set<nat>): seq<Message>
  {
    Filter(s, (m: Message) => m.id !in ids)
  }

  function Unexpired(s: seq<Message>, time: nat): (r: seq<Message>)
    ensures forall m :: m in r <==> m in s && !Expired(m, time)
  {
    Filter(s, (m: Message) => !Expired(m, time))
  }

  function InTime(s: seq<Message>, time: nat): (r: seq<Message>)
    ensures forall m :: m in r <==> m in s && !TimedOut(m, time)
  {
    Filter(s, (m: Message) => !TimedOut(m, time))
  }

  /** What goes back to the queue. */
  function Overdue(s: seq<Message>, time: nat): (r: seq<Message>)
    ensures forall m :: m in r <==> m in s && TimedOut(m, time) && !Expired(m, time)
  {
    Filter(s, (m: Message) => TimedOut(m, time) && !Expired(m, time))
  }

  lemma {:induction false} DistinctFilter(s: seq<Message>, p: Message -> bool)
    requires Distinct(s)
    ensures Distinct(Filter(s, p))
    decreases |s|
  {
    if s != [] {
      var rest, last := s[..|s| - 1], s[|s| - 1];
      DistinctFilter(rest, p);
      assert forall m :: m in rest ==> m.id != last.id;
      assert forall i :: 0 <= i < |Filter(rest, p)| ==> Filter(rest, p)[i] in rest;
    }
  }

  lemma {:induction false} IdsIn(s: seq<Message>, id: nat)
    ensures id in Ids(s) <==> exists m :: m in s && m.id == id
    decreases |s|
  {
    if s != [] {
      IdsIn(s[..|s| - 1], id);
      assert s == s[..|s| - 1] + [s[|s| - 1]];
    }
  }

  /** Unlinking a message takes out exactly its identity. */
  lemma {:induction false} WithoutIds(s: seq<Message>, m: Message)
    requires Distinct(s) && m in s
    ensures Ids(s) == Ids(Without(s, m.id)) + multiset{m.id}
    decreases |s|
  {
    var rest, last := s[..|s| - 1], s[|s| - 1];
    assert s == rest + [last];
    if last == m {
      assert forall e :: e in rest ==> e.id != m.id;
      FilterAll(rest, (e: Message) => e.id != m.id);
    } else {
      WithoutIds(rest, m);
      IdsSnoc(Without(rest, m.id), last);
    }
  }

  lemma {:induction false} FilterAll(s: seq<Message>, p: Message -> bool)
    requires forall i :: 0 <= i < |s| ==> p(s[i])
    ensures Filter(s, p) == s
    decreases |s|
  {
    if s != [] {
      FilterAll(s[..|s| - 1], p);
      assert s == s[..|s| - 1] + [s[|s| - 1]];
    }
  }

  /* --- The queue ------------------------------------------------------------------------ */

  /** Each accepted message is in exactly one of the queue, the unconfirmed list, or retired. */
  ghost predicate Partition(queue: seq<Message>, unconfirmed: seq<Message>, retired: set<nat>, accepted: set<nat>)
  {
    Ids(queue) + Ids(unconfirmed) + multiset(retired) == multiset(accepted)
  }

  /** `expire` lists exactly the queued messages that expire, each once. */
  ghost predicate ExpireOk(queue: seq<Message>, expire: seq<Message>)
  {
    Distinct(expire) && forall m :: m in expire <==> m in queue && Expires(m)
  }

  lemma PartitionDistinct(queue: seq<Message>, unconfirmed: seq<Message>, retired: set<nat>, accepted: set<nat>)
    requires Partition(queue, unconfirmed, retired, accepted)
    ensures Distinct(queue) && Distinct(unconfirmed)
    ensures forall m, n :: m in queue && n in unconfirmed ==> m.id != n.id
    ensures forall m :: m in queue || m in unconfirmed ==> m.id in accepted && m.id !in retired
  {
    hide Ids;
    var all := multiset(accepted);
    forall k ensures Ids(queue)[k] + Ids(unconfirmed)[k] + multiset(retired)[k] == all[k] <= 1 {
      assert (Ids(queue) + Ids(unconfirmed) + multiset(retired))[k] == all[k];
    }
    DistinctIds(queue);
    DistinctIds(unconfirmed);
    forall m | m in queue ensures m.id in Ids(queue) {
      IdsIn(queue, m.id);
    }
    forall m | m in unconfirmed ensures m.id in Ids(unconfirmed) {
      IdsIn(unconfirmed, m.id);
    }
  }

  /** The position of the first message with the tag, or the length if there is none. */
  function FirstTagged(s: seq<Message>, tag: nat): (i: nat)
    ensures i <= |s| && (i < |s| ==> s[i].tag == tag) && forall j :: 0 <= j < i ==> s[j].tag != tag
  {
    if s == [] || s[0].tag == tag then 0 else
      assert forall j :: 0 < j < |s| ==> s[j] == s[1..][j - 1];
      1 + FirstTagged(s[1..], tag)
  }

  class Queue {
    const maxMsg: nat
    const maxMsgSize: nat
    const forcePush: bool
    const roundRobin: bool
    var queue: seq<Message>
    /** The node list holds a pointer to a node that is gone, and something was written through it. */
    var stale: bool
    var wild: bool
    var expire: seq<Message>
    var unconfirmed: seq<Message>
    /** Who is sent messages, and who is only told that there was one. */
    var subscribers: seq<nat>
    var watchers: seq<nat>
    var nextId: nat
    ghost var accepted: set<nat>
    ghost var retired: set<nat>

    /** What the lists hold.  Once something was written to a freed node, this goes on as if that did no harm. */
    ghost predicate Lists()
      reads this
    {
      && maxMsg > 0
      && Partition(queue, unconfirmed, retired, accepted)
      && ExpireOk(queue, expire)
      && forall k :: k in accepted ==> k < nextId
    }

    ghost predicate Valid()
      reads this
    {
      Lists() && !wild
    }

    function Nodes(): NodeList.View<Message>
      reads this
    {
      NodeList.View(queue, stale)
    }

    /** The oldest message has expired, and its node points to one that is gone. */
    predicate Exposed(time: nat)
      reads this
    {
      stale && queue != [] && Expired(queue[|queue| - 1], time)
    }

    constructor (maxMsg: nat, maxMsgSize: nat, forcePush: bool, roundRobin: bool)
      requires maxMsg > 0
      ensures Valid() && queue == [] && !stale && unconfirmed == [] && accepted == {} && nextId == 0 && subscribers == [] && watchers == []
      ensures this.maxMsg == maxMsg && this.maxMsgSize == maxMsgSize && this.forcePush == forcePush && this.roundRobin == roundRobin
    {
      this.maxMsg, this.maxMsgSize, this.forcePush, this.roundRobin := maxMsg, maxMsgSize, forcePush, roundRobin;
      queue, expire, unconfirmed, subscribers, watchers, nextId := [], [], [], [], [], 0;
      stale, wild := false, false;
      accepted, retired := {}, {};
      new;
      assert multiset(accepted) == multiset{};
    }

    /** `pop_message_queue_t`: the oldest message leaves the queue, to be confirmed or at once for good. */
    method Pop(timeout: nat, now: nat)
      requires Valid() && queue != []
      modifies this
      ensures Valid() && accepted == old(accepted) && subscribers == old(subscribers) && watchers == old(watchers) && nextId == old(nextId)
      ensures queue == old(queue)[..|old(queue)| - 1] && Nodes() == NodeList.Popped(old(Nodes()))
      ensures var m := old(queue)[|old(queue)| - 1];
        && expire == (if Expires(m) then Without(old(expire), m.id) else old(expire))
        && unconfirmed == (if timeout != 0 then old(unconfirmed) + [m.(confirm := now + timeout)] else old(unconfirmed))
        && retired == (if timeout != 0 then old(retired) else old(retired) + {m.id})
    {
      hide Ids, Filter, ExpireOk, Without;
      var n := |queue| - 1;
      var m := queue[n];
      PartitionDistinct(queue, unconfirmed, retired, accepted);
      PopIds(queue, unconfirmed, m.(confirm := now + timeout));
      ExpirePop(queue, expire);
      stale := NodeList.Popped(Nodes()).stale;
      queue := queue[..n];
      if Expires(m) {
        expire := Without(expire, m.id);
      }
      if timeout != 0 {
        unconfirmed := unconfirmed + [m.(confirm := now + timeout)];
      } else {
        RetireOne(retired, m.id);
        retired := retired + {m.id};
      }
    }

    /**
     `push_message_queue_t`: handed to the subscribers, or put at the head of the queue, a full
     queue giving up its oldest message if it may.  The watchers are told before it is known
     whether the queue takes the message.
     */
    method Push(size: nat, tag: nat, expiration: nat, now: nat) returns (ok: bool, sent: seq<nat>, notified: seq<nat>)
      requires Valid()
      modifies this
      ensures Valid() && unconfirmed == old(unconfirmed) && nextId == old(nextId) + 1
      ensures ok <==> size <= maxMsgSize && (old(subscribers) != [] || |old(queue)| < maxMsg || forcePush)
      ensures !ok || sent != [] ==> Nodes() == old(Nodes())
      ensures !ok ==> queue == old(queue) && expire == old(expire) && retired == old(retired) && accepted == old(accepted)
      ensures ok ==> accepted == old(accepted) + {old(nextId)}
      ensures ok && sent != [] ==> queue == old(queue) && expire == old(expire) && retired == old(retired) + {old(nextId)}
      ensures sent == (if !ok || old(subscribers) == [] then [] else if roundRobin then [Rotate(old(subscribers))[0]] else old(subscribers))
      ensures notified == (if size <= maxMsgSize then watchers else []) && watchers == old(watchers)
      ensures subscribers == (if ok && roundRobin then Rotate(old(subscribers)) else old(subscribers))
      ensures var m := Message(old(nextId), tag, size, 0, expiration);
        var full := |old(queue)| >= maxMsg;
        ok && sent == [] ==> queue == [m] + (if full then old(queue)[..|old(queue)| - 1] else old(queue))
      ensures var m, nodes := Message(old(nextId), tag, size, 0, expiration), old(Nodes());
        ok && sent == [] ==> Nodes() == NodeList.AddedHead(if |nodes.items| >= maxMsg then NodeList.Popped(nodes) else nodes, m)
      ensures ok && sent == [] && |old(queue)| < maxMsg ==>
        retired == old(retired) && expire == old(expire) + if expiration != 0 then [queue[0]] else []
      ensures ok && sent == [] && |old(queue)| >= maxMsg ==> retired == old(retired) + {old(queue)[|old(queue)| - 1].id}
    {
      hide Ids, Filter, ExpireOk, Without, Rotate;
      var m := Message(nextId, tag, size, 0, expiration);
      nextId := nextId + 1;
      sent := [];
      if size > maxMsgSize {
        return false, [], [];
      }
      notified := watchers;
      PartitionDistinct(queue, unconfirmed, retired, accepted);
      AcceptOne(accepted, m.id);
      if subscribers != [] {
        RetiredBelow(queue, unconfirmed, retired, accepted);
        if roundRobin {
          subscribers := Rotate(subscribers);
          sent := [subscribers[0]];
        } else {
          sent := subscribers;
        }
        RetireOne(retired, m.id);
        accepted, retired := accepted + {m.id}, retired + {m.id};
        return true, sent, notified;
      }
      if |queue| >= maxMsg {
        if forcePush {
          Pop(0, now);
        } else {
          return false, [], notified;
        }
      }
      Enqueue(m);
      return true, [], notified;
    }

    /** The message becomes the newest of the queue. */
    method Enqueue(m: Message)
      requires Valid() && m.id !in accepted && m.id < nextId
      modifies this`queue, this`stale, this`expire, this`accepted
      ensures Valid() && Nodes() == NodeList.AddedHead(old(Nodes()), m) && accepted == old(accepted) + {m.id}
      ensures expire == old(expire) + if Expires(m) then [m] else []
    {
      hide Ids, ExpireOk, Distinct;
      PartitionDistinct(queue, unconfirmed, retired, accepted);
      AcceptOne(accepted, m.id);
      PushIds(queue, m);
      ExpireAdd(queue, expire, m, [m] + queue);
      stale := NodeList.AddedHead(Nodes(), m).stale;
      queue := [m] + queue;
      accepted := accepted + {m.id};
      if Expires(m) {
        expire := expire + [m];
      }
    }

    /** `confirm_message_queue_t`: the first unconfirmed message with the tag is done with. */
    method Confirm(tag: nat) returns (ok: bool)
      requires Valid()
      modifies this
      ensures Valid() && Nodes() == old(Nodes()) && expire == old(expire) && accepted == old(accepted) && subscribers == old(subscribers) && watchers == old(watchers)
      ensures ok <==> exists m :: m in old(unconfirmed) && m.tag == tag
      ensures !ok ==> unconfirmed == old(unconfirmed) && retired == old(retired)
      ensures ok ==> FirstTagged(old(unconfirmed), tag) < |old(unconfirmed)|
      ensures ok ==>
        var i := FirstTagged(old(unconfirmed), tag);
        unconfirmed == old(unconfirmed)[..i] + old(unconfirmed)[i + 1..] && retired == old(retired) + {old(unconfirmed)[i].id}
    {
      hide Ids, Filter, ExpireOk;
      var i := 0;
      while i < |unconfirmed|
        invariant 0 <= i <= |unconfirmed|
        invariant unconfirmed == old(unconfirmed) && retired == old(retired) && accepted == old(accepted)
        invariant Nodes() == old(Nodes()) && !wild && expire == old(expire) && subscribers == old(subscribers) && watchers == old(watchers) && nextId == old(nextId)
        invariant forall j :: 0 <= j < i ==> unconfirmed[j].tag != tag
      {
        if unconfirmed[i].tag == tag {
          PartitionDistinct(queue, unconfirmed, retired, accepted);
          var id := unconfirmed[i].id;
          IdsCut(unconfirmed, i);
          unconfirmed := unconfirmed[..i] + unconfirmed[i + 1..];
          RetireOne(retired, id);
          retired := retired + {id};
          return true;
        }
        i := i + 1;
      }
      return false;
    }

    /** One message goes, from the queue and from the expiry list at `i`. */
    method Drop(i: nat)
      requires Lists() && i < |expire|
      modifies this`queue, this`expire, this`retired, this`wild
      ensures Lists()
      ensures expire == old(expire)[..i] + old(expire)[i + 1..]
      ensures queue == Without(old(queue), old(expire)[i].id) && retired == old(retired) + {old(expire)[i].id}
      ensures wild <==> old(wild) || (old(stale) && old(queue) != [] && old(queue)[|old(queue)| - 1].id == old(expire)[i].id)
    {
      hide Ids, Filter, Without;
      var m := expire[i];
      PartitionDistinct(queue, unconfirmed, retired, accepted);
      WithoutIds(queue, m);
      ExpireUnlink(queue, expire, m);
      WithoutCut(expire, i);
      RetireOne(retired, m.id);
      expire := expire[..i] + expire[i + 1..];
      var k := Position(queue, m.id);
      LastPosition(queue, k, m);
      WithoutCut(queue, k);
      wild := wild || NodeList.Hazard(Nodes(), k);
      queue := NodeList.Cut(Nodes(), k).items;
      retired := retired + {m.id};
    }

    /**
     `process_expired_messages_queue_t`: exactly the expired messages leave the queue, and nothing else
     is touched if and only if the oldest message is not one that an earlier pop has exposed.
     */
    method SweepExpired(time: nat)
      requires Valid()
      modifies this`queue, this`expire, this`retired, this`wild
      ensures Lists() && (Valid() <==> !old(Exposed(time)))
      ensures Valid() ==> queue == Unexpired(old(queue), time) && expire == Unexpired(old(expire), time)
      ensures forall m :: m in old(queue) && Expired(m, time) ==> m.id in retired
    {
      hide LastIn, Ids, Filter, Partition, ExpireOk, Distinct, Unexpired, Except, Without, Expired, DroppedBy;
      ghost var k, e0, q0, kept := 0, expire, queue, [];
      ghost var dropped: set<nat> := {};
      var i := 0;
      SweepStart(e0, time);
      ExceptNone(q0, dropped);
      while i < |expire|
        invariant wild <==> stale && LastIn(q0, dropped)
        invariant Lists()
        invariant k <= |e0| && kept == Unexpired(e0[..k], time) && i == |kept| && expire == kept + e0[k..]
        invariant DroppedBy(e0[..k], time, dropped) && queue == Except(q0, dropped) && dropped <= retired
        decreases |e0| - k
      {
        var m := expire[i];
        assert m == e0[k];
        SweepNext(e0, k, time);
        DroppedNext(e0, k, time, dropped);
        Cut(kept, e0, k);
        Onto(kept, [], m);
        if Expired(m, time) {
          ExceptMore(q0, dropped, m.id);
          LastStep(q0, dropped, m.id);
          Drop(i);
          dropped := dropped + {m.id};
        } else {
          kept := kept + [m];
          i := i + 1;
        }
        k := k + 1;
      }
      assert e0[..k] == e0;
      SweepEnd(q0, e0, dropped, time, old(unconfirmed), old(retired), old(accepted));
    }

    /**
     `process_unconfirmed_messages_queue_t`: what was not confirmed in time returns at the oldest
     end of the queue, unless it has expired as well.
     */
    method SweepUnconfirmed(time: nat)
      requires Lists()
      modifies this`queue, this`stale, this`expire, this`unconfirmed, this`retired
      ensures Lists() && stale == (old(stale) && Overdue(old(unconfirmed), time) == [])
      ensures unconfirmed == InTime(old(unconfirmed), time)
      ensures queue == old(queue) + Overdue(old(unconfirmed), time)
      ensures old(retired) <= retired
    {
      hide Lists, Ids, Filter, Partition, ExpireOk, Distinct, InTime, Overdue, TimedOut, Expired;
      ghost var k, u0, kept, back := 0, unconfirmed, [], [];
      var i := 0;
      SweepStart(u0, time);
      while i < |unconfirmed|
        invariant Lists() && old(retired) <= retired
        invariant k <= |u0| && kept == InTime(u0[..k], time) && back == Overdue(u0[..k], time)
        invariant i == |kept| && unconfirmed == kept + u0[k..]
        invariant queue == old(queue) + back && stale == (old(stale) && back == [])
        decreases |u0| - k
      {
        var m := unconfirmed[i];
        assert m == u0[k];
        SweepNext(u0, k, time);
        Cut(kept, u0, k);
        Onto(old(queue), back, m);
        if TimedOut(m, time) {
          Return(i, time);
          back := back + if Expired(m, time) then [] else [m];
        } else {
          i := i + 1;
          kept := kept + [m];
        }
        k := k + 1;
      }
      assert u0[..k] == u0;
    }

    /** One unconfirmed message goes back to the queue, or is retired if it has expired. */
    method Return(i: nat, time: nat)
      requires Lists() && i < |unconfirmed|
      modifies this`queue, this`stale, this`expire, this`unconfirmed, this`retired
      ensures Lists() && old(retired) <= retired
      ensures unconfirmed == old(unconfirmed)[..i] + old(unconfirmed)[i + 1..]
      ensures var m := old(unconfirmed)[i];
        queue == (if Expired(m, time) then old(queue) else old(queue) + [m]) && stale == (old(stale) && Expired(m, time))
    {
      hide Ids, ExpireOk, Distinct;
      var m := unconfirmed[i];
      PartitionDistinct(queue, unconfirmed, retired, accepted);
      IdsCut(unconfirmed, i);
      unconfirmed := unconfirmed[..i] + unconfirmed[i + 1..];
      if Expires(m) {
        if m.expiration <= time {
          RetireOne(retired, m.id);
          retired := retired + {m.id};
          return;
        }
        PushIds(queue, m);
        ExpireAdd(queue, expire, m, queue + [m]);
        stale := NodeList.AddedTail(Nodes(), m).stale;
        queue := queue + [m];
        expire := expire + [m];
      } else {
        PushIds(queue, m);
        ExpireAdd(queue, expire, m, queue + [m]);
        stale := NodeList.AddedTail(Nodes(), m).stale;
        queue := queue + [m];
      }
    }

    /**
     `purge_queue_t` empties the queue and leaves the expiry list as it was, so the two agree
     afterwards exactly when no queued message expires.
     */
    method Purge()
      requires Valid()
      modifies this`queue, this`stale, this`retired
      ensures Nodes() == NodeList.Purged(old(Nodes())) && queue == [] && Partition(queue, unconfirmed, retired, accepted)
      ensures Valid() <==> forall m :: m in old(queue) ==> !Expires(m)
    {
      hide Ids;
      PurgeIds(queue, unconfirmed, retired, accepted);
      stale := NodeList.Purged(Nodes()).stale;
      queue := [];
      retired := set k | k in accepted && k !in Ids(unconfirmed);
      assert Valid() ==> forall m :: m !in expire;
    }

    /** One queue's turn in `process_queues_messages`: nothing overdue is left, unless the sweep goes wrong. */
    method Tick(time: nat)
      requires Valid()
      modifies this
      ensures accepted == old(accepted) && (Valid() <==> !old(Exposed(time)))
      ensures Valid() ==> forall m :: m in queue ==> !Expired(m, time)
      ensures Valid() ==> forall m :: m in unconfirmed ==> !TimedOut(m, time)
    {
      hide Filter, Partition, ExpireOk;
      SweepExpired(time);
      SweepUnconfirmed(time);
    }
  }

  /** One expiring message and a purge: the expiry list refers to a message that is gone. */
  method PurgeStale() returns (q: Queue)
    ensures q.queue == [] && !q.Valid()
  {
    hide Partition, ExpireOk, Rotate;
    q := new Queue(1, 10, false, false);
    var ok, sent, notified := q.Push(1, 7, 5, 0);
    assert Expires(q.queue[0]);
    q.Purge();
  }

  /** Three pushes, a pop and a sweep: the expired message has become the tail, and its node points to a freed one. */
  method StaleTail() returns (q: Queue)
    ensures q.wild && !q.Valid()
  {
    hide Partition, ExpireOk, Rotate, Filter;
    q := new Queue(3, 10, false, false);
    var ok, sent, notified := q.Push(1, 7, 0, 0);
    ok, sent, notified := q.Push(1, 8, 5, 0);
    ok, sent, notified := q.Push(1, 9, 0, 0);
    q.Pop(0, 1);
    assert q.Exposed(5);
    q.SweepExpired(5);
  }

  /** A popped message comes back after another has taken its place: the queue is over its limit. */
  method OverLimit() returns (q: Queue)
    ensures q.Valid() && |q.queue| > q.maxMsg && !q.forcePush
  {
    hide Partition, ExpireOk, Rotate, Filter;
    q := new Queue(1, 10, false, false);
    var ok, sent, notified := q.Push(1, 7, 0, 0);
    q.Pop(5, 0);
    ok, sent, notified := q.Push(1, 8, 0, 1);
    var m := Message(0, 7, 1, 5, 0);
    assert q.unconfirmed == [m];
    assert m in Overdue([m], 5);
    q.SweepUnconfirmed(5);
  }

  lemma RetireOne(retired: set<nat>, id: nat)
    requires id !in retired
    ensures multiset(retired + {id}) == multiset(retired) + multiset{id}
  {
  }

  lemma PopIds(queue: seq<Message>, unconfirmed: seq<Message>, back: Message)
    requires queue != [] && back.id == queue[|queue| - 1].id
    ensures Ids(queue) == Ids(queue[..|queue| - 1]) + multiset{back.id}
    ensures Ids(unconfirmed + [back]) == Ids(unconfirmed) + multiset{back.id}
  {
    IdsSnoc(unconfirmed, back);
  }

  lemma ExpirePop(queue: seq<Message>, expire: seq<Message>)
    requires queue != [] && Distinct(queue) && ExpireOk(queue, expire)
    ensures var m := queue[|queue| - 1];
      ExpireOk(queue[..|queue| - 1], if Expires(m) then Without(expire, m.id) else expire)
  {
    hide Filter;
    var rest, m := queue[..|queue| - 1], queue[|queue| - 1];
    DistinctFilter(expire, (e: Message) => e.id != m.id);
    LastApart(queue);
  }

  lemma LastApart(s: seq<Message>)
    requires s != [] && Distinct(s)
    ensures var m := s[|s| - 1]; forall e :: e in s[..|s| - 1] <==> e in s && e.id != m.id
    ensures var m := s[|s| - 1]; forall e :: e in s <==> e in s[..|s| - 1] || e == m
  {
    assert s == s[..|s| - 1] + [s[|s| - 1]];
  }

  /** Unlinking one message from queue and expiry list alike. */
  lemma ExpireUnlink(queue: seq<Message>, expire: seq<Message>, m: Message)
    requires Distinct(queue) && ExpireOk(queue, expire) && m in queue
    ensures ExpireOk(Without(queue, m.id), Without(expire, m.id))
  {
    hide Filter;
    DistinctFilter(expire, (e: Message) => e.id != m.id);
  }

  lemma ExpireAdd(queue: seq<Message>, expire: seq<Message>, m: Message, queue': seq<Message>)
    requires ExpireOk(queue, expire) && (queue' == [m] + queue || queue' == queue + [m])
    requires forall e :: e in queue ==> e.id != m.id
    ensures ExpireOk(queue', if Expires(m) then expire + [m] else expire)
  {
    assert forall e :: e in queue' <==> e in queue || e == m;
  }

  lemma PushIds(queue: seq<Message>, m: Message)
    ensures Ids([m] + queue) == Ids(queue) + multiset{m.id}
    ensures Ids(queue + [m]) == Ids(queue) + multiset{m.id}
  {
    IdsConcat([m], queue);
    IdsOne(m);
    IdsSnoc(queue, m);
  }

  lemma AcceptOne(accepted: set<nat>, id: nat)
    requires id !in accepted
    ensures multiset(accepted + {id}) == multiset(accepted) + multiset{id}
  {
  }

  lemma RetiredBelow(queue: seq<Message>, unconfirmed: seq<Message>, retired: set<nat>, accepted: set<nat>)
    requires Partition(queue, unconfirmed, retired, accepted)
    ensures retired <= accepted
  {
    forall k | k in retired ensures k in accepted {
      assert multiset(retired)[k] == 1;
      assert (Ids(queue) + Ids(unconfirmed) + multiset(retired))[k] >= 1;
    }
  }

  lemma PurgeIds(queue: seq<Message>, unconfirmed: seq<Message>, retired: set<nat>, accepted: set<nat>)
    requires Partition(queue, unconfirmed, retired, accepted)
    ensures Partition([], unconfirmed, (set k | k in accepted && k !in Ids(unconfirmed)), accepted)
  {
    var rest := set k | k in accepted && k !in Ids(unconfirmed);
    forall k ensures (Ids([]) + Ids(unconfirmed) + multiset(rest))[k] == multiset(accepted)[k] {
      assert (Ids(queue) + Ids(unconfirmed) + multiset(retired))[k] == multiset(accepted)[k];
    }
  }

  lemma IdsCut(s: seq<Message>, i: nat)
    requires i < |s|
    ensures Ids(s) == Ids(s[..i] + s[i + 1..]) + multiset{s[i].id}
  {
    hide Ids;
    assert s == (s[..i] + [s[i]]) + s[i + 1..];
    IdsConcat(s[..i] + [s[i]], s[i + 1..]);
    IdsSnoc(s[..i], s[i]);
    IdsConcat(s[..i], s[i + 1..]);
  }

  lemma WithoutCut(s: seq<Message>, i: nat)
    requires i < |s| && Distinct(s)
    ensures Without(s, s[i].id) == s[..i] + s[i + 1..]
  {
    hide Filter;
    var p := (m: Message) => m.id != s[i].id;
    assert s == (s[..i] + [s[i]]) + s[i + 1..];
    FilterConcat(s[..i] + [s[i]], s[i + 1..], p);
    FilterConcat(s[..i], [s[i]], p);
    FilterOne(s[i], p);
    FilterAll(s[..i], p);
    FilterAll(s[i + 1..], p);
  }

  lemma ExceptMore(s: seq<Message>, ids: set<nat>, id: nat)
    ensures Without(Except(s, ids), id) == Except(s, ids + {id})
  {
    hide Filter;
    var p, q := (m: Message) => m.id !in ids, (m: Message) => m.id != id;
    FilterTwice(s, p, q);
    FilterSame(s, m => p(m) && q(m), (m: Message) => m.id !in ids + {id});
    FilterSame(s, p, (m: Message) => m.id !in ids);
    FilterSame(Filter(s, p), q, (m: Message) => m.id != id);
  }

  /** The oldest message is among the dropped ones. */
  ghost predicate LastIn(s: seq<Message>, ids: set<nat>)
  {
    s != [] && s[|s| - 1].id in ids
  }

  /** Dropping one more message takes the oldest that is left, or leaves it. */
  lemma LastStep(s: seq<Message>, ids: set<nat>, id: nat)
    ensures var r := Except(s, ids);
      LastIn(s, ids + {id}) <==> LastIn(s, ids) || (r != [] && r[|r| - 1].id == id)
  {
  }

  function Position(s: seq<Message>, id: nat): (i: nat)
    ensures i <= |s| && (i < |s| ==> s[i].id == id) && forall j :: 0 <= j < i ==> s[j].id != id
  {
    if s == [] || s[0].id == id then 0 else
      assert forall j :: 0 < j < |s| ==> s[j] == s[1..][j - 1];
      1 + Position(s[1..], id)
  }

  lemma LastPosition(s: seq<Message>, i: nat, m: Message)
    requires Distinct(s) && m in s && i == Position(s, m.id)
    ensures i < |s| && (i == |s| - 1 <==> s[|s| - 1].id == m.id)
  {
  }

  lemma ExceptNone(s: seq<Message>, ids: set<nat>)
    requires ids == {}
    ensures Except(s, ids) == s && !LastIn(s, ids)
  {
    FilterAll(s, (m: Message) => m.id !in ids);
  }

  lemma SweepStart(s: seq<Message>, time: nat)
    ensures Unexpired(s[..0], time) == [] && InTime(s[..0], time) == [] && Overdue(s[..0], time) == []
    ensures [] + s[0..] == s && DroppedBy(s[..0], time, {})
  {
  }

  lemma SweepNext(s: seq<Message>, k: nat, time: nat)
    requires k < |s|
    ensures Unexpired(s[..k + 1], time) == Unexpired(s[..k], time) + if Expired(s[k], time) then [] else [s[k]]
    ensures InTime(s[..k + 1], time) == InTime(s[..k], time) + if TimedOut(s[k], time) then [] else [s[k]]
    ensures Overdue(s[..k + 1], time) == Overdue(s[..k], time) + if TimedOut(s[k], time) && !Expired(s[k], time) then [s[k]] else []
  {
    hide Expired, TimedOut;
    assert s[..k + 1][..k] == s[..k];
  }

  lemma Onto(q: seq<Message>, back: seq<Message>, m: Message)
    ensures (q + back) + [m] == q + (back + [m]) && back + [m] != [] && back + [] == back
  {
  }

  /** Deleting the node under the cursor, or moving past it. */
  lemma Cut(kept: seq<Message>, s: seq<Message>, k: nat)
    requires k < |s|
    ensures (kept + s[k..])[..|kept|] + (kept + s[k..])[|kept| + 1..] == kept + s[k + 1..]
    ensures kept + s[k..] == (kept + [s[k]]) + s[k + 1..]
  {
  }

  /** The identities of the expired messages of a list. */
  ghost predicate DroppedBy(s: seq<Message>, time: nat, dropped: set<nat>)
  {
    forall d :: d in dropped <==> exists m :: m in s && m.id == d && Expired(m, time)
  }

  lemma DroppedNext(s: seq<Message>, k: nat, time: nat, dropped: set<nat>)
    requires k < |s| && DroppedBy(s[..k], time, dropped)
    ensures DroppedBy(s[..k + 1], time, if Expired(s[k], time) then dropped + {s[k].id} else dropped)
  {
    hide Expired;
    assert forall m :: m in s[..k + 1] <==> m in s[..k] || m == s[k];
  }

  /** What was dropped one by one is what has expired. */
  lemma SweepEnd(q: seq<Message>, e: seq<Message>, dropped: set<nat>, time: nat, u: seq<Message>, r: set<nat>, a: set<nat>)
    requires Partition(q, u, r, a) && ExpireOk(q, e) && DroppedBy(e, time, dropped)
    ensures Except(q, dropped) == Unexpired(q, time)
    ensures forall m :: m in q && Expired(m, time) ==> m.id in dropped
    ensures LastIn(q, dropped) <==> q != [] && Expired(q[|q| - 1], time)
  {
    hide Filter, Ids;
    PartitionDistinct(q, u, r, a);
    forall m | m in q ensures m.id in dropped <==> Expired(m, time) {
      if m.id in dropped {
        var n :| n in e && n.id == m.id && Expired(n, time);
        assert n in q;
      }
      if Expired(m, time) {
        assert m in e;
      }
    }
    FilterSame(q, (m: Message) => m.id !in dropped, (m: Message) => !Expired(m, time));
    FilterSame(q, (m: Message) => m.id !in dropped, (m: Message) => m.id !in dropped);
  }

  /* --- Round robin --------------------------------------------------------------------------- */

  /** `list_rotate`. */
  function Rotate(s: seq<nat>): (r: seq<nat>)
    ensures multiset(r) == multiset(s) && |r| == |s|
  {
    if |s| <= 1 then s else
      assert s == s[..|s| - 1] + [s[|s| - 1]];
      [s[|s| - 1]] + s[..|s| - 1]
  }

  /** Who gets the next `n` messages. */
  function Served(s: seq<nat>, n: nat): seq<nat>
    requires s != []
    decreases n
  {
    if n == 0 then [] else [Rotate(s)[0]] + Served(Rotate(s), n - 1)
  }

  lemma {:induction false} ServedBackwards(s: seq<nat>, n: nat, i: nat)
    requires s != [] && i < n <= |s|
    ensures |Served(s, n)| == n && Served(s, n)[i] == s[|s| - 1 - i]
    decreases n
  {
    hide Rotate;
    Rotated(s);
    if n > 1 {
      ServedBackwards(Rotate(s), n - 1, if i > 0 then i - 1 else 0);
    }
  }

  lemma Rotated(s: seq<nat>)
    requires s != []
    ensures |Rotate(s)| == |s| && Rotate(s)[0] == s[|s| - 1] && forall j :: 1 <= j < |s| ==> Rotate(s)[j] == s[j - 1]
  {
  }

  /** In as many pushes as there are subscribers, everyone is served once, from the tail to the head. */
  lemma RoundRobinFair(s: seq<nat>)
    requires s != []
    ensures |Served(s, |s|)| == |s| && forall i :: 0 <= i < |s| ==> Served(s, |s|)[i] == s[|s| - 1 - i]
  {
    ServedBackwards(s, |s|, 0);
    forall i | 0 <= i < |s| ensures Served(s, |s|)[i] == s[|s| - 1 - i] {
      ServedBackwards(s, |s|, i);
    }
  }
}
