/**
 * What the operations of `Database` in src/main.rs promise: what each
 * returns, which key it changes and how, which messages it queues on which
 * channel, and that subscriber lists are never empty.
 */
module StoreFacts {
  import opened Wrappers
  import opened Parsing
  import opened KvStore

  /** `after` differs from `before` at most at `key`. */
  ghost predicate SameExcept(before: map<Key, Entry>, after: map<Key, Entry>, key: Key) {
    forall k :: k != key ==> (k in before <==> k in after) && (k in before ==> after[k] == before[k])
  }

  /** The subscribers of an entry, none when it has no list. */
  function Subscribers(e: Entry): seq<SenderId> {
    if e.subscribers.Some? then e.subscribers.value else []
  }

  /*
   * Sending
   */

  /** The loop of `update` succeeds exactly when every subscriber is reachable. */
  lemma {:induction false} BroadcastSucceeds(subs: seq<SenderId>, msg: string, mail: Mail)
    ensures Broadcast(subs, msg, mail).0 <==> FirstClosed(subs, mail.closed) == |subs|
    ensures Broadcast(subs, msg, mail).1.closed == mail.closed
  {
    if subs != [] && subs[0] !in mail.closed {
      BroadcastSucceeds(subs[1..], msg, SendOp(mail, subs[0], msg).1);
    }
  }

  /** One reachable subscriber at the head of the list: the loop sends to it and goes on with the rest. */
  lemma BroadcastStep(subs: seq<SenderId>, msg: string, mail: Mail)
    requires subs != [] && subs[0] !in mail.closed
    ensures Broadcast(subs, msg, mail) == Broadcast(subs[1..], msg, SendOp(mail, subs[0], msg).1)
    ensures FirstClosed(subs, mail.closed) == 1 + FirstClosed(subs[1..], mail.closed)
    ensures SendOp(mail, subs[0], msg).1.closed == mail.closed
  {
  }

  /** Counting `id` in a non-empty prefix: the head, then the rest. */
  lemma CountPrefix(subs: seq<SenderId>, j: nat, id: SenderId)
    requires 0 < j <= |subs|
    ensures multiset(subs[..j])[id] == (if id == subs[0] then 1 else 0) + multiset(subs[1..][..j - 1])[id]
  {
    assert subs[..j] == [subs[0]] + subs[1..][..j - 1];
  }

  /** A message queued, then `later` more copies: `later + 1` copies in all. */
  lemma QueueThenRepeat(before: seq<string>, first: seq<string>, last: seq<string>, msg: string, head: bool, later: nat)
    requires first == before + (if head then [msg] else [])
    requires last == first + Repeat(msg, later)
    ensures last == before + Repeat(msg, (if head then 1 else 0) + later)
  {
    if head {
      assert Repeat(msg, later + 1) == [msg] + Repeat(msg, later);
      assert before + [msg] + Repeat(msg, later) == before + ([msg] + Repeat(msg, later));
    } else {
      assert before + [] == before;
    }
  }

  /** What one channel gets from the loop of `update`: `msg` once per time it is listed before the first unreachable subscriber. */
  lemma {:induction false} BroadcastInbox(subs: seq<SenderId>, msg: string, mail: Mail, id: SenderId)
    ensures Inbox(Broadcast(subs, msg, mail).1, id)
      == Inbox(mail, id) + Repeat(msg, multiset(subs[..FirstClosed(subs, mail.closed)])[id])
  {
    var j := FirstClosed(subs, mail.closed);
    if subs == [] || subs[0] in mail.closed {
      assert subs[..j] == [];
      assert Inbox(mail, id) + [] == Inbox(mail, id);
    } else {
      var first := SendOp(mail, subs[0], msg).1;
      BroadcastStep(subs, msg, mail);
      BroadcastInbox(subs[1..], msg, first, id);
      CountPrefix(subs, j, id);
      QueueThenRepeat(Inbox(mail, id), Inbox(first, id), Inbox(Broadcast(subs, msg, mail).1, id),
                      msg, id == subs[0], multiset(subs[1..][..j - 1])[id]);
    }
  }

  /**
   * The loop of `update` sends `msg` once per occurrence to every subscriber
   * before the first one whose receiver is gone, and to no one after; it
   * succeeds exactly when there is no such subscriber.
   */
  lemma BroadcastDelivers(subs: seq<SenderId>, msg: string, mail: Mail)
    ensures Broadcast(subs, msg, mail).0 <==> FirstClosed(subs, mail.closed) == |subs|
    ensures Broadcast(subs, msg, mail).1.closed == mail.closed
    ensures forall id :: Inbox(Broadcast(subs, msg, mail).1, id)
                      == Inbox(mail, id) + Repeat(msg, multiset(subs[..FirstClosed(subs, mail.closed)])[id])
  {
    BroadcastSucceeds(subs, msg, mail);
    forall id
      ensures Inbox(Broadcast(subs, msg, mail).1, id)
        == Inbox(mail, id) + Repeat(msg, multiset(subs[..FirstClosed(subs, mail.closed)])[id])
    {
      BroadcastInbox(subs, msg, mail, id);
    }
  }

  /*
   * create, read, delete
   */

  /**
   * `create` stores the value under the key with no subscribers, returns
   * what was stored there before, and leaves every other key alone.
   */
  lemma CreateStores(data: map<Key, Entry>, key: Key, value: Value)
    ensures CreateOp(data, key, value).result == ReadOp(data, key)
    ensures ReadOp(CreateOp(data, key, value).data, key) == Some(value)
    ensures key in CreateOp(data, key, value).data && CreateOp(data, key, value).data[key].subscribers == None
    ensures SameExcept(data, CreateOp(data, key, value).data, key)
    ensures Valid(data) ==> Valid(CreateOp(data, key, value).data)
  {
  }

  /** `delete` returns the stored value and removes the key; nothing else changes. */
  lemma DeleteRemoves(data: map<Key, Entry>, key: Key)
    ensures DeleteOp(data, key).result == ReadOp(data, key)
    ensures ReadOp(DeleteOp(data, key).data, key) == None
    ensures SameExcept(data, DeleteOp(data, key).data, key)
    ensures Valid(data) ==> Valid(DeleteOp(data, key).data)
  {
  }

  /*
   * update
   */

  /** `update` on an absent key returns `Ok(None)` and changes nothing: the key is not created. */
  lemma UpdateAbsent(data: map<Key, Entry>, mail: Mail, key: Key, value: Value)
    requires key !in data
    ensures UpdateOp(data, mail, key, value) == Outcome(Ok(None), data, mail)
    ensures ReadOp(UpdateOp(data, mail, key, value).data, key) == None
  {
  }

  /**
   * `update` on a present key: each subscriber before the first unreachable
   * one gets the notice of the new value, once per time it is listed, and
   * no one after it does. With every subscriber reachable the new value is
   * stored, the list kept, and the old value returned; otherwise the result
   * is an error and the database is unchanged.
   */
  lemma UpdateNotifies(data: map<Key, Entry>, mail: Mail, key: Key, value: Value)
    requires key in data
    ensures UpdateOp(data, mail, key, value).result.Ok?
      <==> FirstClosed(Subscribers(data[key]), mail.closed) == |Subscribers(data[key])|
    ensures UpdateOp(data, mail, key, value).result.Ok? ==>
      UpdateOp(data, mail, key, value).result.value == Some(data[key].value)
      && UpdateOp(data, mail, key, value).data == data[key := Entry(value, data[key].subscribers)]
    ensures UpdateOp(data, mail, key, value).result.Err? ==> UpdateOp(data, mail, key, value).data == data
    ensures UpdateOp(data, mail, key, value).mail.closed == mail.closed
    ensures forall id :: Inbox(UpdateOp(data, mail, key, value).mail, id)
                      == Inbox(mail, id) + Repeat(Notice(key, value),
                           multiset(Subscribers(data[key])[..FirstClosed(Subscribers(data[key]), mail.closed)])[id])
    ensures Valid(data) ==> Valid(UpdateOp(data, mail, key, value).data)
  {
    var subs := Subscribers(data[key]);
    if data[key].subscribers.Some? {
      BroadcastDelivers(subs, Notice(key, value), mail);
    } else {
      assert subs[..0] == [];
      forall id
        ensures Inbox(mail, id) + Repeat(Notice(key, value), multiset(subs[..0])[id]) == Inbox(mail, id)
      {
        assert Inbox(mail, id) + [] == Inbox(mail, id);
      }
    }
  }

  /*
   * subscribe
   */

  /** `subscribe` on an absent key returns 0 and changes nothing. */
  lemma SubscribeAbsent(data: map<Key, Entry>, mail: Mail, key: Key, id: SenderId)
    requires key !in data
    ensures SubscribeOp(data, mail, key, id) == Outcome(0, data, mail)
  {
  }

  /**
   * `subscribe` on a present key sends the new subscriber one notice of the
   * current value (none if its receiver is gone), appends it to the list,
   * and returns the list's new length, or 0 when this made the list.
   */
  lemma SubscribeAppends(data: map<Key, Entry>, mail: Mail, key: Key, id: SenderId)
    requires key in data
    ensures SubscribeOp(data, mail, key, id).data
      == data[key := Entry(data[key].value, Some(Subscribers(data[key]) + [id]))]
    ensures SubscribeOp(data, mail, key, id).result
      == if data[key].subscribers.Some? then |Subscribers(data[key])| + 1 else 0
    ensures SubscribeOp(data, mail, key, id).mail.closed == mail.closed
    ensures forall other :: Inbox(SubscribeOp(data, mail, key, id).mail, other) == Inbox(mail, other)
                           + (if other == id && id !in mail.closed then [Notice(key, data[key].value)] else [])
  {
    assert [] + [id] == [id];
  }

  /** Subscribing keeps every list non-empty. */
  lemma SubscribeKeepsValid(data: map<Key, Entry>, mail: Mail, key: Key, id: SenderId)
    requires Valid(data)
    ensures Valid(SubscribeOp(data, mail, key, id).data)
  {
  }

  /**
   * The count `subscribe` returns skips 1: the first subscriber of a key
   * gets 0, the second 2.
   */
  lemma SubscribeNeverReturnsOne(data: map<Key, Entry>, mail: Mail, key: Key, id: SenderId)
    requires Valid(data)
    ensures SubscribeOp(data, mail, key, id).result != 1
  {
  }
}
