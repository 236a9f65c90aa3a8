/**
 * What the reading thread of src/main.rs promises about a batch: commands
 * run in order and stop at the first that does not complete, nothing after
 * a `DISCONNECT` runs, answers reach the client on its own channel, no
 * receiver comes back, and subscriber lists stay non-empty.
 */
module DispatchFacts {
  import opened Wrappers
  import opened Parsing
  import opened ParsingFacts
  import opened KvStore
  import opened StoreFacts
  import opened Dispatch

  /** Run `later` after a session that completed; a session that did not complete is final. */
  function Continue(s: Session, later: seq<Command>, me: SenderId): Session {
    if s.ending == Completed then RunBatch(later, s.data, s.mail, me) else s
  }

  /** Running two batches back to back is running the first, then the second if the first completed. */
  lemma {:induction false} RunAppend(a: seq<Command>, b: seq<Command>, data: map<Key, Entry>, mail: Mail, me: SenderId)
    ensures RunBatch(a + b, data, mail, me) == Continue(RunBatch(a, data, mail, me), b, me)
  {
    if a == [] {
      assert a + b == b;
    } else {
      var s := StepCommand(a[0], data, mail, me);
      assert (a + b)[0] == a[0];
      assert (a + b)[1..] == a[1..] + b;
      if s.ending == Completed {
        RunAppend(a[1..], b, s.data, s.mail, me);
      }
    }
  }

  /** Nothing after a `DISCONNECT` runs: the batch ends there, whatever follows. */
  lemma DisconnectEndsBatch(a: seq<Command>, rest: seq<Command>, data: map<Key, Entry>, mail: Mail, me: SenderId)
    ensures RunBatch(a + [Disconnect] + rest, data, mail, me) == RunBatch(a + [Disconnect], data, mail, me)
    ensures RunBatch(a + [Disconnect], data, mail, me).ending != Completed
  {
    RunAppend(a, [Disconnect] + rest, data, mail, me);
    RunAppend(a, [Disconnect], data, mail, me);
    assert a + [Disconnect] + rest == a + ([Disconnect] + rest);
    assert ([Disconnect] + rest)[0] == Disconnect;
  }

  /**
   * No command brings back a receiver that is gone, or closes one, in the
   * model, whose set of closed channels is fixed: the writer that dies after
   * `DISCONNECT` is not modelled.
   */
  lemma StepKeepsClosed(cmd: Command, data: map<Key, Entry>, mail: Mail, me: SenderId)
    ensures StepCommand(cmd, data, mail, me).mail.closed == mail.closed
  {
    match cmd
    case Update(key, value) =>
      if key in data {
        UpdateNotifies(data, mail, key, value);
      }
    case _ =>
  }

  /** A command keeps every subscriber list non-empty. */
  lemma StepKeepsValid(cmd: Command, data: map<Key, Entry>, mail: Mail, me: SenderId)
    requires Valid(data)
    ensures Valid(StepCommand(cmd, data, mail, me).data)
  {
    match cmd
    case Create(key, value) => CreateStores(data, key, value);
    case Delete(key) => DeleteRemoves(data, key);
    case Update(key, value) =>
      if key in data {
        UpdateNotifies(data, mail, key, value);
      }
    case Subscribe(key) => SubscribeKeepsValid(data, mail, key, me);
    case _ =>
  }

  /** A batch keeps every subscriber list non-empty and the set of gone receivers as it was. */
  lemma {:induction false} RunKeepsInvariants(cmds: seq<Command>, data: map<Key, Entry>, mail: Mail, me: SenderId)
    ensures RunBatch(cmds, data, mail, me).mail.closed == mail.closed
    ensures Valid(data) ==> Valid(RunBatch(cmds, data, mail, me).data)
  {
    if cmds != [] {
      var s := StepCommand(cmds[0], data, mail, me);
      StepKeepsClosed(cmds[0], data, mail, me);
      if Valid(data) {
        StepKeepsValid(cmds[0], data, mail, me);
      }
      if s.ending == Completed {
        RunKeepsInvariants(cmds[1..], s.data, s.mail, me);
      }
    }
  }

  /** The reading loop keeps every subscriber list non-empty and the set of gone receivers as it was. */
  lemma {:induction false} ServeKeepsInvariants(chunks: seq<string>, data: map<Key, Entry>, mail: Mail, me: SenderId)
    ensures Serve(chunks, data, mail, me).mail.closed == mail.closed
    ensures Valid(data) ==> Valid(Serve(chunks, data, mail, me).data)
  {
    if chunks != [] && chunks[0] != [] {
      var s := HandleInput(chunks[0], data, mail, me);
      if FromInput(chunks[0]).Some? && ParseQueue(FromInput(chunks[0]).value).Some? {
        RunKeepsInvariants(ParseQueue(FromInput(chunks[0]).value).value, data, mail, me);
      }
      if !s.ending.Disconnected? {
        ServeKeepsInvariants(chunks[1..], s.data, s.mail, me);
      }
    }
  }

  /**
   * `READ` answers on the client's own channel with the encoding of the
   * stored value, and nothing when the key is absent; the database and every
   * other channel are untouched. A client whose writer is gone gets the
   * batch stopped instead.
   */
  lemma ReadAnswers(key: Key, data: map<Key, Entry>, mail: Mail, me: SenderId)
    ensures StepCommand(Read(key), data, mail, me).data == data
    ensures StepCommand(Read(key), data, mail, me).ending
      == if key in data && me in mail.closed then Stopped else Completed
    ensures forall id :: Inbox(StepCommand(Read(key), data, mail, me).mail, id) == Inbox(mail, id)
              + (if id == me && key in data && me !in mail.closed then [EncodeAsWritten(data[key].value)] else [])
  {
  }

  /**
   * `CREATE` stores the value with no subscribers and answers with the value
   * it replaced, as `Display` writes it, on the client's own channel; a new
   * key gets no answer. A client whose writer is gone gets the batch stopped.
   */
  lemma CreateAnswers(key: Key, v: Value, data: map<Key, Entry>, mail: Mail, me: SenderId)
    ensures StepCommand(Create(key, v), data, mail, me).data == data[key := Entry(v, None)]
    ensures StepCommand(Create(key, v), data, mail, me).ending
      == if key in data && me in mail.closed then Stopped else Completed
    ensures StepCommand(Create(key, v), data, mail, me).mail.closed == mail.closed
    ensures forall id :: Inbox(StepCommand(Create(key, v), data, mail, me).mail, id) == Inbox(mail, id)
              + (if id == me && key in data && me !in mail.closed then [EncodeAsWritten(data[key].value)] else [])
  {
    CreateStores(data, key, v);
  }

  /**
   * `DELETE` removes the key and answers with the value it held, as
   * `Display` writes it, on the client's own channel; an absent key gets no
   * answer. A client whose writer is gone gets the batch stopped.
   */
  lemma DeleteAnswers(key: Key, data: map<Key, Entry>, mail: Mail, me: SenderId)
    ensures StepCommand(Delete(key), data, mail, me).data == data - {key}
    ensures StepCommand(Delete(key), data, mail, me).ending
      == if key in data && me in mail.closed then Stopped else Completed
    ensures StepCommand(Delete(key), data, mail, me).mail.closed == mail.closed
    ensures forall id :: Inbox(StepCommand(Delete(key), data, mail, me).mail, id) == Inbox(mail, id)
              + (if id == me && key in data && me !in mail.closed then [EncodeAsWritten(data[key].value)] else [])
  {
    DeleteRemoves(data, key);
  }

  /** `UPDATE` of an absent key answers nothing and changes nothing. */
  lemma UpdateAbsentIsSilent(key: Key, v: Value, data: map<Key, Entry>, mail: Mail, me: SenderId)
    requires key !in data
    ensures StepCommand(Update(key, v), data, mail, me) == Session(Completed, data, mail)
  {
    UpdateAbsent(data, mail, key, v);
  }

  /**
   * `UPDATE` of a present key, whatever its subscribers: each subscriber
   * before the first unreachable one gets the notice, once per listing. When
   * all were reached, the new value is stored and the old one is sent, as
   * `Display` writes it, on the client's own channel, after any notice the
   * client got as a subscriber. Otherwise the batch stops with the database
   * unchanged and no answer.
   */
  lemma UpdateAnswers(key: Key, v: Value, data: map<Key, Entry>, mail: Mail, me: SenderId)
    requires key in data
    ensures var subs := Subscribers(data[key]);
      var reached := FirstClosed(subs, mail.closed);
      var s := StepCommand(Update(key, v), data, mail, me);
      && s.mail.closed == mail.closed
      && s.data == (if reached == |subs| then data[key := Entry(v, data[key].subscribers)] else data)
      && s.ending == (if reached == |subs| && me !in mail.closed then Completed else Stopped)
      && forall id :: Inbox(s.mail, id) == Inbox(mail, id) + Repeat(Notice(key, v), multiset(subs[..reached])[id])
           + (if id == me && reached == |subs| && me !in mail.closed then [EncodeAsWritten(data[key].value)] else [])
  {
    UpdateNotifies(data, mail, key, v);
  }

  /**
   * An `UPDATE` whose notice could not be sent stops the batch: the database
   * is unchanged, no answer is sent, and no later command of the batch runs.
   */
  lemma UpdateFailureStops(key: Key, v: Value, rest: seq<Command>, data: map<Key, Entry>, mail: Mail, me: SenderId)
    requires UpdateOp(data, mail, key, v).result.Err?
    ensures StepCommand(Update(key, v), data, mail, me)
      == Session(Stopped, data, UpdateOp(data, mail, key, v).mail)
    ensures RunBatch([Update(key, v)] + rest, data, mail, me) == StepCommand(Update(key, v), data, mail, me)
  {
    if key in data {
      UpdateNotifies(data, mail, key, v);
    }
    assert ([Update(key, v)] + rest)[0] == Update(key, v);
  }

  /**
   * `SUBSCRIBE` answers nothing itself; the only message it queues is the
   * notice of the current value, on the subscriber's own channel.
   */
  lemma SubscribeIsSilent(key: Key, data: map<Key, Entry>, mail: Mail, me: SenderId)
    ensures StepCommand(Subscribe(key), data, mail, me).ending == Completed
    ensures forall id :: Inbox(StepCommand(Subscribe(key), data, mail, me).mail, id) == Inbox(mail, id)
              + (if id == me && key in data && me !in mail.closed then [Notice(key, data[key].value)] else [])
  {
    if key in data {
      SubscribeAppends(data, mail, key, me);
    }
  }

  /** A batch of one command ends as that command does. */
  lemma RunSingle(c: Command, data: map<Key, Entry>, mail: Mail, me: SenderId)
    ensures RunBatch([c], data, mail, me) == StepCommand(c, data, mail, me)
  {
    assert [c][1..] == [];
  }

  /** A batch of two commands: the first, then the second if the first completed. */
  lemma RunPair(c: Command, d: Command, data: map<Key, Entry>, mail: Mail, me: SenderId)
    ensures RunBatch([c, d], data, mail, me) == Continue(StepCommand(c, data, mail, me), [d], me)
  {
    assert [c, d][1..] == [d];
  }

  /** `UPDATE` of a key whose only subscriber is the client itself: the notice, then the answer. */
  lemma OwnUpdate(key: Key, after: Value, data: map<Key, Entry>, mail: Mail, me: SenderId)
    requires key in data && data[key].subscribers == Some([me]) && me !in mail.closed
    ensures StepCommand(Update(key, after), data, mail, me).ending == Completed
    ensures StepCommand(Update(key, after), data, mail, me).mail.closed == mail.closed
    ensures Inbox(StepCommand(Update(key, after), data, mail, me).mail, me)
      == Inbox(mail, me) + [Notice(key, after), EncodeAsWritten(data[key].value)]
  {
    UpdateNotifies(data, mail, key, after);
    assert [me][..1] == [me];
    assert multiset([me])[me] == 1;
    var u := UpdateOp(data, mail, key, after);
    assert Inbox(u.mail, me) == Inbox(mail, me) + [Notice(key, after)];
  }

  /** The first `SUBSCRIBE` to a key: the client becomes its only subscriber and gets the current value's notice. */
  lemma FirstSubscriber(key: Key, data: map<Key, Entry>, mail: Mail, me: SenderId)
    requires key in data && data[key].subscribers == None && me !in mail.closed
    ensures StepCommand(Subscribe(key), data, mail, me).ending == Completed
    ensures key in StepCommand(Subscribe(key), data, mail, me).data
    ensures StepCommand(Subscribe(key), data, mail, me).data[key] == Entry(data[key].value, Some([me]))
    ensures StepCommand(Subscribe(key), data, mail, me).mail.closed == mail.closed
    ensures Inbox(StepCommand(Subscribe(key), data, mail, me).mail, me) == Inbox(mail, me) + [Notice(key, data[key].value)]
  {
    SubscribeIsSilent(key, data, mail, me);
    SubscribeAppends(data, mail, key, me);
  }

  /**
   * A client that subscribes to a key nobody watched and then updates it
   * hears of its own update: its channel gets the notice of the old value,
   * the notice of the new one, and then the answer to `UPDATE`, the old value.
   */
  lemma SubscriberHearsOwnUpdate(key: Key, after: Value, data: map<Key, Entry>, mail: Mail, me: SenderId)
    requires key in data && data[key].subscribers == None && me !in mail.closed
    ensures RunBatch([Subscribe(key), Update(key, after)], data, mail, me).ending == Completed
    ensures Inbox(RunBatch([Subscribe(key), Update(key, after)], data, mail, me).mail, me)
      == Inbox(mail, me) + [Notice(key, data[key].value), Notice(key, after), EncodeAsWritten(data[key].value)]
  {
    var s := StepCommand(Subscribe(key), data, mail, me);
    FirstSubscriber(key, data, mail, me);
    OwnUpdate(key, after, s.data, s.mail, me);
    RunPair(Subscribe(key), Update(key, after), data, mail, me);
    RunSingle(Update(key, after), s.data, s.mail, me);
    var before := data[key].value;
    assert Inbox(mail, me) + [Notice(key, before)] + [Notice(key, after), EncodeAsWritten(before)]
        == Inbox(mail, me) + [Notice(key, before), Notice(key, after), EncodeAsWritten(before)];
  }

  /** A request the client frames for a batch is run exactly as that batch. */
  lemma HandleRequest(cs: seq<Command>, data: map<Key, Entry>, mail: Mail, me: SenderId)
    requires Sendable(cs)
    ensures HandleInput(Request(cs), data, mail, me) == RunBatch(cs, data, mail, me)
  {
    RequestRoundTrip(cs, "");
    assert Request(cs) + "" == Request(cs);
  }

  /** Input the parser rejects changes nothing and leaves the connection open. */
  lemma HandleRejected(input: string, data: map<Key, Entry>, mail: Mail, me: SenderId)
    requires FromInput(input).None? || ParseQueue(FromInput(input).value).None?
    ensures HandleInput(input, data, mail, me) == Session(Completed, data, mail)
  {
  }
}
