/**
 * The database of src/main.rs: a map from keys to entries, each entry a
 * value and an optional list of subscribers.
 *
 * A subscriber is a `Sender<Vec<u8>>`, the sending end of a channel to
 * another connection's writer. The model names each channel by an id and
 * keeps, for all of them together, the messages queued so far and the set
 * of ids whose receiving end is gone (`Mail`). A send to such an id fails
 * and queues nothing; any other send queues the message.
 *
 * The functions `CreateOp` .. `SubscribeOp` say what each database
 * operation returns and leaves behind; the classes `Mailboxes` and
 * `Database` hold that state in fields and their methods are proved to do
 * exactly what the functions say.
 */
module KvStore {
  import opened Wrappers
  import opened Parsing

  type Key = string

  /** The channel a `Sender` reaches, by id. */
  type SenderId = nat

  datatype Entry = Entry(value: Value, subscribers: Option<seq<SenderId>>)

  /** The messages queued on every channel, and the channels whose receiver is gone. */
  datatype Mail = Mail(sent: map<SenderId, seq<string>>, closed: set<SenderId>)

  /** The error `update` reports when a send to a subscriber fails. */
  datatype SendError = ReceiverGone

  /** What an operation returns, with the database it leaves behind. */
  datatype Stored<T> = Stored(result: T, data: map<Key, Entry>)

  /** What an operation returns, with the database and the channels it leaves behind. */
  datatype Outcome<T> = Outcome(result: T, data: map<Key, Entry>, mail: Mail)

  /** The messages queued on channel `id`. */
  function Inbox(mail: Mail, id: SenderId): seq<string> {
    if id in mail.sent then mail.sent[id] else []
  }

  /** `n` copies of `msg`. */
  function Repeat(msg: string, n: nat): (r: seq<string>)
    ensures |r| == n
  {
    if n == 0 then [] else [msg] + Repeat(msg, n - 1)
  }

  /** `Sender::send`: fails when the receiver is gone; otherwise queues `msg` on channel `id`. */
  function SendOp(mail: Mail, id: SenderId, msg: string): (r: (bool, Mail))
    ensures r.1.closed == mail.closed
    ensures r.0 <==> id !in mail.closed
    ensures forall other :: Inbox(r.1, other) == Inbox(mail, other) + (if r.0 && other == id then [msg] else [])
  {
    if id in mail.closed then (false, mail)
    else (true, Mail(mail.sent[id := Inbox(mail, id) + [msg]], mail.closed))
  }

  /**
   * The text `update` and `subscribe` send a subscriber: `update <key>-><value>\r\n\r\n`,
   * the value written by `Display` as the source has it (text lengths in bytes).
   */
  function Notice(key: Key, v: Value): string {
    "update " + key + "->" + EncodeAsWritten(v) + "\r\n\r\n"
  }

  /**
   * The loop of `update` over the subscribers: sends `msg` to each in list
   * order, and gives up at the first send that fails.
   */
  function Broadcast(subs: seq<SenderId>, msg: string, mail: Mail): (bool, Mail) {
    if subs == [] then (true, mail)
    else
      var sent := SendOp(mail, subs[0], msg);
      if !sent.0 then (false, sent.1) else Broadcast(subs[1..], msg, sent.1)
  }

  /** The index of the first subscriber whose receiver is gone, or the length of the list. */
  function FirstClosed(subs: seq<SenderId>, closed: set<SenderId>): (j: nat)
    ensures j <= |subs|
    ensures forall k :: 0 <= k < j ==> subs[k] !in closed
    ensures j < |subs| ==> subs[j] in closed
  {
    if subs == [] || subs[0] in closed then 0 else 1 + FirstClosed(subs[1..], closed)
  }

  /*
   * The operations of `Database`
   */

  /** `create`: stores the value with no subscribers, and returns the value it replaced. */
  function CreateOp(data: map<Key, Entry>, key: Key, value: Value): Stored<Option<Value>> {
    Stored(if key in data then Some(data[key].value) else None, data[key := Entry(value, None)])
  }

  /** `read`: the stored value, if any. */
  function ReadOp(data: map<Key, Entry>, key: Key): Option<Value> {
    if key in data then Some(data[key].value) else None
  }

  /**
   * `update`: on a present key, notifies every subscriber of the new value
   * and then swaps it in, returning the old one; the first failed send ends
   * it with an error and the value stays. An absent key is left absent.
   */
  function UpdateOp(data: map<Key, Entry>, mail: Mail, key: Key, value: Value): Outcome<Result<Option<Value>, SendError>> {
    if key !in data then Outcome(Ok(None), data, mail)
    else
      var exist := data[key];
      var sent := if exist.subscribers.Some? then Broadcast(exist.subscribers.value, Notice(key, value), mail) else (true, mail);
      if !sent.0 then Outcome(Err(ReceiverGone), data, sent.1)
      else Outcome(Ok(Some(exist.value)), data[key := Entry(value, exist.subscribers)], sent.1)
  }

  /** `delete`: removes the key and returns its value. */
  function DeleteOp(data: map<Key, Entry>, key: Key): Stored<Option<Value>> {
    Stored(if key in data then Some(data[key].value) else None, data - {key})
  }

  /**
   * `subscribe`: on a present key, sends the new subscriber the current
   * value (a failed send is ignored) and appends it to the list. Returns
   * the new length of a list that existed, and 0 when the list is new or
   * the key absent.
   */
  function SubscribeOp(data: map<Key, Entry>, mail: Mail, key: Key, id: SenderId): Outcome<nat> {
    if key !in data then Outcome(0, data, mail)
    else
      var exist := data[key];
      var snapshot := SendOp(mail, id, Notice(key, exist.value)).1;
      match exist.subscribers
      case Some(subs) => Outcome(|subs| + 1, data[key := Entry(exist.value, Some(subs + [id]))], snapshot)
      case None => Outcome(0, data[key := Entry(exist.value, Some([id]))], snapshot)
  }

  /** Every subscriber list the database holds has at least one subscriber. */
  predicate Valid(data: map<Key, Entry>) {
    forall k :: k in data && data[k].subscribers.Some? ==> data[k].subscribers.value != []
  }

  /** The channels, as fields: what each has queued, and which receivers are gone. */
  class Mailboxes {
    var sent: map<SenderId, seq<string>>
    var closed: set<SenderId>

    ghost function State(): Mail
      reads this
    {
      Mail(sent, closed)
    }

    constructor (closed: set<SenderId>)
      ensures State() == Mail(map[], closed)
    {
      sent := map[];
      this.closed := closed;
    }

    /** `Sender::send` on channel `id`. */
    method Send(id: SenderId, msg: string) returns (ok: bool)
      modifies this
      ensures (ok, State()) == SendOp(old(State()), id, msg)
    {
      if id in closed {
        return false;
      }
      var queued := if id in sent then sent[id] else [];
      sent := sent[id := queued + [msg]];
      ok := true;
    }
  }

  /** `Database`: the key-value map, updated in place. */
  class Database {
    var data: map<Key, Entry>

    /** `Database::new`: no keys. */
    constructor ()
      ensures data == map[] && Valid(data)
    {
      data := map[];
    }

    method Create(key: Key, value: Value) returns (r: Option<Value>)
      modifies this
      ensures Stored(r, data) == CreateOp(old(data), key, value)
    {
      r := if key in data then Some(data[key].value) else None;
      data := data[key := Entry(value, None)];
    }

    method Read(key: Key) returns (r: Option<Value>)
      ensures r == ReadOp(data, key)
    {
      r := if key in data then Some(data[key].value) else None;
    }

    method Update(key: Key, value: Value, mail: Mailboxes) returns (r: Result<Option<Value>, SendError>)
      modifies this, mail
      ensures Outcome(r, data, mail.State()) == UpdateOp(old(data), old(mail.State()), key, value)
    {
      if key !in data {
        return Ok(None);
      }
      var exist := data[key];
      if exist.subscribers.Some? {
        var subs := exist.subscribers.value;
        var i := 0;
        while i < |subs|
          invariant i <= |subs| && data == old(data)
          invariant Broadcast(subs[i..], Notice(key, value), mail.State())
            == Broadcast(subs, Notice(key, value), old(mail.State()))
        {
          assert subs[i..][1..] == subs[i + 1..];
          var ok := mail.Send(subs[i], Notice(key, value));
          if !ok {
            return Err(ReceiverGone);
          }
          i := i + 1;
        }
      }
      data := data[key := Entry(value, exist.subscribers)];
      r := Ok(Some(exist.value));
    }

    method Delete(key: Key) returns (r: Option<Value>)
      modifies this
      ensures Stored(r, data) == DeleteOp(old(data), key)
    {
      r := if key in data then Some(data[key].value) else None;
      data := data - {key};
    }

    method Subscribe(key: Key, id: SenderId, mail: Mailboxes) returns (n: nat)
      modifies this, mail
      ensures Outcome(n, data, mail.State()) == SubscribeOp(old(data), old(mail.State()), key, id)
    {
      n := 0;
      if key in data {
        var exist := data[key];
        var _ := mail.Send(id, Notice(key, exist.value));
        match exist.subscribers {
          case Some(subs) =>
            data := data[key := Entry(exist.value, Some(subs + [id]))];
            n := |subs| + 1;
          case None =>
            data := data[key := Entry(exist.value, Some([id]))];
        }
      }
    }
  }
}
