/**
 * The reading thread of a connection in src/main.rs: each read is handed to
 * the parser, and the commands of a batch are run against the database in
 * order, each answer sent back on the connection's own channel.
 *
 * The connection's channel is `me`; a send on it fails once its writer is
 * gone. A batch ends in one of three ways: it runs to the end; it stops
 * early (an `update` whose notification failed, or an answer that could not
 * be sent), after which the thread reads again; or the client asks to
 * disconnect, which ends the thread.
 */
module Dispatch {
  import opened Wrappers
  import opened Parsing
  import opened KvStore

  datatype Ending = Completed | Stopped | Disconnected

  /** How a command or a batch ended, with the database and the channels it left behind. */
  datatype Session = Session(ending: Ending, data: map<Key, Entry>, mail: Mail)

  /** The answer a command produces, if any, before it is sent; `Halted` when `update` failed. */
  datatype Answer = Answer(response: Option<Value>, data: map<Key, Entry>, mail: Mail) | Halted(data: map<Key, Entry>, mail: Mail)

  /** What the database does for one command other than `DISCONNECT`. */
  function Perform(cmd: Command, data: map<Key, Entry>, mail: Mail, me: SenderId): Answer
    requires !cmd.Disconnect?
  {
    match cmd
    case Create(key, value) =>
      var s := CreateOp(data, key, value);
      Answer(s.result, s.data, mail)
    case Delete(key) =>
      var s := DeleteOp(data, key);
      Answer(s.result, s.data, mail)
    case Read(key) => Answer(ReadOp(data, key), data, mail)
    case Update(key, value) =>
      var o := UpdateOp(data, mail, key, value);
      if o.result.Err? then Halted(o.data, o.mail) else Answer(o.result.value, o.data, o.mail)
    case Subscribe(key) =>
      var o := SubscribeOp(data, mail, key, me);
      Answer(None, o.data, o.mail)
  }

  /**
   * One command of a batch: `DISCONNECT` ends the connection; any other is
   * performed and its answer, if any, sent on `me` as `Display` writes it
   * (text lengths in bytes).
   */
  function StepCommand(cmd: Command, data: map<Key, Entry>, mail: Mail, me: SenderId): Session {
    if cmd.Disconnect? then Session(Disconnected, data, mail)
    else
      match Perform(cmd, data, mail, me)
      case Halted(d, m) => Session(Stopped, d, m)
      case Answer(response, d, m) =>
        if response.None? then Session(Completed, d, m)
        else
          var sent := SendOp(m, me, EncodeAsWritten(response.value));
          Session(if sent.0 then Completed else Stopped, d, sent.1)
  }

  /** The `for` loop over a batch: each command in turn, until one does not complete. */
  function RunBatch(cmds: seq<Command>, data: map<Key, Entry>, mail: Mail, me: SenderId): Session {
    if cmds == [] then Session(Completed, data, mail)
    else
      var s := StepCommand(cmds[0], data, mail, me);
      if s.ending != Completed then s else RunBatch(cmds[1..], s.data, s.mail, me)
  }

  /**
   * One read: input that does not lex to an array, or whose tokens do not
   * parse, is reported and changes nothing; otherwise the batch is run.
   */
  function HandleInput(input: string, data: map<Key, Entry>, mail: Mail, me: SenderId): Session {
    match FromInput(input)
    case None => Session(Completed, data, mail)
    case Some(tokens) =>
      match ParseQueue(tokens)
      case None => Session(Completed, data, mail)
      case Some(cmds) => RunBatch(cmds, data, mail, me)
  }

  /**
   * The reading loop over what successive reads return: an empty read (the
   * peer closed) or a `DISCONNECT` ends it. The ending is `Completed` when
   * the reads given ran out first.
   */
  function Serve(chunks: seq<string>, data: map<Key, Entry>, mail: Mail, me: SenderId): Session {
    if chunks == [] then Session(Completed, data, mail)
    else if chunks[0] == [] then Session(Disconnected, data, mail)
    else
      var s := HandleInput(chunks[0], data, mail, me);
      if s.ending.Disconnected? then s else Serve(chunks[1..], s.data, s.mail, me)
  }

  /** The reading thread of `Client::run`, over the shared database and the channels. */
  class Connection {
    const me: SenderId
    const db: Database
    const mail: Mailboxes

    constructor (me: SenderId, db: Database, mail: Mailboxes)
      ensures this.me == me && this.db == db && this.mail == mail
    {
      this.me := me;
      this.db := db;
      this.mail := mail;
    }

    /** One command of a batch. */
    method Execute(cmd: Command) returns (ending: Ending)
      modifies db, mail
      ensures Session(ending, db.data, mail.State()) == StepCommand(cmd, old(db.data), old(mail.State()), me)
    {
      var response: Option<Value>;
      match cmd {
        case Disconnect =>
          return Disconnected;
        case Create(key, value) =>
          response := db.Create(key, value);
        case Delete(key) =>
          response := db.Delete(key);
        case Read(key) =>
          response := db.Read(key);
        case Update(key, value) =>
          var r := db.Update(key, value, mail);
          if r.Err? {
            return Stopped;
          }
          response := r.value;
        case Subscribe(key) =>
          var _ := db.Subscribe(key, me, mail);
          response := None;
      }
      ending := Completed;
      if response.Some? {
        var ok := mail.Send(me, EncodeAsWritten(response.value));
        if !ok {
          ending := Stopped;
        }
      }
    }

    /** The `for` loop over the commands of a batch. */
    method RunCommands(cmds: seq<Command>) returns (ending: Ending)
      modifies db, mail
      ensures Session(ending, db.data, mail.State()) == RunBatch(cmds, old(db.data), old(mail.State()), me)
    {
      var i := 0;
      while i < |cmds|
        invariant i <= |cmds|
        invariant RunBatch(cmds[i..], db.data, mail.State(), me) == RunBatch(cmds, old(db.data), old(mail.State()), me)
      {
        assert cmds[i..][1..] == cmds[i + 1..];
        ending := Execute(cmds[i]);
        if ending != Completed {
          return;
        }
        i := i + 1;
      }
      ending := Completed;
    }

    /** What the reading thread does with the bytes of one read. */
    method Handle(input: string) returns (ending: Ending)
      modifies db, mail
      ensures Session(ending, db.data, mail.State()) == HandleInput(input, old(db.data), old(mail.State()), me)
    {
      var parser := Parser.From(input);
      if parser.None? {
        return Completed;
      }
      var cmds := parser.value.Parse();
      if cmds.None? {
        return Completed;
      }
      ending := RunCommands(cmds.value);
    }

    /** The `'outer` loop over successive reads. */
    method Run(chunks: seq<string>) returns (ending: Ending)
      modifies db, mail
      ensures Session(ending, db.data, mail.State()) == Serve(chunks, old(db.data), old(mail.State()), me)
    {
      var i := 0;
      while i < |chunks|
        invariant i <= |chunks|
        invariant Serve(chunks[i..], db.data, mail.State(), me) == Serve(chunks, old(db.data), old(mail.State()), me)
      {
        assert chunks[i..][1..] == chunks[i + 1..];
        if chunks[i] == [] {
          return Disconnected;
        }
        ending := Handle(chunks[i]);
        if ending.Disconnected? {
          return;
        }
        i := i + 1;
      }
      ending := Completed;
    }
  }
}
