/** The values the store keeps: protocol messages, delivery entries in memory,
    and the two database tables. Times are nanoseconds since the epoch. */
module Records {
  import opened Basics

  const SECOND := 1_000_000_000
  const MILLISECOND := 1_000_000

  function Unix(t: nat): nat { t / SECOND }

  // message_recipients.status
  type Status = s: int | 0 <= s <= 3
  const PENDING: Status := 0
  const DELIVERED: Status := 1
  const READ: Status := 2
  const DEAD: Status := 3

  /** protocol.Message; the type field is always "deliver" for stored messages and is dropped. */
  datatype Message = Message(
    serverId: string, clientId: string, chatId: string, sender: string, recipient: string,
    seqNo: nat, body: string, ts: nat, status: Status)

  /** DeliveryEntry. */
  datatype Entry = Entry(
    user: string, acked: bool, read: bool, dead: bool,
    retry: nat, lastSent: nat, nextRetryAt: nat, lastError: string)
  {
    predicate Pending() { !acked && !read && !dead }
  }

  function FreshEntry(user: string): Entry {
    Entry(user, false, false, false, 0, 0, 0, "")
  }

  /** One message_recipients row, without its two key columns. */
  datatype Row = Row(
    status: Status, retryCount: nat, nextRetryAt: Option<nat>, lastError: string,
    lastSendAt: Option<nat>, ackedAt: Option<nat>, readAt: Option<nat>)

  const FRESH_ROW := Row(PENDING, 0, None, "", None, None, None)

  /** The database. `messages` is in insertion order. `order` lists the recipient keys in
      insertion order, which is the order of the primary key. */
  datatype Tables = Tables(messages: seq<Message>, rows: map<Key, Row>, order: seq<Key>)
  {
    /** INSERT ... ON CONFLICT DO NOTHING into message_recipients, unique on the key. */
    function InsertRow(k: Key): Tables {
      if k in rows then this else this.(rows := rows[k := FRESH_ROW], order := order + [k])
    }

    function InsertRows(id: string, users: seq<string>): Tables
      decreases |users|
    {
      if users == [] then this
      else if users[0] == "" then InsertRows(id, users[1..])
      else InsertRow(Key(id, users[0])).InsertRows(id, users[1..])
    }

    /** UPDATE ... WHERE server_msg_id = ? AND to_user = ? */
    function UpdateRow(k: Key, r: Row): Tables {
      if k in rows then this.(rows := rows[k := r]) else this
    }

    /** INSERT ... ON CONFLICT DO NOTHING into messages: unique on the server id and on
        (sender, client id). */
    function InsertMessage(m: Message): Tables {
      if Conflicts(m) then this else this.(messages := messages + [m])
    }

    predicate Conflicts(m: Message) {
      exists i :: 0 <= i < |messages| &&
        (messages[i].serverId == m.serverId
         || (messages[i].sender == m.sender && messages[i].clientId == m.clientId))
    }

    /** SELECT * FROM message_recipients WHERE status = 0 ORDER BY id. */
    function PendingKeys(): seq<Key> {
      PendingIn(order)
    }

    function PendingIn(ks: seq<Key>): seq<Key> {
      if ks == [] then []
      else if IsPending(ks[0]) then [ks[0]] + PendingIn(ks[1..])
      else PendingIn(ks[1..])
    }

    predicate IsPending(k: Key) { k in rows && rows[k].status == PENDING }

    predicate IsDue(k: Key, now: nat) {
      IsPending(k) && rows[k].nextRetryAt.Some? && rows[k].nextRetryAt.value <= now
    }

    function DueAt(k: Key): nat {
      if k in rows && rows[k].nextRetryAt.Some? then rows[k].nextRetryAt.value else 0
    }
  }

  /** SELECT COALESCE(MAX(seq), 0) WHERE chat_id = ? */
  function MaxSeq(ms: seq<Message>, chat: string): nat {
    if ms == [] then 0
    else
      var last := ms[|ms| - 1];
      var rest := MaxSeq(ms[..|ms| - 1], chat);
      if last.chatId == chat && last.seqNo > rest then last.seqNo else rest
  }

  lemma {:induction false} MaxSeqExact(ms: seq<Message>, chat: string)
    ensures forall i :: 0 <= i < |ms| && ms[i].chatId == chat ==> ms[i].seqNo <= MaxSeq(ms, chat)
    ensures MaxSeq(ms, chat) != 0 ==>
              exists i :: 0 <= i < |ms| && ms[i].chatId == chat && ms[i].seqNo == MaxSeq(ms, chat)
    decreases |ms|
  {
    if ms != [] {
      var front := ms[..|ms| - 1];
      MaxSeqExact(front, chat);
      if MaxSeq(ms, chat) == MaxSeq(front, chat) != 0 {
        var i :| 0 <= i < |front| && front[i].chatId == chat && front[i].seqNo == MaxSeq(front, chat);
        assert ms[i] == front[i];
      }
    }
  }

  function FindByClient(ms: seq<Message>, sender: string, clientId: string): (r: Option<Message>)
    ensures r.Some? ==> r.value in ms && r.value.sender == sender && r.value.clientId == clientId
    ensures r.None? ==> forall m :: m in ms ==> m.sender != sender || m.clientId != clientId
  {
    if ms == [] then None
    else if ms[0].sender == sender && ms[0].clientId == clientId then Some(ms[0])
    else FindByClient(ms[1..], sender, clientId)
  }

  function FindByServer(ms: seq<Message>, id: string): (r: Option<Message>)
    ensures r.Some? ==> r.value in ms && r.value.serverId == id
    ensures r.None? ==> forall m :: m in ms ==> m.serverId != id
  {
    if ms == [] then None
    else if ms[0].serverId == id then Some(ms[0])
    else FindByServer(ms[1..], id)
  }

  /** `fromDBMessage(toDBMessage(m))` for a row inserted at `now`: the timestamp becomes the
      row's creation time and the delivery status is not stored with the message. */
  function Stored(m: Message, now: nat): Message {
    m.(ts := Unix(now), status := PENDING)
  }

  /** Everything the store holds. `entries` and `byClient` are the nested maps on pairs. */
  datatype State = State(
    persistent: bool, nextSeq: map<string, nat>, messages: map<string, Message>,
    byClient: map<Key, Message>, entries: map<Key, Entry>, db: Tables)

  function InitState(persistent: bool): State {
    State(persistent, map[], map[], map[], map[], Tables([], map[], []))
  }

  /** Restart: memory is lost, the tables stay. */
  function CrashState(s: State): State {
    s.(nextSeq := map[], messages := map[], byClient := map[], entries := map[])
  }
}
