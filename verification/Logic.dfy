/** Sending: idempotent by (sender, client id), numbered per chat, under unique ids. The
    service is a state machine over sends, system events, internal store calls and restarts. */
module Logic {
  import opened Basics
  import opened Text
  import opened Records
  import opened StoreSpec
  import opened StoreInvariants

  function Millis(t: nat): nat { t / MILLISECOND }

  /** The clock readings of one send, in the order they are taken: for a client id that has to be
      made up, for the server id, for the timestamp, and for the creation time of the row. */
  datatype Times = Times(first: nat, id: nat, stamp: nat, row: nat)

  datatype Send = Send(sender: string, clientId: string, chatId: string, recipient: string, body: string)
  {
    function EffectiveClientId(now: nat): string {
      if Blank(clientId) then "c-" + Dec(now) else clientId
    }

    function EffectiveChat(): string {
      var chat := TrimSpace(chatId);
      if chat != "" then chat
      else if recipient != "" then C2CChatId(sender, recipient)
      else "broadcast"
    }
  }

  /** The store, the id counter of this process, the last clock reading and, for the proofs,
      the millisecond this process started in. */
  datatype System = System(st: State, counter: nat, clock: nat, boot: nat)

  function InitSystem(persistent: bool, now: nat): System {
    System(InitState(persistent), 0, now, Millis(now))
  }

  ghost predicate Later(y: System, at: Times) {
    y.clock <= at.first <= at.id <= at.stamp <= at.row
  }

  datatype Outcome = Rejected | Existing(m: Message) | Saved(m: Message)

  /** A message under the next id of this process and the next number of its chat. */
  function Build(y: System, prefix: string, clientId: string, chat: string, sender: string, recipient: string,
                 body: string, at: Times): Message
  {
    Message(ServerId(prefix, Millis(at.id), y.counter + 1), clientId, chat, sender, recipient,
            NextSeqNo(y.st, chat), body, Unix(at.stamp), PENDING)
  }

  function NewMessage(y: System, r: Send, at: Times): Message {
    Build(y, "s", r.EffectiveClientId(at.first), r.EffectiveChat(), r.sender, r.recipient, r.body, at)
  }

  function SendOutcome(y: System, r: Send, at: Times): Outcome {
    if Blank(r.sender) then Rejected
    else match ByClientAnswer(y.st, r.sender, r.EffectiveClientId(at.first))
         case Some(m) => Existing(m)
         case None => Saved(NewMessage(y, r, at))
  }

  /** Taking the next number of the message's chat and a new id, then saving. */
  function Storing(y: System, m: Message, users: seq<string>, at: Times): System {
    y.(st := SaveMessage(NextSeq(y.st, m.chatId), m, users, at.row), counter := y.counter + 1, clock := at.row)
  }

  function ProcessSend(y: System, r: Send, users: seq<string>, at: Times): System {
    match SendOutcome(y, r, at)
    case Rejected => y.(clock := at.row)
    case Existing(_) => y.(st := GetByClient(y.st, r.sender, r.EffectiveClientId(at.first)), clock := at.row)
    case Saved(m) => Storing(y, m, users, at)
  }

  function EventMessage(y: System, body: string, at: Times): Message {
    Build(y, "sys", "", "system", "system", "", body, at)
  }

  function Broadcast(y: System, body: string, users: seq<string>, at: Times): System {
    Storing(y, EventMessage(y, body, at), users, at)
  }

  // ------------------------------------------------------------------ transitions

  datatype Action =
    | DoSend(r: Send, users: seq<string>, at: Times)
    | DoBroadcast(body: string, users: seq<string>, at: Times)
    | DoCall(c: Call, now: nat)   // what the worker, acknowledgements and logins do
    | DoRestart(now: nat)

  /** Store calls that are made outside sending. */
  predicate Internal(c: Call) {
    IsMark(c) || IsLoad(c) || c.CallGetByClient? || c.CallGetByServer? || c.CallGetRecipients?
  }

  /** The clock never goes back, and a restart takes the process into a later millisecond. */
  ghost predicate Allowed(y: System, a: Action) {
    && (a.DoSend? || a.DoBroadcast? ==> Later(y, a.at))
    && (a.DoCall? || a.DoRestart? ==> a.now >= y.clock)
    && (a.DoCall? ==> Internal(a.c) && StoreInvariants.Enabled(y.st, a.c))
    && (a.DoRestart? ==> y.st.persistent && Millis(a.now) > Millis(y.clock))
  }

  ghost function Next(y: System, a: Action, cfg: Config): System {
    match a
    case DoSend(r, users, at) => ProcessSend(y, r, users, at)
    case DoBroadcast(body, users, at) => Broadcast(y, body, users, at)
    case DoCall(c, now) => y.(st := Step(y.st, c, cfg), clock := now)
    case DoRestart(now) => System(CrashState(y.st), 0, now, Millis(now))
  }

  ghost predicate Leads(y: System, acts: seq<Action>, z: System, cfg: Config)
    decreases |acts|
  {
    if acts == [] then y == z
    else Allowed(y, acts[0]) && Leads(Next(y, acts[0], cfg), acts[1..], z, cfg)
  }

  // -------------------------------------------------------------------- known ids

  /** An id this deployment can already have given out. */
  ghost predicate Known(y: System, id: string) {
    exists p: string, m: nat, c: nat :: KnownAs(y, id, p, m, c)
  }

  ghost predicate KnownAs(y: System, id: string, p: string, m: nat, c: nat) {
    id == ServerId(p, m, c) && m <= Millis(y.clock) && (m < y.boot || c <= y.counter)
  }

  lemma MillisMonotone(a: nat, b: nat)
    requires a <= b
    ensures Millis(a) <= Millis(b)
  {
  }

  /** The next id has not been given out, whatever its millisecond, as long as it is one of this
      process. */
  lemma NeverGiven(y: System, p: string, millis: nat)
    requires y.boot <= millis
    ensures !Known(y, ServerId(p, millis, y.counter + 1))
  {
    var id := ServerId(p, millis, y.counter + 1);
    forall q: string, m: nat, c: nat
      ensures !KnownAs(y, id, q, m, c)
    {
      ServerIdInjective(p, millis, y.counter + 1, q, m, c);
    }
  }

  lemma FreshId(y: System, p: string, at: Times)
    requires y.boot <= Millis(y.clock) && Later(y, at)
    ensures !Known(y, ServerId(p, Millis(at.id), y.counter + 1))
    ensures Known(y.(counter := y.counter + 1, clock := at.row), ServerId(p, Millis(at.id), y.counter + 1))
  {
    MillisMonotone(y.clock, at.id);
    MillisMonotone(at.id, at.row);
    NeverGiven(y, p, Millis(at.id));
    var id := ServerId(p, Millis(at.id), y.counter + 1);
    assert KnownAs(y.(counter := y.counter + 1, clock := at.row), id, p, Millis(at.id), y.counter + 1);
  }

  lemma KnownStays(y: System, z: System, id: string)
    requires Known(y, id) && y.clock <= z.clock
    requires (z.boot == y.boot && z.counter >= y.counter) || z.boot > Millis(y.clock)
    ensures Known(z, id)
  {
    var p: string, m: nat, c: nat :| KnownAs(y, id, p, m, c);
    MillisMonotone(y.clock, z.clock);
    assert KnownAs(z, id, p, m, c);
  }

  ghost predicate IdsKnown(y: System) {
    && y.boot <= Millis(y.clock)
    && (forall id :: id in y.st.messages ==> Known(y, id))
    && (forall i :: 0 <= i < |y.st.db.messages| ==> Known(y, y.st.db.messages[i].serverId))
    && (forall k :: k in y.st.entries ==> Known(y, k.outer))
    && (forall k :: k in y.st.db.rows ==> Known(y, k.outer))
  }

  // ---------------------------------------------------------------- the message maps

  predicate Keyed(m: Message) { m.sender != "" && m.clientId != "" }

  function ClientKey(m: Message): Key { Key(m.sender, m.clientId) }

  /** The two memory maps hold the same messages, each under its own key. */
  ghost predicate Indexed(ms: map<string, Message>, bc: map<Key, Message>) {
    && (forall id :: id in ms ==> ms[id].serverId == id)
    && (forall id :: id in ms && Keyed(ms[id]) ==> ClientKey(ms[id]) in bc && bc[ClientKey(ms[id])] == ms[id])
    && (forall k :: k in bc ==> Keyed(bc[k]) && ClientKey(bc[k]) == k
                                && bc[k].serverId in ms && ms[bc[k].serverId] == bc[k])
  }

  lemma IndexAdd(ms: map<string, Message>, bc: map<Key, Message>, m: Message)
    requires Indexed(ms, bc) && m.serverId !in ms && (Keyed(m) ==> ClientKey(m) !in bc)
    ensures Indexed(ms[m.serverId := m], if Keyed(m) then bc[ClientKey(m) := m] else bc)
  {
  }

  // --------------------------------------------------------------- the message table

  /** Unique server ids, unique (sender, client id), and numbers rising within each chat. */
  ghost predicate TableOk(t: seq<Message>) {
    forall i, j :: 0 <= i < j < |t| ==>
      && t[i].serverId != t[j].serverId
      && ClientKey(t[i]) != ClientKey(t[j])
      && (t[i].chatId == t[j].chatId ==> t[i].seqNo < t[j].seqNo)
  }

  /** What the table stores of a message: all but the timestamp and the status. */
  function Core(m: Message): Message { m.(ts := 0, status := PENDING) }

  /** Memory agrees with the table: every message with a client id is there, and a message
      that is there is the same. */
  ghost predicate Mirrored(ms: map<string, Message>, t: seq<Message>) {
    && (forall id :: id in ms && Keyed(ms[id]) ==> InTable(t, ms[id]))
    && (forall id, i :: id in ms && 0 <= i < |t| && t[i].serverId == id ==> Core(t[i]) == Core(ms[id]))
  }

  ghost predicate InTable(t: seq<Message>, m: Message) {
    exists i :: 0 <= i < |t| && Core(t[i]) == Core(m)
  }

  ghost predicate NumbersAhead(next: map<string, nat>, t: seq<Message>) {
    forall i :: 0 <= i < |t| && t[i].chatId in next ==> t[i].seqNo <= next[t[i].chatId]
  }

  // ------------------------------------------------------------ memory-mode numbering

  /** The numbers of each chat are exactly 1..next, one message each. */
  ghost predicate Numbered(next: map<string, nat>, ms: map<string, Message>) {
    && (forall id :: id in ms ==> ms[id].chatId in next && 1 <= ms[id].seqNo <= next[ms[id].chatId])
    && (forall id, jd :: id in ms && jd in ms && id != jd && ms[id].chatId == ms[jd].chatId ==>
          ms[id].seqNo != ms[jd].seqNo)
    && (forall chat, n: nat :: chat in next && 1 <= n <= next[chat] ==> HasNumber(ms, chat, n))
  }

  ghost predicate HasNumber(ms: map<string, Message>, chat: string, n: nat) {
    exists id :: id in ms && ms[id].chatId == chat && ms[id].seqNo == n
  }

  lemma NumberedAdd(next: map<string, nat>, ms: map<string, Message>, m: Message)
    requires Numbered(next, ms) && m.serverId !in ms
    requires m.seqNo == (if m.chatId in next then next[m.chatId] else 0) + 1
    ensures Numbered(next[m.chatId := m.seqNo], ms[m.serverId := m])
  {
    var next', ms' := next[m.chatId := m.seqNo], ms[m.serverId := m];
    forall chat, n: nat | chat in next' && 1 <= n <= next'[chat]
      ensures HasNumber(ms', chat, n)
    {
      if chat == m.chatId && n == m.seqNo {
        assert ms'[m.serverId] == m;
      } else {
        assert HasNumber(ms, chat, n);
        var id :| id in ms && ms[id].chatId == chat && ms[id].seqNo == n;
        assert ms'[id] == ms[id];
      }
    }
  }

  // -------------------------------------------------------------------- invariant

  ghost predicate MessagesOk(s: State) {
    && Indexed(s.messages, s.byClient)
    && TableOk(s.db.messages)
    && (s.persistent ==> Mirrored(s.messages, s.db.messages) && NumbersAhead(s.nextSeq, s.db.messages))
    && (!s.persistent ==> Numbered(s.nextSeq, s.messages) && s.db.messages == [])
  }

  ghost predicate SysInv(y: System, cfg: Config) {
    Inv(y.st, cfg) && MessagesOk(y.st) && IdsKnown(y)
  }
}
