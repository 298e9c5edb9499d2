/** What senders are promised over whole runs. */
module Replay {
  import opened Basics
  import opened Text
  import opened Records
  import opened StoreSpec
  import opened StoreInvariants
  import opened Logic
  import opened Sending
  import History

  /** A message of `sender` under `clientId` is on record with this id and number: in the table
      when there is one, otherwise in memory. */
  ghost predicate OnRecord(s: State, sender: string, clientId: string, id: string, n: nat) {
    if s.persistent
    then exists i :: 0 <= i < |s.db.messages| && Is(s.db.messages[i], sender, clientId, id, n)
    else Key(sender, clientId) in s.byClient && Is(s.byClient[Key(sender, clientId)], sender, clientId, id, n)
  }

  predicate Is(m: Message, sender: string, clientId: string, id: string, n: nat) {
    m.sender == sender && m.clientId == clientId && m.serverId == id && m.seqNo == n
  }

  /** What a record needs to survive: the table only grows, and without a table no client key
      is overwritten. */
  ghost predicate RecordsStay(s: State, t: State) {
    && t.persistent == s.persistent
    && (s.persistent ==> s.db.messages <= t.db.messages)
    && (!s.persistent ==> forall k :: k in s.byClient ==> k in t.byClient && t.byClient[k] == s.byClient[k])
  }

  lemma StoringRecords(y: System, m: Message, users: seq<string>, at: Times)
    requires RowsOk(y.st.db) && Storable(y.st, m)
    ensures RecordsStay(y.st, Storing(y, m, users, at).st)
  {
    SaveEffect(NextSeq(y.st, m.chatId), m, users, at.row);
  }

  lemma CallRecords(s: State, c: Call, cfg: Config)
    requires RowsOk(s.db) && MessagesOk(s) && Internal(c) && StoreInvariants.Enabled(s, c)
    ensures RecordsStay(s, Step(s, c, cfg))
  {
    InternalEffect(s, c, cfg);
  }

  lemma NextRecords(y: System, a: Action, cfg: Config)
    requires SysInv(y, cfg) && Allowed(y, a)
    ensures RecordsStay(y.st, Next(y, a, cfg).st)
  {
    match a
    case DoSend(r, users, at) =>
      match SendOutcome(y, r, at) {
        case Rejected =>
        case Existing(_) => ByClientLookup(y.st, r.sender, r.EffectiveClientId(at.first));
        case Saved(m) =>
          SendStorable(y, r, at, cfg);
          StoringRecords(y, m, users, at);
      }
    case DoBroadcast(body, users, at) =>
      EventStorable(y, body, at);
      StoringRecords(y, EventMessage(y, body, at), users, at);
    case DoCall(c, now) => CallRecords(y.st, c, cfg);
    case DoRestart(now) =>
  }

  lemma RecordStays(s: State, t: State, sender: string, clientId: string, id: string, n: nat)
    requires RecordsStay(s, t) && OnRecord(s, sender, clientId, id, n)
    ensures OnRecord(t, sender, clientId, id, n)
  {
    if s.persistent {
      var i :| 0 <= i < |s.db.messages| && Is(s.db.messages[i], sender, clientId, id, n);
      assert t.db.messages[i] == s.db.messages[i];
    }
  }

  lemma {:induction false} RunRecords(y: System, acts: seq<Action>, z: System, cfg: Config, sender: string,
                                      clientId: string, id: string, n: nat)
    requires SysInv(y, cfg) && Leads(y, acts, z, cfg) && OnRecord(y.st, sender, clientId, id, n)
    ensures OnRecord(z.st, sender, clientId, id, n)
    decreases |acts|
  {
    if acts != [] {
      NextRecords(y, acts[0], cfg);
      NextKeeps(y, acts[0], cfg);
      RecordStays(y.st, Next(y, acts[0], cfg).st, sender, clientId, id, n);
      RunRecords(Next(y, acts[0], cfg), acts[1..], z, cfg, sender, clientId, id, n);
    }
  }

  lemma SavedOnRecord(y: System, r: Send, users: seq<string>, at: Times, cfg: Config)
    requires SysInv(y, cfg) && Later(y, at) && SendOutcome(y, r, at).Saved?
    ensures var m := SendOutcome(y, r, at).m;
            OnRecord(ProcessSend(y, r, users, at).st, m.sender, m.clientId, m.serverId, m.seqNo)
  {
    var m := SendOutcome(y, r, at).m;
    SendStorable(y, r, at, cfg);
    StoreKeepsMessages(y.st, m, users, at.row);
    SaveEffect(NextSeq(y.st, m.chatId), m, users, at.row);
    var t := ProcessSend(y, r, users, at).st;
    if y.st.persistent {
      assert Is(t.db.messages[|y.st.db.messages|], m.sender, m.clientId, m.serverId, m.seqNo);
    }
  }

  /** Nothing a sender or recipient could notice: no number taken, no delivery, no row, no id. */
  ghost predicate NoEffect(y: System, z: System) {
    && z.counter == y.counter && z.st.nextSeq == y.st.nextSeq
    && z.st.entries == y.st.entries && z.st.db == y.st.db
  }

  lemma RecordFound(s: State, sender: string, clientId: string, id: string, n: nat)
    requires MessagesOk(s) && OnRecord(s, sender, clientId, id, n) && sender != "" && clientId != ""
    ensures var a := ByClientAnswer(s, sender, clientId); a.Some? && a.value.serverId == id && a.value.seqNo == n
  {
    if s.persistent {
      var t := s.db.messages;
      var i :| 0 <= i < |t| && Is(t[i], sender, clientId, id, n);
      assert Keyed(t[i]) && ClientKey(t[i]) == Key(sender, clientId);
      if Key(sender, clientId) in s.byClient {
        ClientKeyTaken(s, i);
        assert Core(s.byClient[Key(sender, clientId)]).seqNo == Core(t[i]).seqNo;
      } else {
        assert t[i] in t;
        var a := FindByClient(t, sender, clientId);
        var j :| 0 <= j < |t| && t[j] == a.value;
        SameClientKey(t, i, j);
      }
    }
  }

  lemma ReplayAnswered(y: System, r: Send, users: seq<string>, at: Times, clientId: string, id: string, n: nat)
    requires MessagesOk(y.st) && !Blank(r.sender) && r.EffectiveClientId(at.first) == clientId && clientId != ""
    requires OnRecord(y.st, r.sender, clientId, id, n)
    ensures SendOutcome(y, r, at).Existing?
    ensures SendOutcome(y, r, at).m.serverId == id && SendOutcome(y, r, at).m.seqNo == n
    ensures NoEffect(y, ProcessSend(y, r, users, at))
  {
    TrimBlank(r.sender);
    RecordFound(y.st, r.sender, clientId, id, n);
  }

  /** Idempotent sending over whole runs: once a send has been saved, then after anything else,
      restarts included, a send with the same sender and client id is answered with the first
      call's id and number and has no effect. */
  lemma Idempotent(y: System, r: Send, users: seq<string>, at: Times, acts: seq<Action>, z: System,
                   again: Send, users': seq<string>, at': Times, cfg: Config)
    requires SysInv(y, cfg) && Later(y, at) && SendOutcome(y, r, at).Saved?
    requires Leads(ProcessSend(y, r, users, at), acts, z, cfg)
    requires again.sender == r.sender && again.EffectiveClientId(at'.first) == r.EffectiveClientId(at.first)
    ensures SendOutcome(z, again, at').Existing?
    ensures SendOutcome(z, again, at').m.serverId == SendOutcome(y, r, at).m.serverId
    ensures SendOutcome(z, again, at').m.seqNo == SendOutcome(y, r, at).m.seqNo
    ensures NoEffect(z, ProcessSend(z, again, users', at'))
  {
    var m := SendOutcome(y, r, at).m;
    SavedOnRecord(y, r, users, at, cfg);
    SendKeeps(y, r, users, at, cfg);
    RunRecords(ProcessSend(y, r, users, at), acts, z, cfg, m.sender, m.clientId, m.serverId, m.seqNo);
    RunKeepsAll(ProcessSend(y, r, users, at), acts, z, cfg);
    SendStorable(y, r, at, cfg);
    ReplayAnswered(z, again, users', at', m.clientId, m.serverId, m.seqNo);
  }

  /** A sender's client id names one message in memory. */
  ghost predicate OneEach(ms: map<string, Message>) {
    forall id, jd :: id in ms && jd in ms && Keyed(ms[id]) && ClientKey(ms[id]) == ClientKey(ms[jd]) ==> id == jd
  }

  /** A message with a client id is found by its server id exactly when it is found by its client id. */
  ghost predicate SameBothWays(ms: map<string, Message>, bc: map<Key, Message>) {
    forall m: Message :: Keyed(m) ==> (ByIdIs(ms, m) <==> ByClientIs(bc, m))
  }

  predicate ByIdIs(ms: map<string, Message>, m: Message) { m.serverId in ms && ms[m.serverId] == m }
  predicate ByClientIs(bc: map<Key, Message>, m: Message) { ClientKey(m) in bc && bc[ClientKey(m)] == m }

  lemma IndexMeaning(ms: map<string, Message>, bc: map<Key, Message>)
    requires Indexed(ms, bc)
    ensures OneEach(ms) && SameBothWays(ms, bc)
  {
  }

  /** In every reachable state a sender's client id names one message, in memory and in the
      table, and the two memory maps hold the same messages. */
  lemma OnePerClientId(persistent: bool, start: nat, acts: seq<Action>, z: System, cfg: Config)
    requires Leads(InitSystem(persistent, start), acts, z, cfg)
    ensures OneEach(z.st.messages) && SameBothWays(z.st.messages, z.st.byClient)
    ensures TableOk(z.st.db.messages)
  {
    StartOk(persistent, start, cfg);
    RunKeepsAll(InitSystem(persistent, start), acts, z, cfg);
    IndexMeaning(z.st.messages, z.st.byClient);
  }

  /** In every reachable state of a persistent service the stored numbers of a chat rise in the
      order of storing, and the next number handed out is above all of them. */
  lemma NumbersNeverRepeat(start: nat, acts: seq<Action>, z: System, chat: string, cfg: Config)
    requires Leads(InitSystem(true, start), acts, z, cfg)
    ensures forall i, j :: 0 <= i < j < |z.st.db.messages| && z.st.db.messages[i].chatId == z.st.db.messages[j].chatId
              ==> z.st.db.messages[i].seqNo < z.st.db.messages[j].seqNo
    ensures forall i :: 0 <= i < |z.st.db.messages| && z.st.db.messages[i].chatId == ChatOr(chat)
              ==> z.st.db.messages[i].seqNo < NextSeqNo(z.st, chat)
  {
    StartOk(true, start, cfg);
    RunKeepsAll(InitSystem(true, start), acts, z, cfg);
    NextSeqAbove(z.st, chat);
  }

  /** In every reachable state without a database the saved numbers of each chat are exactly
      1..n, one message each, where n is the chat's counter. */
  lemma NumbersDense(start: nat, acts: seq<Action>, z: System, cfg: Config)
    requires Leads(InitSystem(false, start), acts, z, cfg)
    ensures Numbered(z.st.nextSeq, z.st.messages)
  {
    StartOk(false, start, cfg);
    RunKeepsAll(InitSystem(false, start), acts, z, cfg);
  }

  /** The messages a history of `a` and `b` is drawn from. */
  ghost function Pool(s: State, a: string, b: string): set<Message> {
    if s.persistent then History.TablePool(s.db.messages, a, b) else History.MemoryPool(s.messages, a, b)
  }

  /** In every reachable state, a conversation kept under one chat key has distinct numbers, so
      that its history is determined. */
  lemma OneChatDistinct(persistent: bool, start: nat, acts: seq<Action>, z: System, a: string, b: string, chat: string,
                        cfg: Config)
    requires Leads(InitSystem(persistent, start), acts, z, cfg)
    requires forall m :: m in Pool(z.st, a, b) ==> m.chatId == chat
    ensures History.DistinctNumbers(Pool(z.st, a, b))
  {
    StartOk(persistent, start, cfg);
    RunKeepsAll(InitSystem(persistent, start), acts, z, cfg);
    PoolDistinct(z.st, a, b, chat);
  }

  lemma SameNumber(t: seq<Message>, i: nat, j: nat)
    requires TableOk(t) && i < |t| && j < |t| && t[i].chatId == t[j].chatId && t[i].seqNo == t[j].seqNo
    ensures i == j
  {
  }

  lemma PoolDistinct(s: State, a: string, b: string, chat: string)
    requires MessagesOk(s)
    requires forall m :: m in Pool(s, a, b) ==> m.chatId == chat
    ensures History.DistinctNumbers(Pool(s, a, b))
  {
    var pool, t := Pool(s, a, b), s.db.messages;
    forall m, n | m in pool && n in pool && m.seqNo == n.seqNo
      ensures m == n
    {
      if s.persistent {
        var i :| 0 <= i < |t| && t[i] == m;
        var j :| 0 <= j < |t| && t[j] == n;
        SameNumber(t, i, j);
      } else {
        assert s.messages[m.serverId] == m && s.messages[n.serverId] == n;
      }
    }
  }

  lemma ActFirst(y: System, a: Action, acts: seq<Action>, z: System, cfg: Config)
    requires Allowed(y, a) && Leads(Next(y, a, cfg), acts, z, cfg)
    ensures Leads(y, [a] + acts, z, cfg)
  {
    assert ([a] + acts)[1..] == acts;
  }

  /** Two sends of one pair under chats of their own naming. */
  ghost predicate TwoChats(r: Send, q: Send) {
    && q.sender == r.sender && q.recipient == r.recipient && !Blank(r.sender)
    && !Blank(r.clientId) && !Blank(q.clientId) && r.clientId != q.clientId
    && r.EffectiveChat() != q.EffectiveChat()
  }

  lemma StoringMaps(s: State, m: Message, users: seq<string>, now: nat)
    requires RowsOk(s.db) && m.serverId != "" && m.chatId != "" && Keyed(m) && m.seqNo == NextSeqNo(s, m.chatId)
    ensures var t := SaveMessage(NextSeq(s, m.chatId), m, users, now);
      && t.persistent == s.persistent
      && t.messages == s.messages[m.serverId := m] && t.byClient == s.byClient[ClientKey(m) := m]
      && t.nextSeq == s.nextSeq[m.chatId := m.seqNo]
  {
    SaveEffect(NextSeq(s, m.chatId), m, users, now);
  }

  /** What a saved send adds to memory, ... */
  lemma SavedAdds(y: System, r: Send, users: seq<string>, at: Times, cfg: Config)
    requires SysInv(y, cfg) && Later(y, at) && SendOutcome(y, r, at).Saved?
    ensures var m, z := SendOutcome(y, r, at).m, ProcessSend(y, r, users, at);
      && m == NewMessage(y, r, at) && m.serverId !in y.st.messages
      && z.clock == at.row && z.st.persistent == y.st.persistent
      && z.st.messages == y.st.messages[m.serverId := m]
      && z.st.byClient == y.st.byClient[ClientKey(m) := m]
      && z.st.nextSeq == y.st.nextSeq[m.chatId := m.seqNo]
  {
    var m := SendOutcome(y, r, at).m;
    SendStorable(y, r, at, cfg);
    StoringMaps(y.st, m, users, at.row);
  }

  /** ... and to the table. */
  lemma SavedStores(y: System, r: Send, users: seq<string>, at: Times, cfg: Config)
    requires SysInv(y, cfg) && Later(y, at) && SendOutcome(y, r, at).Saved? && y.st.persistent
    ensures ProcessSend(y, r, users, at).st.db.messages == y.st.db.messages + [Stored(SendOutcome(y, r, at).m, at.row)]
  {
    SendStorable(y, r, at, cfg);
    StoreKeepsMessages(y.st, SendOutcome(y, r, at).m, users, at.row);
  }

  /** Only `a` has been stored so far, in another chat and under another client id. */
  ghost predicate OnlyOther(s: State, a: Message, now: nat, q: Send) {
    && a.clientId != q.clientId && a.chatId != q.EffectiveChat()
    && s.messages == map[a.serverId := a] && s.byClient == map[ClientKey(a) := a]
    && s.nextSeq == map[a.chatId := 1] && (s.persistent ==> s.db.messages == [Stored(a, now)])
  }

  lemma FirstOfChat(y: System, a: Message, made: nat, q: Send, at: Times)
    requires OnlyOther(y.st, a, made, q) && !Blank(q.sender) && !Blank(q.clientId)
    ensures SendOutcome(y, q, at) == Saved(NewMessage(y, q, at)) && NewMessage(y, q, at).seqNo == 1
  {
    ChatNotEmpty(q);
    NothingOf(y.st, a, made, q.sender, q.clientId, q.EffectiveChat());
  }

  lemma NothingOf(s: State, a: Message, now: nat, sender: string, clientId: string, chat: string)
    requires s.byClient == map[ClientKey(a) := a] && (s.persistent ==> s.db.messages == [Stored(a, now)])
    requires a.clientId != clientId && a.chatId != chat && s.nextSeq == map[a.chatId := 1] && chat != ""
    ensures ByClientAnswer(s, sender, clientId).None? && NextSeqNo(s, chat) == 1
  {
    if s.persistent {
      assert [Stored(a, now)][..0] == [] && [Stored(a, now)][1..] == [];
      assert MaxSeq([], chat) == 0;
    }
  }

  lemma FirstSend(persistent: bool, start: nat, r: Send, q: Send, users: seq<string>, at: Times, cfg: Config)
    requires TwoChats(r, q) && Later(InitSystem(persistent, start), at)
    ensures var y := InitSystem(persistent, start); var a, z := NewMessage(y, r, at), ProcessSend(y, r, users, at);
      && a.seqNo == 1 && SysInv(z, cfg) && z.clock == at.row && z.st.persistent == persistent
      && OnlyOther(z.st, a, at.row, q)
  {
    var y := InitSystem(persistent, start);
    StartOk(persistent, start, cfg);
    StartEmpty(persistent, start, r, at);
    SavedAdds(y, r, users, at, cfg);
    if persistent { SavedStores(y, r, users, at, cfg); }
    SendKeeps(y, r, users, at, cfg);
  }

  lemma StartEmpty(persistent: bool, start: nat, r: Send, at: Times)
    requires !Blank(r.sender)
    ensures var y := InitSystem(persistent, start);
            SendOutcome(y, r, at) == Saved(NewMessage(y, r, at)) && NewMessage(y, r, at).seqNo == 1
  {
    ChatNotEmpty(r);
  }

  /** A chat named by the client has its own counter, so one pair's first messages in two chats
      carry the same number: a tie in their history is reachable. */
  lemma TieReachable(persistent: bool, start: nat, r: Send, q: Send, users: seq<string>, at: Times, at': Times,
                     cfg: Config)
      returns (z: System)
    requires TwoChats(r, q) && Later(InitSystem(persistent, start), at)
    requires Later(ProcessSend(InitSystem(persistent, start), r, users, at), at')
    ensures Leads(InitSystem(persistent, start), [DoSend(r, users, at), DoSend(q, users, at')], z, cfg)
    ensures !History.DistinctNumbers(Pool(z.st, r.sender, r.recipient))
  {
    var y := InitSystem(persistent, start);
    var a, y1 := NewMessage(y, r, at), ProcessSend(y, r, users, at);
    FirstSend(persistent, start, r, q, users, at, cfg);
    z := ProcessSend(y1, q, users, at');
    TwoSends(y, y1, z, DoSend(r, users, at), DoSend(q, users, at'), cfg);
    SecondTies(y1, a, at.row, q, users, at', cfg);
  }

  lemma TwoSends(y: System, y1: System, z: System, a: Action, b: Action, cfg: Config)
    requires Allowed(y, a) && y1 == Next(y, a, cfg) && Allowed(y1, b) && z == Next(y1, b, cfg)
    ensures Leads(y, [a, b], z, cfg)
  {
    assert Leads(z, [], z, cfg);
    ActFirst(y1, b, [], z, cfg);
    assert [b] + [] == [b] && [a] + [b] == [a, b];
    ActFirst(y, a, [b], z, cfg);
  }

  lemma SecondTies(y: System, a: Message, made: nat, q: Send, users: seq<string>, at: Times, cfg: Config)
    requires SysInv(y, cfg) && Later(y, at) && !Blank(q.sender) && !Blank(q.clientId)
    requires OnlyOther(y.st, a, made, q) && a.sender == q.sender && a.recipient == q.recipient && a.seqNo == 1
    ensures !History.DistinctNumbers(Pool(ProcessSend(y, q, users, at).st, q.sender, q.recipient))
  {
    FirstOfChat(y, a, made, q, at);
    SavedAdds(y, q, users, at, cfg);
    if y.st.persistent { SavedStores(y, q, users, at, cfg); }
    var t, b := ProcessSend(y, q, users, at).st, NewMessage(y, q, at);
    BothPooled(t, a, made, b, at.row);
  }

  lemma BothPooled(t: State, a: Message, madeA: nat, b: Message, madeB: nat)
    requires a.serverId != b.serverId && a.sender == b.sender && a.recipient == b.recipient && a.seqNo == b.seqNo
    requires a.serverId in t.messages && t.messages[a.serverId] == a
    requires b.serverId in t.messages && t.messages[b.serverId] == b
    requires t.persistent ==> t.db.messages == [Stored(a, madeA)] + [Stored(b, madeB)]
    ensures !History.DistinctNumbers(Pool(t, a.sender, a.recipient))
  {
    var m, n := if t.persistent then Stored(a, madeA) else a, if t.persistent then Stored(b, madeB) else b;
    assert m in Pool(t, a.sender, a.recipient) && n in Pool(t, a.sender, a.recipient);
    assert m.serverId != n.serverId && m.seqNo == n.seqNo;
  }

  // ------------------------------------------------------------------ new deliveries

  /** A saved message starts one fresh delivery for each named recipient, in memory and, with a
      database, in its own pending row; no earlier delivery is changed. */
  lemma SavedStartsDeliveries(y: System, r: Send, users: seq<string>, at: Times, cfg: Config)
    requires SysInv(y, cfg) && Later(y, at) && SendOutcome(y, r, at).Saved?
    ensures var id, t := SendOutcome(y, r, at).m.serverId, ProcessSend(y, r, users, at).st;
      && (forall u :: u in users ==> Key(id, u) in t.entries && t.entries[Key(id, u)] == FreshEntry(u))
      && (y.st.persistent ==> forall u :: u in users && u != "" ==>
            Key(id, u) in t.db.rows && t.db.rows[Key(id, u)] == FRESH_ROW)
      && (forall k :: k in y.st.entries ==> k.outer != id && k in t.entries && t.entries[k] == y.st.entries[k])
      && (forall k :: k in y.st.db.rows ==> k.outer != id && k in t.db.rows && t.db.rows[k] == y.st.db.rows[k])
  {
    var m := SendOutcome(y, r, at).m;
    SendStorable(y, r, at, cfg);
    var n := NextSeq(y.st, m.chatId);
    if y.st.persistent { InsertRowsKeys(n.db.InsertMessage(Stored(m, at.row)), m.serverId, users); }
    EnsureEntriesAdds(CacheMessage(SaveTables(n, m, users, at.row), m), m.serverId, users);
  }

  // ------------------------------------------------- why one send has to be one step

  /** Two sends of one client id that run beside each other, at their own times. */
  ghost predicate Race(y: System, r: Send, at: Times, at': Times) {
    && Later(y, at) && Later(y, at') && SendOutcome(y, r, at).Saved?
    && r.EffectiveClientId(at'.first) == r.EffectiveClientId(at.first)
  }

  function FirstDone(y: System, r: Send, users: seq<string>, at: Times): System { ProcessSend(y, r, users, at) }

  /** What the second one saves: it looked before the first had saved, and saves after it. */
  function SecondMessage(y: System, r: Send, users: seq<string>, at: Times, at': Times): Message {
    NewMessage(FirstDone(y, r, users, at), r, at')
  }

  function StaleSend(y: System, r: Send, users: seq<string>, at: Times, at': Times): System {
    Storing(FirstDone(y, r, users, at), SecondMessage(y, r, users, at, at'), users, at')
  }

  lemma NextIdDiffers(m: nat, n: nat, c: nat)
    ensures ServerId("s", m, c) != ServerId("s", n, c + 1) && ServerId("s", n, c + 1) != ""
  {
    ServerIdInjective("s", m, c, "s", n, c + 1);
    IdNotEmpty("s", n, c + 1);
  }

  lemma RaceIds(y: System, r: Send, users: seq<string>, at: Times, at': Times, cfg: Config)
    requires SysInv(y, cfg) && Race(y, r, at, at')
    ensures var a, b := SendOutcome(y, r, at).m, SecondMessage(y, r, users, at, at');
      && a.serverId != b.serverId && b.serverId != "" && Keyed(a) && Keyed(b) && ClientKey(a) == ClientKey(b)
  {
    SendStorable(y, r, at, cfg);
    RaceNames(y, FirstDone(y, r, users, at), r, at, at');
  }

  lemma RaceNames(y: System, z: System, r: Send, at: Times, at': Times)
    requires r.EffectiveClientId(at'.first) == r.EffectiveClientId(at.first) && z.counter == y.counter + 1
    ensures var a, b := NewMessage(y, r, at), NewMessage(z, r, at');
      && a.serverId != b.serverId && b.serverId != "" && ClientKey(a) == ClientKey(b)
  {
    NextIdDiffers(Millis(at.id), Millis(at'.id), y.counter + 1);
  }

  /** Without a database such a race leaves two messages under one client id. */
  lemma RaceDuplicates(y: System, r: Send, users: seq<string>, at: Times, at': Times, cfg: Config)
    requires SysInv(y, cfg) && Race(y, r, at, at') && !y.st.persistent
    ensures var t := StaleSend(y, r, users, at, at').st;
      exists id, jd :: id in t.messages && jd in t.messages && id != jd
        && Keyed(t.messages[id]) && ClientKey(t.messages[id]) == ClientKey(t.messages[jd])
  {
    var a, b := SendOutcome(y, r, at).m, SecondMessage(y, r, users, at, at');
    RaceIds(y, r, users, at, at', cfg);
    SavedAdds(y, r, users, at, cfg);
    SendKeeps(y, r, users, at, cfg);
    StoringAdds(FirstDone(y, r, users, at), b, users, at');
    var t := StaleSend(y, r, users, at, at').st;
    assert t.messages[a.serverId] == a && t.messages[b.serverId] == b;
  }

  lemma StoringAdds(y: System, m: Message, users: seq<string>, at: Times)
    requires RowsOk(y.st.db) && m.serverId != ""
    ensures Storing(y, m, users, at).st.messages == y.st.messages[m.serverId := m]
  {
    SaveEffect(NextSeq(y.st, m.chatId), m, users, at.row);
  }

  /** With a database the unique index keeps only the first, although the second caller is
      given an id that the table will never know. */
  lemma RaceRejectedByTable(y: System, r: Send, users: seq<string>, at: Times, at': Times, cfg: Config)
    requires SysInv(y, cfg) && Race(y, r, at, at') && y.st.persistent
    ensures var first, t := FirstDone(y, r, users, at), StaleSend(y, r, users, at, at').st;
      && t.db.messages == first.st.db.messages
      && !Listed(t.db.messages, SecondMessage(y, r, users, at, at').serverId)
  {
    var first := FirstDone(y, r, users, at);
    var i := AfterFirst(y, r, users, at, cfg);
    MillisMonotone(y.clock, at'.id);
    TakenRejects(first, SecondMessage(y, r, users, at, at'), users, at', i);
  }

  /** The first send's row is in the table, under the client key that the second one wants. */
  lemma AfterFirst(y: System, r: Send, users: seq<string>, at: Times, cfg: Config) returns (i: nat)
    requires SysInv(y, cfg) && Later(y, at) && SendOutcome(y, r, at).Saved? && y.st.persistent
    ensures var first := FirstDone(y, r, users, at); var t := first.st.db.messages;
      && IdsKnown(first) && RowsOk(first.st.db) && first.boot == y.boot <= Millis(y.clock)
      && i < |t| && ClientKey(t[i]) == ClientKey(SendOutcome(y, r, at).m)
  {
    var m := SendOutcome(y, r, at).m;
    SendKeeps(y, r, users, at, cfg);
    SavedOnRecord(y, r, users, at, cfg);
    var t := FirstDone(y, r, users, at).st.db.messages;
    var j :| 0 <= j < |t| && Is(t[j], m.sender, m.clientId, m.serverId, m.seqNo);
    i := j;
  }

  lemma TakenRejects(y: System, m: Message, users: seq<string>, at: Times, i: nat)
    requires IdsKnown(y) && RowsOk(y.st.db) && m.serverId == ServerId("s", Millis(at.id), y.counter + 1)
    requires y.boot <= Millis(at.id) && i < |y.st.db.messages| && ClientKey(y.st.db.messages[i]) == ClientKey(m)
    ensures Storing(y, m, users, at).st.db.messages == y.st.db.messages
    ensures !Listed(y.st.db.messages, m.serverId)
  {
    NeverGiven(y, "s", Millis(at.id));
    IdNotEmpty("s", Millis(at.id), y.counter + 1);
    SaveEffect(NextSeq(y.st, m.chatId), m, users, at.row);
  }

  /** So until the next restart a replay is answered with the second id, which is not in the
      table, and after it with the first. */
  lemma RaceReplays(y: System, r: Send, users: seq<string>, at: Times, at': Times, again: Send, late: Times,
                    cfg: Config)
    requires SysInv(y, cfg) && Race(y, r, at, at') && y.st.persistent
    requires again.sender == r.sender && again.EffectiveClientId(late.first) == r.EffectiveClientId(at.first)
    ensures var a, b := SendOutcome(y, r, at).m, SecondMessage(y, r, users, at, at');
      var stale := StaleSend(y, r, users, at, at');
      && a.serverId != b.serverId
      && SendOutcome(stale, again, late) == Existing(b)
      && SendOutcome(stale.(st := CrashState(stale.st)), again, late).Existing?
      && SendOutcome(stale.(st := CrashState(stale.st)), again, late).m.serverId == a.serverId
  {
    var first, stale := FirstDone(y, r, users, at), StaleSend(y, r, users, at, at');
    var a, b := SendOutcome(y, r, at).m, SecondMessage(y, r, users, at, at');
    RaceIds(y, r, users, at, at', cfg);
    RaceRejectedByTable(y, r, users, at, at', cfg);
    SendKeeps(y, r, users, at, cfg);
    SavedOnRecord(y, r, users, at, cfg);
    TrimBlank(r.sender);
    StaleCached(first, b, users, at');
    CrashedRecord(first.st, stale.st, a.sender, a.clientId, a.serverId, a.seqNo);
  }

  lemma StaleCached(y: System, b: Message, users: seq<string>, at: Times)
    requires RowsOk(y.st.db) && b.serverId != "" && Keyed(b)
    ensures ByClientAnswer(Storing(y, b, users, at).st, b.sender, b.clientId) == Some(b)
    ensures Storing(y, b, users, at).st.persistent == y.st.persistent
  {
    SaveEffect(NextSeq(y.st, b.chatId), b, users, at.row);
  }

  /** A record in the table is found after a restart, whatever memory held. */
  lemma CrashedRecord(s: State, t: State, sender: string, clientId: string, id: string, n: nat)
    requires MessagesOk(s) && OnRecord(s, sender, clientId, id, n) && sender != "" && clientId != "" && s.persistent
    requires t.persistent && t.db.messages == s.db.messages
    ensures var a := ByClientAnswer(CrashState(t), sender, clientId); a.Some? && a.value.serverId == id
  {
    var c := CrashState(t);
    assert OnRecord(c, sender, clientId, id, n);
    RecordFound(c, sender, clientId, id, n);
  }

  // ------------------------------------------------------------------- system events

  /** A system event reaches the message table exactly when no earlier one has: they all share
      the sender and the empty client id. */
  lemma EventStoredOnlyOnce(y: System, body: string, users: seq<string>, at: Times, cfg: Config)
    requires SysInv(y, cfg) && Later(y, at) && y.st.persistent
    ensures Listed(Broadcast(y, body, users, at).st.db.messages, EventMessage(y, body, at).serverId)
            <==> forall i :: 0 <= i < |y.st.db.messages| ==> ClientKey(y.st.db.messages[i]) != Key("system", "")
  {
    var m := EventMessage(y, body, at);
    EventStorable(y, body, at);
    SaveEffect(NextSeq(y.st, m.chatId), m, users, at.row);
    var t := y.st.db.messages;
    if y.st.db.Conflicts(Stored(m, at.row)) {
      var i :| 0 <= i < |t|
          && (t[i].serverId == m.serverId || (t[i].sender == m.sender && t[i].clientId == m.clientId));
      assert ClientKey(t[i]) == Key("system", "");
    } else {
      assert (t + [Stored(m, at.row)])[|t|].serverId == m.serverId;
      forall i | 0 <= i < |t| ensures ClientKey(t[i]) != Key("system", "") {
      }
    }
  }

  /** An event that is not in the table is given up after a restart: the first look-up finds
      nothing and marks every recipient still waiting for it dead. */
  lemma UnlistedEventGivenUp(s: State, id: string, k: Key, cfg: Config)
    requires Inv(s, cfg) && s.persistent && id != "" && !Listed(s.db.messages, id)
    requires k in s.db.rows && k.outer == id
    ensures ByServerAnswer(CrashState(s), id).None?
    ensures k in GetByServer(CrashState(s), id).db.rows
    ensures GetByServer(CrashState(s), id).db.rows[k].status != PENDING
  {
    forall m | m in s.db.messages ensures m.serverId != id {
      var i :| 0 <= i < |s.db.messages| && s.db.messages[i] == m;
    }
  }
}
