/** The service invariant, and what it means for senders: unique messages, faithful replays
    across restarts, and sequence numbers that never repeat. */
module Sending {
  import opened Basics
  import opened Text
  import opened Records
  import opened StoreSpec
  import opened StoreInvariants
  import opened Logic

  lemma TrimBlank(s: string)
    ensures !Blank(s) ==> s != ""
  {
  }

  lemma ChatNotEmpty(r: Send)
    ensures r.EffectiveChat() != ""
  {
    if TrimSpace(r.chatId) == "" && r.recipient != "" {
      ChatKeyParts(r.sender, r.recipient);
    }
  }

  lemma IdNotEmpty(p: string, m: nat, c: nat)
    ensures ServerId(p, m, c) != ""
  {
  }

  // -------------------------------------------------------------- saving one message

  lemma SaveEffect(s: State, m: Message, users: seq<string>, now: nat)
    requires RowsOk(s.db) && m.serverId != ""
    ensures var t := SaveMessage(s, m, users, now);
      && t.persistent == s.persistent && t.nextSeq == s.nextSeq
      && t.messages == s.messages[m.serverId := m]
      && t.byClient == (if Keyed(m) then s.byClient[ClientKey(m) := m] else s.byClient)
      && t.db.messages == (if s.persistent && !s.db.Conflicts(Stored(m, now)) then s.db.messages + [Stored(m, now)]
                           else s.db.messages)
  {
    if s.persistent { InsertRowsOk(s.db.InsertMessage(Stored(m, now)), m.serverId, users); }
    EnsureEntriesAdds(CacheMessage(SaveTables(s, m, users, now), m), m.serverId, users);
  }

  lemma {:induction false} InsertRowsKeys(db: Tables, id: string, users: seq<string>)
    ensures forall k :: k in db.InsertRows(id, users).rows ==> k in db.rows || k.outer == id
    ensures forall u :: u in users && u != "" && Key(id, u) !in db.rows ==>
              Key(id, u) in db.InsertRows(id, users).rows && db.InsertRows(id, users).rows[Key(id, u)] == FRESH_ROW
    ensures forall k :: k in db.rows ==>
              k in db.InsertRows(id, users).rows && db.InsertRows(id, users).rows[k] == db.rows[k]
    decreases |users|
  {
    if users != [] {
      var next := if users[0] == "" then db else db.InsertRow(Key(id, users[0]));
      InsertRowsKeys(next, id, users[1..]);
    }
  }

  lemma SaveKeys(s: State, m: Message, users: seq<string>, now: nat)
    requires m.serverId != ""
    ensures var t := SaveMessage(s, m, users, now);
      && (forall k :: k in t.entries ==> k in s.entries || k.outer == m.serverId)
      && (forall k :: k in t.db.rows ==> k in s.db.rows || k.outer == m.serverId)
  {
    if s.persistent { InsertRowsKeys(s.db.InsertMessage(Stored(m, now)), m.serverId, users); }
    EnsureEntriesAdds(CacheMessage(SaveTables(s, m, users, now), m), m.serverId, users);
  }

  lemma TableAppend(t: seq<Message>, m: Message)
    requires TableOk(t)
    requires forall i :: 0 <= i < |t| ==> t[i].serverId != m.serverId && ClientKey(t[i]) != ClientKey(m)
    requires forall i :: 0 <= i < |t| && t[i].chatId == m.chatId ==> t[i].seqNo < m.seqNo
    ensures TableOk(t + [m])
  {
  }

  lemma MirrorAppend(ms: map<string, Message>, t: seq<Message>, m: Message, d: Message)
    requires Mirrored(ms, t) && m.serverId !in ms && Core(d) == Core(m)
    requires forall i :: 0 <= i < |t| ==> t[i].serverId != m.serverId
    requires forall id :: id in ms ==> ms[id].serverId == id
    ensures Mirrored(ms[m.serverId := m], t + [d])
  {
    var ms', t' := ms[m.serverId := m], t + [d];
    forall id | id in ms' && Keyed(ms'[id])
      ensures InTable(t', ms'[id])
    {
      if id == m.serverId {
        assert Core(t'[|t|]) == Core(m);
      } else {
        var i :| 0 <= i < |t| && Core(t[i]) == Core(ms[id]);
        assert t'[i] == t[i];
      }
    }
    forall id, i | id in ms' && 0 <= i < |t'| && t'[i].serverId == id
      ensures Core(t'[i]) == Core(ms'[id])
    {
      if i == |t| { assert Core(d).serverId == m.serverId; }
    }
  }

  lemma MirrorUnlisted(ms: map<string, Message>, t: seq<Message>, m: Message)
    requires Mirrored(ms, t) && m.serverId !in ms && !Keyed(m)
    requires forall i :: 0 <= i < |t| ==> t[i].serverId != m.serverId
    ensures Mirrored(ms[m.serverId := m], t)
  {
  }

  /** The number handed out is above every number the table holds for the chat. */
  lemma NextSeqAbove(s: State, chat: string)
    requires s.persistent && NumbersAhead(s.nextSeq, s.db.messages)
    ensures forall i :: 0 <= i < |s.db.messages| && s.db.messages[i].chatId == ChatOr(chat)
              ==> s.db.messages[i].seqNo < NextSeqNo(s, chat)
    ensures NumbersAhead(NextSeq(s, chat).nextSeq, s.db.messages)
  {
    MaxSeqExact(s.db.messages, ChatOr(chat));
  }

  /** The number after a number is its successor, and numbers of other chats are not affected. An
      empty chat counts as "default". */
  lemma NumberAfterNumber(s: State, chat: string, other: string)
    ensures NextSeqNo(s, "") == NextSeqNo(s, "default")
    ensures NextSeqNo(NextSeq(s, chat), chat) == NextSeqNo(s, chat) + 1
    ensures chat != "" && other != "" && other != chat ==> NextSeqNo(NextSeq(s, chat), other) == NextSeqNo(s, other)
  {
  }

  /** After a restart a chat goes on with the successor of its greatest stored number, or with 1. */
  lemma NumberAfterRestart(s: State, chat: string)
    requires s.persistent && chat != ""
    ensures forall m :: m in s.db.messages && m.chatId == chat ==> m.seqNo < NextSeqNo(CrashState(s), chat)
    ensures NextSeqNo(CrashState(s), chat) == 1
            || exists m :: m in s.db.messages && m.chatId == chat && m.seqNo + 1 == NextSeqNo(CrashState(s), chat)
  {
    MaxSeqExact(s.db.messages, chat);
    if MaxSeq(s.db.messages, chat) != 0 {
      var i :| 0 <= i < |s.db.messages| && s.db.messages[i].chatId == chat
          && s.db.messages[i].seqNo == MaxSeq(s.db.messages, chat);
      assert s.db.messages[i] in s.db.messages;
    }
  }

  /** A message with a new id, a new client key if it has one, and the next number of its chat. */
  ghost predicate Storable(s: State, m: Message) {
    && m.serverId != "" && m.serverId !in s.messages
    && (forall i :: 0 <= i < |s.db.messages| ==> s.db.messages[i].serverId != m.serverId)
    && (Keyed(m) ==> ClientKey(m) !in s.byClient)
    && (Keyed(m) ==> forall i :: 0 <= i < |s.db.messages| ==> ClientKey(s.db.messages[i]) != ClientKey(m))
    && m.chatId != "" && m.seqNo == NextSeqNo(s, m.chatId)
    && m.sender != ""
  }

  lemma StoreKeepsMessages(s: State, m: Message, users: seq<string>, now: nat)
    requires RowsOk(s.db) && MessagesOk(s) && Storable(s, m)
    ensures MessagesOk(SaveMessage(NextSeq(s, m.chatId), m, users, now))
    ensures s.persistent && Keyed(m) ==>
              SaveMessage(NextSeq(s, m.chatId), m, users, now).db.messages == s.db.messages + [Stored(m, now)]
  {
    var n := NextSeq(s, m.chatId);
    SaveEffect(n, m, users, now);
    IndexAdd(s.messages, s.byClient, m);
    if s.persistent {
      StoreKeepsTable(s, m, now);
    } else {
      NumberedAdd(s.nextSeq, s.messages, m);
    }
  }

  lemma StoreKeepsTable(s: State, m: Message, now: nat)
    requires s.persistent && MessagesOk(s) && Storable(s, m)
    ensures var d := Stored(m, now);
      var t := if s.db.Conflicts(d) then s.db.messages else s.db.messages + [d];
      && TableOk(t) && Mirrored(s.messages[m.serverId := m], t)
      && NumbersAhead(NextSeq(s, m.chatId).nextSeq, t)
      && (Keyed(m) ==> !s.db.Conflicts(d))
  {
    var d := Stored(m, now);
    NextSeqAbove(s, m.chatId);
    if s.db.Conflicts(d) {
      MirrorUnlisted(s.messages, s.db.messages, m);
    } else {
      TableAppend(s.db.messages, d);
      MirrorAppend(s.messages, s.db.messages, m, d);
    }
  }

  lemma StoreKeepsIds(y: System, z: System, m: Message, users: seq<string>, now: nat)
    requires IdsKnown(y) && RowsOk(y.st.db) && m.serverId != "" && Known(z, m.serverId)
    requires z.boot == y.boot && z.counter >= y.counter && z.clock >= y.clock
    requires z.st == SaveMessage(NextSeq(y.st, m.chatId), m, users, now)
    ensures IdsKnown(z)
  {
    var n := NextSeq(y.st, m.chatId);
    SaveEffect(n, m, users, now);
    SaveKeys(n, m, users, now);
    MillisMonotone(y.clock, z.clock);
    forall id | Known(y, id) ensures Known(z, id) { KnownStays(y, z, id); }
  }

  // ----------------------------------------------------------------- reading through

  lemma CacheRow(s: State, i: nat)
    requires s.persistent && MessagesOk(s) && i < |s.db.messages|
    requires || s.db.messages[i].serverId !in s.messages
             || (Keyed(s.db.messages[i]) && ClientKey(s.db.messages[i]) !in s.byClient)
    ensures MessagesOk(CacheMessage(s, s.db.messages[i]))
  {
    var d := s.db.messages[i];
    var u := if d.serverId in s.messages then s.messages[d.serverId] else d;
    assert Core(u) == Core(d);
    assert ClientKey(u) == ClientKey(d) && (Keyed(u) <==> Keyed(d));
    if Keyed(d) && ClientKey(d) in s.byClient { ClientKeyTaken(s, i); }
    IndexAdd(s.messages, s.byClient, d);
    CacheKeepsMirror(s.messages, s.db.messages, i);
  }

  /** A row whose client key memory knows is itself in memory. */
  lemma ClientKeyTaken(s: State, i: nat)
    requires s.persistent && MessagesOk(s) && i < |s.db.messages|
    requires Keyed(s.db.messages[i]) && ClientKey(s.db.messages[i]) in s.byClient
    ensures s.byClient[ClientKey(s.db.messages[i])].serverId == s.db.messages[i].serverId
    ensures Core(s.byClient[ClientKey(s.db.messages[i])]) == Core(s.db.messages[i])
    ensures s.db.messages[i].serverId in s.messages
  {
    var m := s.byClient[ClientKey(s.db.messages[i])];
    assert s.messages[m.serverId] == m && InTable(s.db.messages, m);
    var j :| 0 <= j < |s.db.messages| && Core(s.db.messages[j]) == Core(m);
    SameClientKey(s.db.messages, i, j);
  }

  lemma SameClientKey(t: seq<Message>, i: nat, j: nat)
    requires TableOk(t) && i < |t| && j < |t|
    ensures ClientKey(t[i]) == ClientKey(t[j]) ==> i == j
    ensures t[i].serverId == t[j].serverId ==> i == j
  {
  }

  lemma CacheKeepsMirror(ms: map<string, Message>, t: seq<Message>, i: nat)
    requires Mirrored(ms, t) && TableOk(t) && i < |t|
    ensures Mirrored(ms[t[i].serverId := t[i]], t)
  {
    var ms' := ms[t[i].serverId := t[i]];
    forall id | id in ms' && Keyed(ms'[id]) ensures InTable(t, ms'[id]) {
      if id == t[i].serverId { assert Core(t[i]) == Core(ms'[id]); }
    }
    forall id, j | id in ms' && 0 <= j < |t| && t[j].serverId == id
      ensures Core(t[j]) == Core(ms'[id])
    {
      if id == t[i].serverId { SameClientKey(t, i, j); }
    }
  }

  lemma GetByClientMessages(s: State, sender: string, clientId: string)
    requires MessagesOk(s)
    ensures MessagesOk(GetByClient(s, sender, clientId))
  {
    var a := ByClientAnswer(s, sender, clientId);
    if a.Some? && Key(sender, clientId) !in s.byClient {
      var i :| 0 <= i < |s.db.messages| && s.db.messages[i] == a.value;
      CacheRow(s, i);
    }
  }

  lemma GetByServerMessages(s: State, id: string)
    requires MessagesOk(s)
    ensures MessagesOk(GetByServer(s, id))
  {
    var a := ByServerAnswer(s, id);
    if id !in s.messages && s.persistent && id != "" && a.Some? {
      var i :| 0 <= i < |s.db.messages| && s.db.messages[i] == a.value;
      CacheRow(s, i);
    }
  }

  // ------------------------------------------------------------- internal store calls

  /** Calls other than look-ups leave the messages alone and name no new id. */
  ghost predicate Inward(s: State, t: State) {
    && t.persistent == s.persistent && t.nextSeq == s.nextSeq
    && t.messages == s.messages && t.byClient == s.byClient && t.db.messages == s.db.messages
    && (forall k :: k in t.entries ==> k in s.entries || (s.persistent && k in s.db.rows))
    && (forall k :: k in t.db.rows <==> k in s.db.rows)
  }

  lemma MarkInward(s: State, c: Call, cfg: Config)
    requires IsMark(c)
    ensures Inward(s, Step(s, c, cfg))
  {
    match c
    case CallMarkSent(k, err, now) => MarkSentEffect(s, k, err, now);
    case CallMarkAcked(k, now) => MarkAckedEffect(s, k, now);
    case CallMarkRead(k, now) => MarkReadEffect(s, k, now);
    case CallScheduleRetry(k, err, now) => ScheduleRetryEffect(s, k, err, cfg, now);
  }

  lemma LoadInward(s: State, c: Call, cfg: Config)
    requires RowsOk(s.db) && StoreInvariants.Enabled(s, c) && IsLoad(c)
    ensures Inward(s, Step(s, c, cfg))
  {
    if s.persistent {
      PendingInExact(s.db, s.db.order);
      if c.CallListPending? { KeysOfUserExact(s.db.PendingKeys(), c.user); }
      LoadAdds(s, Loads(s, c));
    }
  }

  lemma RecipientsInward(s: State, id: string)
    requires RowsOk(s.db)
    ensures Inward(s, GetRecipients(s, id))
  {
    var ks := s.db.PendingKeys();
    PendingInExact(s.db, s.db.order);
    UsersOfExact(ks, id);
    EnsureEntriesAdds(s, id, UsersOf(ks, id));
  }

  /** A look-up can only bring a table message into memory. */
  ghost predicate Lookup(s: State, t: State) {
    && t.persistent == s.persistent && t.entries == s.entries && t.nextSeq == s.nextSeq
    && t.db.messages == s.db.messages
    && (forall k :: k in t.db.rows <==> k in s.db.rows)
    && (forall id :: id in t.messages ==> id in s.messages || Listed(s.db.messages, id))
  }

  ghost predicate Listed(t: seq<Message>, id: string) {
    exists i :: 0 <= i < |t| && t[i].serverId == id
  }

  lemma ByClientLookup(s: State, sender: string, clientId: string)
    requires forall k :: k in s.byClient ==> s.byClient[k].serverId in s.messages
    ensures Lookup(s, GetByClient(s, sender, clientId))
  {
    var a := ByClientAnswer(s, sender, clientId);
    if a.Some? && Key(sender, clientId) !in s.byClient {
      var i :| 0 <= i < |s.db.messages| && s.db.messages[i] == a.value;
      assert Listed(s.db.messages, a.value.serverId);
    }
  }

  lemma ByServerLookup(s: State, id: string)
    ensures Lookup(s, GetByServer(s, id))
  {
    var a := ByServerAnswer(s, id);
    if id !in s.messages && a.Some? {
      var i :| 0 <= i < |s.db.messages| && s.db.messages[i] == a.value;
      assert Listed(s.db.messages, a.value.serverId);
    }
  }

  lemma InwardKeepsMessages(s: State, t: State)
    requires MessagesOk(s) && Inward(s, t)
    ensures MessagesOk(t)
  {
  }

  lemma InternalEffect(s: State, c: Call, cfg: Config)
    requires RowsOk(s.db) && MessagesOk(s) && Internal(c) && StoreInvariants.Enabled(s, c)
    ensures Inward(s, Step(s, c, cfg)) || Lookup(s, Step(s, c, cfg))
    ensures !c.CallGetByClient? && !c.CallGetByServer? ==> Inward(s, Step(s, c, cfg))
  {
    if c.CallGetByClient? {
      ByClientLookup(s, c.sender, c.clientId);
    } else if c.CallGetByServer? {
      ByServerLookup(s, c.id);
    } else if IsMark(c) {
      MarkInward(s, c, cfg);
    } else if IsLoad(c) {
      LoadInward(s, c, cfg);
    } else {
      RecipientsInward(s, c.id);
    }
  }

  lemma OtherCallKeepsMessages(s: State, c: Call, cfg: Config)
    requires RowsOk(s.db) && MessagesOk(s) && Internal(c) && StoreInvariants.Enabled(s, c)
    requires !c.CallGetByClient? && !c.CallGetByServer?
    ensures MessagesOk(Step(s, c, cfg))
  {
    InternalEffect(s, c, cfg);
    InwardKeepsMessages(s, Step(s, c, cfg));
  }

  lemma ByClientKeepsMessages(s: State, sender: string, clientId: string, t: State)
    requires MessagesOk(s) && t == GetByClient(s, sender, clientId)
    ensures MessagesOk(t)
  {
    GetByClientMessages(s, sender, clientId);
  }

  lemma ByServerKeepsMessages(s: State, id: string, t: State)
    requires MessagesOk(s) && t == GetByServer(s, id)
    ensures MessagesOk(t)
  {
    GetByServerMessages(s, id);
  }

  lemma CallKeepsMessages(s: State, c: Call, cfg: Config)
    requires RowsOk(s.db) && MessagesOk(s) && Internal(c) && StoreInvariants.Enabled(s, c)
    ensures MessagesOk(Step(s, c, cfg))
  {
    if c.CallGetByClient? {
      ByClientKeepsMessages(s, c.sender, c.clientId, Step(s, c, cfg));
    } else if c.CallGetByServer? {
      ByServerKeepsMessages(s, c.id, Step(s, c, cfg));
    } else {
      OtherCallKeepsMessages(s, c, cfg);
    }
  }

  lemma CallKeepsIds(y: System, t: State, now: nat)
    requires IdsKnown(y) && now >= y.clock && (Inward(y.st, t) || Lookup(y.st, t))
    ensures IdsKnown(y.(st := t, clock := now))
  {
    var z := y.(st := t, clock := now);
    MillisMonotone(y.clock, now);
    forall id | Known(y, id) ensures Known(z, id) { KnownStays(y, z, id); }
  }

  // ----------------------------------------------------------------- every transition

  lemma SendStorable(y: System, r: Send, at: Times, cfg: Config)
    requires SysInv(y, cfg) && Later(y, at) && SendOutcome(y, r, at).Saved?
    ensures Storable(y.st, SendOutcome(y, r, at).m) && Keyed(SendOutcome(y, r, at).m)
    ensures !Known(y, SendOutcome(y, r, at).m.serverId)
    ensures Known(y.(counter := y.counter + 1, clock := at.row), SendOutcome(y, r, at).m.serverId)
  {
    var m := SendOutcome(y, r, at).m;
    TrimBlank(r.sender);
    TrimBlank(r.clientId);
    ChatNotEmpty(r);
    IdNotEmpty("s", Millis(at.id), y.counter + 1);
    FreshId(y, "s", at);
    ClientKeyFree(y.st, m);
  }

  /** A client key that the look-up does not know is in neither memory nor the table. */
  lemma ClientKeyFree(s: State, m: Message)
    requires Keyed(m) && ByClientAnswer(s, m.sender, m.clientId).None? && (!s.persistent ==> s.db.messages == [])
    ensures ClientKey(m) !in s.byClient
    ensures forall i :: 0 <= i < |s.db.messages| ==> ClientKey(s.db.messages[i]) != ClientKey(m)
  {
    forall i | 0 <= i < |s.db.messages|
      ensures ClientKey(s.db.messages[i]) != ClientKey(m)
    {
      assert s.db.messages[i] in s.db.messages;
    }
  }

  lemma EventStorable(y: System, body: string, at: Times)
    requires IdsKnown(y) && Later(y, at)
    ensures Storable(y.st, EventMessage(y, body, at))
    ensures !Known(y, EventMessage(y, body, at).serverId)
    ensures Known(y.(counter := y.counter + 1, clock := at.row), EventMessage(y, body, at).serverId)
  {
    IdNotEmpty("sys", Millis(at.id), y.counter + 1);
    FreshId(y, "sys", at);
  }

  lemma StoreKeeps(y: System, m: Message, users: seq<string>, at: Times, cfg: Config)
    requires SysInv(y, cfg) && Later(y, at) && Storable(y.st, m)
    requires Known(y.(counter := y.counter + 1, clock := at.row), m.serverId)
    ensures SysInv(Storing(y, m, users, at), cfg) && Storing(y, m, users, at).st.persistent == y.st.persistent
  {
    var z := Storing(y, m, users, at);
    var y1 := y.(counter := y.counter + 1, clock := at.row);
    var p: string, a: nat, c: nat :| KnownAs(y1, m.serverId, p, a, c);
    assert KnownAs(z, m.serverId, p, a, c);
    StoreKeepsMessages(y.st, m, users, at.row);
    StoreKeepsIds(y, z, m, users, at.row);
    CacheKeeps(y.st, NextSeq(y.st, m.chatId), cfg);
    SaveMessageKeeps(NextSeq(y.st, m.chatId), m, users, at.row, cfg);
  }

  lemma TimePasses(y: System, now: nat, cfg: Config)
    requires SysInv(y, cfg) && now >= y.clock
    ensures SysInv(y.(clock := now), cfg)
  {
    var z := y.(clock := now);
    MillisMonotone(y.clock, now);
    forall id | Known(y, id) ensures Known(z, id) { KnownStays(y, z, id); }
  }

  lemma RestartKeeps(y: System, now: nat, cfg: Config)
    requires SysInv(y, cfg) && now >= y.clock && y.st.persistent && Millis(now) > Millis(y.clock)
    ensures SysInv(System(CrashState(y.st), 0, now, Millis(now)), cfg)
  {
    var z := System(CrashState(y.st), 0, now, Millis(now));
    CrashKeeps(y.st, cfg);
    forall id | Known(y, id) ensures Known(z, id) { KnownStays(y, z, id); }
  }

  lemma CallStepKeeps(y: System, c: Call, now: nat, cfg: Config)
    requires SysInv(y, cfg) && now >= y.clock && Internal(c) && StoreInvariants.Enabled(y.st, c)
    ensures SysInv(y.(st := Step(y.st, c, cfg), clock := now), cfg)
    ensures Step(y.st, c, cfg).persistent == y.st.persistent
  {
    StepKeeps(y.st, c, cfg);
    InternalEffect(y.st, c, cfg);
    CallKeepsMessages(y.st, c, cfg);
    CallKeepsIds(y, Step(y.st, c, cfg), now);
  }

  lemma SendKeeps(y: System, r: Send, users: seq<string>, at: Times, cfg: Config)
    requires SysInv(y, cfg) && Later(y, at)
    ensures SysInv(ProcessSend(y, r, users, at), cfg) && ProcessSend(y, r, users, at).st.persistent == y.st.persistent
  {
    match SendOutcome(y, r, at)
    case Rejected => TimePasses(y, at.row, cfg);
    case Existing(m) => ReplayKeeps(y, r, m, users, at, cfg);
    case Saved(m) => SavedSendKeeps(y, r, m, users, at, cfg);
  }

  lemma ReplayKeeps(y: System, r: Send, m: Message, users: seq<string>, at: Times, cfg: Config)
    requires SysInv(y, cfg) && Later(y, at) && SendOutcome(y, r, at) == Existing(m)
    ensures SysInv(ProcessSend(y, r, users, at), cfg) && ProcessSend(y, r, users, at).st.persistent == y.st.persistent
  {
    CallStepKeeps(y, CallGetByClient(r.sender, r.EffectiveClientId(at.first)), at.row, cfg);
  }

  lemma SavedSendKeeps(y: System, r: Send, m: Message, users: seq<string>, at: Times, cfg: Config)
    requires SysInv(y, cfg) && Later(y, at) && SendOutcome(y, r, at) == Saved(m)
    ensures SysInv(ProcessSend(y, r, users, at), cfg) && ProcessSend(y, r, users, at).st.persistent == y.st.persistent
  {
    SendStorable(y, r, at, cfg);
    StoreKeeps(y, m, users, at, cfg);
  }

  lemma BroadcastKeeps(y: System, body: string, users: seq<string>, at: Times, cfg: Config)
    requires SysInv(y, cfg) && Later(y, at)
    ensures SysInv(Broadcast(y, body, users, at), cfg) && Broadcast(y, body, users, at).st.persistent == y.st.persistent
  {
    var m := EventMessage(y, body, at);
    EventStorable(y, body, at);
    StoreKeeps(y, m, users, at, cfg);
  }

  /** Every transition keeps the service invariant. */
  lemma NextKeeps(y: System, a: Action, cfg: Config)
    requires SysInv(y, cfg) && Allowed(y, a)
    ensures SysInv(Next(y, a, cfg), cfg) && Next(y, a, cfg).st.persistent == y.st.persistent
  {
    match a
    case DoSend(r, users, at) => SendKeeps(y, r, users, at, cfg);
    case DoBroadcast(body, users, at) => BroadcastKeeps(y, body, users, at, cfg);
    case DoCall(c, now) => CallStepKeeps(y, c, now, cfg);
    case DoRestart(now) => RestartKeeps(y, now, cfg);
  }

  lemma StartOk(persistent: bool, now: nat, cfg: Config)
    ensures SysInv(InitSystem(persistent, now), cfg)
  {
  }

  /** Over every run, restarts included. */
  lemma {:induction false} RunKeepsAll(y: System, acts: seq<Action>, z: System, cfg: Config)
    requires SysInv(y, cfg) && Leads(y, acts, z, cfg)
    ensures SysInv(z, cfg) && z.st.persistent == y.st.persistent
    decreases |acts|
  {
    if acts != [] {
      NextKeeps(y, acts[0], cfg);
      RunKeepsAll(Next(y, acts[0], cfg), acts[1..], z, cfg);
    }
  }
}
