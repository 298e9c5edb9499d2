/** What is on record of a message and what recipients and histories get to see of it, in terms of
    the request that was sent. */
module Content {
  import opened Basics
  import opened Text
  import opened Records
  import opened StoreSpec
  import opened StoreInvariants
  import opened Rounds
  import opened Delivery
  import opened Logic
  import opened Sending
  import Replay
  import Ledger
  import History

  // ------------------------------------------------------------ the content of a request

  /** The chat of a request: the one it names, else that of the two users, else that of everybody. */
  ghost predicate InChat(chat: string, r: Send) {
    if !Blank(r.chatId) then chat == TrimSpace(r.chatId)
    else if r.recipient != "" then chat == C2CChatId(r.sender, r.recipient)
    else chat == "broadcast"
  }

  /** `m` is the message of the request `r`, with this time stamp. */
  ghost predicate Carries(m: Message, r: Send, id: string, n: nat, at: Times, stamp: nat) {
    && m.serverId == id && m.seqNo == n && m.status == PENDING
    && m.sender == r.sender && m.recipient == r.recipient && m.body == r.body && InChat(m.chatId, r)
    && m.clientId == (if Blank(r.clientId) then "c-" + Dec(at.first) else r.clientId)
    && m.ts == stamp / SECOND
  }

  /** `m` is a system event with this text. */
  ghost predicate Announces(m: Message, body: string, id: string, stamp: nat) {
    && m.serverId == id && m.status == PENDING && m.sender == "system" && m.chatId == "system"
    && m.recipient == "" && m.clientId == "" && m.body == body && m.ts == stamp / SECOND
  }

  /** The look-up of a send finds a message exactly when one of the sender is under the client id, in
      memory or in the table. */
  lemma FoundExactly(s: State, sender: string, id: string)
    requires MessagesOk(s) && sender != "" && id != ""
    ensures ByClientAnswer(s, sender, id).Some?
      <==> || (exists i :: i in s.messages && s.messages[i].sender == sender && s.messages[i].clientId == id)
           || (s.persistent && exists m :: m in s.db.messages && m.sender == sender && m.clientId == id)
  {
    if Key(sender, id) in s.byClient {
      var m := s.byClient[Key(sender, id)];
      assert s.messages[m.serverId] == m;
    }
  }

  lemma NewCarries(y: System, r: Send, at: Times)
    ensures var m := NewMessage(y, r, at);
      Carries(m, r, ServerId("s", at.id / MILLISECOND, y.counter + 1), NextSeqNo(y.st, m.chatId), at, at.stamp)
  {
  }

  /** The answer to a send: refused without a sender, the earlier message when there is one under the
      sender and client id, and otherwise a new one, with the content of the request, the next id and
      the next number of its chat. */
  lemma OutcomeExactly(y: System, r: Send, at: Times, cfg: Config)
    requires SysInv(y, cfg)
    ensures SendOutcome(y, r, at).Rejected? <==> Blank(r.sender)
    ensures var id := if Blank(r.clientId) then "c-" + Dec(at.first) else r.clientId;
      !Blank(r.sender) ==>
        (SendOutcome(y, r, at).Existing?
         <==> || (exists i :: i in y.st.messages && y.st.messages[i].sender == r.sender
                              && y.st.messages[i].clientId == id)
              || (y.st.persistent && exists m :: m in y.st.db.messages && m.sender == r.sender && m.clientId == id))
    ensures SendOutcome(y, r, at).Saved? ==>
      Carries(SendOutcome(y, r, at).m, r, ServerId("s", at.id / MILLISECOND, y.counter + 1),
              NextSeqNo(y.st, SendOutcome(y, r, at).m.chatId), at, at.stamp)
  {
    TrimBlank(r.sender);
    TrimBlank(r.clientId);
    if !Blank(r.sender) { FoundExactly(y.st, r.sender, r.EffectiveClientId(at.first)); }
    NewCarries(y, r, at);
  }

  /** Two sends that name no client id, at different readings of the clock, are different sends. */
  lemma UnnamedSendsDiffer(r: Send, q: Send, at: Times, at': Times)
    requires Blank(r.clientId) && Blank(q.clientId)
    ensures r.EffectiveClientId(at.first) == q.EffectiveClientId(at'.first) <==> at.first == at'.first
  {
    var s, t := "c-" + Dec(at.first), "c-" + Dec(at'.first);
    assert s[2..] == Dec(at.first) && t[2..] == Dec(at'.first);
    if s == t { DecInjective(at.first, at'.first); }
  }

  // ------------------------------------------------------- a message on record stays as it is

  /** What the table shows of a message saved at `row`. */
  function AsRow(m: Message, row: nat): Message { m.(ts := row / SECOND, status := PENDING) }

  /** The message is in memory, and its row in the table if it is `listed`. */
  ghost predicate OnRecord(s: State, m: Message, row: nat, listed: bool) {
    && m.serverId in s.messages && s.messages[m.serverId] == m
    && (listed ==> s.persistent && AsRow(m, row) in s.db.messages)
  }

  /** The row is in the table, and memory has it as it is there or not at all. */
  ghost predicate FromTable(s: State, d: Message) {
    && s.persistent && d in s.db.messages
    && (d.serverId in s.messages ==> s.messages[d.serverId] == d)
  }

  lemma SameRow(t: seq<Message>, d: Message, e: Message)
    requires TableOk(t) && d in t && e in t && d.serverId == e.serverId
    ensures d == e
  {
    var i :| 0 <= i < |t| && t[i] == d;
    var j :| 0 <= j < |t| && t[j] == e;
    SameClientKey(t, i, j);
  }

  /** A look-up that brings a row into memory: memory did not have that message. */
  lemma LookedUp(s: State, sender: string, clientId: string)
    requires MessagesOk(s)
    ensures var t, a := GetByClient(s, sender, clientId), ByClientAnswer(s, sender, clientId);
      t.messages == s.messages
      || (s.persistent && a.Some? && a.value in s.db.messages && a.value.serverId !in s.messages
          && t.messages == s.messages[a.value.serverId := a.value])
  {
    var a := ByClientAnswer(s, sender, clientId);
    if a.Some? && Key(sender, clientId) !in s.byClient { RowIsKnown(s, a.value); }
  }

  /** Memory knows the client key of every row that it has. */
  lemma RowIsKnown(s: State, d: Message)
    requires s.persistent && MessagesOk(s) && d in s.db.messages && Keyed(d)
    ensures d.serverId in s.messages ==> ClientKey(d) in s.byClient
  {
    var i :| 0 <= i < |s.db.messages| && s.db.messages[i] == d;
    if d.serverId in s.messages {
      assert Core(s.db.messages[i]) == Core(s.messages[d.serverId]);
      assert ClientKey(Core(d)) == ClientKey(Core(s.messages[d.serverId]));
    }
  }

  /** What a step other than a restart does to memory: it keeps what is there, and adds rows of the
      table or one message under a new id. */
  ghost predicate Grows(s: State, t: State) {
    && t.persistent == s.persistent
    && (s.persistent ==> s.db.messages <= t.db.messages)
    && (forall id :: id in s.messages ==> id in t.messages && t.messages[id] == s.messages[id])
    && (forall id :: id in t.messages && id !in s.messages ==>
          t.messages[id] in s.db.messages || forall d :: d in s.db.messages ==> d.serverId != id)
  }

  lemma CallGrows(s: State, c: Call, cfg: Config)
    requires RowsOk(s.db) && MessagesOk(s) && Internal(c) && StoreInvariants.Enabled(s, c)
    ensures Grows(s, Step(s, c, cfg))
  {
    if c.CallGetByClient? {
      LookUpGrows(s, c.sender, c.clientId, Step(s, c, cfg));
    } else if c.CallGetByServer? {
      ByServerGrows(s, c.id, Step(s, c, cfg));
    } else {
      InternalEffect(s, c, cfg);
    }
  }

  lemma LookUpGrows(s: State, sender: string, clientId: string, t: State)
    requires MessagesOk(s) && t == GetByClient(s, sender, clientId)
    ensures Grows(s, t)
  {
    LookedUp(s, sender, clientId);
  }

  lemma ByServerGrows(s: State, id: string, t: State)
    requires t == GetByServer(s, id)
    ensures Grows(s, t)
  {
    ByServerCaches(s, id);
  }

  lemma ByServerCaches(s: State, id: string)
    ensures var t, a := GetByServer(s, id), ByServerAnswer(s, id);
      && t.persistent == s.persistent && t.db.messages == s.db.messages
      && t.messages == (if a.Some? then s.messages[id := a.value] else s.messages)
      && (a.Some? && id !in s.messages ==> a.value in s.db.messages)
  {
    if id in s.messages { assert s.messages[id := s.messages[id]] == s.messages; }
  }

  lemma StoringGrows(y: System, m: Message, users: seq<string>, at: Times)
    requires RowsOk(y.st.db) && Storable(y.st, m)
    ensures Grows(y.st, Storing(y, m, users, at).st)
  {
    SaveEffect(NextSeq(y.st, m.chatId), m, users, at.row);
  }

  lemma NextGrows(y: System, a: Action, cfg: Config)
    requires SysInv(y, cfg) && Allowed(y, a) && !a.DoRestart?
    ensures Grows(y.st, Next(y, a, cfg).st)
  {
    match a
    case DoSend(r, users, at) =>
      match SendOutcome(y, r, at) {
        case Rejected =>
        case Existing(_) => CallGrows(y.st, CallGetByClient(r.sender, r.EffectiveClientId(at.first)), cfg);
        case Saved(m) =>
          SendStorable(y, r, at, cfg);
          StoringGrows(y, m, users, at);
      }
    case DoBroadcast(body, users, at) =>
      EventStorable(y, body, at);
      StoringGrows(y, EventMessage(y, body, at), users, at);
    case DoCall(c, now) => CallGrows(y.st, c, cfg);
  }

  lemma FromTableStep(y: System, a: Action, d: Message, cfg: Config)
    requires SysInv(y, cfg) && Allowed(y, a) && FromTable(y.st, d)
    ensures FromTable(Next(y, a, cfg).st, d)
  {
    var s, t := y.st, Next(y, a, cfg).st;
    if !a.DoRestart? {
      NextGrows(y, a, cfg);
      var i :| 0 <= i < |s.db.messages| && s.db.messages[i] == d;
      assert t.db.messages[i] == d;
      if d.serverId in t.messages && d.serverId !in s.messages {
        NextKeeps(y, a, cfg);
        assert t.messages[d.serverId].serverId == d.serverId;
        SameRow(s.db.messages, d, t.messages[d.serverId]);
      }
    }
  }

  lemma {:induction false} FromTableStays(y: System, acts: seq<Action>, z: System, d: Message, cfg: Config)
    requires SysInv(y, cfg) && Leads(y, acts, z, cfg) && FromTable(y.st, d)
    ensures FromTable(z.st, d)
    decreases |acts|
  {
    if acts != [] {
      FromTableStep(y, acts[0], d, cfg);
      NextKeeps(y, acts[0], cfg);
      FromTableStays(Next(y, acts[0], cfg), acts[1..], z, d, cfg);
    }
  }

  ghost predicate Restarts(acts: seq<Action>) { exists a :: a in acts && a.DoRestart? }

  /** Until the first restart memory has the message as it was saved. */
  lemma OnRecordStep(y: System, a: Action, m: Message, row: nat, listed: bool, cfg: Config)
    requires SysInv(y, cfg) && Allowed(y, a) && OnRecord(y.st, m, row, listed)
    ensures if a.DoRestart? then listed ==> FromTable(Next(y, a, cfg).st, AsRow(m, row))
            else OnRecord(Next(y, a, cfg).st, m, row, listed)
  {
    if !a.DoRestart? {
      NextGrows(y, a, cfg);
      if listed {
        var t := y.st.db.messages;
        var i :| 0 <= i < |t| && t[i] == AsRow(m, row);
        assert Next(y, a, cfg).st.db.messages[i] == t[i];
      }
    }
  }

  /** After any run a message on record is found by its id: as it was saved, and after a restart,
      if it is in the table, with the creation time of its row. */
  lemma {:induction false} RecordKept(y: System, acts: seq<Action>, z: System, m: Message, row: nat, listed: bool,
                                      cfg: Config)
    requires SysInv(y, cfg) && Leads(y, acts, z, cfg) && OnRecord(y.st, m, row, listed) && m.serverId != ""
    requires listed || !Restarts(acts)
    ensures ByServerAnswer(z.st, m.serverId) == Some(if Restarts(acts) then AsRow(m, row) else m)
    decreases |acts|
  {
    if acts != [] {
      var a := acts[0];
      assert a in acts && acts == [a] + acts[1..];
      OnRecordStep(y, a, m, row, listed, cfg);
      NextKeeps(y, a, cfg);
      if a.DoRestart? {
        FromTableStays(Next(y, a, cfg), acts[1..], z, AsRow(m, row), cfg);
        RunKeepsAll(Next(y, a, cfg), acts[1..], z, cfg);
        RowAnswers(z.st, AsRow(m, row));
      } else {
        RecordKept(Next(y, a, cfg), acts[1..], z, m, row, listed, cfg);
      }
    }
  }

  lemma RowAnswers(s: State, d: Message)
    requires MessagesOk(s) && FromTable(s, d) && d.serverId != ""
    ensures ByServerAnswer(s, d.serverId) == Some(d)
  {
    if d.serverId !in s.messages { SameRow(s.db.messages, d, FindByServer(s.db.messages, d.serverId).value); }
  }

  // ------------------------------------------------------------------------- sends

  lemma SavedOnRecord(y: System, r: Send, users: seq<string>, at: Times, cfg: Config)
    requires SysInv(y, cfg) && Later(y, at) && SendOutcome(y, r, at).Saved?
    ensures OnRecord(ProcessSend(y, r, users, at).st, SendOutcome(y, r, at).m, at.row, y.st.persistent)
  {
    Replay.SavedAdds(y, r, users, at, cfg);
    if y.st.persistent {
      Replay.SavedStores(y, r, users, at, cfg);
      var t := ProcessSend(y, r, users, at).st.db.messages;
      assert t[|t| - 1] == AsRow(SendOutcome(y, r, at).m, at.row);
    }
  }

  lemma SavedKept(y: System, r: Send, users: seq<string>, at: Times, acts: seq<Action>, z: System, m: Message,
                  cfg: Config)
    requires SysInv(y, cfg) && Later(y, at) && SendOutcome(y, r, at) == Saved(m)
    requires Leads(ProcessSend(y, r, users, at), acts, z, cfg)
    ensures ByServerAnswer(z.st, m.serverId) == Some(if Restarts(acts) then AsRow(m, at.row) else m)
  {
    SavedOnRecord(y, r, users, at, cfg);
    SendKeeps(y, r, users, at, cfg);
    SendStorable(y, r, at, cfg);
    if Restarts(acts) { RestartNeedsTable(ProcessSend(y, r, users, at), acts, z, cfg); }
    RecordKept(ProcessSend(y, r, users, at), acts, z, m, at.row, y.st.persistent, cfg);
  }

  /** Once a send is acknowledged as saved, then after anything else, restarts included, the message
      under the acknowledged id has the acknowledged number and the sender, recipient, chat and text
      of the request; its time is that of saving it. */
  lemma SentStays(y: System, r: Send, users: seq<string>, at: Times, acts: seq<Action>, z: System, cfg: Config)
    requires SysInv(y, cfg) && Later(y, at) && SendOutcome(y, r, at).Saved?
    requires Leads(ProcessSend(y, r, users, at), acts, z, cfg)
    ensures var a, ack := ByServerAnswer(z.st, SendOutcome(y, r, at).m.serverId), SendOutcome(y, r, at).m;
      a.Some? && Carries(a.value, r, ack.serverId, ack.seqNo, at, if Restarts(acts) then at.row else at.stamp)
  {
    OutcomeExactly(y, r, at, cfg);
    SavedKept(y, r, users, at, acts, z, SendOutcome(y, r, at).m, cfg);
  }

  lemma EventOnRecord(y: System, body: string, users: seq<string>, at: Times)
    requires IdsKnown(y) && Later(y, at) && RowsOk(y.st.db)
    ensures var m := EventMessage(y, body, at);
      OnRecord(Broadcast(y, body, users, at).st, m, at.row, y.st.persistent && !y.st.db.Conflicts(Stored(m, at.row)))
  {
    var m := EventMessage(y, body, at);
    EventStorable(y, body, at);
    SaveEffect(NextSeq(y.st, m.chatId), m, users, at.row);
    if y.st.persistent && !y.st.db.Conflicts(Stored(m, at.row)) {
      var t := Broadcast(y, body, users, at).st.db.messages;
      assert t[|t| - 1] == AsRow(m, at.row);
    }
  }

  lemma FirstEvent(y: System, body: string, at: Times)
    requires IdsKnown(y) && Later(y, at)
    requires forall d :: d in y.st.db.messages ==> d.sender != "system" || d.clientId != ""
    ensures !y.st.db.Conflicts(Stored(EventMessage(y, body, at), at.row))
  {
    EventStorable(y, body, at);
    forall i | 0 <= i < |y.st.db.messages| ensures ClientKey(y.st.db.messages[i]) != Key("system", "") {
      assert y.st.db.messages[i] in y.st.db.messages;
    }
  }

  lemma EventKept(y: System, body: string, users: seq<string>, at: Times, acts: seq<Action>, z: System, m: Message,
                  cfg: Config)
    requires SysInv(y, cfg) && Later(y, at) && m == EventMessage(y, body, at)
    requires Leads(Broadcast(y, body, users, at), acts, z, cfg)
    requires !Restarts(acts) || forall d :: d in y.st.db.messages ==> d.sender != "system" || d.clientId != ""
    ensures ByServerAnswer(z.st, m.serverId) == Some(if Restarts(acts) then AsRow(m, at.row) else m)
  {
    EventOnRecord(y, body, users, at);
    EventStorable(y, body, at);
    BroadcastKeeps(y, body, users, at, cfg);
    if Restarts(acts) {
      RestartNeedsTable(Broadcast(y, body, users, at), acts, z, cfg);
      FirstEvent(y, body, at);
    }
    var listed := y.st.persistent && !y.st.db.Conflicts(Stored(m, at.row));
    RecordKept(Broadcast(y, body, users, at), acts, z, m, at.row, listed, cfg);
  }

  /** A system event keeps its text in the same way: until a restart, and for good when no earlier
      event is in the table. */
  lemma EventStays(y: System, body: string, users: seq<string>, at: Times, acts: seq<Action>, z: System, cfg: Config)
    requires SysInv(y, cfg) && Later(y, at)
    requires Leads(Broadcast(y, body, users, at), acts, z, cfg)
    requires !Restarts(acts) || forall d :: d in y.st.db.messages ==> d.sender != "system" || d.clientId != ""
    ensures var id := ServerId("sys", at.id / MILLISECOND, y.counter + 1); var a := ByServerAnswer(z.st, id);
      a.Some? && Announces(a.value, body, id, if Restarts(acts) then at.row else at.stamp)
  {
    EventContent(y, body, at);
    EventKept(y, body, users, at, acts, z, EventMessage(y, body, at), cfg);
  }

  lemma EventContent(y: System, body: string, at: Times)
    ensures Announces(EventMessage(y, body, at), body, ServerId("sys", at.id / MILLISECOND, y.counter + 1), at.stamp)
  {
  }

  lemma RestartsLater(acts: seq<Action>)
    requires acts != [] && Restarts(acts) && !acts[0].DoRestart?
    ensures Restarts(acts[1..])
  {
    var a :| a in acts && a.DoRestart?;
    var i :| 0 <= i < |acts| && acts[i] == a;
    assert acts[1..][i - 1] == a;
  }

  lemma RestartAllowed(y: System, a: Action)
    requires Allowed(y, a) && a.DoRestart?
    ensures y.st.persistent
  {
  }

  lemma {:induction false} RestartNeedsTable(y: System, acts: seq<Action>, z: System, cfg: Config)
    requires SysInv(y, cfg) && Leads(y, acts, z, cfg) && Restarts(acts)
    ensures y.st.persistent
    decreases |acts|
  {
    if acts[0].DoRestart? {
      RestartAllowed(y, acts[0]);
    } else {
      RestartsLater(acts);
      NextKeeps(y, acts[0], cfg);
      RestartNeedsTable(Next(y, acts[0], cfg), acts[1..], z, cfg);
    }
  }

  // ------------------------------------------------------------- what recipients receive

  /** Just one of the messages written is for `u`, and it is this one. */
  ghost predicate Receives(out: seq<Message>, u: string, d: Message) {
    && d.recipient == u && d in out
    && forall i :: 0 <= i < |out| && out[i].recipient == u ==> out[i] == d
  }

  lemma OnlyOne(out: seq<Message>, u: string, d: Message)
    requires d in out && d.recipient == u
    requires forall i, j :: 0 <= i < j < |out| ==> out[i].recipient != out[j].recipient
    ensures Receives(out, u, d)
  {
    var n :| 0 <= n < |out| && out[n] == d;
    forall i | 0 <= i < |out| && out[i].recipient == u ensures out[i] == d {
      assert i == n;
    }
  }

  /** Whenever the worker comes to an acknowledged message, after whatever run, the one addressed and
      everybody still waiting for it who can be reached is written to once, with the sender, chat,
      number and text that were sent. */
  lemma SentArrives(y: System, r: Send, users: seq<string>, at: Times, acts: seq<Action>, z: System, online: Online,
                    recips: seq<string>, out: seq<Message>, u: string, cfg: Config) returns (d: Message)
    requires SysInv(y, cfg) && Later(y, at) && SendOutcome(y, r, at).Saved?
    requires Leads(ProcessSend(y, r, users, at), acts, z, cfg)
    requires var id := SendOutcome(y, r, at).m.serverId;
      && ByServerAnswer(z.st, id).Some? && RecipientsAnswer(GetByServer(z.st, id), id, recips)
      && out == Delivered(ByServerAnswer(z.st, id).value, id, Targets(recips, ByServerAnswer(z.st, id).value.recipient),
                          online)
    requires u in online && online[u] && u != "" && (u == r.recipient || u in recips)
    ensures Receives(out, u, d)
    ensures d.sender == r.sender && d.body == r.body && InChat(d.chatId, r)
    ensures d.serverId == SendOutcome(y, r, at).m.serverId && d.seqNo == SendOutcome(y, r, at).m.seqNo
    ensures d.ts == (if Restarts(acts) then at.row else at.stamp) / SECOND
  {
    var id := SendOutcome(y, r, at).m.serverId;
    var m := ByServerAnswer(z.st, id).value;
    SentStays(y, r, users, at, acts, z, cfg);
    SendKeeps(y, r, users, at, cfg);
    RunKeepsAll(ProcessSend(y, r, users, at), acts, z, cfg);
    GetByServerKeeps(z.st, id, cfg);
    RecipientsComplete(GetByServer(z.st, id), id, recips, cfg);
    d := WrittenOnce(m, id, recips, online, u);
  }

  lemma WrittenOnce(m: Message, id: string, recips: seq<string>, online: Online, u: string) returns (d: Message)
    requires NoDup(recips) && u in online && online[u] && u != "" && (u == m.recipient || u in recips)
    ensures Receives(Delivered(m, id, Targets(recips, m.recipient), online), u, d)
    ensures d.serverId == id && d.sender == m.sender && d.body == m.body && d.chatId == m.chatId
    ensures d.seqNo == m.seqNo && d.ts == m.ts
  {
    var users := Targets(recips, m.recipient);
    TargetsExact(recips, m.recipient);
    DeliveredExact(m, id, users, online);
    var out := Delivered(m, id, users, online);
    d :| d in out && d.recipient == u;
    OnlyOne(out, u, d);
  }

  // -------------------------------------------------------------------- what a history shows

  /** An acknowledged private message is in the conversation of its two users, whichever of them asks,
      after any run, restarts included. */
  lemma SentInHistory(y: System, r: Send, users: seq<string>, at: Times, acts: seq<Action>, z: System, cfg: Config)
      returns (m: Message)
    requires SysInv(y, cfg) && Later(y, at) && SendOutcome(y, r, at).Saved?
    requires Leads(ProcessSend(y, r, users, at), acts, z, cfg)
    ensures m in Replay.Pool(z.st, r.sender, r.recipient) && m in Replay.Pool(z.st, r.recipient, r.sender)
    ensures var ack := SendOutcome(y, r, at).m;
            Carries(m, r, ack.serverId, ack.seqNo, at, if z.st.persistent then at.row else at.stamp)
  {
    OutcomeExactly(y, r, at, cfg);
    var ack, t := SendOutcome(y, r, at).m, ProcessSend(y, r, users, at);
    SavedOnRecord(y, r, users, at, cfg);
    SendKeeps(y, r, users, at, cfg);
    RunKeepsAll(t, acts, z, cfg);
    if z.st.persistent {
      m := AsRow(ack, at.row);
      RowStays(t, acts, z, m, cfg);
    } else {
      m := ack;
      SavedKept(y, r, users, at, acts, z, ack, cfg);
      if Restarts(acts) { RestartNeedsTable(t, acts, z, cfg); }
      assert ack.serverId in z.st.messages && z.st.messages[ack.serverId] == m;
    }
  }

  lemma {:induction false} RowStays(y: System, acts: seq<Action>, z: System, d: Message, cfg: Config)
    requires SysInv(y, cfg) && Leads(y, acts, z, cfg) && y.st.persistent && d in y.st.db.messages
    ensures d in z.st.db.messages
    decreases |acts|
  {
    if acts != [] {
      Replay.NextRecords(y, acts[0], cfg);
      NextKeeps(y, acts[0], cfg);
      var i :| 0 <= i < |y.st.db.messages| && y.st.db.messages[i] == d;
      assert Next(y, acts[0], cfg).st.db.messages[i] == d;
      RowStays(Next(y, acts[0], cfg), acts[1..], z, d, cfg);
    }
  }

  /** What a history shows of a delivery that nothing has written off: read after a read receipt,
      delivered after another, and otherwise what it showed before. */
  lemma ReceiptsShown(s: State, cs: seq<Call>, t: State, m: Message, ms: seq<Message>, out: seq<Message>, i: nat,
                      cfg: Config)
    requires Inv(s, cfg) && s.persistent && Run(s, cs, t, cfg)
    requires var k := Key(m.serverId, m.recipient);
             k in s.db.rows && forall c :: c in cs ==> Ledger.Spares(s, c, k)
    requires i < |ms| && ms[i] == m && History.ShowsStatuses(out, ms, t.db)
    ensures i < |out| && out[i].body == m.body && out[i].sender == m.sender && out[i].seqNo == m.seqNo
    ensures var k := Key(m.serverId, m.recipient);
      out[i].status
      == if exists c :: c in cs && Ledger.Reads(c, k) then READ
         else if s.db.rows[k].status == PENDING && exists c :: c in cs && Ledger.Receipt(c, k) then DELIVERED
         else s.db.rows[k].status
  {
    Ledger.StatusTold(s, cs, t, Key(m.serverId, m.recipient), cfg);
  }

  // ------------------------------------------------------------------- private chats

  /** Every message to somebody is under the key of its two users. */
  ghost predicate Private(ms: set<Message>) {
    forall m :: m in ms && m.recipient != "" ==> m.chatId == C2CChatId(m.sender, m.recipient)
  }

  ghost function AllMessages(s: State): set<Message> { s.messages.Values + set m | m in s.db.messages }

  predicate NamesNoChat(a: Action) { a.DoSend? ==> Blank(a.r.chatId) }

  /** What a step puts on record besides what was there. */
  lemma StoredAlso(y: System, m: Message, users: seq<string>, at: Times)
    requires RowsOk(y.st.db) && m.serverId != ""
    ensures forall d :: d in AllMessages(Storing(y, m, users, at).st) ==>
              d in AllMessages(y.st) || d == m || d == AsRow(m, at.row)
  {
    SaveEffect(NextSeq(y.st, m.chatId), m, users, at.row);
    var t := Storing(y, m, users, at).st;
    forall d | d in t.messages.Values ensures d in AllMessages(y.st) || d == m {
      var id :| id in t.messages && t.messages[id] == d;
      if id != m.serverId { assert y.st.messages[id] == d; }
    }
  }

  lemma NothingNew(s: State, t: State)
    requires t.db.messages == s.db.messages
    requires forall id :: id in t.messages ==> t.messages[id] in AllMessages(s)
    ensures AllMessages(t) <= AllMessages(s)
  {
  }

  lemma CallNothingNew(s: State, c: Call, cfg: Config)
    requires RowsOk(s.db) && MessagesOk(s) && Internal(c) && StoreInvariants.Enabled(s, c)
    ensures AllMessages(Step(s, c, cfg)) <= AllMessages(s)
  {
    if c.CallGetByClient? {
      ByClientNothingNew(s, c.sender, c.clientId);
    } else if c.CallGetByServer? {
      ByServerNothingNew(s, c.id);
    } else {
      InternalEffect(s, c, cfg);
      NothingNew(s, Step(s, c, cfg));
    }
  }

  lemma ByClientNothingNew(s: State, sender: string, clientId: string)
    requires MessagesOk(s)
    ensures AllMessages(GetByClient(s, sender, clientId)) <= AllMessages(s)
  {
    LookedUp(s, sender, clientId);
    ByClientLookup(s, sender, clientId);
    NothingNew(s, GetByClient(s, sender, clientId));
  }

  lemma ByServerNothingNew(s: State, id: string)
    ensures AllMessages(GetByServer(s, id)) <= AllMessages(s)
  {
    ByServerCaches(s, id);
    NothingNew(s, GetByServer(s, id));
  }

  lemma SavedPrivate(y: System, r: Send, users: seq<string>, at: Times, cfg: Config)
    requires SysInv(y, cfg) && Later(y, at) && SendOutcome(y, r, at).Saved? && Blank(r.chatId)
    requires Private(AllMessages(y.st))
    ensures Private(AllMessages(ProcessSend(y, r, users, at).st))
  {
    OutcomeExactly(y, r, at, cfg);
    SendStorable(y, r, at, cfg);
    StoredAlso(y, SendOutcome(y, r, at).m, users, at);
  }

  lemma EventPrivate(y: System, body: string, users: seq<string>, at: Times)
    requires IdsKnown(y) && RowsOk(y.st.db) && Later(y, at) && Private(AllMessages(y.st))
    ensures Private(AllMessages(Broadcast(y, body, users, at).st))
  {
    EventContent(y, body, at);
    EventStorable(y, body, at);
    StoredAlso(y, EventMessage(y, body, at), users, at);
  }

  lemma PrivateStep(y: System, a: Action, cfg: Config)
    requires SysInv(y, cfg) && Allowed(y, a) && NamesNoChat(a) && Private(AllMessages(y.st))
    ensures Private(AllMessages(Next(y, a, cfg).st))
  {
    match a
    case DoSend(r, users, at) =>
      match SendOutcome(y, r, at) {
        case Rejected =>
        case Existing(_) => CallNothingNew(y.st, CallGetByClient(r.sender, r.EffectiveClientId(at.first)), cfg);
        case Saved(_) => SavedPrivate(y, r, users, at, cfg);
      }
    case DoBroadcast(body, users, at) => EventPrivate(y, body, users, at);
    case DoCall(c, now) => CallNothingNew(y.st, c, cfg);
    case DoRestart(now) =>
  }

  lemma {:induction false} PrivateRun(y: System, acts: seq<Action>, z: System, cfg: Config)
    requires SysInv(y, cfg) && Leads(y, acts, z, cfg) && (forall a :: a in acts ==> NamesNoChat(a))
    requires Private(AllMessages(y.st))
    ensures Private(AllMessages(z.st))
    decreases |acts|
  {
    if acts != [] {
      PrivateStep(y, acts[0], cfg);
      NextKeeps(y, acts[0], cfg);
      PrivateRun(Next(y, acts[0], cfg), acts[1..], z, cfg);
    }
  }

  lemma StartPrivate(persistent: bool, start: nat)
    ensures Private(AllMessages(InitSystem(persistent, start).st))
  {
  }

  lemma PoolPrivate(s: State, a: string, b: string)
    requires Private(AllMessages(s)) && a != "" && b != ""
    ensures forall m :: m in Replay.Pool(s, a, b) ==> m.chatId == C2CChatId(a, b)
  {
    ChatKeySymmetric(a, b);
    forall m | m in Replay.Pool(s, a, b) ensures m.chatId == C2CChatId(a, b) {
      assert m in AllMessages(s);
    }
  }

  /** As long as no client names a chat of its own, every conversation of two users is under their one
      key, in both directions, and so its history is determined. */
  lemma ConversationInOrder(persistent: bool, start: nat, acts: seq<Action>, z: System, a: string, b: string,
                            cfg: Config)
    requires Leads(InitSystem(persistent, start), acts, z, cfg) && (forall v :: v in acts ==> NamesNoChat(v))
    requires a != "" && b != ""
    ensures forall m :: m in Replay.Pool(z.st, a, b) ==> m.chatId == C2CChatId(a, b)
    ensures History.DistinctNumbers(Replay.Pool(z.st, a, b))
  {
    var y := InitSystem(persistent, start);
    StartOk(persistent, start, cfg);
    StartPrivate(persistent, start);
    PrivateRun(y, acts, z, cfg);
    RunKeepsAll(y, acts, z, cfg);
    PoolPrivate(z.st, a, b);
    Replay.PoolDistinct(z.st, a, b, C2CChatId(a, b));
  }

  // ------------------------------------------------------------------------ look-ups

  /** A look-up does not change what look-ups answer, and afterwards memory alone can answer. */
  lemma LookUpRemembers(s: State, sender: string, clientId: string)
    ensures var t, a := GetByClient(s, sender, clientId), ByClientAnswer(s, sender, clientId);
      && ByClientAnswer(t, sender, clientId) == a
      && (a.Some? ==> Key(sender, clientId) in t.byClient && t.byClient[Key(sender, clientId)] == a.value)
      && (a.Some? && Key(sender, clientId) !in s.byClient ==>
            a.value.serverId in t.messages && t.messages[a.value.serverId] == a.value)
  {
  }

  lemma LookUpByIdRemembers(s: State, id: string)
    ensures var t, a := GetByServer(s, id), ByServerAnswer(s, id);
      && ByServerAnswer(t, id) == a
      && (a.Some? ==> id in t.messages && t.messages[id] == a.value)
  {
    ByServerCaches(s, id);
  }
}
