/** Sequence numbers when taking a number and saving under it are steps of their own, so that other
    threads, and restarts, may come in between. */
module Numbering {
  import opened Records
  import opened StoreSpec
  import opened StoreInvariants
  import opened Durability
  import Sending

  /** A number that a thread has been given and has not saved under yet. */
  datatype Issue = Issue(chat: string, n: nat)

  datatype Machine = Machine(st: State, issued: map<nat, Issue>)

  datatype Event =
    | Number(thread: nat, chat: string)
    | Save(thread: nat, m: Message, users: seq<string>, now: nat)
    | Other(c: Call)
    | Restart

  ghost predicate CanStep(y: Machine, v: Event) {
    match v
    case Number(t, chat) => t !in y.issued && chat != ""
    case Save(t, m, _, _) =>
      t in y.issued && m.serverId != "" && m.chatId == y.issued[t].chat && m.seqNo == y.issued[t].n
    case Other(c) => !c.CallNextSeq? && !c.CallSaveMessage? && !c.CallCrash? && Enabled(y.st, c)
    case Restart => y.st.persistent
  }

  ghost function Apply(y: Machine, v: Event, cfg: Config): Machine
    requires CanStep(y, v)
  {
    match v
    case Number(t, chat) => Machine(NextSeq(y.st, chat), y.issued[t := Issue(chat, NextSeqNo(y.st, chat))])
    case Save(t, m, users, now) => Machine(SaveMessage(y.st, m, users, now), y.issued - {t})
    case Other(c) => y.(st := Step(y.st, c, cfg))
    case Restart => Machine(CrashState(y.st), map[])
  }

  ghost predicate Works(y: Machine, vs: seq<Event>, z: Machine, cfg: Config)
    decreases |vs|
  {
    if vs == [] then y == z else CanStep(y, vs[0]) && Works(Apply(y, vs[0], cfg), vs[1..], z, cfg)
  }

  /** The store call that a step makes. */
  function CallOf(v: Event): Call {
    match v
    case Number(_, chat) => CallNextSeq(chat)
    case Save(_, m, users, now) => CallSaveMessage(m, users, now)
    case Other(c) => c
    case Restart => CallCrash
  }

  lemma StepsAreCalls(y: Machine, v: Event, cfg: Config)
    requires CanStep(y, v)
    ensures Enabled(y.st, CallOf(v)) && Apply(y, v, cfg).st == Step(y.st, CallOf(v), cfg)
  {
  }

  // ------------------------------------------------------------------- invariant

  /** No two messages on record, in the table or without one in memory, share a number of a chat. */
  ghost predicate Distinct(s: State) {
    if s.persistent
    then forall i, j :: 0 <= i < j < |s.db.messages| && s.db.messages[i].chatId == s.db.messages[j].chatId
           ==> s.db.messages[i].seqNo != s.db.messages[j].seqNo
    else forall a, b :: a in s.messages && b in s.messages && a != b && s.messages[a].chatId == s.messages[b].chatId
           ==> s.messages[a].seqNo != s.messages[b].seqNo
  }

  ghost predicate OnRecord(s: State, m: Message) {
    if s.persistent then m in s.db.messages else exists id :: id in s.messages && s.messages[id] == m
  }

  /** The counters that are in memory are ahead of the record; without tables all are in memory. */
  ghost predicate Ahead(s: State) {
    forall m :: OnRecord(s, m) ==>
      if m.chatId in s.nextSeq then m.seqNo <= s.nextSeq[m.chatId] else s.persistent
  }

  /** Numbers under way are at most their counter, are under way once, and are not on record. */
  ghost predicate IssuedOk(y: Machine) {
    && (forall t :: t in y.issued ==>
          y.issued[t].chat in y.st.nextSeq && y.issued[t].n <= y.st.nextSeq[y.issued[t].chat])
    && (forall t, u :: t in y.issued && u in y.issued && t != u ==> y.issued[t] != y.issued[u])
    && (forall t, m :: t in y.issued && OnRecord(y.st, m) ==> Issue(m.chatId, m.seqNo) != y.issued[t])
  }

  ghost predicate NumbersOk(y: Machine, cfg: Config) {
    Inv(y.st, cfg) && Distinct(y.st) && Ahead(y.st) && IssuedOk(y)
  }

  /** The next number is above everything on record and everything under way. */
  lemma NextIsNew(y: Machine, chat: string, cfg: Config)
    requires NumbersOk(y, cfg) && chat != ""
    ensures forall m :: OnRecord(y.st, m) && m.chatId == chat ==> m.seqNo < NextSeqNo(y.st, chat)
    ensures forall t :: t in y.issued && y.issued[t].chat == chat ==> y.issued[t].n < NextSeqNo(y.st, chat)
  {
    MaxSeqExact(y.st.db.messages, chat);
    forall m | OnRecord(y.st, m) && m.chatId == chat
      ensures m.seqNo < NextSeqNo(y.st, chat)
    {
      if chat !in y.st.nextSeq {
        var i :| 0 <= i < |y.st.db.messages| && y.st.db.messages[i] == m;
      }
    }
  }

  lemma NumberKeeps(y: Machine, t: nat, chat: string, cfg: Config)
    requires NumbersOk(y, cfg) && CanStep(y, Number(t, chat))
    ensures NumbersOk(Apply(y, Number(t, chat), cfg), cfg)
  {
    var z := Apply(y, Number(t, chat), cfg);
    NextIsNew(y, chat, cfg);
    CacheKeeps(y.st, z.st, cfg);
    forall m ensures OnRecord(z.st, m) <==> OnRecord(y.st, m) {
    }
  }

  /** What a save puts on record: at most the message, as it is or as its row. */
  lemma SaveRecords(s: State, m: Message, users: seq<string>, now: nat)
    requires RowsOk(s.db) && m.serverId != ""
    ensures var t := SaveMessage(s, m, users, now); var d := if s.persistent then Stored(m, now) else m;
      && t.persistent == s.persistent && t.nextSeq == s.nextSeq
      && (forall x :: OnRecord(t, x) ==> OnRecord(s, x) || x == d)
  {
    Sending.SaveEffect(s, m, users, now);
  }

  lemma SaveDistinct(s: State, m: Message, users: seq<string>, now: nat)
    requires RowsOk(s.db) && m.serverId != "" && Distinct(s)
    requires forall x :: OnRecord(s, x) ==> x.chatId != m.chatId || x.seqNo != m.seqNo
    ensures Distinct(SaveMessage(s, m, users, now))
  {
    Sending.SaveEffect(s, m, users, now);
    var t := SaveMessage(s, m, users, now);
    if s.persistent {
      forall i | 0 <= i < |s.db.messages| ensures OnRecord(s, s.db.messages[i]) {
      }
    } else {
      forall a | a in s.messages ensures OnRecord(s, s.messages[a]) {
      }
    }
  }

  lemma SaveKeeps(y: Machine, t: nat, m: Message, users: seq<string>, now: nat, cfg: Config)
    requires NumbersOk(y, cfg) && CanStep(y, Save(t, m, users, now))
    ensures NumbersOk(Apply(y, Save(t, m, users, now), cfg), cfg)
  {
    SaveMessageKeeps(y.st, m, users, now, cfg);
    forall x | OnRecord(y.st, x) ensures x.chatId != m.chatId || x.seqNo != m.seqNo {
      assert Issue(x.chatId, x.seqNo) != y.issued[t];
    }
    SaveDistinct(y.st, m, users, now);
    SaveRecords(y.st, m, users, now);
  }

  /** The part of the state that numbering depends on is as before. */
  ghost predicate SameNumbers(s: State, t: State) {
    && t.persistent == s.persistent && t.nextSeq == s.nextSeq && t.db.messages == s.db.messages
    && (!s.persistent ==> t.messages == s.messages)
  }

  /** Other calls leave counters and records alone. */
  lemma OtherRecords(s: State, c: Call, cfg: Config)
    requires RowsOk(s.db) && !c.CallNextSeq? && !c.CallSaveMessage? && !c.CallCrash? && Enabled(s, c)
    ensures SameNumbers(s, Step(s, c, cfg))
  {
    if IsMark(c) {
      MarkEffects(s, c, cfg);
    } else if IsLoad(c) {
      LoadStep(s, c, cfg);
    } else if c.CallGetRecipients? {
      EnsureEntriesAdds(s, c.id, UsersOf(s.db.PendingKeys(), c.id));
    } else {
      LookupRecords(s, c, cfg);
    }
  }

  lemma LookupRecords(s: State, c: Call, cfg: Config)
    requires c.CallGetByClient? || c.CallGetByServer? || c.CallSaveDelivery?
    ensures SameNumbers(s, Step(s, c, cfg))
  {
  }

  lemma SameRecords(y: Machine, t: State, cfg: Config)
    requires NumbersOk(y, cfg) && Inv(t, cfg) && SameNumbers(y.st, t)
    ensures NumbersOk(y.(st := t), cfg)
  {
    forall m ensures OnRecord(t, m) <==> OnRecord(y.st, m) {
    }
  }

  lemma RestartKeeps(y: Machine, cfg: Config)
    requires NumbersOk(y, cfg) && y.st.persistent
    ensures NumbersOk(Apply(y, Restart, cfg), cfg)
  {
    CrashKeeps(y.st, cfg);
  }

  lemma StepNumbers(y: Machine, v: Event, cfg: Config)
    requires NumbersOk(y, cfg) && CanStep(y, v)
    ensures NumbersOk(Apply(y, v, cfg), cfg)
  {
    match v
    case Number(t, chat) => NumberKeeps(y, t, chat, cfg);
    case Save(t, m, users, now) => SaveKeeps(y, t, m, users, now, cfg);
    case Other(c) =>
      StepKeeps(y.st, c, cfg);
      OtherRecords(y.st, c, cfg);
      SameRecords(y, Step(y.st, c, cfg), cfg);
    case Restart => RestartKeeps(y, cfg);
  }

  lemma {:induction false} RunNumbers(y: Machine, vs: seq<Event>, z: Machine, cfg: Config)
    requires NumbersOk(y, cfg) && Works(y, vs, z, cfg)
    ensures NumbersOk(z, cfg)
    decreases |vs|
  {
    if vs != [] {
      StepNumbers(y, vs[0], cfg);
      RunNumbers(Apply(y, vs[0], cfg), vs[1..], z, cfg);
    }
  }

  /** However numbering and saving of any number of senders interleave, and across restarts: no two
      messages on record share a number of their chat, and the next number handed out is above
      all that are on record or under way. */
  lemma NumbersDistinct(persistent: bool, vs: seq<Event>, z: Machine, chat: string, cfg: Config)
    requires Works(Machine(InitState(persistent), map[]), vs, z, cfg) && chat != ""
    ensures Distinct(z.st)
    ensures forall m :: OnRecord(z.st, m) && m.chatId == chat ==> m.seqNo < NextSeqNo(z.st, chat)
    ensures forall t :: t in z.issued && z.issued[t].chat == chat ==> z.issued[t].n < NextSeqNo(z.st, chat)
  {
    InitInv(persistent, cfg);
    RunNumbers(Machine(InitState(persistent), map[]), vs, z, cfg);
    NextIsNew(z, chat, cfg);
  }

  // -------------------------------------------------- the order of storing is not kept

  /** Two messages of one chat under ids and client ids of their own. */
  ghost predicate TwoMessages(m: Message, n: Message) {
    && m.serverId != "" && n.serverId != "" && m.serverId != n.serverId && m.chatId != "" && n.chatId == m.chatId
    && (m.sender, m.clientId) != (n.sender, n.clientId) && m.seqNo == 1 && n.seqNo == 2
  }

  /** The second number can be stored first. */
  lemma OutOfOrder(m: Message, n: Message, now: nat, cfg: Config) returns (vs: seq<Event>, z: Machine)
    requires TwoMessages(m, n)
    ensures Works(Machine(InitState(true), map[]), vs, z, cfg)
    ensures z.st.db.messages == [Stored(n, now), Stored(m, now)]
  {
    var y0 := Machine(InitState(true), map[]);
    var v1, v2, v3, v4 := Number(0, m.chatId), Number(1, m.chatId), Save(1, n, [], now), Save(0, m, [], now);
    InitInv(true, cfg);
    assert MaxSeq([], m.chatId) == 0;
    var y1 := Apply(y0, v1, cfg);
    var y2 := Apply(y1, v2, cfg);
    assert y2.issued[0] == Issue(m.chatId, 1) && y2.issued[1] == Issue(m.chatId, 2);
    assert y2.st.db == y0.st.db;
    Sending.SaveEffect(y2.st, n, [], now);
    var y3 := Apply(y2, v3, cfg);
    SaveMessageKeeps(y2.st, n, [], now, cfg) by { CacheKeeps(y0.st, y2.st, cfg); }
    assert y3.st.db.messages == [Stored(n, now)];
    Sending.SaveEffect(y3.st, m, [], now);
    z := Apply(y3, v4, cfg);
    vs := [v1, v2, v3, v4];
    FourSteps(y0, v1, v2, v3, v4, cfg);
  }

  lemma FourSteps(y: Machine, a: Event, b: Event, c: Event, d: Event, cfg: Config)
    requires CanStep(y, a) && CanStep(Apply(y, a, cfg), b) && CanStep(Apply(Apply(y, a, cfg), b, cfg), c)
    requires CanStep(Apply(Apply(Apply(y, a, cfg), b, cfg), c, cfg), d)
    ensures Works(y, [a, b, c, d], Apply(Apply(Apply(Apply(y, a, cfg), b, cfg), c, cfg), d, cfg), cfg)
  {
    var y1 := Apply(y, a, cfg);
    var y2 := Apply(y1, b, cfg);
    var y3 := Apply(y2, c, cfg);
    var z := Apply(y3, d, cfg);
    assert [a, b, c, d][1..] == [b, c, d] && [b, c, d][1..] == [c, d] && [c, d][1..] == [d] && [d][1..] == [];
    assert Works(z, [], z, cfg);
    assert Works(y3, [d], z, cfg);
    assert Works(y2, [c, d], z, cfg);
    assert Works(y1, [b, c, d], z, cfg);
  }
}
