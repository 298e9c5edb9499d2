/** What the row and the entry of a delivery say after a run of store calls, told by the calls alone:
    which receipts, sends and failures there were, and when. */
module Ledger {
  import opened Basics
  import opened Records
  import opened StoreSpec
  import opened StoreInvariants
  import opened Durability

  // ---------------------------------------------------------------- what the calls say

  /** The last thing that the calls say, or what was said before them. */
  function Latest<V>(cs: seq<Call>, says: Call -> Option<V>, before: Option<V>): Option<V> {
    if cs == [] then before else Latest(cs[1..], says, if says(cs[0]).Some? then says(cs[0]) else before)
  }

  lemma {:induction false} LatestExact<V>(cs: seq<Call>, says: Call -> Option<V>, before: Option<V>)
    ensures (forall c :: c in cs ==> says(c).None?) ==> Latest(cs, says, before) == before
    ensures forall i :: 0 <= i < |cs| && says(cs[i]).Some? && (forall j :: i < j < |cs| ==> says(cs[j]).None?)
              ==> Latest(cs, says, before) == says(cs[i])
    decreases |cs|
  {
    if cs != [] {
      var next := if says(cs[0]).Some? then says(cs[0]) else before;
      LatestExact(cs[1..], says, next);
      forall i | 0 <= i < |cs| && says(cs[i]).Some? && (forall j :: i < j < |cs| ==> says(cs[j]).None?)
        ensures Latest(cs, says, before) == says(cs[i])
      {
        if i > 0 {
          assert cs[1..][i - 1] == cs[i];
          assert forall j :: i - 1 < j < |cs[1..]| ==> cs[1..][j] == cs[j + 1];
        }
      }
    }
  }

  predicate Reads(c: Call, k: Key) { c.CallMarkRead? && c.k == k }

  /** A receipt of either kind. */
  predicate Receipt(c: Call, k: Key) { Reads(c, k) || (c.CallMarkAcked? && c.k == k) }

  function ReadTime(k: Key): Call -> Option<nat> { (c: Call) => if Reads(c, k) then Some(c.now) else None }

  function ReceiptTime(k: Key): Call -> Option<nat> { (c: Call) => if Receipt(c, k) then Some(c.now) else None }

  function SendTime(k: Key): Call -> Option<nat> {
    (c: Call) => if c.CallMarkSent? && c.k == k then Some(c.now) else None
  }

  /** The error text that an attempt leaves: none for a send without an error. */
  function Text(c: Call): string
    requires c.CallMarkSent? || c.CallScheduleRetry?
  {
    if c.err.Some? then c.err.value else if c.CallMarkSent? then "" else "delivery failed"
  }

  // ------------------------------------------------------------------- times of a row

  lemma RowTimesStep(s: State, c: Call, k: Key, cfg: Config)
    requires RowsOk(s.db) && Enabled(s, c) && s.persistent && k in s.db.rows
    ensures k in Step(s, c, cfg).db.rows
    ensures var r, q := s.db.rows[k], Step(s, c, cfg).db.rows[k];
      && q.readAt == (if Reads(c, k) then Some(c.now) else r.readAt)
      && q.ackedAt == (if Receipt(c, k) then Some(c.now) else r.ackedAt)
      && q.lastSendAt == (if c.CallMarkSent? && c.k == k then Some(c.now) else r.lastSendAt)
  {
    StepRow(s, c, k, cfg);
  }

  /** After any run, restarts included, the three times of a row are those of the last read
      receipt, of the last receipt of either kind, and of the last send. */
  lemma {:induction false} RowTimes(s: State, cs: seq<Call>, t: State, k: Key, cfg: Config)
    requires Inv(s, cfg) && s.persistent && Run(s, cs, t, cfg) && k in s.db.rows
    ensures k in t.db.rows
    ensures t.db.rows[k].readAt == Latest(cs, ReadTime(k), s.db.rows[k].readAt)
    ensures t.db.rows[k].ackedAt == Latest(cs, ReceiptTime(k), s.db.rows[k].ackedAt)
    ensures t.db.rows[k].lastSendAt == Latest(cs, SendTime(k), s.db.rows[k].lastSendAt)
    decreases |cs|
  {
    if cs != [] {
      RowTimesStep(s, cs[0], k, cfg);
      StepKeeps(s, cs[0], cfg);
      RowTimes(Step(s, cs[0], cfg), cs[1..], t, k, cfg);
    }
  }

  // ------------------------------------------------------------------ status of a row

  /** Neither a failure nor the look-up of a message that is not stored, the two that write off. */
  ghost predicate Spares(s: State, c: Call, k: Key) {
    !Fails(c, k) && (c.CallGetByServer? && c.id == k.outer ==> Kept(s, k.outer))
  }

  /** What one call makes of the status. */
  lemma ReceiptStep(s: State, c: Call, k: Key, cfg: Config)
    requires RowsOk(s.db) && Enabled(s, c) && s.persistent && k in s.db.rows && Spares(s, c, k)
    ensures k in Step(s, c, cfg).db.rows
    ensures Step(s, c, cfg).db.rows[k].status
            == if Reads(c, k) then READ
               else if Receipt(c, k) && s.db.rows[k].status == PENDING then DELIVERED
               else s.db.rows[k].status
  {
    StepRow(s, c, k, cfg);
    if c.CallGetByServer? && c.id == k.outer { assert FindByServer(s.db.messages, c.id).Some?; }
  }

  lemma SparesLater(s: State, c: Call, d: Call, k: Key, cfg: Config)
    requires RowsOk(s.db) && Enabled(s, c) && Spares(s, d, k)
    ensures Spares(Step(s, c, cfg), d, k)
  {
    if Kept(s, k.outer) { KeptStays(s, c, k.outer, cfg); }
  }

  /** When nothing writes it off, a row ends as read if there was a read receipt; otherwise a pending
      one ends as delivered if there was a receipt at all; and otherwise it is as before. */
  lemma {:induction false} StatusTold(s: State, cs: seq<Call>, t: State, k: Key, cfg: Config)
    requires Inv(s, cfg) && s.persistent && Run(s, cs, t, cfg) && k in s.db.rows
    requires forall c :: c in cs ==> Spares(s, c, k)
    ensures k in t.db.rows
    ensures t.db.rows[k].status
            == if exists c :: c in cs && Reads(c, k) then READ
               else if s.db.rows[k].status == PENDING && exists c :: c in cs && Receipt(c, k) then DELIVERED
               else s.db.rows[k].status
    decreases |cs|
  {
    if cs != [] {
      var c, m := cs[0], Step(s, cs[0], cfg);
      assert c in cs && cs == [c] + cs[1..];
      ReceiptStep(s, c, k, cfg);
      StepKeeps(s, c, cfg);
      forall d | d in cs[1..] ensures Spares(m, d, k) { SparesLater(s, c, d, k, cfg); }
      StatusTold(m, cs[1..], t, k, cfg);
    }
  }

  /** The calls that write a delivery off: a failure that uses up the limit of the entry or of a
      pending row, and a look-up that finds the message neither in memory nor in the table. */
  ghost predicate WritesOff(s: State, c: Call, k: Key, cfg: Config)
    requires k in s.db.rows
  {
    || (Fails(c, k) && k in s.entries && s.entries[k].retry + 1 >= cfg.Max())
    || (Fails(c, k) && s.db.rows[k].status == PENDING && s.db.rows[k].retryCount + 1 >= cfg.Max())
    || (c.CallGetByServer? && c.id == k.outer && s.db.rows[k].status == PENDING
        && k.outer !in s.messages && forall m :: m in s.db.messages ==> m.serverId != k.outer)
  }

  lemma WrittenOffExactly(s: State, c: Call, k: Key, cfg: Config)
    requires Inv(s, cfg) && Enabled(s, c) && s.persistent && k in s.db.rows && s.db.rows[k].status != DEAD
    ensures k in Step(s, c, cfg).db.rows
    ensures Step(s, c, cfg).db.rows[k].status == DEAD <==> WritesOff(s, c, k, cfg)
  {
    StepRow(s, c, k, cfg);
  }

  /** A row becomes dead in no other way: in any run that ends with it dead, one of the calls
      has written it off. */
  lemma {:induction false} DeadHasCause(s: State, cs: seq<Call>, t: State, k: Key, cfg: Config)
      returns (i: nat, m: State)
    requires Inv(s, cfg) && s.persistent && Run(s, cs, t, cfg)
    requires k in s.db.rows && s.db.rows[k].status != DEAD
    requires k in t.db.rows && t.db.rows[k].status == DEAD
    ensures i < |cs| && Run(s, cs[..i], m, cfg) && k in m.db.rows && m.db.rows[k].status != DEAD
    ensures WritesOff(m, cs[i], k, cfg)
    decreases |cs|
  {
    WrittenOffExactly(s, cs[0], k, cfg);
    if WritesOff(s, cs[0], k, cfg) {
      i, m := 0, s;
    } else {
      StepKeeps(s, cs[0], cfg);
      i, m := DeadHasCause(Step(s, cs[0], cfg), cs[1..], t, k, cfg);
      assert cs[..i + 1][1..] == cs[1..][..i];
      i := i + 1;
    }
  }

  /** A look-up that finds no message leaves the text of what went wrong in the rows it writes off. */
  lemma OrphanedRow(s: State, id: string, k: Key)
    requires s.persistent && id != "" && id !in s.messages && forall m :: m in s.db.messages ==> m.serverId != id
    requires k in s.db.rows
    ensures var r, q := s.db.rows[k], GetByServer(s, id).db.rows;
      k in q && q[k] == if k.outer == id && r.status == PENDING
                        then Row(DEAD, r.retryCount, None, "message not found", r.lastSendAt, r.ackedAt, r.readAt)
                        else r
  {
  }

  /** A dead row has no retry time and keeps none, so no tick finds it. */
  ghost predicate DeadUnscheduled(db: Tables) {
    forall k :: k in db.rows && db.rows[k].status == DEAD ==> db.rows[k].nextRetryAt.None?
  }

  lemma DeadUnscheduledStep(s: State, c: Call, cfg: Config)
    requires Inv(s, cfg) && Enabled(s, c) && s.persistent && DeadUnscheduled(s.db)
    ensures DeadUnscheduled(Step(s, c, cfg).db)
  {
    forall k | k in Step(s, c, cfg).db.rows && Step(s, c, cfg).db.rows[k].status == DEAD
      ensures Step(s, c, cfg).db.rows[k].nextRetryAt.None?
    {
      if k in s.db.rows { UnscheduledRow(s, c, k, cfg); } else { NewRow(s, c, k, cfg); }
    }
  }

  lemma UnscheduledRow(s: State, c: Call, k: Key, cfg: Config)
    requires RowsOk(s.db) && Enabled(s, c) && s.persistent && k in s.db.rows
    requires s.db.rows[k].status == DEAD ==> s.db.rows[k].nextRetryAt.None?
    ensures k in Step(s, c, cfg).db.rows
    ensures Step(s, c, cfg).db.rows[k].status == DEAD ==> Step(s, c, cfg).db.rows[k].nextRetryAt.None?
  {
    StepRow(s, c, k, cfg);
  }

  lemma {:induction false} RunDeadUnscheduled(s: State, cs: seq<Call>, t: State, cfg: Config)
    requires Inv(s, cfg) && s.persistent && Run(s, cs, t, cfg) && DeadUnscheduled(s.db)
    ensures DeadUnscheduled(t.db)
    decreases |cs|
  {
    if cs != [] {
      DeadUnscheduledStep(s, cs[0], cfg);
      StepKeeps(s, cs[0], cfg);
      RunDeadUnscheduled(Step(s, cs[0], cfg), cs[1..], t, cfg);
    }
  }

  // ------------------------------------------------------------------ new rows and entries

  lemma {:induction false} InsertedFresh(db: Tables, id: string, users: seq<string>)
    ensures forall k :: k in db.InsertRows(id, users).rows && k !in db.rows ==>
              k.outer == id && k.inner in users
              && db.InsertRows(id, users).rows[k] == Row(PENDING, 0, None, "", None, None, None)
    ensures forall k :: k in db.rows ==>
              k in db.InsertRows(id, users).rows && db.InsertRows(id, users).rows[k] == db.rows[k]
    decreases |users|
  {
    if users != [] {
      var next := if users[0] == "" then db else db.InsertRow(Key(id, users[0]));
      InsertedFresh(next, id, users[1..]);
    }
  }

  /** Whoever starts a delivery. */
  predicate Starts(c: Call, k: Key) {
    (c.CallSaveMessage? && c.m.serverId == k.outer && k.inner in c.users) || (c.CallSaveDelivery? && c.k == k)
  }

  /** A row that a call adds is pending, with no attempt, time or error, and is one that it names. */
  lemma NewRow(s: State, c: Call, k: Key, cfg: Config)
    requires RowsOk(s.db) && Enabled(s, c) && k !in s.db.rows && k in Step(s, c, cfg).db.rows
    ensures Step(s, c, cfg).db.rows[k] == Row(PENDING, 0, None, "", None, None, None) && Starts(c, k)
  {
    if IsMark(c) {
      MarkEffects(s, c, cfg);
    } else if IsLoad(c) {
      LoadStep(s, c, cfg);
    } else if c.CallSaveMessage? {
      SavedRow(s, c.m, c.users, c.now, k);
    } else if c.CallGetRecipients? {
      RecipientsRow(s, c.id);
    }
  }

  lemma SavedRow(s: State, m: Message, users: seq<string>, now: nat, k: Key)
    requires k !in s.db.rows && k in SaveMessage(s, m, users, now).db.rows
    ensures SaveMessage(s, m, users, now).db.rows[k] == Row(PENDING, 0, None, "", None, None, None)
    ensures k.outer == m.serverId && k.inner in users
  {
    if m.serverId != "" {
      if s.persistent { InsertedFresh(s.db.InsertMessage(Stored(m, now)), m.serverId, users); }
      EnsureEntriesAdds(CacheMessage(SaveTables(s, m, users, now), m), m.serverId, users);
    }
  }

  /** So is an entry; it also comes back from its row. */
  lemma NewEntry(s: State, c: Call, k: Key, cfg: Config)
    requires RowsOk(s.db) && Enabled(s, c) && k !in s.entries && k in Step(s, c, cfg).entries
    ensures Step(s, c, cfg).entries[k] == Entry(k.inner, false, false, false, 0, 0, 0, "")
    ensures Starts(c, k) || (s.persistent && s.db.IsPending(k))
  {
    if IsMark(c) {
      MarkEffects(s, c, cfg);
    } else if IsLoad(c) {
      LoadedEntry(s, c, k, cfg);
    } else if c.CallSaveMessage? {
      SavedEntry(s, c.m, c.users, c.now, k);
    } else if c.CallGetRecipients? {
      RecipientEntry(s, c.id, k);
    }
  }

  lemma SavedEntry(s: State, m: Message, users: seq<string>, now: nat, k: Key)
    requires k !in s.entries && k in SaveMessage(s, m, users, now).entries
    ensures SaveMessage(s, m, users, now).entries[k] == Entry(k.inner, false, false, false, 0, 0, 0, "")
    ensures k.outer == m.serverId && k.inner in users
  {
    EnsureEntriesAdds(CacheMessage(SaveTables(s, m, users, now), m), m.serverId, users);
  }

  lemma RecipientEntry(s: State, id: string, k: Key)
    requires k !in s.entries && k in GetRecipients(s, id).entries
    ensures GetRecipients(s, id).entries[k] == Entry(k.inner, false, false, false, 0, 0, 0, "")
            && s.persistent && s.db.IsPending(k)
  {
    PendingInExact(s.db, s.db.order);
    UsersOfExact(s.db.PendingKeys(), id);
    EnsureEntriesAdds(s, id, UsersOf(s.db.PendingKeys(), id));
  }

  lemma LoadedEntry(s: State, c: Call, k: Key, cfg: Config)
    requires RowsOk(s.db) && Enabled(s, c) && IsLoad(c) && k !in s.entries && k in Step(s, c, cfg).entries
    ensures Step(s, c, cfg).entries[k] == Entry(k.inner, false, false, false, 0, 0, 0, "")
            && s.persistent && s.db.IsPending(k)
  {
    LoadsPending(s, c);
    LoadAdds(s, Loads(s, c));
  }

  lemma LoadsPending(s: State, c: Call)
    requires RowsOk(s.db) && IsLoad(c) && (c.CallGetDue? && s.persistent ==> Enabled(s, c))
    ensures s.persistent ==> forall k :: k in Loads(s, c) ==> s.db.IsPending(k)
  {
    PendingInExact(s.db, s.db.order);
    if c.CallListPending? { KeysOfUserExact(s.db.PendingKeys(), c.user); }
  }

  // ------------------------------------------------------------- error text and retry time

  lemma {:induction false} RunSplit(s: State, cs: seq<Call>, ds: seq<Call>, t: State, cfg: Config) returns (m: State)
    requires Run(s, cs + ds, t, cfg)
    ensures Run(s, cs, m, cfg) && Run(m, ds, t, cfg)
    decreases |cs|
  {
    if cs == [] {
      assert cs + ds == ds;
      m := s;
    } else {
      assert (cs + ds)[1..] == cs[1..] + ds;
      m := RunSplit(Step(s, cs[0], cfg), cs[1..], ds, t, cfg);
    }
  }

  lemma {:induction false} AttemptsAppend(cs: seq<Call>, ds: seq<Call>, k: Key)
    ensures Attempts(cs + ds, k) == Attempts(cs, k) + Attempts(ds, k)
    decreases |cs|
  {
    if cs == [] {
      assert cs + ds == ds;
    } else {
      assert (cs + ds)[1..] == cs[1..] + ds;
      AttemptsAppend(cs[1..], ds, k);
    }
  }

  lemma QuietRowStep(s: State, c: Call, k: Key, cfg: Config)
    requires RowsOk(s.db) && Enabled(s, c) && s.persistent && k in s.db.rows
    ensures k in Step(s, c, cfg).db.rows
    ensures Step(s, c, cfg).db.IsPending(k) && !IsAttempt(c, k) ==> Step(s, c, cfg).db.rows[k] == s.db.rows[k]
    ensures Step(s, c, cfg).db.IsPending(k) && !Fails(c, k) ==>
              Step(s, c, cfg).db.rows[k].nextRetryAt == s.db.rows[k].nextRetryAt
  {
    StepRow(s, c, k, cfg);
  }

  lemma SendRowStep(s: State, c: Call, k: Key, cfg: Config)
    requires RowsOk(s.db) && Enabled(s, c) && s.persistent && k in s.db.rows && c.CallMarkSent? && c.k == k
    ensures k in Step(s, c, cfg).db.rows && Step(s, c, cfg).db.rows[k].lastError == Text(c)
  {
    StepRow(s, c, k, cfg);
  }

  lemma FailureRow(s: State, k: Key, err: Option<string>, now: nat, cfg: Config)
    requires s.persistent && k in s.db.rows && k.outer != "" && k.inner != ""
    ensures var t := ScheduleRetry(s, k, err, cfg, now);
      && k in t.db.rows
      && (t.db.IsPending(k) ==>
            && t.db.rows[k].lastError == (if err.Some? then err.value else "delivery failed")
            && t.db.rows[k].nextRetryAt == Some(now + Delay(cfg.Base(), s.db.rows[k].retryCount + 1)))
  {
    ScheduleRetryEffect(s, k, err, cfg, now);
  }

  lemma FailureRowStep(s: State, c: Call, k: Key, cfg: Config)
    requires RowsOk(s.db) && s.persistent && k in s.db.rows && Fails(c, k)
    ensures k in Step(s, c, cfg).db.rows
    ensures Step(s, c, cfg).db.IsPending(k) ==>
              && Step(s, c, cfg).db.rows[k].lastError == Text(c)
              && Step(s, c, cfg).db.rows[k].nextRetryAt == Some(c.now + Delay(cfg.Base(), s.db.rows[k].retryCount + 1))
  {
    FailureRow(s, k, c.err, c.now, cfg);
  }

  /** Without another failure a row that is pending at the end keeps its retry time, ... */
  lemma {:induction false} QuietDue(s: State, cs: seq<Call>, t: State, k: Key, cfg: Config)
    requires Inv(s, cfg) && s.persistent && Run(s, cs, t, cfg) && k in s.db.rows && t.db.IsPending(k)
    requires forall c :: c in cs ==> !Fails(c, k)
    ensures t.db.rows[k].nextRetryAt == s.db.rows[k].nextRetryAt
    decreases |cs|
  {
    if cs != [] {
      var m := Step(s, cs[0], cfg);
      assert cs[0] in cs;
      QuietRowStep(s, cs[0], k, cfg);
      StepKeeps(s, cs[0], cfg);
      StillPending(m, cs[1..], t, k, cfg);
      QuietDue(m, cs[1..], t, k, cfg);
    }
  }

  /** ... and without another attempt it stays as it is. */
  lemma {:induction false} QuietRow(s: State, cs: seq<Call>, t: State, k: Key, cfg: Config)
    requires Inv(s, cfg) && s.persistent && Run(s, cs, t, cfg) && k in s.db.rows && t.db.IsPending(k)
    requires forall c :: c in cs ==> !IsAttempt(c, k)
    ensures t.db.rows[k] == s.db.rows[k]
    decreases |cs|
  {
    if cs != [] {
      var m := Step(s, cs[0], cfg);
      assert cs[0] in cs;
      QuietRowStep(s, cs[0], k, cfg);
      StepKeeps(s, cs[0], cfg);
      StillPending(m, cs[1..], t, k, cfg);
      QuietRow(m, cs[1..], t, k, cfg);
    }
  }

  /** A row that is pending at the end of a run has been pending throughout. */
  lemma StillPending(s: State, cs: seq<Call>, t: State, k: Key, cfg: Config)
    requires Inv(s, cfg) && s.persistent && Run(s, cs, t, cfg) && k in s.db.rows && t.db.IsPending(k)
    ensures s.db.IsPending(k)
  {
    RunKeeps(s, cs, t, cfg);
  }

  lemma Around(s: State, pre: seq<Call>, f: Call, post: seq<Call>, t: State, cfg: Config)
      returns (m: State, u: State)
    requires Inv(s, cfg) && Run(s, pre + [f] + post, t, cfg)
    ensures Run(s, pre, m, cfg) && Enabled(m, f) && u == Step(m, f, cfg) && Run(u, post, t, cfg)
    ensures Inv(m, cfg) && Inv(u, cfg) && m.persistent == u.persistent == s.persistent
  {
    assert pre + [f] + post == pre + ([f] + post);
    m := RunSplit(s, pre, [f] + post, t, cfg);
    assert ([f] + post)[0] == f && ([f] + post)[1..] == post;
    u := Step(m, f, cfg);
    RunKeeps(s, pre, m, cfg);
    StepKeeps(m, f, cfg);
  }

  lemma DueAfter(m: State, f: Call, post: seq<Call>, t: State, k: Key, n: nat, cfg: Config)
    requires Inv(m, cfg) && m.persistent && k in m.db.rows && n == m.db.rows[k].retryCount + 1
    requires Enabled(m, f) && Run(Step(m, f, cfg), post, t, cfg)
    requires t.db.IsPending(k) && Fails(f, k) && forall c :: c in post ==> !Fails(c, k)
    ensures n < cfg.Max() && t.db.rows[k].nextRetryAt == Some(f.now + Delay(cfg.Base(), n))
  {
    StepKeeps(m, f, cfg);
    FailureRowStep(m, f, k, cfg);
    StillPending(Step(m, f, cfg), post, t, k, cfg);
    MemoryNeverKillsEarly(m, k, f.err, cfg, f.now);
    QuietDue(Step(m, f, cfg), post, t, k, cfg);
  }

  lemma CountBefore(s: State, pre: seq<Call>, m: State, f: Call, post: seq<Call>, t: State, k: Key, cfg: Config)
    requires Inv(s, cfg) && s.persistent && k in s.db.rows && t.db.IsPending(k)
    requires Run(s, pre, m, cfg) && Enabled(m, f) && Run(Step(m, f, cfg), post, t, cfg)
    ensures k in m.db.rows && m.db.rows[k].retryCount == s.db.rows[k].retryCount + Attempts(pre, k)
  {
    RunKeeps(s, pre, m, cfg);
    assert Run(m, [f] + post, t, cfg) by { RunCons(m, f, post, t, cfg); }
    StillPending(m, [f] + post, t, k, cfg);
    RowCountsAttempts(s, pre, m, k, cfg);
  }

  /** A row that is pending after a run, restarts included, is due at the time of its last failure
      plus the delay for the number of attempts by then, ... */
  lemma RowDueTold(s: State, pre: seq<Call>, f: Call, post: seq<Call>, t: State, k: Key, n: nat, cfg: Config)
    requires Inv(s, cfg) && s.persistent && Run(s, pre + [f] + post, t, cfg) && k in s.db.rows && t.db.IsPending(k)
    requires Fails(f, k) && forall c :: c in post ==> !Fails(c, k)
    requires n == s.db.rows[k].retryCount + Attempts(pre, k) + 1
    ensures n < cfg.Max() && t.db.rows[k].nextRetryAt == Some(f.now + Delay(cfg.Base(), n))
  {
    var m, u := Around(s, pre, f, post, t, cfg);
    CountBefore(s, pre, m, f, post, t, k, cfg);
    DueAfter(m, f, post, t, k, n, cfg);
  }

  /** ... and shows the error text of its last attempt, or none when that was a send without error. */
  lemma RowTextTold(s: State, pre: seq<Call>, f: Call, post: seq<Call>, t: State, k: Key, cfg: Config)
    requires Inv(s, cfg) && s.persistent && Run(s, pre + [f] + post, t, cfg) && k in s.db.rows && t.db.IsPending(k)
    requires IsAttempt(f, k) && forall c :: c in post ==> !IsAttempt(c, k)
    ensures t.db.rows[k].lastError == Text(f)
  {
    var m, u := Around(s, pre, f, post, t, cfg);
    RunKeeps(s, pre, m, cfg);
    if Fails(f, k) { FailureRowStep(m, f, k, cfg); } else { SendRowStep(m, f, k, cfg); }
    StillPending(u, post, t, k, cfg);
    QuietRow(u, post, t, k, cfg);
  }

  // --------------------------------------------------------------------------- entries

  lemma EntryStep(s: State, c: Call, k: Key, cfg: Config)
    requires RowsOk(s.db) && Enabled(s, c) && !c.CallCrash? && k in s.entries && k.outer != "" && k.inner != ""
    ensures k in Step(s, c, cfg).entries
    ensures var e, f := s.entries[k], Step(s, c, cfg).entries[k];
      && f.user == e.user
      && (f.dead <==> e.dead || (Fails(c, k) && e.retry + 1 >= cfg.Max()))
      && f.lastSent == (if c.CallMarkSent? && c.k == k then c.now / SECOND else e.lastSent)
      && f.lastError == (if Fails(c, k) then Text(c) else e.lastError)
      && f.nextRetryAt == (if Fails(c, k) && e.retry + 1 < cfg.Max()
                           then (c.now + Delay(cfg.Base(), e.retry + 1)) / SECOND else e.nextRetryAt)
  {
    StepEntry(s, c, k, cfg);
  }

  function SentSecond(k: Key): Call -> Option<nat> {
    (c: Call) => if c.CallMarkSent? && c.k == k then Some(c.now / SECOND) else None
  }

  function FailText(k: Key): Call -> Option<string> { (c: Call) => if Fails(c, k) then Some(Text(c)) else None }

  lemma FlagsStep(s: State, c: Call, k: Key, cfg: Config)
    requires RowsOk(s.db) && Enabled(s, c) && !c.CallCrash? && k in s.entries
    ensures k in Step(s, c, cfg).entries
    ensures Step(s, c, cfg).entries[k].acked <==> s.entries[k].acked || Receipt(c, k)
    ensures Step(s, c, cfg).entries[k].read <==> s.entries[k].read || Reads(c, k)
  {
    StepEntry(s, c, k, cfg);
  }

  /** As long as there is no restart, an entry is acknowledged exactly when it was or there has been
      a receipt, and read exactly when it was or there has been a read receipt. */
  lemma {:induction false} FlagsTold(s: State, cs: seq<Call>, t: State, k: Key, cfg: Config)
    requires Inv(s, cfg) && Run(s, cs, t, cfg) && CallCrash !in cs && k in s.entries
    ensures k in t.entries
    ensures t.entries[k].acked <==> s.entries[k].acked || exists c :: c in cs && Receipt(c, k)
    ensures t.entries[k].read <==> s.entries[k].read || exists c :: c in cs && Reads(c, k)
    decreases |cs|
  {
    if cs != [] {
      assert cs[0] in cs && cs == [cs[0]] + cs[1..];
      FlagsStep(s, cs[0], k, cfg);
      StepKeeps(s, cs[0], cfg);
      FlagsTold(Step(s, cs[0], cfg), cs[1..], t, k, cfg);
    }
  }

  /** It shows the time of the last send and the text of the last failure. */
  lemma {:induction false} EntryTold(s: State, cs: seq<Call>, t: State, k: Key, cfg: Config)
    requires Inv(s, cfg) && Run(s, cs, t, cfg) && CallCrash !in cs
    requires k in s.entries && k.outer != "" && k.inner != ""
    ensures k in t.entries
    ensures Some(t.entries[k].lastSent) == Latest(cs, SentSecond(k), Some(s.entries[k].lastSent))
    ensures Some(t.entries[k].lastError) == Latest(cs, FailText(k), Some(s.entries[k].lastError))
    decreases |cs|
  {
    if cs != [] {
      assert cs[0] in cs;
      EntryStep(s, cs[0], k, cfg);
      StepKeeps(s, cs[0], cfg);
      EntryTold(Step(s, cs[0], cfg), cs[1..], t, k, cfg);
    }
  }

  lemma {:induction false} QuietEntry(s: State, cs: seq<Call>, t: State, k: Key, cfg: Config)
    requires Inv(s, cfg) && Run(s, cs, t, cfg) && CallCrash !in cs && (forall c :: c in cs ==> !Fails(c, k))
    requires k in s.entries && k.outer != "" && k.inner != ""
    ensures k in t.entries
    ensures t.entries[k].dead == s.entries[k].dead && t.entries[k].nextRetryAt == s.entries[k].nextRetryAt
    decreases |cs|
  {
    if cs != [] {
      assert cs[0] in cs;
      EntryStep(s, cs[0], k, cfg);
      StepKeeps(s, cs[0], cfg);
      QuietEntry(Step(s, cs[0], cfg), cs[1..], t, k, cfg);
    }
  }

  /** The last failure has killed the entry exactly when the attempts by then, sends included, had
      used up the limit; and otherwise has set its retry time. */
  lemma EntryDueTold(s: State, pre: seq<Call>, f: Call, post: seq<Call>, t: State, k: Key, cfg: Config)
    requires Inv(s, cfg) && Run(s, pre + [f] + post, t, cfg) && CallCrash !in pre && CallCrash !in post
    requires k in s.entries && k.outer != "" && k.inner != ""
    requires Fails(f, k) && forall c :: c in post ==> !Fails(c, k)
    ensures k in t.entries
    ensures var n := s.entries[k].retry + Attempts(pre, k) + 1;
      && (t.entries[k].dead <==> n >= cfg.Max())
      && (n < cfg.Max() ==> t.entries[k].nextRetryAt == (f.now + Delay(cfg.Base(), n)) / SECOND)
  {
    var m, u := Around(s, pre, f, post, t, cfg);
    EntryCountsAttempts(s, pre, m, k, cfg);
    EntryStep(m, f, k, cfg);
    assert m.entries[k].dead ==> m.entries[k].retry >= cfg.Max();
    QuietEntry(u, post, t, k, cfg);
  }

  // ------------------------------------------------- what listings in memory go by

  /** In memory mode the messages listed at a start or a login are those with a delivery for which
      there has been no receipt, given up or not. */
  lemma UnreadTold(s: State, cs: seq<Call>, t: State, id: string, cfg: Config)
    requires Inv(s, cfg) && !s.persistent && Run(s, cs, t, cfg)
    requires forall c :: c in cs ==> !AddsTo(c, id)
    ensures id in UnreadIds(t) <==>
              exists k :: k in s.entries && k.outer == id && !s.entries[k].acked
                          && forall c :: c in cs ==> !Receipt(c, k)
    ensures forall user :: id in UnreadIdsOf(t, user) <==>
              Key(id, user) in s.entries && !s.entries[Key(id, user)].acked
              && forall c :: c in cs ==> !Receipt(c, Key(id, user))
  {
    RunKeeps(s, cs, t, cfg);
    SameRecipients(s, cs, t, id, cfg);
    forall k | k in s.entries && k.outer == id
      ensures k in t.entries && (!t.entries[k].acked && !t.entries[k].read
                                 <==> !s.entries[k].acked && forall c :: c in cs ==> !Receipt(c, k))
    {
      FlagsTold(s, cs, t, k, cfg);
    }
  }

  lemma {:induction false} SameRecipients(s: State, cs: seq<Call>, t: State, id: string, cfg: Config)
    requires Inv(s, cfg) && !s.persistent && Run(s, cs, t, cfg) && forall c :: c in cs ==> !AddsTo(c, id)
    ensures forall k: Key :: k.outer == id ==> (k in t.entries <==> k in s.entries)
    decreases |cs|
  {
    if cs != [] {
      var m := Step(s, cs[0], cfg);
      assert cs[0] in cs;
      StepKeeps(s, cs[0], cfg);
      forall k: Key | k.outer == id ensures k in m.entries <==> k in s.entries {
        if k in m.entries && k !in s.entries { NewEntry(s, cs[0], k, cfg); }
      }
      SameRecipients(m, cs[1..], t, id, cfg);
    }
  }

  /** The failure `c`, as number `n`, has set this retry time. */
  ghost predicate SetBy(c: Call, k: Key, n: nat, at: nat, cfg: Config) {
    Fails(c, k) && n >= 1 && at == (c.now + Delay(cfg.Base(), n)) / SECOND
  }

  lemma {:induction false} ScheduledHasCause(s: State, cs: seq<Call>, t: State, k: Key, cfg: Config)
    requires Inv(s, cfg) && Run(s, cs, t, cfg) && k in t.entries && t.entries[k].nextRetryAt > 0
    ensures || (k in s.entries && s.entries[k].nextRetryAt == t.entries[k].nextRetryAt)
            || exists c, n :: c in cs && SetBy(c, k, n, t.entries[k].nextRetryAt, cfg)
    decreases |cs|
  {
    if cs != [] {
      var c, m := cs[0], Step(s, cs[0], cfg);
      StepKeeps(s, c, cfg);
      RunKeeps(m, cs[1..], t, cfg);
      ScheduledHasCause(m, cs[1..], t, k, cfg);
      if k in m.entries && m.entries[k].nextRetryAt == t.entries[k].nextRetryAt {
        if k !in s.entries {
          NewEntry(s, c, k, cfg);
        } else if !c.CallCrash? {
          EntryStep(s, c, k, cfg);
          assert Fails(c, k) && s.entries[k].retry + 1 < cfg.Max() ==>
              SetBy(c, k, s.entries[k].retry + 1, m.entries[k].nextRetryAt, cfg);
        }
      } else {
        var d, n :| d in cs[1..] && SetBy(d, k, n, t.entries[k].nextRetryAt, cfg);
        assert d in cs;
      }
    }
  }

  /** In memory mode a tick finds only messages with a pending delivery that has failed and whose delay
      has passed. */
  lemma FoundHasCause(cs: seq<Call>, t: State, id: string, now: nat, cfg: Config) returns (k: Key, c: Call, n: nat)
    requires Run(InitState(false), cs, t, cfg) && id in DueIds(t, now)
    ensures k.outer == id && k in t.entries && t.entries[k].Pending()
    ensures c in cs && Fails(c, k) && n >= 1 && (c.now + Delay(cfg.Base(), n)) / SECOND <= now / SECOND
  {
    InitInv(false, cfg);
    k :| k in t.entries && k.outer == id && t.entries[k].Pending() && 0 < t.entries[k].nextRetryAt <= Unix(now);
    ScheduledHasCause(InitState(false), cs, t, k, cfg);
    c, n :| c in cs && SetBy(c, k, n, t.entries[k].nextRetryAt, cfg);
  }

  // ------------------------------------------------------------- results of a failure

  /** The call reports a delivery as given up exactly when it leaves it given up. */
  lemma DeadReported(s: State, k: Key, err: Option<string>, cfg: Config, now: nat)
    requires Inv(s, cfg) && k.outer != "" && k.inner != ""
    ensures var t := ScheduleRetry(s, k, err, cfg, now);
      && (!s.persistent && k in s.entries ==>
            k in t.entries && (RetryDead(s, k, cfg) <==> t.entries[k].dead))
      && (s.persistent && s.db.IsPending(k) ==>
            k in t.db.rows && (RetryDead(s, k, cfg) <==> t.db.rows[k].status == DEAD))
  {
    ScheduleRetryEffect(s, k, err, cfg, now);
    if s.persistent && s.db.IsPending(k) { MemoryNeverKillsEarly(s, k, err, cfg, now); }
  }

  /** A row that memory kills shows the count of memory, whatever it showed before. */
  lemma KilledRow(s: State, k: Key, err: Option<string>, cfg: Config, now: nat)
    requires s.persistent && k.outer != "" && k.inner != "" && k in s.entries && k in s.db.rows
    requires s.entries[k].retry + 1 >= cfg.Max()
    ensures var r, t := s.db.rows[k], ScheduleRetry(s, k, err, cfg, now);
      && k in t.entries && k in t.db.rows && t.entries[k].retry == s.entries[k].retry + 1 && t.entries[k].dead
      && t.db.rows[k] == Row(DEAD, t.entries[k].retry, None, t.entries[k].lastError, r.lastSendAt, r.ackedAt, r.readAt)
  {
    ScheduleRetryEffect(s, k, err, cfg, now);
  }

  // --------------------------------------------------------------- the message table

  /** The two unique indexes of the message table. */
  ghost predicate Unique(ms: seq<Message>) {
    forall i, j :: 0 <= i < j < |ms| ==>
      ms[i].serverId != ms[j].serverId && (ms[i].sender, ms[i].clientId) != (ms[j].sender, ms[j].clientId)
  }

  /** An insertion appends exactly when neither index has the message. */
  lemma InsertExact(db: Tables, m: Message)
    ensures db.InsertMessage(m).rows == db.rows && db.InsertMessage(m).order == db.order
    ensures db.InsertMessage(m).messages
            == if exists x :: x in db.messages && (x.serverId == m.serverId
                                                   || (x.sender == m.sender && x.clientId == m.clientId))
               then db.messages else db.messages + [m]
    ensures Unique(db.messages) ==> Unique(db.InsertMessage(m).messages)
  {
    if x :| x in db.messages && (x.serverId == m.serverId || (x.sender == m.sender && x.clientId == m.clientId)) {
      var i :| 0 <= i < |db.messages| && db.messages[i] == x;
      assert db.Conflicts(m);
    }
  }

  lemma TableStep(s: State, c: Call, cfg: Config)
    requires RowsOk(s.db) && Enabled(s, c)
    ensures Step(s, c, cfg).db.messages == s.db.messages
            || (c.CallSaveMessage? && Step(s, c, cfg).db.messages == s.db.InsertMessage(Stored(c.m, c.now)).messages)
  {
    if IsMark(c) {
      MarkEffects(s, c, cfg);
    } else if IsLoad(c) {
      LoadStep(s, c, cfg);
    } else if c.CallSaveMessage? {
      SavedTable(s, c.m, c.users, c.now);
    } else if c.CallGetRecipients? {
      RecipientsRow(s, c.id);
    }
  }

  lemma SavedTable(s: State, m: Message, users: seq<string>, now: nat)
    requires RowsOk(s.db)
    ensures var ms := SaveMessage(s, m, users, now).db.messages;
            ms == s.db.messages || ms == s.db.InsertMessage(Stored(m, now)).messages
  {
    if m.serverId != "" {
      if s.persistent { InsertRowsOk(s.db.InsertMessage(Stored(m, now)), m.serverId, users); }
      EnsureEntriesAdds(CacheMessage(SaveTables(s, m, users, now), m), m.serverId, users);
    }
  }

  /** Whatever is saved, over any run and across restarts, the table never holds two messages under
      one server id, nor two of one sender under one client id. */
  lemma {:induction false} RunUnique(s: State, cs: seq<Call>, t: State, cfg: Config)
    requires Inv(s, cfg) && Unique(s.db.messages) && Run(s, cs, t, cfg)
    ensures Unique(t.db.messages)
    decreases |cs|
  {
    if cs != [] {
      TableStep(s, cs[0], cfg);
      if cs[0].CallSaveMessage? { InsertExact(s.db, Stored(cs[0].m, cs[0].now)); }
      StepKeeps(s, cs[0], cfg);
      RunUnique(Step(s, cs[0], cfg), cs[1..], t, cfg);
    }
  }
}
