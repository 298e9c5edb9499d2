/** What the tables guarantee across restarts, and which states are final. */
module Durability {
  import opened Basics
  import opened Records
  import opened StoreSpec
  import opened StoreInvariants

  // ---------------------------------------------------------------- one key, one call

  /** An existing entry after a call that is not a restart. */
  function EntryAfter(e: Entry, k: Key, c: Call, cfg: Config): Entry {
    match c
    case CallMarkSent(j, err, now) => if j == k then SentEntry(e, now) else e
    case CallMarkAcked(j, now) => if j == k then e.(acked := true) else e
    case CallMarkRead(j, now) => if j == k then e.(acked := true, read := true) else e
    case CallScheduleRetry(j, err, now) =>
      if j == k && k.outer != "" && k.inner != "" then FailEntry(e, ErrText(err), cfg, now) else e
    case _ => e
  }

  lemma MarkEffects(s: State, c: Call, cfg: Config)
    requires IsMark(c)
    ensures Touches(s, Step(s, c, cfg), c.k)
    ensures c.k in s.entries ==> Step(s, c, cfg).entries[c.k] == EntryAfter(s.entries[c.k], c.k, c, cfg)
    ensures s.persistent && c.k in s.db.rows && c.k.outer != "" && c.k.inner != "" ==>
              Step(s, c, cfg).db.rows[c.k] == RowAfter(s, c.k, c, cfg)
  {
    match c
    case CallMarkSent(k, err, now) => MarkSentEffect(s, k, err, now);
    case CallMarkAcked(k, now) => MarkAckedEffect(s, k, now);
    case CallMarkRead(k, now) => MarkReadEffect(s, k, now);
    case CallScheduleRetry(k, err, now) => ScheduleRetryEffect(s, k, err, cfg, now);
  }

  lemma MarkEntry(s: State, c: Call, k: Key, cfg: Config)
    requires IsMark(c) && k in s.entries
    ensures k in Step(s, c, cfg).entries
    ensures Step(s, c, cfg).entries[k] == EntryAfter(s.entries[k], k, c, cfg)
  {
    MarkEffects(s, c, cfg);
  }

  lemma SaveStep(s: State, m: Message, users: seq<string>, now: nat)
    requires RowsOk(s.db)
    ensures var t := SaveMessage(s, m, users, now);
      && (forall k :: k in s.entries ==> k in t.entries && t.entries[k] == s.entries[k])
      && (forall k :: k in t.entries && k !in s.entries ==>
            t.entries[k] == FreshEntry(k.inner) && k.outer == m.serverId)
      && (forall k :: k in s.db.rows ==> k in t.db.rows && t.db.rows[k] == s.db.rows[k])
  {
    if m.serverId != "" {
      SaveTablesExtends(s, m, users, now);
      EnsureEntriesAdds(CacheMessage(SaveTables(s, m, users, now), m), m.serverId, users);
    }
  }

  /** Entries change only by the call that names them, in the way that call says. */
  lemma StepEntry(s: State, c: Call, k: Key, cfg: Config)
    requires RowsOk(s.db) && Enabled(s, c) && !c.CallCrash? && k in s.entries
    ensures k in Step(s, c, cfg).entries
    ensures Step(s, c, cfg).entries[k] == EntryAfter(s.entries[k], k, c, cfg)
  {
    if IsMark(c) {
      MarkEntry(s, c, k, cfg);
    } else if IsLoad(c) {
      LoadStep(s, c, cfg);
    } else if c.CallSaveMessage? {
      SaveStep(s, c.m, c.users, c.now);
    } else if c.CallGetRecipients? {
      EnsureEntriesAdds(s, c.id, UsersOf(s.db.PendingKeys(), c.id));
    }
  }

  /** The message is in neither memory nor the table, so its pending rows are given up. */
  predicate Forgotten(s: State, id: string) {
    id !in s.messages && id != "" && FindByServer(s.db.messages, id).None?
  }

  /** An existing row after any call, restarts included. */
  function RowAfter(s: State, k: Key, c: Call, cfg: Config): Row
    requires k in s.db.rows
  {
    var r := s.db.rows[k];
    match c
    case CallGetByServer(id) =>
      if id == k.outer && Forgotten(s, id) && r.status == PENDING then Orphaned(r, "message not found") else r
    case CallMarkSent(j, err, now) => if j == k then SentRow(r, err, now) else r
    case CallMarkAcked(j, now) => if j == k then AckedRow(r, now) else r
    case CallMarkRead(j, now) => if j == k then ReadRow(r, now) else r
    case CallScheduleRetry(j, err, now) => if j == k then FailedRow(s, k, ErrText(err), cfg, now) else r
    case _ => r
  }

  lemma MarkRow(s: State, c: Call, k: Key, cfg: Config)
    requires IsMark(c) && s.persistent && k in s.db.rows && k.outer != "" && k.inner != ""
    ensures k in Step(s, c, cfg).db.rows
    ensures Step(s, c, cfg).db.rows[k] == RowAfter(s, k, c, cfg)
  {
    MarkEffects(s, c, cfg);
  }

  lemma OtherRow(s: State, c: Call, k: Key, cfg: Config)
    requires RowsOk(s.db) && !IsMark(c) && !IsLoad(c) && !c.CallGetByServer? && k in s.db.rows
    ensures k in Step(s, c, cfg).db.rows
    ensures Step(s, c, cfg).db.rows[k] == RowAfter(s, k, c, cfg)
  {
    if c.CallSaveMessage? {
      SaveStep(s, c.m, c.users, c.now);
    } else if c.CallGetRecipients? {
      RecipientsRow(s, c.id);
    } else if c.CallSaveDelivery? {
      DeliveryRow(s, c.k, k);
    }
  }

  lemma RecipientsRow(s: State, id: string)
    ensures GetRecipients(s, id).db == s.db
  {
    EnsureEntriesAdds(s, id, UsersOf(s.db.PendingKeys(), id));
  }

  lemma DeliveryRow(s: State, j: Key, k: Key)
    requires k in s.db.rows
    ensures k in SaveDelivery(s, j).db.rows && SaveDelivery(s, j).db.rows[k] == s.db.rows[k]
  {
  }

  lemma ByServerRow(s: State, id: string, k: Key, cfg: Config)
    requires s.persistent && k in s.db.rows
    ensures k in GetByServer(s, id).db.rows
    ensures GetByServer(s, id).db.rows[k] == RowAfter(s, k, CallGetByServer(id), cfg)
  {
  }

  /** Rows change only by the calls that name them, in the way those calls say. */
  lemma StepRow(s: State, c: Call, k: Key, cfg: Config)
    requires RowsOk(s.db) && Enabled(s, c) && s.persistent && k in s.db.rows
    ensures k in Step(s, c, cfg).db.rows
    ensures Step(s, c, cfg).db.rows[k] == RowAfter(s, k, c, cfg)
  {
    if IsMark(c) {
      MarkRow(s, c, k, cfg);
    } else if IsLoad(c) {
      LoadStep(s, c, cfg);
    } else if c.CallGetByServer? {
      ByServerRow(s, c.id, k, cfg);
    } else {
      OtherRow(s, c, k, cfg);
    }
  }

  // ------------------------------------------------------------------- recovery

  lemma {:induction false} DedupeExact(xs: seq<string>)
    ensures NoDup(Dedupe(xs))
    ensures forall x :: x in Dedupe(xs) <==> x in xs && x != ""
    decreases |xs|
  {
    if xs != [] {
      DedupeExact(xs[..|xs| - 1]);
      assert xs == xs[..|xs| - 1] + [xs[|xs| - 1]];
    }
  }

  /** The ids that recovery hands to the queue, in table order. */
  function RecoverIds(s: State, limit: int): seq<string> {
    Dedupe(Outers(First(s.db.PendingKeys(), limit)))
  }

  lemma {:induction false} OutersHold(ks: seq<Key>)
    ensures forall id :: id in Outers(ks) <==> exists k :: k in ks && k.outer == id
    decreases |ks|
  {
    forall id
      ensures id in Outers(ks) <==> exists k :: k in ks && k.outer == id
    {
      if id in Outers(ks) {
        var i :| 0 <= i < |ks| && Outers(ks)[i] == id;
        assert ks[i] in ks;
      }
      if k :| k in ks && k.outer == id {
        var i :| 0 <= i < |ks| && ks[i] == k;
        assert Outers(ks)[i] == id;
      }
    }
  }

  /** The rows a recovery loads, and those it leaves behind. */
  function Loaded(s: State, limit: int): seq<Key> { First(s.db.PendingKeys(), limit) }

  function LeftBehind(s: State, limit: int): seq<Key> { s.db.PendingKeys()[|Loaded(s, limit)|..] }

  /** `j` was inserted after `k`. */
  ghost predicate After(order: seq<Key>, j: Key, k: Key) {
    exists p, q :: AfterAt(order, j, k, p, q)
  }

  ghost predicate AfterAt(order: seq<Key>, j: Key, k: Key, p: int, q: int) {
    0 <= p < q < |order| && order[p] == k && order[q] == j
  }

  ghost predicate Ordered(order: seq<Key>, ps: seq<Key>) {
    forall i, j :: 0 <= i < j < |ps| ==> After(order, ps[j], ps[i])
  }

  lemma {:induction false} PendingInOrder(db: Tables, ks: seq<Key>)
    ensures Ordered(ks, db.PendingIn(ks))
    decreases |ks|
  {
    if ks != [] {
      var rest, ps := ks[1..], db.PendingIn(ks);
      PendingInOrder(db, rest);
      PendingInExact(db, rest);
      forall i, j | 0 <= i < j < |ps|
        ensures After(ks, ps[j], ps[i])
      {
        var qs := db.PendingIn(rest);
        if db.IsPending(ks[0]) && i == 0 {
          assert ps[j] == qs[j - 1] && ps[j] in rest;
          var q :| 0 <= q < |rest| && rest[q] == ps[j];
          assert AfterAt(ks, ps[j], ps[i], 0, q + 1);
        } else {
          var d := if db.IsPending(ks[0]) then 1 else 0;
          assert ps[i] == qs[i - d] && ps[j] == qs[j - d];
          assert After(rest, qs[j - d], qs[i - d]);
          AfterLater(ks, ps[j], ps[i]);
        }
      }
    }
  }

  lemma AfterLater(ks: seq<Key>, j: Key, k: Key)
    requires ks != [] && After(ks[1..], j, k)
    ensures After(ks, j, k)
  {
    var p, q :| AfterAt(ks[1..], j, k, p, q);
    assert AfterAt(ks, j, k, p + 1, q + 1);
  }

  /** A recovery loads pending rows, each once: all of them when they fit in the limit or there
      is none, otherwise exactly `limit` of them. */
  lemma LoadedExact(s: State, limit: int)
    requires RowsOk(s.db)
    ensures NoDup(Loaded(s, limit)) && NoDup(LeftBehind(s, limit))
    ensures forall k :: k in s.db.rows && s.db.IsPending(k) <==> k in Loaded(s, limit) || k in LeftBehind(s, limit)
    ensures forall k :: k in Loaded(s, limit) ==> k !in LeftBehind(s, limit)
    ensures if limit <= 0 || |s.db.PendingKeys()| <= limit
            then LeftBehind(s, limit) == []
            else |Loaded(s, limit)| == limit
  {
    var ps, xs, ys := s.db.PendingKeys(), Loaded(s, limit), LeftBehind(s, limit);
    PendingInExact(s.db, s.db.order);
    assert xs == ps[..|xs|] && ys == ps[|xs|..];
    Parts(ps, |xs|);
  }

  lemma Parts(ps: seq<Key>, n: nat)
    requires NoDup(ps) && n <= |ps|
    ensures NoDup(ps[..n]) && NoDup(ps[n..])
    ensures forall k :: k in ps <==> k in ps[..n] || k in ps[n..]
    ensures forall k :: k in ps[..n] ==> k !in ps[n..]
  {
    assert ps == ps[..n] + ps[n..];
  }

  /** And they are the oldest: what is left behind was inserted after everything loaded. */
  lemma LoadedAreOldest(s: State, limit: int, k: Key, j: Key)
    requires k in Loaded(s, limit) && j in LeftBehind(s, limit)
    ensures After(s.db.order, j, k)
  {
    var ps, xs, ys := s.db.PendingKeys(), Loaded(s, limit), LeftBehind(s, limit);
    PendingInOrder(s.db, s.db.order);
    var p :| 0 <= p < |xs| && xs[p] == k;
    var q :| 0 <= q < |ys| && ys[q] == j;
    assert ps[p] == k && ps[|xs| + q] == j;
  }

  /** A recovery returns exactly the ids of the rows it loads, each once. */
  lemma RecoverIdsExact(s: State, limit: int, cfg: Config)
    requires Inv(s, cfg)
    ensures NoDup(RecoverIds(s, limit))
    ensures forall id :: id in RecoverIds(s, limit) <==> exists k :: k in Loaded(s, limit) && k.outer == id
  {
    var ks := Loaded(s, limit);
    LoadedExact(s, limit);
    DedupeExact(Outers(ks));
    OutersHold(ks);
  }

  /** In any good state, a recovery leaves every row it loads with a pending entry, adds no other
      entry, changes none, and writes nothing. */
  lemma RecoverRestores(s: State, limit: int, cfg: Config)
    requires Inv(s, cfg) && s.persistent
    ensures Recover(s, limit).db == s.db
    ensures forall k :: k in Loaded(s, limit) ==>
              k in Recover(s, limit).entries && Recover(s, limit).entries[k].Pending()
    ensures forall k :: k in Recover(s, limit).entries <==> k in s.entries || k in Loaded(s, limit)
    ensures forall k :: k in s.entries ==> Recover(s, limit).entries[k] == s.entries[k]
  {
    LoadedExact(s, limit);
    LoadAdds(s, Loaded(s, limit));
    LoadKeeps(s, Loaded(s, limit), cfg);
    forall k | k in Loaded(s, limit)
      ensures k in Recover(s, limit).entries && Recover(s, limit).entries[k].Pending()
    {
      assert CoupledAt(Recover(s, limit), k);
    }
  }

  /** After a restart in any reachable state and whatever the limit, recovery rebuilds exactly
      one fresh entry for each row it loads and returns exactly their ids. `LoadedExact` says
      which rows these are. */
  lemma CrashThenRecover(s: State, cs: seq<Call>, t: State, limit: int, cfg: Config)
    requires Inv(s, cfg) && s.persistent && Run(s, cs, t, cfg)
    ensures var c := CrashState(t); var r := Recover(c, limit);
      && r.db == t.db
      && (forall k :: k in r.entries <==> k in Loaded(t, limit))
      && (forall k :: k in r.entries ==> r.entries[k] == FreshEntry(k.inner))
      && NoDup(RecoverIds(c, limit))
      && (forall id :: id in RecoverIds(c, limit) <==> exists k :: k in r.entries && k.outer == id)
  {
    RunKeeps(s, cs, t, cfg);
    var c := CrashState(t);
    CrashKeeps(t, cfg);
    RecoverIdsExact(c, limit, cfg);
    RecoverRestores(c, limit, cfg);
    RecoverFresh(c, limit, cfg);
  }

  lemma RecoverFresh(c: State, limit: int, cfg: Config)
    requires Inv(c, cfg) && c.persistent && c.entries == map[]
    ensures forall k :: k in Recover(c, limit).entries ==> Recover(c, limit).entries[k] == FreshEntry(k.inner)
  {
    LoadStep(c, CallRecover(limit), cfg);
  }

  // ------------------------------------------------------------- retry accounting

  /** For a pending row, whether this failure is final, and the row's next state, depend on
      the row alone: the memory counter never kills before the durable one would. Only the
      stored count of a killed row can differ. */
  lemma MemoryNeverKillsEarly(s: State, k: Key, err: Option<string>, cfg: Config, now: nat)
    requires Inv(s, cfg) && s.persistent && s.db.IsPending(k)
    ensures RetryDead(s, k, cfg) <==> s.db.rows[k].retryCount + 1 >= cfg.Max()
    ensures !RetryMissing(s, k, cfg)
    ensures var r := ScheduleRetry(s, k, err, cfg, now).db.rows[k];
            r == FailRow(s.db.rows[k], ErrText(err), cfg, now).(retryCount := r.retryCount)
    ensures !RetryDead(s, k, cfg) ==>
              ScheduleRetry(s, k, err, cfg, now).db.rows[k].retryCount == s.db.rows[k].retryCount + 1
  {
    if k in s.entries { assert CoupledAt(s, k); }
  }

  /** A failure that leaves the row pending. */
  ghost predicate Reschedules(s: State, c: Call, k: Key, cfg: Config) {
    c.CallScheduleRetry? && c.k == k && s.db.IsPending(k) && Step(s, c, cfg).db.IsPending(k)
  }

  ghost function RescheduleCount(s: State, cs: seq<Call>, k: Key, cfg: Config): nat
    decreases |cs|
  {
    if cs == [] then 0
    else (if Reschedules(s, cs[0], k, cfg) then 1 else 0) + RescheduleCount(Step(s, cs[0], cfg), cs[1..], k, cfg)
  }

  /** How many more times the row can be put back. */
  ghost function Budget(s: State, k: Key, cfg: Config): nat {
    if k !in s.db.rows then cfg.Max() - 1
    else if s.db.rows[k].status != PENDING || s.db.rows[k].retryCount >= cfg.Max() then 0
    else cfg.Max() - 1 - s.db.rows[k].retryCount
  }

  lemma BudgetStep(s: State, c: Call, k: Key, cfg: Config)
    requires Inv(s, cfg) && s.persistent && Enabled(s, c)
    ensures Budget(Step(s, c, cfg), k, cfg) + (if Reschedules(s, c, k, cfg) then 1 else 0) <= Budget(s, k, cfg)
  {
    if k in s.db.rows { StepRow(s, c, k, cfg); }
  }

  /** Across any number of restarts a row is put back at most maxRetries - 1 times, counting
      from its insertion, and never more than its remaining budget. */
  lemma {:induction false} RescheduleBound(s: State, cs: seq<Call>, t: State, k: Key, cfg: Config)
    requires Inv(s, cfg) && s.persistent && Run(s, cs, t, cfg)
    ensures RescheduleCount(s, cs, k, cfg) + Budget(t, k, cfg) <= Budget(s, k, cfg) <= cfg.Max() - 1
    decreases |cs|
  {
    if cs != [] {
      BudgetStep(s, cs[0], k, cfg);
      StepKeeps(s, cs[0], cfg);
      RescheduleBound(Step(s, cs[0], cfg), cs[1..], t, k, cfg);
    }
  }

  // ----------------------------------------------------------- conservation of attempts

  /** Calls that count as an attempt at the key. */
  predicate IsAttempt(c: Call, k: Key) {
    (c.CallMarkSent? || c.CallScheduleRetry?) && c.k == k
  }

  predicate Fails(c: Call, k: Key) { c.CallScheduleRetry? && c.k == k }

  function Attempts(cs: seq<Call>, k: Key): nat {
    if cs == [] then 0 else (if IsAttempt(cs[0], k) then 1 else 0) + Attempts(cs[1..], k)
  }

  /** Whatever is interleaved, receipts included: the counter of an entry in memory has grown
      by exactly the number of attempts made at it. */
  lemma {:induction false} EntryCountsAttempts(s: State, cs: seq<Call>, t: State, k: Key, cfg: Config)
    requires Inv(s, cfg) && Run(s, cs, t, cfg) && CallCrash !in cs
    requires k in s.entries && k.outer != "" && k.inner != ""
    ensures k in t.entries && t.entries[k].retry == s.entries[k].retry + Attempts(cs, k)
    decreases |cs|
  {
    if cs != [] {
      StepEntry(s, cs[0], k, cfg);
      StepKeeps(s, cs[0], cfg);
      EntryCountsAttempts(Step(s, cs[0], cfg), cs[1..], t, k, cfg);
    }
  }

  lemma PendingRowCounts(s: State, c: Call, k: Key, cfg: Config)
    requires Inv(s, cfg) && s.persistent && Enabled(s, c) && k in s.db.rows
    ensures k in Step(s, c, cfg).db.rows
    ensures Step(s, c, cfg).db.IsPending(k) ==>
              Step(s, c, cfg).db.rows[k].retryCount == s.db.rows[k].retryCount + if IsAttempt(c, k) then 1 else 0
  {
    StepRow(s, c, k, cfg);
  }

  /** The same for a row that is still pending, across any number of restarts. */
  lemma {:induction false} RowCountsAttempts(s: State, cs: seq<Call>, t: State, k: Key, cfg: Config)
    requires Inv(s, cfg) && s.persistent && Run(s, cs, t, cfg) && k in s.db.rows && t.db.IsPending(k)
    ensures t.db.rows[k].retryCount == s.db.rows[k].retryCount + Attempts(cs, k)
    decreases |cs|
  {
    if cs != [] {
      var m := Step(s, cs[0], cfg);
      PendingRowCounts(s, cs[0], k, cfg);
      StepKeeps(s, cs[0], cfg);
      RunKeeps(m, cs[1..], t, cfg);
      RowCountsAttempts(m, cs[1..], t, k, cfg);
    }
  }

  // ------------------------------------------------------------ exactly when it is given up

  /** The message is in the table. It stays there, so its rows are never orphaned. */
  predicate Kept(s: State, id: string) { FindByServer(s.db.messages, id).Some? }

  lemma TableGrows(s: State, c: Call, cfg: Config)
    requires RowsOk(s.db) && Enabled(s, c)
    ensures s.db.messages <= Step(s, c, cfg).db.messages
  {
    if IsMark(c) {
      MarkEffects(s, c, cfg);
    } else if IsLoad(c) {
      LoadStep(s, c, cfg);
    } else if c.CallSaveMessage? {
      SaveGrows(s, c.m, c.users, c.now);
    } else if c.CallGetRecipients? {
      RecipientsRow(s, c.id);
    }
  }

  lemma SaveGrows(s: State, m: Message, users: seq<string>, now: nat)
    requires RowsOk(s.db)
    ensures s.db.messages <= SaveMessage(s, m, users, now).db.messages
  {
    if m.serverId != "" {
      if s.persistent { InsertRowsOk(s.db.InsertMessage(Stored(m, now)), m.serverId, users); }
      EnsureEntriesAdds(CacheMessage(SaveTables(s, m, users, now), m), m.serverId, users);
    }
  }

  lemma KeptStays(s: State, c: Call, id: string, cfg: Config)
    requires RowsOk(s.db) && Enabled(s, c) && Kept(s, id)
    ensures Kept(Step(s, c, cfg), id)
  {
    TableGrows(s, c, cfg);
    var m := FindByServer(s.db.messages, id).value;
    var i :| 0 <= i < |s.db.messages| && s.db.messages[i] == m;
    assert Step(s, c, cfg).db.messages[i] == m;
  }

  /** Of the calls that mark a delivery, only failures name this one. */
  predicate OnlyFailures(c: Call, k: Key) {
    !((c.CallMarkSent? || c.CallMarkAcked? || c.CallMarkRead?) && c.k == k)
  }

  lemma DeadRowStep(s: State, c: Call, k: Key, cfg: Config)
    requires Inv(s, cfg) && s.persistent && Enabled(s, c) && OnlyFailures(c, k)
    requires k in s.db.rows && s.db.rows[k].status == DEAD
    ensures k in Step(s, c, cfg).db.rows && Step(s, c, cfg).db.rows[k].status == DEAD
  {
    StepRow(s, c, k, cfg);
  }

  lemma {:induction false} DeadRowStays(s: State, cs: seq<Call>, t: State, k: Key, cfg: Config)
    requires Inv(s, cfg) && s.persistent && Run(s, cs, t, cfg) && (forall c :: c in cs ==> OnlyFailures(c, k))
    requires k in s.db.rows && s.db.rows[k].status == DEAD
    ensures k in t.db.rows && t.db.rows[k].status == DEAD
    decreases |cs|
  {
    if cs != [] {
      DeadRowStep(s, cs[0], k, cfg);
      StepKeeps(s, cs[0], cfg);
      DeadRowStays(Step(s, cs[0], cfg), cs[1..], t, k, cfg);
    }
  }

  lemma PendingRowStep(s: State, c: Call, k: Key, cfg: Config)
    requires Inv(s, cfg) && s.persistent && Enabled(s, c) && OnlyFailures(c, k)
    requires s.db.IsPending(k) && Kept(s, k.outer)
    ensures k in Step(s, c, cfg).db.rows
    ensures !IsAttempt(c, k) ==> Step(s, c, cfg).db.rows[k] == s.db.rows[k]
    ensures IsAttempt(c, k) ==> var r := Step(s, c, cfg).db.rows[k];
              r == FailRow(s.db.rows[k], ErrText(c.err), cfg, c.now).(retryCount := r.retryCount)
              && (r.status == PENDING ==> r.retryCount == s.db.rows[k].retryCount + 1)
  {
    StepRow(s, c, k, cfg);
    if IsAttempt(c, k) { MemoryNeverKillsEarly(s, k, c.err, cfg, c.now); }
  }

  /** When only failures mark a delivery of a stored message, then over every interleaving and
      any number of restarts its row is dead exactly when the attempts have used up the limit,
      and otherwise still pending. */
  lemma {:induction false} DeadExactly(s: State, cs: seq<Call>, t: State, k: Key, cfg: Config)
    requires Inv(s, cfg) && s.persistent && Run(s, cs, t, cfg) && (forall c :: c in cs ==> OnlyFailures(c, k))
    requires s.db.IsPending(k) && Kept(s, k.outer)
    ensures k in t.db.rows
    ensures t.db.rows[k].status == DEAD <==>
              Attempts(cs, k) > 0 && s.db.rows[k].retryCount + Attempts(cs, k) >= cfg.Max()
    ensures t.db.rows[k].status == DEAD || t.db.rows[k].status == PENDING
    decreases |cs|
  {
    if cs != [] {
      var c, m := cs[0], Step(s, cs[0], cfg);
      StepKeeps(s, c, cfg);
      KeptStays(s, c, k.outer, cfg);
      PendingRowStep(s, c, k, cfg);
      if m.db.IsPending(k) {
        DeadExactly(m, cs[1..], t, k, cfg);
      } else {
        DeadRowStays(m, cs[1..], t, k, cfg);
      }
    }
  }

  // ----------------------------------------------------------------- final states

  /** The only ways a row that has left pending changes status: a read receipt, or a failure
      counted against an entry that memory has already exhausted. */
  ghost predicate Unsettles(s: State, c: Call, k: Key, cfg: Config)
    requires k in s.db.rows
  {
    || (c.CallMarkRead? && c.k == k && s.db.rows[k].status != READ)
    || (c.CallScheduleRetry? && c.k == k && MemoryKills(s, k, cfg) && s.db.rows[k].status != DEAD)
  }

  lemma SettledRowChanges(s: State, c: Call, k: Key, cfg: Config)
    requires Inv(s, cfg) && s.persistent && Enabled(s, c)
    requires k in s.db.rows && s.db.rows[k].status != PENDING
    ensures k in Step(s, c, cfg).db.rows
    ensures Step(s, c, cfg).db.rows[k].status != s.db.rows[k].status <==> Unsettles(s, c, k, cfg)
  {
    StepRow(s, c, k, cfg);
  }

  /** `n` failed attempts in a row. */
  function Failures(k: Key, n: nat): seq<Call> {
    seq(n, i requires 0 <= i < n => CallScheduleRetry(k, None, i))
  }

  lemma {:induction false} FailuresUnsettle(s: State, k: Key, n: nat, at: nat, cfg: Config) returns (t: State)
    requires s.persistent && k.outer != "" && k.inner != "" && k in s.entries && k in s.db.rows
    requires s.db.rows[k].status == READ && n >= 1 && s.entries[k].retry + n == cfg.Max() && at + n == cfg.Max()
    ensures Run(s, Failures(k, cfg.Max())[at..], t, cfg)
    ensures k in t.db.rows && t.db.rows[k].status == DEAD
    decreases n
  {
    var cs := Failures(k, cfg.Max())[at..];
    var m := Step(s, cs[0], cfg);
    ScheduleRetryEffect(s, k, None, cfg, at);
    assert cs[1..] == Failures(k, cfg.Max())[at + 1..];
    if n == 1 {
      t := m;
      assert cs[1..] == [];
    } else {
      t := FailuresUnsettle(m, k, n - 1, at + 1, cfg);
    }
  }

  /** Whatever the limit, a delivery the recipient has read is written off by as many failed
      attempts as the limit allows. */
  lemma ReadCanBecomeDead(k: Key, cfg: Config) returns (t: State)
    requires k.outer != "" && k.inner != ""
    ensures Run(InitState(true), [CallSaveDelivery(k), CallMarkRead(k, 1)] + Failures(k, cfg.Max()), t, cfg)
    ensures k in t.db.rows && t.db.rows[k].status == DEAD
  {
    SavedAndRead(k);
    var s1 := SaveDelivery(InitState(true), k);
    var s2 := MarkRead(s1, k, 1);
    t := FailuresUnsettle(s2, k, cfg.Max(), 0, cfg);
    var fs := Failures(k, cfg.Max());
    assert fs[0..] == fs;
    RunCons(s1, CallMarkRead(k, 1), fs, t, cfg);
    RunCons(InitState(true), CallSaveDelivery(k), [CallMarkRead(k, 1)] + fs, t, cfg);
    assert [CallSaveDelivery(k), CallMarkRead(k, 1)] + fs == [CallSaveDelivery(k)] + ([CallMarkRead(k, 1)] + fs);
  }

  lemma RunCons(s: State, c: Call, cs: seq<Call>, t: State, cfg: Config)
    requires Enabled(s, c) && Run(Step(s, c, cfg), cs, t, cfg)
    ensures Run(s, [c] + cs, t, cfg)
  {
    assert ([c] + cs)[1..] == cs;
  }

  lemma SavedAndRead(k: Key)
    requires k.outer != "" && k.inner != ""
    ensures var s := MarkRead(SaveDelivery(InitState(true), k), k, 1);
            s.persistent && k in s.entries && k in s.db.rows && s.entries[k].retry == 0 && s.db.rows[k].status == READ
  {
    SavedOnce(k);
    MarkReadEffect(SaveDelivery(InitState(true), k), k, 1);
  }

  lemma SavedOnce(k: Key)
    requires k.outer != "" && k.inner != ""
    ensures var s := SaveDelivery(InitState(true), k);
            s.persistent && k in s.entries && k in s.db.rows && s.entries[k].retry == 0
  {
  }

  // ------------------------------------------------------- scheduled stays findable

  function TimeOf(c: Call): nat {
    match c
    case CallMarkSent(_, _, now) => now
    case CallMarkAcked(_, now) => now
    case CallMarkRead(_, now) => now
    case CallScheduleRetry(_, _, now) => now
    case CallSaveMessage(_, _, now) => now
    case CallGetDue(now, _, _) => now
    case _ => SECOND
  }

  lemma UnixPositive(t: nat)
    requires t >= SECOND
    ensures Unix(t) > 0
  {
  }

  lemma ScheduledStep(e: Entry, k: Key, c: Call, cfg: Config)
    requires e.nextRetryAt > 0 && TimeOf(c) >= SECOND
    ensures EntryAfter(e, k, c, cfg).nextRetryAt > 0
  {
    if c.CallScheduleRetry? {
      UnixPositive(c.now + Delay(cfg.Base(), e.retry + 1));
    }
  }

  /** Without a restart, and once the clock has passed its first second, an entry that has a
      retry time keeps having one. So if it is still pending it is due from that time on,
      whatever happened to its id in the queue. */
  lemma {:induction false} ScheduledStaysFindable(s: State, cs: seq<Call>, t: State, k: Key, now: nat, cfg: Config)
    requires Inv(s, cfg) && Run(s, cs, t, cfg) && CallCrash !in cs
    requires forall c :: c in cs ==> TimeOf(c) >= SECOND
    requires k in s.entries && s.entries[k].nextRetryAt > 0
    ensures k in t.entries && t.entries[k].nextRetryAt > 0
    ensures t.entries[k].Pending() && t.entries[k].nextRetryAt <= Unix(now) ==> k.outer in DueIds(t, now)
    decreases |cs|
  {
    if cs != [] {
      StepEntry(s, cs[0], k, cfg);
      StepKeeps(s, cs[0], cfg);
      ScheduledStep(s.entries[k], k, cs[0], cfg);
      ScheduledStaysFindable(Step(s, cs[0], cfg), cs[1..], t, k, now, cfg);
    }
  }

  lemma ScheduledRowStep(s: State, c: Call, k: Key, cfg: Config)
    requires Inv(s, cfg) && s.persistent && Enabled(s, c)
    requires k in s.db.rows && s.db.rows[k].nextRetryAt.Some?
    ensures k in Step(s, c, cfg).db.rows
    ensures Step(s, c, cfg).db.IsPending(k) ==> Step(s, c, cfg).db.rows[k].nextRetryAt.Some?
  {
    StepRow(s, c, k, cfg);
  }

  /** The same for the table, across any number of restarts: a row that has a retry time keeps
      one for as long as it is pending, and then it is due from that time on. */
  lemma {:induction false} ScheduledRowStaysFindable(s: State, cs: seq<Call>, t: State, k: Key, now: nat, cfg: Config)
    requires Inv(s, cfg) && s.persistent && Run(s, cs, t, cfg)
    requires k in s.db.rows && s.db.rows[k].nextRetryAt.Some? && t.db.IsPending(k)
    ensures t.db.rows[k].nextRetryAt.Some?
    ensures t.db.IsDue(k, now) <==> t.db.DueAt(k) <= now
    decreases |cs|
  {
    if cs != [] {
      var m := Step(s, cs[0], cfg);
      ScheduledRowStep(s, cs[0], k, cfg);
      StepKeeps(s, cs[0], cfg);
      RunKeeps(m, cs[1..], t, cfg);
      ScheduledRowStaysFindable(m, cs[1..], t, k, now, cfg);
    }
  }

  /** A tick over the table returns exactly the ids of the rows answered, each once. When fewer
      than the limit are answered, or there is none, these are all the ids with a due row;
      otherwise no row left out was due before any row answered. */
  lemma DueIdsExact(db: Tables, now: nat, limit: int, ks: seq<Key>)
    requires DueAnswer(db, now, limit, ks) && (forall k :: k in db.rows ==> k.outer != "")
    ensures NoDup(Dedupe(Outers(ks)))
    ensures forall id :: id in Dedupe(Outers(ks)) <==> exists k :: k in ks && k.outer == id
    ensures forall k :: k in ks ==> k in db.rows && db.IsDue(k, now)
    ensures limit <= 0 || |ks| < limit ==>
              forall k :: k in db.rows && db.IsDue(k, now) ==> k.outer in Dedupe(Outers(ks))
    ensures forall k, j :: k in db.rows && db.IsDue(k, now) && k !in ks && j in ks ==> db.DueAt(j) <= db.DueAt(k)
  {
    DedupeExact(Outers(ks));
    OutersHold(ks);
    forall k, j | k in db.rows && db.IsDue(k, now) && k !in ks && j in ks
      ensures db.DueAt(j) <= db.DueAt(k)
    {
      var p :| 0 <= p < |ks| && ks[p] == j;
    }
  }

  ghost predicate Settled(s: State, id: string) {
    forall k :: k in s.entries && k.outer == id ==> !s.entries[k].Pending()
  }

  /** Calls that can add a recipient to the message. */
  predicate AddsTo(c: Call, id: string) {
    (c.CallSaveMessage? && c.m.serverId == id) || (c.CallSaveDelivery? && c.k.outer == id) || c.CallCrash?
  }

  lemma SettledStep(s: State, c: Call, id: string, cfg: Config)
    requires Inv(s, cfg) && Enabled(s, c) && !s.persistent && Settled(s, id) && !AddsTo(c, id)
    ensures Settled(Step(s, c, cfg), id)
  {
    var t := Step(s, c, cfg);
    if c.CallSaveMessage? { SaveStep(s, c.m, c.users, c.now); }
    if IsLoad(c) { LoadStep(s, c, cfg); }
    forall k | k in t.entries && k.outer == id
      ensures !t.entries[k].Pending()
    {
      assert k in s.entries;
      StepEntry(s, c, k, cfg);
    }
  }

  /** In memory mode a message with nothing pending is never found by a retry tick again. */
  lemma {:induction false} SettledNeverDue(s: State, cs: seq<Call>, t: State, id: string, now: nat, cfg: Config)
    requires Inv(s, cfg) && !s.persistent && Run(s, cs, t, cfg)
    requires Settled(s, id) && forall c :: c in cs ==> !AddsTo(c, id)
    ensures Settled(t, id) && id !in DueIds(t, now)
    decreases |cs|
  {
    if cs != [] {
      SettledStep(s, cs[0], id, cfg);
      StepKeeps(s, cs[0], cfg);
      SettledNeverDue(Step(s, cs[0], cfg), cs[1..], t, id, now, cfg);
    }
  }
}
