/** What every store call keeps, and what therefore holds over every run of store calls,
    with crashes anywhere. */
module StoreInvariants {
  import opened Basics
  import opened Records
  import opened StoreSpec

  /** One store call, or a restart. Arguments are arbitrary. */
  datatype Call =
    | CallNextSeq(chat: string)
    | CallSaveMessage(m: Message, users: seq<string>, now: nat)
    | CallGetByClient(sender: string, clientId: string)
    | CallGetByServer(id: string)
    | CallSaveDelivery(k: Key)
    | CallGetRecipients(id: string)
    | CallMarkSent(k: Key, err: Option<string>, now: nat)
    | CallMarkAcked(k: Key, now: nat)
    | CallMarkRead(k: Key, now: nat)
    | CallScheduleRetry(k: Key, err: Option<string>, now: nat)
    | CallGetDue(now: nat, limit: int, answer: seq<Key>)
    | CallRecover(limit: int)
    | CallListPending(user: string, limit: int)
    | CallCrash

  /** The one call with a database answer that the tables do not determine. */
  ghost predicate Enabled(s: State, c: Call) {
    c.CallGetDue? && s.persistent ==> DueAnswer(s.db, c.now, c.limit, c.answer)
  }

  ghost function Step(s: State, c: Call, cfg: Config): State {
    match c
    case CallNextSeq(chat) => NextSeq(s, chat)
    case CallSaveMessage(m, users, now) => SaveMessage(s, m, users, now)
    case CallGetByClient(f, id) => GetByClient(s, f, id)
    case CallGetByServer(id) => GetByServer(s, id)
    case CallSaveDelivery(k) => SaveDelivery(s, k)
    case CallGetRecipients(id) => GetRecipients(s, id)
    case CallMarkSent(k, err, now) => MarkSent(s, k, err, now)
    case CallMarkAcked(k, now) => MarkAcked(s, k, now)
    case CallMarkRead(k, now) => MarkRead(s, k, now)
    case CallScheduleRetry(k, err, now) => ScheduleRetry(s, k, err, cfg, now)
    case CallGetDue(now, limit, answer) => if s.persistent then Load(s, answer) else s
    case CallRecover(limit) => Recover(s, limit)
    case CallListPending(user, limit) => ListPending(s, user, limit)
    case CallCrash => CrashState(s)
  }

  /** `t` is where the calls `cs` lead from `s`. */
  ghost predicate Run(s: State, cs: seq<Call>, t: State, cfg: Config)
    decreases |cs|
  {
    if cs == [] then s == t
    else Enabled(s, cs[0]) && Run(Step(s, cs[0], cfg), cs[1..], t, cfg)
  }

  // ------------------------------------------------------------------- invariant

  ghost predicate RowsOk(db: Tables) {
    && NoDup(db.order)
    && (forall k :: k in db.order <==> k in db.rows)
    && (forall k :: k in db.rows ==> k.outer != "" && k.inner != "")
  }

  ghost predicate EntriesOk(s: State, cfg: Config) {
    forall k :: k in s.entries ==> EntryOk(k, s.entries[k], cfg)
  }

  ghost predicate EntryOk(k: Key, e: Entry, cfg: Config) {
    && k.outer != ""
    && e.user == k.inner
    && (e.read ==> e.acked)
    && (e.dead ==> e.retry >= cfg.Max())
    && (k.inner == "" ==> e.nextRetryAt == 0)
  }

  /** Memory and tables agree in one direction: whatever memory knows, the table can restore,
      and the durable counter never lags behind the one in memory. */
  ghost predicate CoupledAt(s: State, k: Key)
    requires k in s.entries
  {
    && k in s.db.rows
    && (!s.entries[k].Pending() ==> s.db.rows[k].status != PENDING)
    && (s.db.rows[k].status == PENDING ==> s.entries[k].retry <= s.db.rows[k].retryCount)
  }

  ghost predicate Coupled(s: State) {
    s.persistent ==> forall k :: k in s.entries && k.inner != "" ==> CoupledAt(s, k)
  }

  ghost predicate Inv(s: State, cfg: Config) {
    RowsOk(s.db) && EntriesOk(s, cfg) && Coupled(s)
  }

  // -------------------------------------------------------- two-state relations

  ghost predicate EntryMonotone(e: Entry, f: Entry) {
    && (e.acked ==> f.acked)
    && (e.read ==> f.read)
    && (e.dead ==> f.dead)
    && e.retry <= f.retry
  }

  ghost predicate EntriesMonotone(s: State, t: State) {
    forall k :: k in s.entries ==> k in t.entries && EntryMonotone(s.entries[k], t.entries[k])
  }

  ghost predicate RowMonotone(r: Row, q: Row) {
    && (r.status != PENDING ==> q.status != PENDING)
    && (q.status == PENDING ==> r.retryCount <= q.retryCount)
  }

  ghost predicate RowsMonotone(a: Tables, b: Tables) {
    forall k :: k in a.rows ==> k in b.rows && RowMonotone(a.rows[k], b.rows[k])
  }

  // --------------------------------------------------------------- table lemmas

  lemma InsertRowOk(db: Tables, k: Key)
    requires RowsOk(db) && k.outer != "" && k.inner != ""
    ensures RowsOk(db.InsertRow(k)) && RowsMonotone(db, db.InsertRow(k)) && k in db.InsertRow(k).rows
  {
  }

  lemma {:induction false} InsertRowsOk(db: Tables, id: string, users: seq<string>)
    requires RowsOk(db) && id != ""
    ensures RowsOk(db.InsertRows(id, users)) && RowsMonotone(db, db.InsertRows(id, users))
    ensures forall u :: u in users && u != "" ==> Key(id, u) in db.InsertRows(id, users).rows
    ensures db.InsertRows(id, users).messages == db.messages
    ensures forall k :: k in db.rows ==>
              k in db.InsertRows(id, users).rows && db.InsertRows(id, users).rows[k] == db.rows[k]
    decreases |users|
  {
    if users != [] {
      if users[0] != "" {
        InsertRowOk(db, Key(id, users[0]));
        InsertRowsOk(db.InsertRow(Key(id, users[0])), id, users[1..]);
      } else {
        InsertRowsOk(db, id, users[1..]);
      }
    }
  }

  lemma {:induction false} PendingInExact(db: Tables, ks: seq<Key>)
    ensures forall k :: k in db.PendingIn(ks) <==> k in ks && db.IsPending(k)
    ensures NoDup(ks) ==> NoDup(db.PendingIn(ks))
    decreases |ks|
  {
    if ks != [] {
      PendingInExact(db, ks[1..]);
    }
  }

  lemma {:induction false} UsersOfExact(ks: seq<Key>, id: string)
    ensures forall u :: u in UsersOf(ks, id) <==> Key(id, u) in ks
    ensures NoDup(ks) ==> NoDup(UsersOf(ks, id))
    decreases |ks|
  {
    if ks != [] {
      UsersOfExact(ks[1..], id);
    }
  }

  lemma {:induction false} KeysOfUserExact(ks: seq<Key>, user: string)
    ensures forall k :: k in KeysOfUser(ks, user) <==> k in ks && k.inner == user
    decreases |ks|
  {
    if ks != [] {
      KeysOfUserExact(ks[1..], user);
    }
  }

  // --------------------------------------------------------------- entry lemmas

  /** `t` is `s` with some fresh entries added. */
  ghost predicate Added(s: State, t: State) {
    && t == s.(entries := t.entries)
    && (forall k :: k in s.entries ==> k in t.entries && t.entries[k] == s.entries[k])
    && (forall k :: k in t.entries && k !in s.entries ==> t.entries[k] == FreshEntry(k.inner))
  }

  lemma {:induction false} EnsureEntriesAdds(s: State, id: string, users: seq<string>)
    ensures Added(s, EnsureEntries(s, id, users))
    ensures forall k :: k in EnsureEntries(s, id, users).entries
                        <==> k in s.entries || (k.outer == id && k.inner in users)
    decreases |users|
  {
    if users != [] {
      var front, last := users[..|users| - 1], users[|users| - 1];
      assert users == front + [last];
      EnsureEntriesAdds(s, id, front);
      EnsureEntryAdds(EnsureEntries(s, id, front), Key(id, last));
    }
  }

  lemma EnsureEntryAdds(s: State, k: Key)
    ensures Added(s, EnsureEntry(s, k))
    ensures forall j :: j in EnsureEntry(s, k).entries <==> j in s.entries || j == k
  {
  }

  /** Loading rows that exist adds their entries and writes nothing to the tables. */
  lemma {:induction false} LoadAdds(s: State, ks: seq<Key>)
    requires forall k :: k in ks ==> k in s.db.rows && k.outer != "" && k.inner != ""
    ensures Added(s, Load(s, ks))
    ensures forall k :: k in Load(s, ks).entries <==> k in s.entries || k in ks
    decreases |ks|
  {
    if ks != [] {
      var front, last := ks[..|ks| - 1], ks[|ks| - 1];
      assert ks == front + [last];
      LoadAdds(s, front);
      var mid := Load(s, front);
      EnsureEntryAdds(mid, last);
      assert SaveDelivery(mid, last) == EnsureEntry(mid, last);
    }
  }

  lemma AddedInv(s: State, t: State, cfg: Config)
    requires Inv(s, cfg) && Added(s, t)
    requires forall k :: k in t.entries && k !in s.entries
               ==> k.outer != "" && (s.persistent && k.inner != "" ==> k in s.db.rows)
    ensures Keeps(s, t, cfg)
  {
  }

  // ------------------------------------------------------- preservation, by call

  ghost predicate Keeps(s: State, t: State, cfg: Config) {
    Inv(t, cfg) && EntriesMonotone(s, t) && RowsMonotone(s.db, t.db) && t.persistent == s.persistent
  }

  /** Growing the tables without changing a row, and changing the message maps. */
  ghost predicate Extends(s: State, t: State) {
    && t.persistent == s.persistent && t.entries == s.entries
    && (forall k :: k in s.db.rows ==> k in t.db.rows && t.db.rows[k] == s.db.rows[k])
  }

  lemma ExtendsKeeps(s: State, t: State, cfg: Config)
    requires Inv(s, cfg) && Extends(s, t) && RowsOk(t.db)
    ensures Keeps(s, t, cfg)
  {
    forall k | k in t.entries && k.inner != "" && t.persistent
      ensures CoupledAt(t, k)
    {
      assert CoupledAt(s, k);
    }
  }

  lemma SaveTablesExtends(s: State, m: Message, users: seq<string>, now: nat)
    requires RowsOk(s.db) && m.serverId != ""
    ensures Extends(s, SaveTables(s, m, users, now)) && RowsOk(SaveTables(s, m, users, now).db)
    ensures s.persistent ==>
              forall u :: u in users && u != "" ==> Key(m.serverId, u) in SaveTables(s, m, users, now).db.rows
  {
    if s.persistent {
      InsertRowsOk(s.db.InsertMessage(Stored(m, now)), m.serverId, users);
    }
  }

  lemma SaveMessageKeeps(s: State, m: Message, users: seq<string>, now: nat, cfg: Config)
    requires Inv(s, cfg)
    ensures Keeps(s, SaveMessage(s, m, users, now), cfg)
  {
    if m.serverId != "" {
      SaveTablesExtends(s, m, users, now);
      var b := CacheMessage(SaveTables(s, m, users, now), m);
      ExtendsKeeps(s, b, cfg);
      EnsureEntriesAdds(b, m.serverId, users);
      AddedInv(b, EnsureEntries(b, m.serverId, users), cfg);
    }
  }

  lemma LoadKeeps(s: State, ks: seq<Key>, cfg: Config)
    requires Inv(s, cfg) && forall k :: k in ks ==> k in s.db.rows
    ensures Keeps(s, Load(s, ks), cfg)
  {
    LoadAdds(s, ks);
    AddedInv(s, Load(s, ks), cfg);
  }

  lemma SaveDeliveryKeeps(s: State, k: Key, cfg: Config)
    requires Inv(s, cfg)
    ensures Keeps(s, SaveDelivery(s, k), cfg)
  {
    if k.outer != "" && k.inner != "" {
      InsertRowOk(s.db, k);
      var b := if s.persistent then s.(db := s.db.InsertRow(k)) else s;
      ExtendsKeeps(s, b, cfg);
      EnsureEntryAdds(b, k);
      AddedInv(b, EnsureEntry(b, k), cfg);
    }
  }

  lemma GetRecipientsKeeps(s: State, id: string, cfg: Config)
    requires Inv(s, cfg)
    ensures Keeps(s, GetRecipients(s, id), cfg)
  {
    if PendingUsers(s, id) == {} && s.persistent {
      var ks := s.db.PendingKeys();
      PendingInExact(s.db, s.db.order);
      UsersOfExact(ks, id);
      EnsureEntriesAdds(s, id, UsersOf(ks, id));
      AddedInv(s, GetRecipients(s, id), cfg);
    }
  }

  /** Marking rows of a missing message dead changes no entry and revives no row. */
  ghost predicate Orphans(s: State, t: State) {
    && t == s.(db := t.db) && t.db == s.db.(rows := t.db.rows)
    && t.db.rows.Keys == s.db.rows.Keys
    && (forall k :: k in s.db.rows ==>
          t.db.rows[k] == s.db.rows[k] || (s.db.rows[k].status == PENDING && t.db.rows[k].status == DEAD))
  }

  lemma OrphansKeeps(s: State, t: State, cfg: Config)
    requires Inv(s, cfg) && Orphans(s, t)
    ensures Keeps(s, t, cfg)
  {
    forall k | k in t.entries && k.inner != "" && t.persistent
      ensures CoupledAt(t, k)
    {
      assert CoupledAt(s, k);
    }
  }

  lemma GetByServerKeeps(s: State, id: string, cfg: Config)
    requires Inv(s, cfg)
    ensures Keeps(s, GetByServer(s, id), cfg)
  {
    if id !in s.messages && s.persistent && id != "" && ByServerAnswer(s, id).None? {
      OrphansKeeps(s, GetByServer(s, id), cfg);
    } else {
      ExtendsKeeps(s, GetByServer(s, id), cfg);
    }
  }

  /** Calls that rewrite at most one entry and at most its own row. */
  ghost predicate Touches(s: State, t: State, k: Key) {
    && t == s.(entries := t.entries, db := t.db)
    && t.db == s.db.(rows := t.db.rows)
    && (forall j :: j in t.entries <==> j in s.entries)
    && (forall j :: j in t.db.rows <==> j in s.db.rows)
    && (forall j :: j in s.entries && j != k ==> t.entries[j] == s.entries[j])
    && (forall j :: j in s.db.rows && j != k ==> t.db.rows[j] == s.db.rows[j])
  }

  /** What is owed at the touched key. */
  ghost predicate TouchOk(s: State, t: State, k: Key, cfg: Config)
    requires Touches(s, t, k)
  {
    && (k in s.entries ==> EntryOk(k, t.entries[k], cfg) && EntryMonotone(s.entries[k], t.entries[k]))
    && (k in s.db.rows ==> RowMonotone(s.db.rows[k], t.db.rows[k]))
    && (s.persistent && k in s.entries && k.inner != "" ==> CoupledAt(t, k))
  }

  ghost predicate InvAt(s: State, k: Key, cfg: Config) {
    k in s.entries ==> EntryOk(k, s.entries[k], cfg) && (s.persistent && k.inner != "" ==> CoupledAt(s, k))
  }

  lemma TouchesKeeps(s: State, t: State, k: Key, cfg: Config)
    requires Inv(s, cfg) && Touches(s, t, k) && TouchOk(s, t, k, cfg)
    ensures Keeps(s, t, cfg)
  {
    forall j | j in t.entries && j.inner != "" && s.persistent
      ensures CoupledAt(t, j)
    {
      if j != k { assert CoupledAt(s, j); }
    }
  }

  lemma MarkSentEffect(s: State, k: Key, err: Option<string>, now: nat)
    ensures Touches(s, MarkSent(s, k, err, now), k)
    ensures k in s.entries ==> MarkSent(s, k, err, now).entries[k] == SentEntry(s.entries[k], now)
    ensures s.persistent && k in s.db.rows && k.outer != "" && k.inner != "" ==>
              MarkSent(s, k, err, now).db.rows[k] == SentRow(s.db.rows[k], err, now)
    ensures !s.persistent ==> MarkSent(s, k, err, now).db == s.db
  {
  }

  lemma MarkAckedEffect(s: State, k: Key, now: nat)
    ensures Touches(s, MarkAcked(s, k, now), k)
    ensures k in s.entries ==> MarkAcked(s, k, now).entries[k] == s.entries[k].(acked := true)
    ensures s.persistent && k in s.db.rows ==> MarkAcked(s, k, now).db.rows[k] == AckedRow(s.db.rows[k], now)
    ensures !s.persistent ==> MarkAcked(s, k, now).db == s.db
  {
  }

  /** A receipt raises a pending row to delivered, and of any other row only sets the time. */
  lemma MarkAckedRow(s: State, k: Key, now: nat)
    requires s.persistent && k in s.db.rows
    ensures var r := s.db.rows[k];
            MarkAcked(s, k, now).db.rows
            == s.db.rows[k := r.(status := if r.status == PENDING then DELIVERED else r.status, ackedAt := Some(now))]
  {
  }

  lemma MarkReadEffect(s: State, k: Key, now: nat)
    ensures Touches(s, MarkRead(s, k, now), k)
    ensures k in s.entries ==> MarkRead(s, k, now).entries[k] == s.entries[k].(acked := true, read := true)
    ensures s.persistent && k in s.db.rows ==> MarkRead(s, k, now).db.rows[k] == ReadRow(s.db.rows[k], now)
    ensures !s.persistent ==> MarkRead(s, k, now).db == s.db
  {
  }

  /** The row after a counted failure: memory may kill, otherwise a pending row counts for itself. */
  function FailedRow(s: State, k: Key, err: string, cfg: Config, now: nat): Row
    requires k in s.db.rows
  {
    var r := s.db.rows[k];
    if MemoryKills(s, k, cfg) then DeadRow(r, s.entries[k].retry + 1, err)
    else if r.status == PENDING then FailRow(r, err, cfg, now)
    else r
  }

  lemma FailedKilled(s: State, k: Key, lastErr: Option<string>, cfg: Config, now: nat)
    requires k.outer != "" && k.inner != "" && MemoryKills(s, k, cfg)
    ensures RetryDead(s, k, cfg) && !RetryMissing(s, k, cfg)
    ensures var t := CountFailure(s, k, ErrText(lastErr), cfg, now);
            ScheduleRetry(s, k, lastErr, cfg, now)
            == if s.persistent && k in s.db.rows
               then t.(db := t.db.UpdateRow(k, DeadRow(t.db.rows[k], s.entries[k].retry + 1, ErrText(lastErr))))
               else t
  {
  }

  lemma FailedAlive(s: State, k: Key, lastErr: Option<string>, cfg: Config, now: nat)
    requires k.outer != "" && k.inner != "" && !MemoryKills(s, k, cfg)
    ensures RetryDead(s, k, cfg) <==> s.persistent && s.db.IsPending(k) && s.db.rows[k].retryCount + 1 >= cfg.Max()
    ensures RetryMissing(s, k, cfg) <==> s.persistent && k !in s.db.rows
    ensures var t := CountFailure(s, k, ErrText(lastErr), cfg, now);
            ScheduleRetry(s, k, lastErr, cfg, now)
            == if s.persistent then CountRowFailure(t, k, ErrText(lastErr), cfg, now) else t
  {
  }

  lemma KilledEffect(s: State, k: Key, err: Option<string>, cfg: Config, now: nat)
    requires k.outer != "" && k.inner != "" && MemoryKills(s, k, cfg)
    ensures var t := ScheduleRetry(s, k, err, cfg, now);
      && Touches(s, t, k)
      && t.entries[k] == FailEntry(s.entries[k], ErrText(err), cfg, now)
      && (s.persistent && k in s.db.rows ==> t.db.rows[k] == FailedRow(s, k, ErrText(err), cfg, now))
      && (!s.persistent ==> t.db == s.db)
  {
    FailedKilled(s, k, err, cfg, now);
  }

  lemma AliveEffect(s: State, k: Key, err: Option<string>, cfg: Config, now: nat)
    requires k.outer != "" && k.inner != "" && !MemoryKills(s, k, cfg)
    ensures var t := ScheduleRetry(s, k, err, cfg, now);
      && Touches(s, t, k)
      && (k in s.entries ==> t.entries[k] == FailEntry(s.entries[k], ErrText(err), cfg, now))
      && (s.persistent && k in s.db.rows ==> t.db.rows[k] == FailedRow(s, k, ErrText(err), cfg, now))
      && (!s.persistent ==> t.db == s.db)
  {
    FailedAlive(s, k, err, cfg, now);
  }

  lemma ScheduleRetryEffect(s: State, k: Key, err: Option<string>, cfg: Config, now: nat)
    ensures Touches(s, ScheduleRetry(s, k, err, cfg, now), k)
    ensures k in s.entries && k.outer != "" && k.inner != "" ==>
              ScheduleRetry(s, k, err, cfg, now).entries[k] == FailEntry(s.entries[k], ErrText(err), cfg, now)
    ensures s.persistent && k in s.db.rows && k.outer != "" && k.inner != "" ==>
              ScheduleRetry(s, k, err, cfg, now).db.rows[k] == FailedRow(s, k, ErrText(err), cfg, now)
    ensures k.outer == "" || k.inner == "" ==> ScheduleRetry(s, k, err, cfg, now) == s
    ensures !s.persistent ==> ScheduleRetry(s, k, err, cfg, now).db == s.db
  {
    if k.outer != "" && k.inner != "" {
      if MemoryKills(s, k, cfg) {
        KilledEffect(s, k, err, cfg, now);
      } else {
        AliveEffect(s, k, err, cfg, now);
      }
    }
  }

  lemma MarkSentTouches(s: State, k: Key, err: Option<string>, now: nat, cfg: Config)
    requires InvAt(s, k, cfg) && (k in s.db.rows ==> k.outer != "" && k.inner != "")
    ensures Touches(s, MarkSent(s, k, err, now), k) && TouchOk(s, MarkSent(s, k, err, now), k, cfg)
  {
    MarkSentEffect(s, k, err, now);
  }

  lemma MarkAckedTouches(s: State, k: Key, now: nat, cfg: Config)
    requires InvAt(s, k, cfg) && (k in s.db.rows ==> k.outer != "" && k.inner != "")
    ensures Touches(s, MarkAcked(s, k, now), k) && TouchOk(s, MarkAcked(s, k, now), k, cfg)
  {
    MarkAckedEffect(s, k, now);
  }

  lemma MarkReadTouches(s: State, k: Key, now: nat, cfg: Config)
    requires InvAt(s, k, cfg) && (k in s.db.rows ==> k.outer != "" && k.inner != "")
    ensures Touches(s, MarkRead(s, k, now), k) && TouchOk(s, MarkRead(s, k, now), k, cfg)
  {
    MarkReadEffect(s, k, now);
  }

  lemma ScheduleRetryTouches(s: State, k: Key, err: Option<string>, now: nat, cfg: Config)
    requires InvAt(s, k, cfg) && (k in s.db.rows ==> k.outer != "" && k.inner != "")
    ensures Touches(s, ScheduleRetry(s, k, err, cfg, now), k) && TouchOk(s, ScheduleRetry(s, k, err, cfg, now), k, cfg)
  {
    ScheduleRetryEffect(s, k, err, cfg, now);
  }

  /** Calls whose answer comes from the recipient table are loads of some of its rows. */
  ghost function Loads(s: State, c: Call): seq<Key> {
    match c
    case CallGetDue(_, _, answer) => answer
    case CallRecover(limit) => First(s.db.PendingKeys(), limit)
    case CallListPending(user, limit) => First(KeysOfUser(s.db.PendingKeys(), user), limit)
    case _ => []
  }

  predicate IsLoad(c: Call) { c.CallGetDue? || c.CallRecover? || c.CallListPending? }

  lemma LoadStep(s: State, c: Call, cfg: Config)
    requires RowsOk(s.db) && Enabled(s, c) && IsLoad(c)
    ensures Added(s, Step(s, c, cfg))
    ensures !s.persistent ==> Step(s, c, cfg) == s
  {
    if s.persistent {
      PendingInExact(s.db, s.db.order);
      if c.CallListPending? { KeysOfUserExact(s.db.PendingKeys(), c.user); }
      LoadAdds(s, Loads(s, c));
    }
  }

  predicate IsMark(c: Call) { c.CallMarkSent? || c.CallMarkAcked? || c.CallMarkRead? || c.CallScheduleRetry? }

  lemma LoadStepKeeps(s: State, c: Call, cfg: Config)
    requires Inv(s, cfg) && Enabled(s, c) && IsLoad(c)
    ensures Keeps(s, Step(s, c, cfg), cfg)
  {
    if s.persistent {
      PendingInExact(s.db, s.db.order);
      if c.CallListPending? { KeysOfUserExact(s.db.PendingKeys(), c.user); }
      LoadKeeps(s, Loads(s, c), cfg);
    }
  }

  lemma MarkStepKeeps(s: State, c: Call, cfg: Config)
    requires Inv(s, cfg) && IsMark(c)
    ensures Keeps(s, Step(s, c, cfg), cfg)
  {
    match c
    case CallMarkSent(k, err, now) =>
      MarkSentTouches(s, k, err, now, cfg);
      TouchesKeeps(s, MarkSent(s, k, err, now), k, cfg);
    case CallMarkAcked(k, now) =>
      MarkAckedTouches(s, k, now, cfg);
      TouchesKeeps(s, MarkAcked(s, k, now), k, cfg);
    case CallMarkRead(k, now) =>
      MarkReadTouches(s, k, now, cfg);
      TouchesKeeps(s, MarkRead(s, k, now), k, cfg);
    case CallScheduleRetry(k, err, now) =>
      ScheduleRetryTouches(s, k, err, now, cfg);
      TouchesKeeps(s, ScheduleRetry(s, k, err, cfg, now), k, cfg);
  }

  lemma CacheKeeps(s: State, t: State, cfg: Config)
    requires Inv(s, cfg) && t == s.(nextSeq := t.nextSeq, messages := t.messages, byClient := t.byClient)
    ensures Keeps(s, t, cfg)
  {
    ExtendsKeeps(s, t, cfg);
  }

  /** Every store call keeps the invariant; memory is only lost in a crash, and the rows
      never go back, not even then. */
  lemma StepKeeps(s: State, c: Call, cfg: Config)
    requires Inv(s, cfg) && Enabled(s, c)
    ensures Inv(Step(s, c, cfg), cfg)
    ensures Step(s, c, cfg).persistent == s.persistent
    ensures RowsMonotone(s.db, Step(s, c, cfg).db)
    ensures !c.CallCrash? ==> EntriesMonotone(s, Step(s, c, cfg))
  {
    if IsMark(c) {
      MarkStepKeeps(s, c, cfg);
    } else if IsLoad(c) {
      LoadStepKeeps(s, c, cfg);
    } else {
      OtherStepKeeps(s, c, cfg);
    }
  }

  lemma OtherStepKeeps(s: State, c: Call, cfg: Config)
    requires Inv(s, cfg) && !IsMark(c) && !IsLoad(c)
    ensures if c.CallCrash?
            then Inv(Step(s, c, cfg), cfg) && Step(s, c, cfg).db == s.db && Step(s, c, cfg).persistent == s.persistent
            else Keeps(s, Step(s, c, cfg), cfg)
  {
    match c
    case CallNextSeq(chat) => CacheKeeps(s, NextSeq(s, chat), cfg);
    case CallSaveMessage(m, users, now) => SaveMessageKeeps(s, m, users, now, cfg);
    case CallGetByClient(f, id) => CacheKeeps(s, GetByClient(s, f, id), cfg);
    case CallGetByServer(id) => GetByServerKeeps(s, id, cfg);
    case CallSaveDelivery(k) => SaveDeliveryKeeps(s, k, cfg);
    case CallGetRecipients(id) => GetRecipientsKeeps(s, id, cfg);
    case CallCrash => CrashKeeps(s, cfg);
  }

  lemma CrashKeeps(s: State, cfg: Config)
    requires Inv(s, cfg)
    ensures Inv(CrashState(s), cfg)
  {
  }

  // ------------------------------------------------------------------ whole runs

  lemma InitInv(persistent: bool, cfg: Config)
    ensures Inv(InitState(persistent), cfg)
  {
  }

  /** Over any run from a good state, crashes included: the invariant holds at the end and
      no row has gone back to pending. */
  lemma {:induction false} RunKeeps(s: State, cs: seq<Call>, t: State, cfg: Config)
    requires Inv(s, cfg) && Run(s, cs, t, cfg)
    ensures Inv(t, cfg) && t.persistent == s.persistent && RowsMonotone(s.db, t.db)
    decreases |cs|
  {
    if cs != [] {
      StepKeeps(s, cs[0], cfg);
      RunKeeps(Step(s, cs[0], cfg), cs[1..], t, cfg);
    }
  }

  /** Between crashes the memory flags only rise. */
  lemma {:induction false} RunMonotone(s: State, cs: seq<Call>, t: State, cfg: Config)
    requires Inv(s, cfg) && Run(s, cs, t, cfg) && CallCrash !in cs
    ensures EntriesMonotone(s, t)
    decreases |cs|
  {
    if cs != [] {
      StepKeeps(s, cs[0], cfg);
      RunMonotone(Step(s, cs[0], cfg), cs[1..], t, cfg);
    }
  }
}
