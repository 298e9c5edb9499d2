/** The calls that mark a delivery, cut where the program lets go of the lock: the section on memory
    is one step and the statement on the table a later one. What of the agreement between memory
    and table holds even then. */
module Halves {
  import opened Basics
  import opened Records
  import opened StoreSpec
  import opened StoreInvariants
  import opened Durability

  /** A statement on the table that is still to be executed. */
  datatype Half =
    | SentHalf(k: Key, err: Option<string>, now: nat)
    | AckHalf(k: Key, now: nat)
    | ReadHalf(k: Key, now: nat)
    | KillHalf(k: Key, count: nat, text: string)
    | CountHalf(k: Key, text: string, now: nat)

  function FirstHalf(s: State, c: Call, cfg: Config): State
    requires IsMark(c)
  {
    if c.k !in s.entries then s
    else match c
      case CallMarkSent(k, err, now) => s.(entries := s.entries[k := SentEntry(s.entries[k], now)])
      case CallMarkAcked(k, now) => s.(entries := s.entries[k := s.entries[k].(acked := true)])
      case CallMarkRead(k, now) => s.(entries := s.entries[k := s.entries[k].(acked := true, read := true)])
      case CallScheduleRetry(k, err, now) =>
        if k.outer == "" || k.inner == "" then s else CountFailure(s, k, ErrText(err), cfg, now)
  }

  function SecondHalf(s: State, c: Call, cfg: Config): Option<Half>
    requires IsMark(c)
  {
    match c
    case CallMarkSent(k, err, now) => if k.outer == "" || k.inner == "" then None else Some(SentHalf(k, err, now))
    case CallMarkAcked(k, now) => Some(AckHalf(k, now))
    case CallMarkRead(k, now) => Some(ReadHalf(k, now))
    case CallScheduleRetry(k, err, now) =>
      if k.outer == "" || k.inner == "" then None
      else if MemoryKills(s, k, cfg) then Some(KillHalf(k, s.entries[k].retry + 1, ErrText(err)))
      else Some(CountHalf(k, ErrText(err), now))
  }

  function AfterHalf(r: Row, h: Half, cfg: Config): Row {
    match h
    case SentHalf(_, err, now) => SentRow(r, err, now)
    case AckHalf(_, now) => AckedRow(r, now)
    case ReadHalf(_, now) => ReadRow(r, now)
    case KillHalf(_, count, text) => DeadRow(r, count, text)
    case CountHalf(_, text, now) => if r.status == PENDING then FailRow(r, text, cfg, now) else r
  }

  function Execute(s: State, h: Half, cfg: Config): State {
    if h.k in s.db.rows then s.(db := s.db.UpdateRow(h.k, AfterHalf(s.db.rows[h.k], h, cfg))) else s
  }

  /** With nothing in between, the two halves are the call. */
  lemma HalvesMakeTheCall(s: State, c: Call, cfg: Config)
    requires s.persistent && IsMark(c) && (c.k in s.db.rows ==> c.k.outer != "" && c.k.inner != "")
    ensures Step(s, c, cfg) == match SecondHalf(s, c, cfg)
                               case None => FirstHalf(s, c, cfg)
                               case Some(h) => Execute(FirstHalf(s, c, cfg), h, cfg)
  {
    if c.CallScheduleRetry? { FailureHalves(s, c.k, c.err, c.now, cfg); }
  }

  lemma FailureHalves(s: State, k: Key, err: Option<string>, now: nat, cfg: Config)
    requires s.persistent
    ensures var c := CallScheduleRetry(k, err, now);
      ScheduleRetry(s, k, err, cfg, now) == match SecondHalf(s, c, cfg)
                                            case None => FirstHalf(s, c, cfg)
                                            case Some(h) => Execute(FirstHalf(s, c, cfg), h, cfg)
  {
  }

  /** The one worker makes the attempts, so at most one of them is half done; receipts come from any
      number of threads. */
  datatype Machine = Machine(st: State, attempt: Option<Half>, receipts: map<nat, Half>)

  datatype Event =
    | BeginAttempt(c: Call)
    | EndAttempt
    | BeginReceipt(thread: nat, c: Call)
    | EndReceipt(thread: nat)
    | Whole(c: Call)
    | Restart

  predicate IsReceipt(c: Call) { c.CallMarkAcked? || c.CallMarkRead? }

  ghost predicate CanStep(y: Machine, v: Event) {
    match v
    case BeginAttempt(c) => (c.CallMarkSent? || c.CallScheduleRetry?) && y.attempt.None?
    case EndAttempt => y.attempt.Some?
    case BeginReceipt(t, c) => IsReceipt(c) && t !in y.receipts
    case EndReceipt(t) => t in y.receipts
    case Whole(c) => !IsMark(c) && !c.CallCrash? && Enabled(y.st, c)
    case Restart => true
  }

  ghost function Apply(y: Machine, v: Event, cfg: Config): Machine
    requires CanStep(y, v)
  {
    match v
    case BeginAttempt(c) => y.(st := FirstHalf(y.st, c, cfg), attempt := SecondHalf(y.st, c, cfg))
    case EndAttempt => y.(st := Execute(y.st, y.attempt.value, cfg), attempt := None)
    case BeginReceipt(t, c) =>
      y.(st := FirstHalf(y.st, c, cfg), receipts := y.receipts[t := SecondHalf(y.st, c, cfg).value])
    case EndReceipt(t) => y.(st := Execute(y.st, y.receipts[t], cfg), receipts := y.receipts - {t})
    case Whole(c) => y.(st := Step(y.st, c, cfg))
    case Restart => Machine(CrashState(y.st), None, map[])
  }

  ghost predicate Works(y: Machine, vs: seq<Event>, z: Machine, cfg: Config)
    decreases |vs|
  {
    if vs == [] then y == z else CanStep(y, vs[0]) && Works(Apply(y, vs[0], cfg), vs[1..], z, cfg)
  }

  // ------------------------------------------------------------------- invariant

  /** A half-done call that will settle the row. */
  ghost predicate Settling(y: Machine, k: Key) {
    || (y.attempt.Some? && y.attempt.value.KillHalf? && y.attempt.value.k == k)
    || (exists t :: t in y.receipts && y.receipts[t].k == k)
  }

  predicate Attempting(y: Machine, k: Key) { y.attempt.Some? && y.attempt.value.k == k }

  /** What holds of an entry and its row at any time: there is a row; a settled entry has a settled
      row or a call under way that will settle it; and the durable counter lags behind the one in
      memory by no more than the attempt under way. */
  ghost predicate LooselyCoupled(y: Machine, k: Key)
    requires k in y.st.entries
  {
    && k in y.st.db.rows
    && (!y.st.entries[k].Pending() ==> y.st.db.rows[k].status != PENDING || Settling(y, k))
    && (y.st.db.rows[k].status == PENDING
        ==> y.st.entries[k].retry <= y.st.db.rows[k].retryCount + if Attempting(y, k) then 1 else 0)
  }

  ghost predicate HalvesOk(y: Machine, cfg: Config) {
    && y.st.persistent && RowsOk(y.st.db) && EntriesOk(y.st, cfg)
    && (forall k :: k in y.st.entries && k.inner != "" ==> LooselyCoupled(y, k))
    && (y.attempt.Some? ==> !y.attempt.value.AckHalf? && !y.attempt.value.ReadHalf?)
    && (forall t :: t in y.receipts ==> y.receipts[t].AckHalf? || y.receipts[t].ReadHalf?)
  }

  lemma FirstHalfEffect(s: State, c: Call, cfg: Config)
    requires IsMark(c)
    ensures FirstHalf(s, c, cfg) == s.(entries := FirstHalf(s, c, cfg).entries)
    ensures forall k :: k in FirstHalf(s, c, cfg).entries <==> k in s.entries
    ensures forall k :: k in s.entries && k != c.k ==> FirstHalf(s, c, cfg).entries[k] == s.entries[k]
    ensures c.k in s.entries ==> FirstHalf(s, c, cfg).entries[c.k] == EntryAfter(s.entries[c.k], c.k, c, cfg)
  {
  }

  lemma BeginAttemptKeeps(y: Machine, c: Call, cfg: Config)
    requires HalvesOk(y, cfg) && CanStep(y, BeginAttempt(c))
    ensures HalvesOk(Apply(y, BeginAttempt(c), cfg), cfg)
  {
    var z := Apply(y, BeginAttempt(c), cfg);
    FirstHalfEffect(y.st, c, cfg);
    forall k | k in z.st.entries && k.inner != ""
      ensures LooselyCoupled(z, k)
    {
      assert LooselyCoupled(y, k) && EntryOk(k, y.st.entries[k], cfg);
      SettlingStays(y, z, k);
    }
  }

  /** With the receipts at least as before and no attempt given up, what is being settled still is. */
  lemma SettlingStays(y: Machine, z: Machine, k: Key)
    requires y.attempt.Some? ==> z.attempt == y.attempt
    requires forall t :: t in y.receipts ==> t in z.receipts && z.receipts[t] == y.receipts[t]
    ensures Settling(y, k) ==> Settling(z, k)
  {
    if t :| t in y.receipts && y.receipts[t].k == k {
      assert z.receipts[t].k == k;
    }
  }

  lemma BeginReceiptKeeps(y: Machine, t: nat, c: Call, cfg: Config)
    requires HalvesOk(y, cfg) && CanStep(y, BeginReceipt(t, c))
    ensures HalvesOk(Apply(y, BeginReceipt(t, c), cfg), cfg)
  {
    var z := Apply(y, BeginReceipt(t, c), cfg);
    FirstHalfEffect(y.st, c, cfg);
    forall k | k in z.st.entries && k.inner != ""
      ensures LooselyCoupled(z, k)
    {
      assert LooselyCoupled(y, k);
      SettlingStays(y, z, k);
      assert z.receipts[t].k == c.k;
    }
  }

  lemma ExecuteEffect(s: State, h: Half, cfg: Config)
    requires RowsOk(s.db)
    ensures var t := Execute(s, h, cfg);
      && t == s.(db := t.db) && RowsOk(t.db)
      && (forall k :: k in t.db.rows <==> k in s.db.rows)
      && (forall k :: k in s.db.rows && k != h.k ==> t.db.rows[k] == s.db.rows[k])
      && (h.k in s.db.rows ==> t.db.rows[h.k] == AfterHalf(s.db.rows[h.k], h, cfg))
  {
  }

  lemma EndAttemptKeeps(y: Machine, cfg: Config)
    requires HalvesOk(y, cfg) && y.attempt.Some?
    ensures HalvesOk(Apply(y, EndAttempt, cfg), cfg)
  {
    var z := Apply(y, EndAttempt, cfg);
    ExecuteEffect(y.st, y.attempt.value, cfg);
    forall k | k in z.st.entries && k.inner != ""
      ensures LooselyCoupled(z, k)
    {
      assert LooselyCoupled(y, k);
      if t :| t in y.receipts && y.receipts[t].k == k {
        assert z.receipts[t].k == k;
      }
    }
  }

  lemma EndReceiptKeeps(y: Machine, t: nat, cfg: Config)
    requires HalvesOk(y, cfg) && t in y.receipts
    ensures HalvesOk(Apply(y, EndReceipt(t), cfg), cfg)
  {
    var z := Apply(y, EndReceipt(t), cfg);
    ExecuteEffect(y.st, y.receipts[t], cfg);
    forall k | k in z.st.entries && k.inner != ""
      ensures LooselyCoupled(z, k)
    {
      assert LooselyCoupled(y, k);
      if k != y.receipts[t].k && exists u :: u in y.receipts && y.receipts[u].k == k {
        var u :| u in y.receipts && y.receipts[u].k == k;
        assert z.receipts[u].k == k;
      }
    }
  }

  /** What the other calls do: entries that are there stay as they are, new ones are fresh and have
      a row, and rows stay as they are or are given up. */
  ghost predicate Harmless(s: State, t: State) {
    && t.persistent == s.persistent && RowsOk(t.db)
    && (forall k :: k in s.entries ==> k in t.entries && t.entries[k] == s.entries[k])
    && (forall k :: k in t.entries && k !in s.entries ==>
          t.entries[k] == FreshEntry(k.inner) && k.outer != "" && (k.inner != "" ==> k in t.db.rows))
    && (forall k :: k in s.db.rows ==>
          k in t.db.rows && (t.db.rows[k] == s.db.rows[k] || t.db.rows[k].status != PENDING))
  }

  lemma SaveHarmless(s: State, m: Message, users: seq<string>, now: nat)
    requires s.persistent && RowsOk(s.db)
    ensures Harmless(s, SaveMessage(s, m, users, now))
  {
    if m.serverId != "" {
      SaveTablesExtends(s, m, users, now);
      EnsureEntriesAdds(CacheMessage(SaveTables(s, m, users, now), m), m.serverId, users);
    }
  }

  lemma LoadHarmless(s: State, c: Call, cfg: Config)
    requires s.persistent && RowsOk(s.db) && IsLoad(c) && Enabled(s, c)
    ensures Harmless(s, Step(s, c, cfg))
  {
    PendingInExact(s.db, s.db.order);
    if c.CallListPending? { KeysOfUserExact(s.db.PendingKeys(), c.user); }
    LoadAdds(s, Loads(s, c));
  }

  lemma RecipientsHarmless(s: State, id: string)
    requires s.persistent && RowsOk(s.db)
    ensures Harmless(s, GetRecipients(s, id))
  {
    PendingInExact(s.db, s.db.order);
    UsersOfExact(s.db.PendingKeys(), id);
    EnsureEntriesAdds(s, id, UsersOf(s.db.PendingKeys(), id));
  }

  lemma DeliveryHarmless(s: State, k: Key)
    requires s.persistent && RowsOk(s.db)
    ensures Harmless(s, SaveDelivery(s, k))
  {
    if k.outer != "" && k.inner != "" { InsertRowOk(s.db, k); }
  }

  lemma ExtendsHarmless(s: State, t: State)
    requires Extends(s, t) && RowsOk(t.db)
    ensures Harmless(s, t)
  {
  }

  lemma OrphansHarmless(s: State, t: State)
    requires Orphans(s, t) && RowsOk(s.db)
    ensures Harmless(s, t)
  {
  }

  lemma ServerHarmless(s: State, id: string)
    requires s.persistent && RowsOk(s.db)
    ensures Harmless(s, GetByServer(s, id))
  {
    if id !in s.messages && id != "" && ByServerAnswer(s, id).None? {
      OrphansHarmless(s, GetByServer(s, id));
    } else {
      ExtendsHarmless(s, GetByServer(s, id));
    }
  }

  lemma LookupHarmless(s: State, c: Call, t: State, cfg: Config)
    requires s.persistent && RowsOk(s.db) && (c.CallNextSeq? || c.CallGetByClient?) && t == Step(s, c, cfg)
    ensures Harmless(s, t)
  {
    ExtendsHarmless(s, t);
  }

  lemma WholeHarmless(s: State, c: Call, cfg: Config)
    requires s.persistent && RowsOk(s.db) && !IsMark(c) && !c.CallCrash? && Enabled(s, c)
    ensures Harmless(s, Step(s, c, cfg))
  {
    if IsLoad(c) {
      LoadHarmless(s, c, cfg);
    } else if c.CallSaveMessage? {
      SaveHarmless(s, c.m, c.users, c.now);
    } else if c.CallGetRecipients? {
      RecipientsHarmless(s, c.id);
    } else if c.CallSaveDelivery? {
      DeliveryHarmless(s, c.k);
    } else if c.CallGetByServer? {
      ServerHarmless(s, c.id);
    } else {
      LookupHarmless(s, c, Step(s, c, cfg), cfg);
    }
  }

  lemma WholeKeeps(y: Machine, t: State, cfg: Config)
    requires HalvesOk(y, cfg) && Harmless(y.st, t)
    ensures HalvesOk(y.(st := t), cfg)
  {
    var z := y.(st := t);
    forall k | k in t.entries && k.inner != ""
      ensures LooselyCoupled(z, k)
    {
      if k in y.st.entries {
        assert LooselyCoupled(y, k);
        SettlingStays(y, z, k);
      }
    }
  }

  lemma StepHalves(y: Machine, v: Event, cfg: Config)
    requires HalvesOk(y, cfg) && CanStep(y, v)
    ensures HalvesOk(Apply(y, v, cfg), cfg)
  {
    match v
    case BeginAttempt(c) => BeginAttemptKeeps(y, c, cfg);
    case EndAttempt => EndAttemptKeeps(y, cfg);
    case BeginReceipt(t, c) => BeginReceiptKeeps(y, t, c, cfg);
    case EndReceipt(t) => EndReceiptKeeps(y, t, cfg);
    case Whole(c) =>
      WholeHarmless(y.st, c, cfg);
      WholeKeeps(y, Step(y.st, c, cfg), cfg);
    case Restart =>
  }

  lemma {:induction false} RunHalves(y: Machine, vs: seq<Event>, z: Machine, cfg: Config)
    requires HalvesOk(y, cfg) && Works(y, vs, z, cfg)
    ensures HalvesOk(z, cfg)
    decreases |vs|
  {
    if vs != [] {
      StepHalves(y, vs[0], cfg);
      RunHalves(Apply(y, vs[0], cfg), vs[1..], z, cfg);
    }
  }

  /** However the halves interleave and wherever the process restarts: each entry has its row, and
      whenever no call is under way memory and table agree as fully as between whole calls. */
  lemma HalvesCoupled(vs: seq<Event>, z: Machine, cfg: Config)
    requires Works(Machine(InitState(true), None, map[]), vs, z, cfg)
    ensures forall k :: k in z.st.entries && k.inner != "" ==> k in z.st.db.rows
    ensures z.attempt.None? && z.receipts == map[] ==> Inv(z.st, cfg)
  {
    RunHalves(Machine(InitState(true), None, map[]), vs, z, cfg);
    forall k | k in z.st.entries && k.inner != ""
      ensures k in z.st.db.rows
      ensures z.attempt.None? && z.receipts == map[] ==> CoupledAt(z.st, k)
    {
      assert LooselyCoupled(z, k);
    }
  }

  /** And with receipts half done, memory still never kills a pending row before its durable counter
      would: the worker has no attempt under way when it makes the next. */
  lemma HalvesNeverKillEarly(vs: seq<Event>, z: Machine, k: Key, err: Option<string>, now: nat, cfg: Config)
    requires Works(Machine(InitState(true), None, map[]), vs, z, cfg)
    requires CanStep(z, BeginAttempt(CallScheduleRetry(k, err, now))) && z.st.db.IsPending(k)
    ensures MemoryKills(z.st, k, cfg) ==> z.st.db.rows[k].retryCount + 1 >= cfg.Max()
  {
    RunHalves(Machine(InitState(true), None, map[]), vs, z, cfg);
    if k in z.st.entries { assert LooselyCoupled(z, k); }
  }
}
