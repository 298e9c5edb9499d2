/** Why rounds stop when nobody is online, and how many there can be at most. */
module Quiet {
  import opened Basics
  import opened Records
  import opened StoreSpec
  import opened StoreInvariants
  import opened Durability
  import opened Accounting
  import Backoff
  import opened Rounds
  import opened Delivery
  import opened Engine
  import Logic
  import Sending

  // -------------------------------------------------------- the work that is left

  /** A delivery in memory that a round over its message attempts and that is not settled. */
  ghost predicate Live(s: State, k: Key) {
    && k.outer != "" && k.inner != "" && k in s.entries
    && if s.persistent then s.db.IsPending(k) else s.entries[k].Pending()
  }

  ghost predicate LiveId(s: State, id: string) { exists k :: Live(s, k) && k.outer == id }

  ghost predicate Dropped(s: State, t: State, k: Key, cfg: StoreSpec.Config) {
    k in Domain(s) && k in Domain(t) && Price(t, k, cfg) < Price(s, k, cfg)
  }

  ghost predicate DroppedId(s: State, t: State, id: string, cfg: StoreSpec.Config) {
    exists k :: Dropped(s, t, k, cfg) && k.outer == id
  }

  /** No delivery has more work left, and a delivery is settled only at the price of some. */
  ghost predicate Worn(s: State, t: State, cfg: StoreSpec.Config) {
    && Domain(t) == Domain(s)
    && (forall k :: k in Domain(s) ==> Price(t, k, cfg) <= Price(s, k, cfg))
    && (forall k :: Live(s, k) ==> Live(t, k) || Dropped(s, t, k, cfg))
  }

  /** Calls that add no delivery. */
  predicate AddsNone(c: Call) { !c.CallSaveMessage? && !c.CallSaveDelivery? }

  lemma TouchDomain(s: State, t: State, k: Key)
    requires Touches(s, t, k)
    ensures Domain(t) == Domain(s) && t.persistent == s.persistent
  {
    assert t.entries.Keys == s.entries.Keys && t.db.rows.Keys == s.db.rows.Keys;
  }

  lemma RecipientsDomain(s: State, id: string)
    ensures Domain(StoreSpec.GetRecipients(s, id)) == Domain(s)
            && StoreSpec.GetRecipients(s, id).persistent == s.persistent
  {
    RecipientsRow(s, id);
    EnsureEntriesAdds(s, id, UsersOf(s.db.PendingKeys(), id));
  }

  lemma LookupDomain(s: State, id: string)
    ensures Domain(GetByServer(s, id)) == Domain(s) && GetByServer(s, id).persistent == s.persistent
  {
    assert GetByServer(s, id).db.rows.Keys == s.db.rows.Keys;
  }

  lemma CallDomain(s: State, c: Call, cfg: StoreSpec.Config)
    requires RowsOk(s.db) && StoreInvariants.Enabled(s, c) && AddsNone(c) && !c.CallCrash?
    ensures Domain(Step(s, c, cfg)) == Domain(s) && Step(s, c, cfg).persistent == s.persistent
  {
    if IsMark(c) {
      MarkEffects(s, c, cfg);
      TouchDomain(s, Step(s, c, cfg), c.k);
    } else if IsLoad(c) {
      LoadStep(s, c, cfg);
    } else if c.CallGetRecipients? {
      RecipientsDomain(s, c.id);
    } else if c.CallGetByServer? {
      LookupDomain(s, c.id);
    }
  }

  /** One row or entry, one call. */
  lemma RowPrice(s: State, c: Call, k: Key, cfg: StoreSpec.Config)
    requires Inv(s, cfg) && s.persistent && StoreInvariants.Enabled(s, c) && k in s.db.rows
    ensures k in Step(s, c, cfg).db.rows
    ensures RowCost(Step(s, c, cfg).db.rows[k], cfg) <= RowCost(s.db.rows[k], cfg)
    ensures s.db.IsPending(k) && !Step(s, c, cfg).db.IsPending(k)
            ==> RowCost(Step(s, c, cfg).db.rows[k], cfg) < RowCost(s.db.rows[k], cfg)
  {
    StepKeeps(s, c, cfg);
    StepRow(s, c, k, cfg);
  }

  lemma EntryPrice(s: State, c: Call, k: Key, cfg: StoreSpec.Config)
    requires Inv(s, cfg) && StoreInvariants.Enabled(s, c) && !c.CallCrash? && k in s.entries
    ensures k in Step(s, c, cfg).entries
    ensures EntryCost(Step(s, c, cfg).entries[k], cfg) <= EntryCost(s.entries[k], cfg)
    ensures s.entries[k].Pending() && !Step(s, c, cfg).entries[k].Pending()
            ==> EntryCost(Step(s, c, cfg).entries[k], cfg) < EntryCost(s.entries[k], cfg)
  {
    StepKeeps(s, c, cfg);
    StepEntry(s, c, k, cfg);
  }

  lemma CallWears(s: State, c: Call, cfg: StoreSpec.Config)
    requires Inv(s, cfg) && StoreInvariants.Enabled(s, c) && AddsNone(c) && !c.CallCrash?
    ensures Worn(s, Step(s, c, cfg), cfg)
  {
    var t := Step(s, c, cfg);
    StepKeeps(s, c, cfg);
    CallDomain(s, c, cfg);
    forall k | k in Domain(s)
      ensures k in Domain(t) && Price(t, k, cfg) <= Price(s, k, cfg)
    {
      if s.persistent { RowPrice(s, c, k, cfg); } else { EntryPrice(s, c, k, cfg); }
    }
    forall k | Live(s, k)
      ensures Live(t, k) || Dropped(s, t, k, cfg)
    {
      if s.persistent { RowPrice(s, c, k, cfg); } else { EntryPrice(s, c, k, cfg); }
    }
  }

  /** A failure at a live delivery always costs it some work. */
  lemma FailureDrops(s: State, k: Key, err: Option<string>, now: nat, cfg: StoreSpec.Config)
    requires Inv(s, cfg) && Live(s, k)
    ensures Dropped(s, ScheduleRetry(s, k, err, cfg, now), k, cfg)
  {
    ScheduleRetryEffect(s, k, err, cfg, now);
    if s.persistent { MemoryNeverKillsEarly(s, k, err, cfg, now); }
  }

  lemma FailureWears(s: State, k: Key, err: Option<string>, now: nat, cfg: StoreSpec.Config)
    requires Inv(s, cfg)
    ensures Worn(s, ScheduleRetry(s, k, err, cfg, now), cfg)
  {
    WearsTo(s, CallScheduleRetry(k, err, now), ScheduleRetry(s, k, err, cfg, now), cfg);
  }

  lemma WearsTo(s: State, c: Call, t: State, cfg: StoreSpec.Config)
    requires Inv(s, cfg) && StoreInvariants.Enabled(s, c) && AddsNone(c) && !c.CallCrash? && t == Step(s, c, cfg)
    ensures Worn(s, t, cfg)
  {
    CallWears(s, c, cfg);
  }

  // -------------------------------------------------- charging settled work

  lemma {:induction false} Witnesses(s: State, t: State, lost: set<string>, cfg: StoreSpec.Config)
      returns (ks: set<Key>)
    requires forall id :: id in lost ==> DroppedId(s, t, id, cfg)
    ensures |ks| == |lost|
    ensures forall k :: k in ks ==> Dropped(s, t, k, cfg) && k.outer in lost
    decreases |lost|
  {
    if lost == {} {
      ks := {};
    } else {
      var id :| id in lost;
      var k :| Dropped(s, t, k, cfg) && k.outer == id;
      var rest := Witnesses(s, t, lost - {id}, cfg);
      assert k !in rest;
      ks := rest + {k};
    }
  }

  /** Every message that has lost work accounts for some of the difference. */
  lemma Charge(s: State, t: State, lost: set<string>, cfg: StoreSpec.Config)
    requires Worn(s, t, cfg) && forall id :: id in lost ==> DroppedId(s, t, id, cfg)
    ensures Total(t, cfg) + |lost| <= Total(s, cfg)
  {
    var ks := Witnesses(s, t, lost, cfg);
    assert forall k :: k in ks ==> Dropped(s, t, k, cfg);
    SumDrop(Prices(s, cfg), Prices(t, cfg), ks);
  }

  /** The cost of a pending entry is the number of failures that settle it. */
  lemma {:induction false} CostIsFailures(e: Entry, err: string, cfg: StoreSpec.Config, times: seq<nat>)
    requires e.Pending()
    ensures var f := Backoff.Failed(e, err, cfg, times);
      && f.retry == e.retry + |times| && !f.acked && !f.read
      && (f.Pending() <==> |times| < EntryCost(e, cfg))
    decreases |times|
  {
    if times != [] { CostIsFailures(e, err, cfg, times[..|times| - 1]); }
  }

  function FailedRows(r: Row, err: string, cfg: StoreSpec.Config, times: seq<nat>): Row {
    if times == [] then r
    else
      var q := FailedRows(r, err, cfg, times[..|times| - 1]);
      if q.status == PENDING then FailRow(q, err, cfg, times[|times| - 1]) else q
  }

  /** And so is that of a pending row. */
  lemma {:induction false} RowCostIsFailures(r: Row, err: string, cfg: StoreSpec.Config, times: seq<nat>)
    requires r.status == PENDING
    ensures var q := FailedRows(r, err, cfg, times);
      && (q.status == PENDING ==> q.retryCount == r.retryCount + |times|)
      && (q.status == PENDING <==> |times| < RowCost(r, cfg))
    decreases |times|
  {
    if times != [] { RowCostIsFailures(r, err, cfg, times[..|times| - 1]); }
  }

  /** A failed attempt adds to nobody's remaining work, and at a live delivery it uses some up. */
  lemma FailureCosts(s: State, k: Key, err: Option<string>, cfg: StoreSpec.Config, now: nat)
    requires Inv(s, cfg)
    ensures Total(ScheduleRetry(s, k, err, cfg, now), cfg) + (if Live(s, k) then 1 else 0) <= Total(s, cfg)
  {
    FailureWears(s, k, err, now, cfg);
    var t := ScheduleRetry(s, k, err, cfg, now);
    if Live(s, k) {
      FailureDrops(s, k, err, now, cfg);
      ChargeOne(s, t, k, cfg);
    } else {
      Charge(s, t, {}, cfg);
    }
  }

  lemma ChargeOne(s: State, t: State, k: Key, cfg: StoreSpec.Config)
    requires Worn(s, t, cfg) && Dropped(s, t, k, cfg)
    ensures Total(t, cfg) + 1 <= Total(s, cfg)
  {
    assert DroppedId(s, t, k.outer, cfg);
    Charge(s, t, {k.outer}, cfg);
  }

  // -------------------------------------------------------------- what goes stale

  ghost function Stale(s: State, queued: set<string>): set<string> {
    set id | id in queued && !LiveId(s, id)
  }

  ghost function StaleHolds(s: State, held: set<Hold>): set<Hold> {
    set h | h in held && !LiveId(s, h.id)
  }

  /** The round at hand can still come upon a live delivery. */
  ghost predicate StageLive(s: State, stage: Stage) {
    match stage
    case Idle => true
    case Attempting(id, users, _) => exists u :: u in users && Live(s, Key(id, u))
    case _ => LiveId(s, stage.id)
  }

  /** Rounds under way, queued or still to be pushed that will find nothing live. */
  ghost function Owed(e: Engine): nat {
    |Stale(e.st, e.queued)| + |StaleHolds(e.st, e.held)| + if StageLive(e.st, e.stage) then 0 else 1
  }

  /** A unit of lost work can leave one round that is queued or in hand without a purpose, and one
      push in each of `n` threads. */
  ghost function Potential(e: Engine, n: nat, cfg: StoreSpec.Config): nat {
    (1 + n) * Total(e.st, cfg) + Owed(e)
  }

  lemma LostId(s: State, t: State, id: string, cfg: StoreSpec.Config)
    requires Worn(s, t, cfg) && LiveId(s, id) && !LiveId(t, id)
    ensures DroppedId(s, t, id, cfg)
  {
    var k :| Live(s, k) && k.outer == id;
    assert Live(t, k) || Dropped(s, t, k, cfg);
  }

  lemma SubsetSize<T>(a: set<T>, b: set<T>)
    requires a <= b
    ensures |a| <= |b|
  {
    assert b == a + (b - a);
  }

  lemma {:induction false} HoldsSize(hs: set<Hold>, ts: set<nat>, ids: set<string>)
    requires forall h :: h in hs ==> h.thread in ts && h.id in ids
    ensures |hs| <= |ts| * |ids|
    decreases |ts|
  {
    if ts == {} {
      assert hs == {};
    } else {
      var t :| t in ts;
      var mine := set h | h in hs && h.thread == t;
      HoldsSize(hs - mine, ts - {t}, ids);
      OneThread(mine, t, ids);
      assert hs == (hs - mine) + mine;
      assert |ts| == |ts - {t}| + 1;
      assert |ts| * |ids| == |ts - {t}| * |ids| + |ids|;
    }
  }

  lemma {:induction false} OneThread(hs: set<Hold>, t: nat, ids: set<string>)
    requires forall h :: h in hs ==> h.thread == t && h.id in ids
    ensures |hs| <= |ids|
    decreases |hs|
  {
    if hs != {} {
      var h :| h in hs;
      OneThread(hs - {h}, t, ids - {h.id});
    }
  }

  /** Within the threads `ts`, with the id at hand not queued. */
  ghost predicate Within(e: Engine, ts: set<nat>) {
    && (forall h :: h in e.held ==> h.thread in ts)
    && (!e.stage.Idle? ==> e.stage.id !in e.queued)
  }

  lemma NewlyStale(e: Engine, f: Engine, ts: set<nat>, lost: set<string>)
    requires Within(e, ts) && f.held == e.held && f.queued == e.queued && (e.stage.Idle? <==> f.stage.Idle?)
    requires forall id :: LiveId(e.st, id) && !LiveId(f.st, id) ==> id in lost
    requires !e.stage.Idle? && StageLive(e.st, e.stage) && !StageLive(f.st, f.stage) ==> e.stage.id in lost
    ensures Owed(f) <= Owed(e) + (1 + |ts|) * |lost|
  {
    var newly := Stale(f.st, f.queued) - Stale(e.st, e.queued);
    var late := StaleHolds(f.st, f.held) - StaleHolds(e.st, e.held);
    var hand := if StageLive(e.st, e.stage) && !StageLive(f.st, f.stage) then {e.stage.id} else {};
    SubsetSize(newly + hand, lost);
    HoldsSize(late, ts, lost);
    SubsetSize(Stale(f.st, f.queued), Stale(e.st, e.queued) + newly);
    SubsetSize(StaleHolds(f.st, f.held), StaleHolds(e.st, e.held) + late);
    assert (1 + |ts|) * |lost| == |lost| + |ts| * |lost|;
  }

  lemma Balance(n: nat, a: nat, lost: nat, b: nat, o: nat, p: nat)
    requires a + lost <= b && o <= p + (1 + n) * lost
    ensures (1 + n) * a + o <= (1 + n) * b + p
  {
    assert (1 + n) * a + (1 + n) * lost == (1 + n) * (a + lost);
    MulMono(1 + n, a + lost, b);
  }

  lemma MulMono(n: nat, a: nat, b: nat)
    requires a <= b
    ensures n * a <= n * b
  {
  }

  /** The ids that some call has made stale. */
  ghost function LostIds(e: Engine, f: Engine): set<string> {
    (set k | k in Domain(e.st) && LiveId(e.st, k.outer) && !LiveId(f.st, k.outer) :: k.outer)
    + (if !e.stage.Idle? && StageLive(e.st, e.stage) && !StageLive(f.st, f.stage) then {e.stage.id} else {})
  }

  lemma LostDropped(e: Engine, f: Engine, cfg: StoreSpec.Config) returns (lost: set<string>)
    requires Inv(e.st, cfg) && Worn(e.st, f.st, cfg)
    requires !e.stage.Idle? && StageLive(e.st, e.stage) && !StageLive(f.st, f.stage) ==>
               DroppedId(e.st, f.st, e.stage.id, cfg)
    ensures forall id :: LiveId(e.st, id) && !LiveId(f.st, id) ==> id in lost
    ensures !e.stage.Idle? && StageLive(e.st, e.stage) && !StageLive(f.st, f.stage) ==> e.stage.id in lost
    ensures forall id :: id in lost ==> DroppedId(e.st, f.st, id, cfg)
  {
    lost := LostIds(e, f);
    forall id | LiveId(e.st, id) && !LiveId(f.st, id) ensures id in LostIds(e, f) {
      var k :| Live(e.st, k) && k.outer == id;
      assert k in Domain(e.st);
    }
    forall id | id in LostIds(e, f) ensures DroppedId(e.st, f.st, id, cfg) {
      if LiveId(e.st, id) && !LiveId(f.st, id) { LostId(e.st, f.st, id, cfg); }
    }
  }

  /** A step of the store pays for whatever it makes stale. */
  lemma StepPays(e: Engine, f: Engine, ts: set<nat>, cfg: StoreSpec.Config)
    requires Inv(e.st, cfg) && Within(e, ts) && Worn(e.st, f.st, cfg)
    requires f.held == e.held && f.queued == e.queued && (e.stage.Idle? <==> f.stage.Idle?)
    requires !e.stage.Idle? && StageLive(e.st, e.stage) && !StageLive(f.st, f.stage) ==>
               DroppedId(e.st, f.st, e.stage.id, cfg)
    ensures Potential(f, |ts|, cfg) <= Potential(e, |ts|, cfg)
  {
    var lost := LostDropped(e, f, cfg);
    Charge(e.st, f.st, lost, cfg);
    NewlyStale(e, f, ts, lost);
    Balance(|ts|, Total(f.st, cfg), |lost|, Total(e.st, cfg), Owed(f), Owed(e));
  }

  // ------------------------------------------------------- rounds with nobody online

  /** Without tables a message in a round is in memory: it was saved with its deliveries. */
  ghost predicate Housed(s: State) {
    !s.persistent ==> forall k :: k in s.entries ==> k.outer in s.messages
  }

  /** Every call but a bare SaveDelivery, which nothing in the program makes, keeps it. */
  lemma HousedStep(s: State, c: Call, cfg: StoreSpec.Config)
    requires Inv(s, cfg) && StoreInvariants.Enabled(s, c) && Housed(s) && !c.CallSaveDelivery?
    ensures Housed(Step(s, c, cfg))
  {
    StepKeeps(s, c, cfg);
    if c.CallSaveMessage? {
      SaveHoused(s, c.m, c.users, c.now);
    } else if !c.CallCrash? && !s.persistent {
      CallDomain(s, c, cfg);
      CallMessages(s, c, cfg);
    }
  }

  lemma SaveHoused(s: State, m: Message, users: seq<string>, now: nat)
    requires RowsOk(s.db) && Housed(s)
    ensures Housed(SaveMessage(s, m, users, now))
  {
    if m.serverId != "" {
      EnsureEntriesAdds(CacheMessage(SaveTables(s, m, users, now), m), m.serverId, users);
    }
  }

  lemma CallMessages(s: State, c: Call, cfg: StoreSpec.Config)
    requires RowsOk(s.db) && StoreInvariants.Enabled(s, c) && AddsNone(c) && !c.CallCrash? && !s.persistent
    ensures Step(s, c, cfg).messages == s.messages
  {
    if IsMark(c) {
      MarkEffects(s, c, cfg);
    } else if IsLoad(c) {
      LoadStep(s, c, cfg);
    }
  }

  /** The fetching threads are `ts`, the id at hand is not queued, and nobody is online. */
  ghost predicate EngineOk(e: Engine, ts: set<nat>, cfg: StoreSpec.Config) {
    && Inv(e.st, cfg) && Housed(e.st) && Within(e, ts)
    && (e.stage.Attempting? ==> e.stage.online == NOBODY)
  }

  /** Nobody comes online and nothing is sent. Without tables ids come from ticks alone: a login
      is not offline, and a recovery finds memory empty. */
  ghost predicate Offline(e: Engine, v: Event, ts: set<nat>) {
    match v
    case Query(t, c, _) => t in ts && (e.st.persistent || c.CallGetDue?)
    case Other(c) => AddsNone(c)
    case Enqueue(_) => false
    case List(_, online) => online == NOBODY
    case _ => true
  }

  ghost predicate Pays(e: Engine, v: Event, f: Engine, ts: set<nat>, cfg: StoreSpec.Config) {
    EngineOk(f, ts, cfg) && Potential(f, |ts|, cfg) + (if Ends(e, v) then 1 else 0) <= Potential(e, |ts|, cfg)
  }

  lemma StepOk(e: Engine, v: Event, ts: set<nat>, cfg: StoreSpec.Config)
    requires EngineOk(e, ts, cfg) && CanStep(e, v) && Offline(e, v, ts)
    ensures EngineOk(Apply(e, v, cfg), ts, cfg)
  {
    CallStep(e, v, cfg);
    if CallOf(e, v).Some? {
      StepKeeps(e.st, CallOf(e, v).value, cfg);
      HousedStep(e.st, CallOf(e, v).value, cfg);
    }
  }

  /** What a query hands to the queue is live. */
  lemma FetchLive(s: State, c: Call, cfg: StoreSpec.Config)
    requires Inv(s, cfg) && IsLoad(c) && StoreInvariants.Enabled(s, c) && (s.persistent || c.CallGetDue?)
    ensures forall id :: id in FetchedIds(s, c) ==> LiveId(Step(s, c, cfg), id)
  {
    var t := Step(s, c, cfg);
    forall id | id in FetchedIds(s, c)
      ensures LiveId(t, id)
    {
      if s.persistent {
        var k :| k in Loads(s, c) && k.outer == id;
        FetchedRow(s, c, k, cfg);
        assert Live(t, k);
      } else {
        var k :| k in s.entries && k.outer == id && s.entries[k].Pending() && s.entries[k].nextRetryAt > 0;
        assert EntryOk(k, s.entries[k], cfg);
        assert Live(t, k);
      }
    }
  }

  lemma FetchedRow(s: State, c: Call, k: Key, cfg: StoreSpec.Config)
    requires Inv(s, cfg) && IsLoad(c) && StoreInvariants.Enabled(s, c) && s.persistent && k in Loads(s, c)
    ensures Live(Step(s, c, cfg), k)
  {
    PendingInExact(s.db, s.db.order);
    if c.CallListPending? { KeysOfUserExact(s.db.PendingKeys(), c.user); }
    LoadAdds(s, Loads(s, c));
  }

  /** A change of the store alone, which a round at hand sees as it is. */
  lemma KeepStage(e: Engine, t: State, ts: set<nat>, cfg: StoreSpec.Config)
    requires EngineOk(e, ts, cfg) && Worn(e.st, t, cfg)
    ensures Potential(e.(st := t), |ts|, cfg) <= Potential(e, |ts|, cfg)
  {
    if !e.stage.Idle? && StageLive(e.st, e.stage) && !StageLive(t, e.stage) {
      if e.stage.Attempting? {
        var u :| u in e.stage.users && Live(e.st, Key(e.stage.id, u));
        assert Dropped(e.st, t, Key(e.stage.id, u), cfg);
      } else {
        LostId(e.st, t, e.stage.id, cfg);
      }
    }
    StepPays(e, e.(st := t), ts, cfg);
  }

  lemma QueryPays(e: Engine, v: Event, ts: set<nat>, cfg: StoreSpec.Config)
    requires EngineOk(e, ts, cfg) && CanStep(e, v) && Offline(e, v, ts) && v.Query?
    ensures Pays(e, v, Apply(e, v, cfg), ts, cfg)
  {
    var f := Apply(e, v, cfg);
    StepOk(e, v, ts, cfg);
    CallWears(e.st, v.c, cfg);
    KeepStage(e, f.st, ts, cfg);
    FetchLive(e.st, v.c, cfg);
    assert StaleHolds(f.st, f.held) == StaleHolds(f.st, e.held);
  }

  lemma PushPays(e: Engine, t: nat, id: string, ts: set<nat>, cfg: StoreSpec.Config)
    requires EngineOk(e, ts, cfg) && CanStep(e, Push(t, id))
    ensures Pays(e, Push(t, id), Apply(e, Push(t, id), cfg), ts, cfg)
  {
    var f, h := Apply(e, Push(t, id), cfg), Hold(t, id);
    assert StaleHolds(e.st, f.held) == StaleHolds(e.st, e.held) - {h};
    if LiveId(e.st, id) {
      assert Stale(e.st, f.queued) == Stale(e.st, e.queued);
      assert h !in StaleHolds(e.st, e.held);
    } else {
      SubsetSize(Stale(e.st, f.queued), Stale(e.st, e.queued) + {id});
      assert h in StaleHolds(e.st, e.held);
    }
  }

  lemma DropPays(e: Engine, id: string, ts: set<nat>, cfg: StoreSpec.Config)
    requires EngineOk(e, ts, cfg) && CanStep(e, Drop(id))
    ensures Pays(e, Drop(id), Apply(e, Drop(id), cfg), ts, cfg)
  {
    SubsetSize(Stale(e.st, e.queued - {id}), Stale(e.st, e.queued));
  }

  lemma OtherPays(e: Engine, c: Call, ts: set<nat>, cfg: StoreSpec.Config)
    requires EngineOk(e, ts, cfg) && CanStep(e, Other(c)) && Offline(e, Other(c), ts)
    ensures Pays(e, Other(c), Apply(e, Other(c), cfg), ts, cfg)
  {
    StepOk(e, Other(c), ts, cfg);
    CallWears(e.st, c, cfg);
    KeepStage(e, Step(e.st, c, cfg), ts, cfg);
  }

  lemma TakePays(e: Engine, id: string, ts: set<nat>, cfg: StoreSpec.Config)
    requires EngineOk(e, ts, cfg) && CanStep(e, Take(id))
    ensures Pays(e, Take(id), Apply(e, Take(id), cfg), ts, cfg)
  {
    assert Stale(e.st, e.queued - {id}) == Stale(e.st, e.queued) - {id};
  }

  /** A look-up that fails finds nothing live: the rows are given up, or there are no entries. */
  lemma MissingIsStale(s: State, id: string, cfg: StoreSpec.Config)
    requires Inv(s, cfg) && Housed(s) && ByServerAnswer(s, id).None?
    ensures !LiveId(GetByServer(s, id), id)
  {
    forall k: Key | k.outer == id
      ensures !Live(GetByServer(s, id), k)
    {
    }
  }

  lemma LookPays(e: Engine, ts: set<nat>, cfg: StoreSpec.Config)
    requires EngineOk(e, ts, cfg) && CanStep(e, Look)
    ensures Pays(e, Look, Apply(e, Look, cfg), ts, cfg)
  {
    StepOk(e, Look, ts, cfg);
    CallWears(e.st, CallGetByServer(e.stage.id), cfg);
    KeepStage(e, GetByServer(e.st, e.stage.id), ts, cfg);
    if ByServerAnswer(e.st, e.stage.id).None? { MissingIsStale(e.st, e.stage.id, cfg); }
  }

  /** Whatever is live in a message's entries is among the targets. */
  lemma TargetsLive(s: State, id: string, recips: seq<string>, direct: string, online: Online, cfg: StoreSpec.Config)
    requires Inv(s, cfg) && RecipientsAnswer(s, id, recips)
    ensures var t := StoreSpec.GetRecipients(s, id);
            LiveId(t, id) ==> StageLive(t, Attempting(id, Targets(recips, direct), online))
  {
    var t := StoreSpec.GetRecipients(s, id);
    if LiveId(t, id) {
      var k :| Live(t, k) && k.outer == id;
      GetRecipientsKeeps(s, id, cfg);
      RecipientsComplete(s, id, recips, cfg);
      if t.persistent { assert CoupledAt(t, k); }
      assert Key(id, k.inner) == k;
      assert k.inner in recips;
      assert k.inner in Targets(recips, direct);
    }
  }

  lemma ListPays(e: Engine, recips: seq<string>, online: Online, ts: set<nat>, cfg: StoreSpec.Config)
    requires EngineOk(e, ts, cfg) && CanStep(e, List(recips, online)) && online == NOBODY
    ensures Pays(e, List(recips, online), Apply(e, List(recips, online), cfg), ts, cfg)
  {
    var id := e.stage.id;
    StepOk(e, List(recips, online), ts, cfg);
    CallWears(e.st, CallGetRecipients(id), cfg);
    KeepStage(e, StoreSpec.GetRecipients(e.st, id), ts, cfg);
    TargetsLive(e.st, id, recips, e.stage.direct, online, cfg);
  }

  /** An attempt after which the round has nothing live to come upon has used up some work. */
  lemma TryLoses(s: State, id: string, users: seq<string>, online: Online, now: nat, cfg: StoreSpec.Config)
    requires Inv(s, cfg) && users != []
    requires Worn(s, ScheduleRetry(s, Key(id, users[0]), Some(OFFLINE), cfg, now), cfg)
    requires StageLive(s, Attempting(id, users, online))
    ensures var t := ScheduleRetry(s, Key(id, users[0]), Some(OFFLINE), cfg, now);
            StageLive(t, Attempting(id, users[1..], online)) || DroppedId(s, t, id, cfg)
  {
    var t := ScheduleRetry(s, Key(id, users[0]), Some(OFFLINE), cfg, now);
    var u :| u in users && Live(s, Key(id, u));
    if u == users[0] {
      FailureDrops(s, Key(id, u), Some(OFFLINE), now, cfg);
      assert Dropped(s, t, Key(id, u), cfg);
    } else if Live(t, Key(id, u)) {
      assert u in users[1..];
    } else {
      assert Dropped(s, t, Key(id, u), cfg);
    }
  }

  lemma TryStep(e: Engine, now: nat, cfg: StoreSpec.Config) returns (t: State)
    requires CanStep(e, Try(now)) && e.stage.online == NOBODY
    ensures t == ScheduleRetry(e.st, Key(e.stage.id, e.stage.users[0]), Some(OFFLINE), cfg, now)
    ensures Apply(e, Try(now), cfg) == e.(st := t, stage := e.stage.(users := e.stage.users[1..]))
  {
    t := ScheduleRetry(e.st, Key(e.stage.id, e.stage.users[0]), Some(OFFLINE), cfg, now);
  }

  lemma TryPays(e: Engine, now: nat, ts: set<nat>, cfg: StoreSpec.Config)
    requires EngineOk(e, ts, cfg) && CanStep(e, Try(now))
    ensures Pays(e, Try(now), Apply(e, Try(now), cfg), ts, cfg)
  {
    var t := TryStep(e, now, cfg);
    StepOk(e, Try(now), ts, cfg);
    FailureWears(e.st, Key(e.stage.id, e.stage.users[0]), Some(OFFLINE), now, cfg);
    if StageLive(e.st, e.stage) { TryLoses(e.st, e.stage.id, e.stage.users, e.stage.online, now, cfg); }
    StepPays(e, e.(st := t, stage := e.stage.(users := e.stage.users[1..])), ts, cfg);
  }

  lemma RestartPays(e: Engine, ts: set<nat>, cfg: StoreSpec.Config)
    requires EngineOk(e, ts, cfg) && CanStep(e, Restart)
    ensures Pays(e, Restart, Apply(e, Restart, cfg), ts, cfg)
  {
    StepOk(e, Restart, ts, cfg);
    var f := Apply(e, Restart, cfg);
    assert Prices(f.st, cfg) == Prices(e.st, cfg);
    assert Stale(f.st, {}) == {} && StaleHolds(f.st, {}) == {};
  }

  /** Every step keeps the potential or lowers it, and a step that ends a round lowers it. */
  lemma EveryStepPays(e: Engine, v: Event, ts: set<nat>, cfg: StoreSpec.Config)
    requires EngineOk(e, ts, cfg) && CanStep(e, v) && Offline(e, v, ts)
    ensures Pays(e, v, Apply(e, v, cfg), ts, cfg)
  {
    match v
    case Query(_, _, _) => QueryPays(e, v, ts, cfg);
    case Push(t, id) => PushPays(e, t, id, ts, cfg);
    case Drop(id) => DropPays(e, id, ts, cfg);
    case Other(c) => OtherPays(e, c, ts, cfg);
    case Take(id) => TakePays(e, id, ts, cfg);
    case Look => LookPays(e, ts, cfg);
    case List(recips, online) => ListPays(e, recips, online, ts, cfg);
    case Try(now) => TryPays(e, now, ts, cfg);
    case Done =>
    case Restart => RestartPays(e, ts, cfg);
  }

  ghost predicate OfflineRun(e: Engine, vs: seq<Event>, f: Engine, ts: set<nat>, cfg: StoreSpec.Config)
    decreases |vs|
  {
    if vs == [] then e == f
    else CanStep(e, vs[0]) && Offline(e, vs[0], ts) && OfflineRun(Apply(e, vs[0], cfg), vs[1..], f, ts, cfg)
  }

  lemma {:induction false} RoundsPaid(e: Engine, vs: seq<Event>, f: Engine, ts: set<nat>, cfg: StoreSpec.Config)
    requires EngineOk(e, ts, cfg) && OfflineRun(e, vs, f, ts, cfg)
    ensures Finished(e, vs, cfg) + Potential(f, |ts|, cfg) <= Potential(e, |ts|, cfg)
    decreases |vs|
  {
    if vs != [] {
      EveryStepPays(e, vs[0], ts, cfg);
      RoundsPaid(Apply(e, vs[0], cfg), vs[1..], f, ts, cfg);
    }
  }

  lemma StoringHoused(y: Logic.System, m: Message, users: seq<string>, at: Logic.Times, cfg: StoreSpec.Config)
    requires Inv(y.st, cfg) && Housed(y.st)
    ensures Housed(Logic.Storing(y, m, users, at).st)
  {
    var s := NextSeq(y.st, m.chatId);
    HousedStep(y.st, CallNextSeq(m.chatId), cfg);
    CacheKeeps(y.st, s, cfg);
    HousedStep(s, CallSaveMessage(m, users, at.row), cfg);
  }

  lemma NextHoused(y: Logic.System, a: Logic.Action, cfg: StoreSpec.Config)
    requires Inv(y.st, cfg) && Housed(y.st) && Logic.Allowed(y, a)
    ensures Housed(Logic.Next(y, a, cfg).st)
  {
    match a
    case DoSend(r, users, at) =>
      match Logic.SendOutcome(y, r, at) {
        case Rejected =>
        case Existing(_) => HousedStep(y.st, CallGetByClient(r.sender, r.EffectiveClientId(at.first)), cfg);
        case Saved(m) => StoringHoused(y, m, users, at, cfg);
      }
    case DoBroadcast(body, users, at) => StoringHoused(y, Logic.EventMessage(y, body, at), users, at, cfg);
    case DoCall(c, at) => HousedStep(y.st, c, cfg);
    case DoRestart(at) =>
  }

  /** Every reachable state of the service is one to start from. */
  lemma {:induction false} ReachableHoused(y: Logic.System, acts: seq<Logic.Action>, z: Logic.System,
                                           cfg: StoreSpec.Config)
    requires Logic.SysInv(y, cfg) && Housed(y.st) && Logic.Leads(y, acts, z, cfg)
    ensures Inv(z.st, cfg) && Housed(z.st)
    decreases |acts|
  {
    if acts != [] {
      NextHoused(y, acts[0], cfg);
      Sending.NextKeeps(y, acts[0], cfg);
      ReachableHoused(Logic.Next(y, acts[0], cfg), acts[1..], z, cfg);
    }
  }

  /** With nobody online the retry loop goes quiet, from every reachable state of the service, with
      tables and restarts or without. However queries, single pushes, receipts, look-ups and
      restarts fall between the worker's steps, the rounds finished are at most the ids queued
      and held at the start, and for each unit of work that is lost on the way one round and one
      late push by each of the fetching threads `ts`. */
  lemma OfflineGoesQuiet(persistent: bool, start: nat, acts: seq<Logic.Action>, z: Logic.System,
                         e: Engine, vs: seq<Event>, f: Engine, ts: set<nat>, cfg: StoreSpec.Config)
    requires Logic.Leads(Logic.InitSystem(persistent, start), acts, z, cfg)
    requires e.st == z.st && e.stage.Idle? && (forall h :: h in e.held ==> h.thread in ts)
    requires OfflineRun(e, vs, f, ts, cfg)
    ensures Finished(e, vs, cfg) + (1 + |ts|) * Total(f.st, cfg)
            <= |e.queued| + |e.held| + (1 + |ts|) * Total(z.st, cfg)
  {
    Sending.StartOk(persistent, start, cfg);
    ReachableHoused(Logic.InitSystem(persistent, start), acts, z, cfg);
    SubsetSize(Stale(e.st, e.queued), e.queued);
    SubsetSize(StaleHolds(e.st, e.held), e.held);
    RoundsPaid(e, vs, f, ts, cfg);
  }
}
