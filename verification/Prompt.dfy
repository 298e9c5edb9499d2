/** Attempts that come too early: an id that a thread still holds from a query can be pushed after a
    round has already failed the delivery, and a failure asks for no due time. Exactly when an
    attempt is on time, and what runs with only such attempts keep. */
module Prompt {
  import opened Basics
  import opened Records
  import opened StoreSpec
  import opened StoreInvariants
  import opened Durability
  import opened Accounting
  import opened Backoff
  import opened Rounds
  import opened Delivery
  import opened Engine
  import opened Schedule

  /** What can be read off a run about one delivery: the threads, the queue and the hand that have
      the id from a tick that found the delivery with no failure of it counted since; how often it
      has failed; and the time that its latest failure has set. */
  datatype Tokens = Tokens(threads: set<nat>, queued: bool, hand: bool, fails: nat, due: Option<nat>)
  {
    predicate Any() { threads != {} || queued || hand }
  }

  /** The step counts a failure of the delivery. */
  ghost predicate Hits(e: Engine, v: Event, k: Key) { CallOf(e, v).Some? && Fails(CallOf(e, v).value, k) }

  ghost function NextTokens(x: Tokens, e: Engine, v: Event, k: Key, base: nat): Tokens {
    match v
    case Query(t, c, taken) =>
      x.(threads := if k.outer in taken && TickFinds(e.st, c, k) then x.threads + {t} else x.threads - {t})
    case Push(t, id) =>
      var y := x.(threads := x.threads - {t});
      if id != k.outer then x
      else if id in e.queued || id in e.InHand() then y
      else y.(queued := t in x.threads)
    case Enqueue(id) => if id != k.outer || id in e.queued || id in e.InHand() then x else x.(queued := false)
    case Take(id) => if id == k.outer then x.(hand := x.queued) else x
    case Try(now) =>
      if Hits(e, v, k)
      then Tokens({}, false, false, x.fails + 1, Some(Reading(e.st.persistent, now) + Delay(base, x.fails + 1)))
      else x
    case Restart => x.(threads := {}, queued := false, hand := false)
    case _ => x
  }

  ghost function TokensAfter(x: Tokens, e: Engine, vs: seq<Event>, k: Key, base: nat, cfg: StoreSpec.Config): Tokens
    decreases |vs|
  {
    if vs == [] || !CanStep(e, vs[0]) then x
    else TokensAfter(NextTokens(x, e, vs[0], k, base), Apply(e, vs[0], cfg), vs[1..], k, base, cfg)
  }

  /** When a step reads the clock, for ticks and attempts. */
  function TimeOf(v: Event): Option<nat> {
    match v
    case Query(_, c, _) => if c.CallGetDue? then Some(c.now) else None
    case Try(now) => Some(now)
    case _ => None
  }

  function Later(clock: nat, v: Event): nat { if TimeOf(v).Some? then TimeOf(v).value else clock }

  /** The clock does not go back. */
  predicate Clocked(vs: seq<Event>, clock: nat)
    decreases |vs|
  {
    vs == [] || (clock <= Later(clock, vs[0]) && Clocked(vs[1..], Later(clock, vs[0])))
  }

  function ClockAfter(vs: seq<Event>, clock: nat): nat {
    if vs == [] then clock else ClockAfter(vs[1..], Later(clock, vs[0]))
  }

  ghost predicate CallsAllowed(e: Engine, vs: seq<Event>, k: Key, cfg: StoreSpec.Config)
    decreases |vs|
  {
    vs == [] || !CanStep(e, vs[0]) ||
    (&& (CallOf(e, vs[0]).Some? ==> OnlyFails(e.st.persistent, CallOf(e, vs[0]).value, k))
     && CallsAllowed(Apply(e, vs[0], cfg), vs[1..], k, cfg))
  }

  /** While the delivery waits, the tokens know its state, and any token means that it is due. */
  ghost predicate TokensOk(x: Tokens, e: Engine, k: Key, clock: nat) {
    SlotOf(e.st, k).open ==>
      && SlotOf(e.st, k) == Slot(true, x.fails, x.due)
      && (x.Any() ==> Due(SlotOf(e.st, k), Reading(e.st.persistent, clock)))
  }

  lemma DueLater(x: Slot, persistent: bool, a: nat, b: nat)
    requires Due(x, Reading(persistent, a)) && a <= b
    ensures Due(x, Reading(persistent, b))
  {
    ReadingMonotone(persistent, a, b);
  }

  lemma SameSlotTokens(x: Tokens, e: Engine, v: Event, k: Key, clock: nat, base: nat, cfg: StoreSpec.Config)
    requires CanStep(e, v) && TokensOk(x, e, k, clock) && clock <= Later(clock, v) && !Hits(e, v, k)
    requires SlotOf(e.st, k).open ==> SlotOf(Apply(e, v, cfg).st, k) == SlotOf(e.st, k)
    requires !SlotOf(e.st, k).open ==> !SlotOf(Apply(e, v, cfg).st, k).open
    requires Apply(e, v, cfg).st.persistent == e.st.persistent
    ensures TokensOk(NextTokens(x, e, v, k, base), Apply(e, v, cfg), k, Later(clock, v))
  {
    var slot := SlotOf(e.st, k);
    if slot.open {
      if x.Any() { DueLater(slot, e.st.persistent, clock, Later(clock, v)); }
      if v.Query? && TickFinds(e.st, v.c, k) { FoundIsDue(e.st, v.c, k); }
    }
  }

  lemma EventSlotStep(e: Engine, v: Event, k: Key, base: nat, cfg: StoreSpec.Config)
    requires Steady(e.st, k, cfg) && InUnits(e.st.persistent, base, cfg) && CanStep(e, v)
    requires CallOf(e, v).Some? ==> OnlyFails(e.st.persistent, CallOf(e, v).value, k)
    ensures Steady(Apply(e, v, cfg).st, k, cfg) && Apply(e, v, cfg).st.persistent == e.st.persistent
    ensures if CallOf(e, v).Some?
            then SlotStep(SlotOf(e.st, k), SlotOf(Apply(e, v, cfg).st, k), CallOf(e, v).value, k,
                          e.st.persistent, base, cfg)
            else Apply(e, v, cfg).st == e.st
  {
    CallStep(e, v, cfg);
    if CallOf(e, v).Some? { CallSlotStep(e.st, CallOf(e, v).value, k, base, cfg); }
  }

  lemma TokensStep(x: Tokens, e: Engine, v: Event, k: Key, clock: nat, base: nat, cfg: StoreSpec.Config)
    requires Steady(e.st, k, cfg) && InUnits(e.st.persistent, base, cfg) && CanStep(e, v)
    requires CallOf(e, v).Some? ==> OnlyFails(e.st.persistent, CallOf(e, v).value, k)
    requires TokensOk(x, e, k, clock) && clock <= Later(clock, v)
    ensures Steady(Apply(e, v, cfg).st, k, cfg) && Apply(e, v, cfg).st.persistent == e.st.persistent
    ensures TokensOk(NextTokens(x, e, v, k, base), Apply(e, v, cfg), k, Later(clock, v))
  {
    EventSlotStep(e, v, k, base, cfg);
    if !Hits(e, v, k) { SameSlotTokens(x, e, v, k, clock, base, cfg); }
  }

  lemma {:induction false} TokensRun(x: Tokens, e: Engine, vs: seq<Event>, f: Engine, k: Key, clock: nat, base: nat,
                                     cfg: StoreSpec.Config)
    requires Steady(e.st, k, cfg) && InUnits(e.st.persistent, base, cfg)
    requires Works(e, vs, f, cfg) && CallsAllowed(e, vs, k, cfg) && Clocked(vs, clock) && TokensOk(x, e, k, clock)
    ensures Steady(f.st, k, cfg) && f.st.persistent == e.st.persistent
    ensures TokensOk(TokensAfter(x, e, vs, k, base, cfg), f, k, ClockAfter(vs, clock))
    decreases |vs|
  {
    if vs != [] {
      var v := vs[0];
      TokensStep(x, e, v, k, clock, base, cfg);
      TokensRun(NextTokens(x, e, v, k, base), Apply(e, v, cfg), vs[1..], f, k, Later(clock, v), base, cfg);
    }
  }

  predicate OnTime(s: State, k: Key, now: nat) {
    SlotOf(s, k).due.None? || Due(SlotOf(s, k), Reading(s.persistent, now))
  }

  /** After any run, restarts and all interleavings of threads included: an attempt at a waiting
      delivery is on time exactly when the id in hand stems from a tick that found the delivery with
      no failure of it counted since, or the delay after its latest failure has passed, or it has
      not failed yet. */
  lemma OnTimeExactly(x: Tokens, e: Engine, vs: seq<Event>, f: Engine, k: Key, clock: nat, now: nat, base: nat,
                      cfg: StoreSpec.Config)
    requires Steady(e.st, k, cfg) && InUnits(e.st.persistent, base, cfg)
    requires Works(e, vs, f, cfg) && CallsAllowed(e, vs, k, cfg) && Clocked(vs, clock) && TokensOk(x, e, k, clock)
    requires SlotOf(f.st, k).open && ClockAfter(vs, clock) <= now
    ensures var y := TokensAfter(x, e, vs, k, base, cfg);
            OnTime(f.st, k, now) <==> y.hand || y.due.None? || y.due.value <= Reading(e.st.persistent, now)
  {
    TokensRun(x, e, vs, f, k, clock, base, cfg);
    if TokensAfter(x, e, vs, k, base, cfg).hand {
      DueLater(SlotOf(f.st, k), e.st.persistent, ClockAfter(vs, clock), now);
    }
  }

  // ----------------------------------------------------- runs with prompt attempts only

  function Calls(c: Option<Call>): seq<Call> { if c.Some? then [c.value] else [] }

  /** The store calls of a run. */
  ghost function CallsOf(e: Engine, vs: seq<Event>, cfg: StoreSpec.Config): seq<Call>
    decreases |vs|
  {
    if vs == [] || !CanStep(e, vs[0]) then []
    else Calls(CallOf(e, vs[0])) + CallsOf(Apply(e, vs[0], cfg), vs[1..], cfg)
  }

  lemma PrependCall(s: State, c: Call, cs: seq<Call>, t: State, k: Key, cfg: StoreSpec.Config)
    requires StoreInvariants.Enabled(s, c) && StoreInvariants.Run(Step(s, c, cfg), cs, t, cfg)
    ensures StoreInvariants.Run(s, [c] + cs, t, cfg)
    ensures CountedWhenDue(Step(s, c, cfg), cs, k, cfg) && (Fails(c, k) ==> SlotOf(s, k).open && OnTime(s, k, c.now))
            ==> CountedWhenDue(s, [c] + cs, k, cfg)
  {
    assert ([c] + cs)[1..] == cs;
  }

  /** Each failure that the run counts meets the delivery waiting, and is its first or has the id
      from a tick that found the delivery, with no other failure counted since. */
  ghost predicate Prompt(x: Tokens, e: Engine, vs: seq<Event>, k: Key, base: nat, cfg: StoreSpec.Config)
    decreases |vs|
  {
    vs == [] || !CanStep(e, vs[0]) ||
    (&& (Hits(e, vs[0], k) ==> SlotOf(e.st, k).open && (x.due.None? || x.hand))
     && Prompt(NextTokens(x, e, vs[0], k, base), Apply(e, vs[0], cfg), vs[1..], k, base, cfg))
  }

  lemma PromptStep(x: Tokens, e: Engine, v: Event, k: Key, clock: nat, cfg: StoreSpec.Config)
    requires CanStep(e, v) && TokensOk(x, e, k, clock) && clock <= Later(clock, v) && CallOf(e, v).Some?
    requires Hits(e, v, k) ==> SlotOf(e.st, k).open && (x.due.None? || x.hand)
    requires OnlyFails(e.st.persistent, CallOf(e, v).value, k)
    ensures Fails(CallOf(e, v).value, k) ==> SlotOf(e.st, k).open && OnTime(e.st, k, CallOf(e, v).value.now)
  {
    if Hits(e, v, k) && x.hand { DueLater(SlotOf(e.st, k), e.st.persistent, clock, Later(clock, v)); }
  }

  lemma {:induction false} PromptKeepsSchedule(x: Tokens, e: Engine, vs: seq<Event>, f: Engine, k: Key, clock: nat,
                                               base: nat, cfg: StoreSpec.Config)
    requires Steady(e.st, k, cfg) && InUnits(e.st.persistent, base, cfg)
    requires Works(e, vs, f, cfg) && CallsAllowed(e, vs, k, cfg) && Clocked(vs, clock) && TokensOk(x, e, k, clock)
    requires Prompt(x, e, vs, k, base, cfg)
    ensures StoreInvariants.Run(e.st, CallsOf(e, vs, cfg), f.st, cfg)
    ensures forall c :: c in CallsOf(e, vs, cfg) ==> OnlyFails(e.st.persistent, c, k)
    ensures CountedWhenDue(e.st, CallsOf(e, vs, cfg), k, cfg)
    decreases |vs|
  {
    if vs != [] {
      var v, m := vs[0], Apply(e, vs[0], cfg);
      TokensStep(x, e, v, k, clock, base, cfg);
      PromptKeepsSchedule(NextTokens(x, e, v, k, base), m, vs[1..], f, k, Later(clock, v), base, cfg);
      CallStep(e, v, cfg);
      if CallOf(e, v).Some? {
        PromptStep(x, e, v, k, clock, cfg);
        PrependCall(e.st, CallOf(e, v).value, CallsOf(m, vs[1..], cfg), f.st, k, cfg);
      } else {
        assert [] + CallsOf(m, vs[1..], cfg) == CallsOf(m, vs[1..], cfg);
      }
    }
  }

  /** In a run of the worker among everything else, a new delivery whose attempts are all prompt is
      given up exactly when it has failed as often as the limit allows, and no earlier than its
      delays add up to. */
  lemma PromptGivesUpLate(e: Engine, vs: seq<Event>, f: Engine, k: Key, clock: nat, base: nat, cfg: StoreSpec.Config)
    requires Steady(e.st, k, cfg) && InUnits(e.st.persistent, base, cfg) && SlotOf(e.st, k) == NEW
    requires Works(e, vs, f, cfg) && CallsAllowed(e, vs, k, cfg) && Clocked(vs, clock)
    requires Prompt(Tokens({}, false, false, 0, None), e, vs, k, base, cfg)
    ensures var ts := FailureTimes(e.st.persistent, CallsOf(e, vs, cfg), k);
      && (GivenUp(f.st, k) <==> |ts| == cfg.Max())
      && (GivenUp(f.st, k) ==> TookLong(ts, cfg.Max(), base))
  {
    PromptKeepsSchedule(Tokens({}, false, false, 0, None), e, vs, f, k, clock, base, cfg);
    GivenUpOnSchedule(e.st, CallsOf(e, vs, cfg), f.st, k, base, cfg);
  }

  // --------------------------------------------------------------- the late push

  /** The message is in memory, its one recipient in memory waits and is due, and with tables it is
      the only one that is. */
  ghost predicate Ripe(s: State, k: Key, now: nat, cfg: StoreSpec.Config) {
    && Steady(s, k, cfg) && k in s.entries && s.entries[k].Pending()
    && k.outer in s.messages && s.messages[k.outer].recipient in ["", k.inner]
    && PendingUsers(s, k.outer) == {k.inner}
    && Due(SlotOf(s, k), Reading(s.persistent, now))
    && (s.persistent ==> forall j :: j in s.db.rows && s.db.IsDue(j, now) ==> j == k)
  }

  /** The tick that finds it, and changes nothing. */
  function Tick(k: Key, now: nat): Call { CallGetDue(now, 500, [k]) }

  lemma TickAnswers(s: State, k: Key, now: nat, cfg: StoreSpec.Config)
    requires Ripe(s, k, now, cfg)
    ensures StoreInvariants.Enabled(s, Tick(k, now)) && Step(s, Tick(k, now), cfg) == s
    ensures k.outer in FetchedIds(s, Tick(k, now)) && TickFinds(s, Tick(k, now), k)
  {
    if s.persistent {
      assert Load(s, [k]) == s by {
        assert [k][..0] == [] && Load(s, []) == s;
        assert SaveDelivery(s, k) == s;
      }
      assert k in Loads(s, Tick(k, now));
    } else {
      assert k.outer in DueIds(s, now);
    }
  }

  /** A round over the message is one failure of the delivery. */
  lemma RoundFails(s: State, k: Key, clock: nat -> nat, cfg: StoreSpec.Config)
    requires k.outer in s.messages && s.messages[k.outer].recipient in ["", k.inner]
    requires PendingUsers(s, k.outer) == {k.inner}
    ensures ByServerAnswer(s, k.outer).Some? && RecipientsAnswer(GetByServer(s, k.outer), k.outer, [k.inner])
    ensures Worker.AfterDelivery(s, k.outer, [k.inner], NOBODY, cfg, clock)
            == ScheduleRetry(s, k, Some(OFFLINE), cfg, clock(0))
  {
    var id, u := k.outer, k.inner;
    assert Elems([u]) == {u} && Targets([u], s.messages[id].recipient) == [u];
    assert [u][..0] == [] && AttemptAll(s, id, [], NOBODY, cfg, clock) == s;
    assert Key(id, u) == k;
  }

  lemma QueryStep(s: State, k: Key, now: nat, queued: set<string>, cfg: StoreSpec.Config)
    requires Ripe(s, k, now, cfg)
    ensures var e, q := Engine(s, {}, queued, Idle), Query(0, Tick(k, now), {k.outer});
            CanStep(e, q) && Apply(e, q, cfg) == Engine(s, {Hold(0, k.outer)}, queued, Idle)
  {
    TickAnswers(s, k, now, cfg);
    var some := set i | i in {k.outer} :: Hold(0, i);
    assert Hold(0, k.outer) in some && some == {Hold(0, k.outer)};
  }

  /** Two ticks find the delivery; the first is pushed, the second is still held. */
  lemma TwoTicks(s: State, k: Key, now: nat, cfg: StoreSpec.Config) returns (vs: seq<Event>)
    requires Ripe(s, k, now, cfg)
    ensures Works(Engine(s, {}, {}, Idle), vs, Engine(s, {Hold(0, k.outer)}, {k.outer}, Idle), cfg)
    ensures Finished(Engine(s, {}, {}, Idle), vs, cfg) == 0
  {
    var id, q := k.outer, Query(0, Tick(k, now), {k.outer});
    var e1, e2 := Engine(s, {Hold(0, id)}, {}, Idle), Engine(s, {}, {id}, Idle);
    var e3 := Engine(s, {Hold(0, id)}, {id}, Idle);
    QueryStep(s, k, now, {}, cfg);
    QueryStep(s, k, now, {id}, cfg);
    assert Apply(e1, Push(0, id), cfg) == e2;
    vs := [];
    WorksCons(e2, q, vs, e3, cfg);
    vs := [q] + vs;
    WorksCons(e1, Push(0, id), vs, e3, cfg);
    vs := [Push(0, id)] + vs;
    WorksCons(Engine(s, {}, {}, Idle), q, vs, e3, cfg);
    vs := [q] + vs;
  }

  /** The round that the late push starts, after the first one has left the store in state `m`. */
  lemma LateRound(m: State, k: Key, recips: seq<string>, clock: nat -> nat, cfg: StoreSpec.Config)
      returns (vs: seq<Event>)
    requires ByServerAnswer(m, k.outer).Some? ==> RecipientsAnswer(GetByServer(m, k.outer), k.outer, recips)
    ensures var t := Worker.AfterDelivery(m, k.outer, recips, NOBODY, cfg, clock);
            Works(Engine(m, {Hold(0, k.outer)}, {}, Idle), vs, Engine(t, {}, {}, Idle), cfg)
    ensures Finished(Engine(m, {Hold(0, k.outer)}, {}, Idle), vs, cfg) == 1
  {
    var id, e := k.outer, Engine(m, {}, {k.outer}, Idle);
    assert Apply(Engine(m, {Hold(0, id)}, {}, Idle), Push(0, id), cfg) == e;
    vs := DeliveryIsRun(e, id, recips, NOBODY, clock, cfg);
    assert e.queued - {id} == {};
    WorksCons(Engine(m, {Hold(0, id)}, {}, Idle), Push(0, id),
            vs, Engine(Worker.AfterDelivery(m, id, recips, NOBODY, cfg, clock), {}, {}, Idle), cfg);
    vs := [Push(0, id)] + vs;
  }

  /** The first tick's round, with the second tick's answer still held. */
  lemma HeldRound(s: State, k: Key, now: nat, cfg: StoreSpec.Config) returns (vs: seq<Event>)
    requires Ripe(s, k, now, cfg)
    ensures var m := ScheduleRetry(s, k, Some(OFFLINE), cfg, now);
            Works(Engine(s, {}, {}, Idle), vs, Engine(m, {Hold(0, k.outer)}, {}, Idle), cfg)
    ensures Finished(Engine(s, {}, {}, Idle), vs, cfg) == 1
  {
    var id, clock := k.outer, (i: nat) => now;
    vs := TwoTicks(s, k, now, cfg);
    RoundFails(s, k, clock, cfg);
    var e := Engine(s, {Hold(0, id)}, {id}, Idle);
    var ws := DeliveryIsRun(e, id, [k.inner], NOBODY, clock, cfg);
    assert e.queued - {id} == {};
    var f := Engine(ScheduleRetry(s, k, Some(OFFLINE), cfg, now), {Hold(0, id)}, {}, Idle);
    WorksAppend(Engine(s, {}, {}, Idle), vs, e, ws, f, cfg);
    FinishedAppend(Engine(s, {}, {}, Idle), vs, e, ws, cfg);
    vs := vs + ws;
  }

  lemma FailureMovesSlot(s: State, k: Key, at: nat, base: nat, cfg: StoreSpec.Config)
    requires Steady(s, k, cfg) && InUnits(s.persistent, base, cfg) && SlotOf(s, k).open
             && SlotOf(s, k).count + 1 < cfg.Max()
    ensures var m := ScheduleRetry(s, k, Some(OFFLINE), cfg, at); var n := SlotOf(s, k).count + 1;
      && Steady(m, k, cfg) && m.persistent == s.persistent && Touches(s, m, k)
      && SlotOf(m, k) == Slot(true, n, Some(Reading(s.persistent, at) + Delay(base, n)))
      && (k in s.entries ==> m.entries[k] == FailEntry(s.entries[k], OFFLINE, cfg, at))
  {
    var m := ScheduleRetry(s, k, Some(OFFLINE), cfg, at);
    ScheduleRetryEffect(s, k, Some(OFFLINE), cfg, at);
    SlotStepTo(s, CallScheduleRetry(k, Some(OFFLINE), at), m, k, base, cfg);
  }

  lemma SlotStepTo(s: State, c: Call, t: State, k: Key, base: nat, cfg: StoreSpec.Config)
    requires Steady(s, k, cfg) && StoreInvariants.Enabled(s, c) && OnlyFails(s.persistent, c, k)
    requires InUnits(s.persistent, base, cfg) && t == Step(s, c, cfg)
    ensures Steady(t, k, cfg) && t.persistent == s.persistent
    ensures SlotStep(SlotOf(s, k), SlotOf(t, k), c, k, s.persistent, base, cfg)
  {
    CallSlotStep(s, c, k, base, cfg);
  }

  lemma FailureKeepsRipe(s: State, k: Key, now: nat, base: nat, cfg: StoreSpec.Config)
    requires Ripe(s, k, now, cfg) && InUnits(s.persistent, base, cfg)
    requires s.entries[k].retry + 1 < cfg.Max() && SlotOf(s, k).count + 1 < cfg.Max()
    ensures var m := ScheduleRetry(s, k, Some(OFFLINE), cfg, now);
      && m.messages == s.messages && PendingUsers(m, k.outer) == {k.inner}
      && k in m.entries && m.entries[k].retry == s.entries[k].retry + 1
      && SlotOf(m, k).open && !OnTime(m, k, now)
  {
    var m := ScheduleRetry(s, k, Some(OFFLINE), cfg, now);
    FailureMovesSlot(s, k, now, base, cfg);
    DelayShape(base, SlotOf(s, k).count + 1);
    SamePending(s, m, k);
  }

  lemma SamePending(s: State, m: State, k: Key)
    requires Touches(s, m, k) && k in s.entries && s.entries[k].Pending() && m.entries[k].Pending()
    ensures PendingUsers(m, k.outer) == PendingUsers(s, k.outer)
  {
    forall u ensures u in PendingUsers(m, k.outer) <==> u in PendingUsers(s, k.outer) {
      var j := Key(k.outer, u);
      assert u in PendingUsers(m, k.outer) <==> j in m.entries && m.entries[j].Pending();
      assert u in PendingUsers(s, k.outer) <==> j in s.entries && s.entries[j].Pending();
    }
  }

  /** So with one ticking thread an attempt can come before its time: both rounds fail the delivery
      at the same clock reading, the second although the first has just set a later time. */
  lemma EarlyFailure(s: State, k: Key, now: nat, base: nat, cfg: StoreSpec.Config)
      returns (vs: seq<Event>, f: Engine, ws: seq<Event>, g: Engine)
    requires Ripe(s, k, now, cfg) && InUnits(s.persistent, base, cfg)
    requires s.entries[k].retry + 1 < cfg.Max() && SlotOf(s, k).count + 1 < cfg.Max()
    ensures Works(Engine(s, {}, {}, Idle), vs, f, cfg) && Works(f, ws, g, cfg)
    ensures SlotOf(f.st, k).open && !OnTime(f.st, k, now)
    ensures g.st == ScheduleRetry(f.st, k, Some(OFFLINE), cfg, now)
    ensures k in f.st.entries && k in g.st.entries && g.st.entries[k].retry == f.st.entries[k].retry + 1
  {
    var m, clock := ScheduleRetry(s, k, Some(OFFLINE), cfg, now), (i: nat) => now;
    vs := HeldRound(s, k, now, cfg);
    f := Engine(m, {Hold(0, k.outer)}, {}, Idle);
    FailureKeepsRipe(s, k, now, base, cfg);
    RoundFails(m, k, clock, cfg);
    ws := LateRound(m, k, [k.inner], clock, cfg);
    g := Engine(ScheduleRetry(m, k, Some(OFFLINE), cfg, now), {}, {}, Idle);
    ScheduleRetryEffect(m, k, Some(OFFLINE), cfg, now);
  }

  // ------------------------------------------------ the bound on rounds is attained

  lemma LastFailure(s: State, k: Key, now: nat, cfg: StoreSpec.Config)
    requires Ripe(s, k, now, cfg) && Domain(s) == {k} && s.entries[k].retry + 1 >= cfg.Max()
    ensures var m := ScheduleRetry(s, k, Some(OFFLINE), cfg, now);
            k.outer in m.messages && RecipientsAnswer(m, k.outer, [])
  {
    var m, id := ScheduleRetry(s, k, Some(OFFLINE), cfg, now), k.outer;
    ScheduleRetryEffect(s, k, Some(OFFLINE), cfg, now);
    forall u ensures u !in PendingUsers(m, id) {
      if Key(id, u) in m.entries && m.entries[Key(id, u)].Pending() { assert u in PendingUsers(s, id); }
    }
    assert PendingUsers(m, id) == {} && Elems<string>([]) == {};
    if m.persistent {
      assert m.db.rows.Keys == s.db.rows.Keys && m.db.rows[k].status == DEAD;
      NoRows(m.db, k);
    }
  }

  /** The one row of the table is not pending, so no recipient is. */
  lemma NoRows(db: Tables, k: Key)
    requires db.rows.Keys == {k} && !db.IsPending(k)
    ensures UsersOf(db.PendingKeys(), k.outer) == []
  {
    NonePending(db, k, db.order);
  }

  lemma {:induction false} NonePending(db: Tables, k: Key, ks: seq<Key>)
    requires db.rows.Keys == {k} && !db.IsPending(k)
    ensures db.PendingIn(ks) == []
    decreases |ks|
  {
    if ks != [] { NonePending(db, k, ks[1..]); }
  }

  /** One unit of work, one ticking thread, nothing queued or held, and two rounds finish. */
  lemma BoundAttained(s: State, k: Key, now: nat, cfg: StoreSpec.Config) returns (vs: seq<Event>, f: Engine)
    requires Ripe(s, k, now, cfg) && Domain(s) == {k} && s.entries[k].retry + 1 >= cfg.Max()
    ensures Total(s, cfg) == 1
    ensures Works(Engine(s, {}, {}, Idle), vs, f, cfg) && Finished(Engine(s, {}, {}, Idle), vs, cfg) == 2
  {
    var m, clock := ScheduleRetry(s, k, Some(OFFLINE), cfg, now), (i: nat) => now;
    var e := Engine(m, {Hold(0, k.outer)}, {}, Idle);
    OneUnit(s, k, cfg);
    vs := HeldRound(s, k, now, cfg);
    LastFailure(s, k, now, cfg);
    var ws := LateRound(m, k, [], clock, cfg);
    f := Engine(Worker.AfterDelivery(m, k.outer, [], NOBODY, cfg, clock), {}, {}, Idle);
    WorksAppend(Engine(s, {}, {}, Idle), vs, e, ws, f, cfg);
    FinishedAppend(Engine(s, {}, {}, Idle), vs, e, ws, cfg);
    vs := vs + ws;
  }

  lemma OneUnit(s: State, k: Key, cfg: StoreSpec.Config)
    requires Inv(s, cfg) && Domain(s) == {k} && k in s.entries && s.entries[k].retry + 1 >= cfg.Max()
    requires k.inner != "" && SlotOf(s, k).open
    ensures Total(s, cfg) == 1
  {
    if s.persistent { assert CoupledAt(s, k); }
    SumPick(Prices(s, cfg), k);
    assert Prices(s, cfg) - {k} == map[];
  }

  // ----------------------------------------------------- such states are reachable

  /** One message for one recipient, saved and failed once, one delay later. */
  lemma RipeReachable(persistent: bool, m: Message, u: string, at: nat, base: nat, cfg: StoreSpec.Config)
      returns (s: State, now: nat)
    requires m.serverId != "" && u != "" && m.recipient in ["", u] && cfg.Max() >= 2 && InUnits(persistent, base, cfg)
    ensures var k := Key(m.serverId, u);
      && StoreInvariants.Run(InitState(persistent),
                             [CallSaveMessage(m, [u], at), CallScheduleRetry(k, Some(OFFLINE), at)], s, cfg)
      && Ripe(s, k, now, cfg) && Domain(s) == {k} && s.entries[k].retry == 1 && SlotOf(s, k).count == 1
  {
    var k, s0 := Key(m.serverId, u), SaveMessage(InitState(persistent), m, [u], at);
    now := at + Delay(cfg.Base(), 1);
    s := ScheduleRetry(s0, k, Some(OFFLINE), cfg, at);
    InitInv(persistent, cfg);
    SaveMessageKeeps(InitState(persistent), m, [u], at, cfg);
    SavedOne(persistent, m, u, at);
    TwoCalls(InitState(persistent), CallSaveMessage(m, [u], at), CallScheduleRetry(k, Some(OFFLINE), at), cfg);
    FailedOnce(s0, k, at, base, cfg);
  }

  lemma TwoCalls(s: State, c: Call, d: Call, cfg: StoreSpec.Config)
    requires StoreInvariants.Enabled(s, c) && StoreInvariants.Enabled(Step(s, c, cfg), d)
    ensures StoreInvariants.Run(s, [c, d], Step(Step(s, c, cfg), d, cfg), cfg)
  {
    var m := Step(s, c, cfg);
    assert [c, d][1..] == [d] && [d][1..] == [];
    assert StoreInvariants.Run(Step(m, d, cfg), [], Step(m, d, cfg), cfg);
    assert StoreInvariants.Run(m, [d], Step(m, d, cfg), cfg);
  }

  /** The store after the one save. */
  ghost predicate JustSaved(s: State, k: Key) {
    && k.outer != "" && k.inner != "" && s.entries == map[k := FreshEntry(k.inner)]
    && k.outer in s.messages && s.messages[k.outer].recipient in ["", k.inner]
    && (s.persistent ==> s.db.rows == map[k := FRESH_ROW] && Kept(s, k.outer))
  }

  lemma SavedOne(persistent: bool, m: Message, u: string, at: nat)
    requires m.serverId != "" && u != "" && m.recipient in ["", u]
    ensures JustSaved(SaveMessage(InitState(persistent), m, [u], at), Key(m.serverId, u))
    ensures SaveMessage(InitState(persistent), m, [u], at).persistent == persistent
  {
    var s := InitState(persistent);
    var b := CacheMessage(SaveTables(s, m, [u], at), m);
    assert [u][..0] == [] && [u][1..] == [];
    assert EnsureEntries(b, m.serverId, []) == b;
    assert EnsureEntries(b, m.serverId, [u]) == EnsureEntry(b, Key(m.serverId, u));
    if persistent {
      var db := s.db.InsertMessage(Stored(m, at));
      assert db.InsertRows(m.serverId, [u]) == db.InsertRow(Key(m.serverId, u)).InsertRows(m.serverId, []);
      assert db.messages == [Stored(m, at)];
    }
  }

  lemma FailedOnce(s: State, k: Key, at: nat, base: nat, cfg: StoreSpec.Config)
    requires Inv(s, cfg) && JustSaved(s, k) && cfg.Max() >= 2 && InUnits(s.persistent, base, cfg)
    ensures var t := ScheduleRetry(s, k, Some(OFFLINE), cfg, at);
      && Ripe(t, k, at + Delay(cfg.Base(), 1), cfg) && Domain(t) == {k}
      && t.entries[k].retry == 1 && SlotOf(t, k).count == 1
  {
    FailureMovesSlot(s, k, at, base, cfg);
    NowRipe(s, ScheduleRetry(s, k, Some(OFFLINE), cfg, at), k, at, base, cfg);
  }

  lemma NowRipe(s: State, t: State, k: Key, at: nat, base: nat, cfg: StoreSpec.Config)
    requires JustSaved(s, k) && Touches(s, t, k) && Steady(t, k, cfg) && InUnits(s.persistent, base, cfg)
             && cfg.Max() >= 2
    requires t.entries[k] == FailEntry(FreshEntry(k.inner), OFFLINE, cfg, at)
    requires SlotOf(t, k) == Slot(true, 1, Some(Reading(s.persistent, at) + Delay(base, 1)))
    ensures Ripe(t, k, at + Delay(cfg.Base(), 1), cfg) && Domain(t) == {k}
    ensures t.entries[k].retry == 1
  {
    OnePending(s, k);
    SamePending(s, t, k);
    assert t.entries.Keys == s.entries.Keys == {k} && (s.persistent ==> t.db.rows.Keys == s.db.rows.Keys == {k});
    DelayPassed(s.persistent, at, base, cfg);
  }

  lemma OnePending(s: State, k: Key)
    requires s.entries == map[k := FreshEntry(k.inner)]
    ensures PendingUsers(s, k.outer) == {k.inner}
  {
    assert k in s.entries;
  }

  lemma DelayPassed(persistent: bool, at: nat, base: nat, cfg: StoreSpec.Config)
    requires InUnits(persistent, base, cfg)
    ensures Reading(persistent, at + Delay(cfg.Base(), 1)) == Reading(persistent, at) + Delay(base, 1)
  {
    if !persistent {
      ScaledDelay(base, 1);
      UnixShift(at, Delay(base, 1));
    }
  }
}
