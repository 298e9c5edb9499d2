/** The retry schedule over whole runs: failures that each follow a tick of their own are counted
    when due, so giving a delivery up takes at least the sum of its delays. */
module Schedule {
  import opened Basics
  import opened Records
  import opened StoreSpec
  import opened StoreInvariants
  import opened Durability
  import opened Backoff

  // ------------------------------------------------ what the schedule sees of a delivery

  /** Whether it is still waiting, how often it was attempted, and when it is due next. */
  datatype Slot = Slot(open: bool, count: nat, due: Option<nat>)

  /** With tables the row decides, in nanoseconds; without, the entry, in seconds. */
  function SlotOf(s: State, k: Key): Slot {
    if s.persistent then
      if k in s.db.rows
      then RowAsSlot(s.db.rows[k])
      else Slot(false, 0, None)
    else if k in s.entries
    then
      var e := s.entries[k];
      Slot(e.Pending(), e.retry, if e.nextRetryAt > 0 then Some(e.nextRetryAt) else None)
    else Slot(false, 0, None)
  }

  /** A clock reading in that unit. */
  function Reading(persistent: bool, now: nat): nat { if persistent then now else Unix(now) }

  predicate Due(x: Slot, r: nat) { x.open && x.due.Some? && x.due.value <= r }

  /** The base delay in that unit. Without tables it has to be a number of whole seconds. */
  predicate InUnits(persistent: bool, base: nat, cfg: Config) {
    if persistent then cfg.Base() == base else cfg.Base() == base * SECOND
  }

  const NEW := Slot(true, 0, None)

  /** Nothing but failures marks the delivery, and without tables there is no restart. */
  predicate OnlyFails(persistent: bool, c: Call, k: Key) { OnlyFailures(c, k) && (!persistent ==> !c.CallCrash?) }

  /** The delivery is neither acknowledged nor read, and with tables its message is stored. */
  ghost predicate Steady(s: State, k: Key, cfg: Config) {
    && Inv(s, cfg) && k.outer != "" && k.inner != ""
    && if s.persistent
       then k in s.db.rows && Kept(s, k.outer) && (s.db.rows[k].status == PENDING || s.db.rows[k].status == DEAD)
       else k in s.entries && !s.entries[k].acked && !s.entries[k].read
  }

  predicate GivenUp(s: State, k: Key) {
    if s.persistent then k in s.db.rows && s.db.rows[k].status == DEAD else k in s.entries && s.entries[k].dead
  }

  /** What a call does to the delivery. */
  ghost predicate SlotStep(x: Slot, y: Slot, c: Call, k: Key, persistent: bool, base: nat, cfg: Config) {
    if !x.open then !y.open
    else if !Fails(c, k) then y == x
    else if x.count + 1 >= cfg.Max() then !y.open
    else y == Slot(true, x.count + 1, Some(Reading(persistent, c.now) + Delay(base, x.count + 1)))
  }

  lemma RowSlotStep(s: State, c: Call, k: Key, cfg: Config)
    requires Steady(s, k, cfg) && s.persistent && Enabled(s, c) && OnlyFailures(c, k)
    ensures Steady(Step(s, c, cfg), k, cfg)
    ensures SlotStep(SlotOf(s, k), SlotOf(Step(s, c, cfg), k), c, k, true, cfg.Base(), cfg)
  {
    StepKeeps(s, c, cfg);
    KeptStays(s, c, k.outer, cfg);
    RowSlot(s, c, k, cfg);
  }

  function RowAsSlot(r: Row): Slot { Slot(r.status == PENDING, r.retryCount, r.nextRetryAt) }

  lemma PendingRowSlot(s: State, c: Call, k: Key, cfg: Config)
    requires Inv(s, cfg) && s.persistent && Enabled(s, c) && OnlyFailures(c, k) && Kept(s, k.outer) && s.db.IsPending(k)
    ensures k in Step(s, c, cfg).db.rows
    ensures Step(s, c, cfg).db.rows[k].status == PENDING || Step(s, c, cfg).db.rows[k].status == DEAD
    ensures SlotStep(RowAsSlot(s.db.rows[k]), RowAsSlot(Step(s, c, cfg).db.rows[k]), c, k, true, cfg.Base(), cfg)
  {
    PendingRowStep(s, c, k, cfg);
  }

  lemma RowSlot(s: State, c: Call, k: Key, cfg: Config)
    requires Inv(s, cfg) && s.persistent && Enabled(s, c) && OnlyFailures(c, k) && Kept(s, k.outer)
    requires k in s.db.rows && (s.db.rows[k].status == PENDING || s.db.rows[k].status == DEAD)
    ensures k in Step(s, c, cfg).db.rows
    ensures Step(s, c, cfg).db.rows[k].status == PENDING || Step(s, c, cfg).db.rows[k].status == DEAD
    ensures SlotStep(RowAsSlot(s.db.rows[k]), RowAsSlot(Step(s, c, cfg).db.rows[k]), c, k, true, cfg.Base(), cfg)
  {
    if s.db.IsPending(k) { PendingRowSlot(s, c, k, cfg); } else { DeadRowStep(s, c, k, cfg); }
  }

  lemma EntrySlotStep(s: State, c: Call, k: Key, base: nat, cfg: Config)
    requires Steady(s, k, cfg) && !s.persistent && Enabled(s, c) && OnlyFails(false, c, k)
    requires cfg.Base() == base * SECOND
    ensures Steady(Step(s, c, cfg), k, cfg)
    ensures SlotStep(SlotOf(s, k), SlotOf(Step(s, c, cfg), k), c, k, false, base, cfg)
  {
    StepKeeps(s, c, cfg);
    StepEntry(s, c, k, cfg);
    if Fails(c, k) {
      var n := s.entries[k].retry + 1;
      ScaledDelay(base, n);
      UnixShift(c.now, Delay(base, n));
      DelayShape(base, n);
    }
  }

  lemma CallSlotStep(s: State, c: Call, k: Key, base: nat, cfg: Config)
    requires Steady(s, k, cfg) && Enabled(s, c) && OnlyFails(s.persistent, c, k) && InUnits(s.persistent, base, cfg)
    ensures Steady(Step(s, c, cfg), k, cfg) && Step(s, c, cfg).persistent == s.persistent
    ensures SlotStep(SlotOf(s, k), SlotOf(Step(s, c, cfg), k), c, k, s.persistent, base, cfg)
  {
    StepKeeps(s, c, cfg);
    if s.persistent { RowSlotStep(s, c, k, cfg); } else { EntrySlotStep(s, c, k, base, cfg); }
  }

  // ------------------------------------------------------------ ticks and failures

  /** A tick that finds this delivery due. */
  predicate TickFinds(s: State, c: Call, k: Key) {
    c.CallGetDue? && if s.persistent then k in c.answer else Due(SlotOf(s, k), Unix(c.now))
  }

  lemma FoundIsDue(s: State, c: Call, k: Key)
    requires Enabled(s, c) && TickFinds(s, c, k)
    ensures Due(SlotOf(s, k), Reading(s.persistent, c.now))
  {
  }

  /** Each failure met the delivery waiting, and either due or not yet scheduled. */
  ghost predicate CountedWhenDue(s: State, cs: seq<Call>, k: Key, cfg: Config)
    decreases |cs|
  {
    cs == [] ||
    (&& (Fails(cs[0], k) ==>
           SlotOf(s, k).open && (SlotOf(s, k).due.None? || Due(SlotOf(s, k), Reading(s.persistent, cs[0].now))))
     && CountedWhenDue(Step(s, cs[0], cfg), cs[1..], k, cfg))
  }

  /** Each failure but the first follows a tick that found the delivery, at or before the time of
      the failure, with no other failure of it in between. `found` is the time of such a tick;
      `first` says that there has been no failure yet. */
  ghost predicate Ticked(s: State, cs: seq<Call>, k: Key, first: bool, found: Option<nat>, cfg: Config)
    decreases |cs|
  {
    cs == [] ||
    var m := Step(s, cs[0], cfg);
    if TickFinds(s, cs[0], k) then Ticked(m, cs[1..], k, first, Some(cs[0].now), cfg)
    else if Fails(cs[0], k)
    then (first || (found.Some? && found.value <= cs[0].now)) && Ticked(m, cs[1..], k, false, None, cfg)
    else Ticked(m, cs[1..], k, first, found, cfg)
  }

  /** What is known of the delivery between ticks and failures. */
  ghost predicate Found(s: State, k: Key, first: bool, found: Option<nat>) {
    && (first ==> SlotOf(s, k).open && SlotOf(s, k).due.None?)
    && (found.Some? ==> Due(SlotOf(s, k), Reading(s.persistent, found.value)))
  }

  lemma ReadingMonotone(persistent: bool, a: nat, b: nat)
    requires a <= b
    ensures Reading(persistent, a) <= Reading(persistent, b)
  {
  }

  lemma FoundStep(s: State, c: Call, k: Key, first: bool, found: Option<nat>, base: nat, cfg: Config)
    requires Steady(s, k, cfg) && Enabled(s, c) && OnlyFails(s.persistent, c, k) && InUnits(s.persistent, base, cfg)
    requires Found(s, k, first, found)
    ensures TickFinds(s, c, k) ==> Found(Step(s, c, cfg), k, first, Some(c.now))
    ensures !TickFinds(s, c, k) && !Fails(c, k) ==> Found(Step(s, c, cfg), k, first, found)
    ensures Fails(c, k) && (first || (found.Some? && found.value <= c.now)) ==>
              SlotOf(s, k).open && (SlotOf(s, k).due.None? || Due(SlotOf(s, k), Reading(s.persistent, c.now)))
  {
    CallSlotStep(s, c, k, base, cfg);
    if TickFinds(s, c, k) { FoundIsDue(s, c, k); }
    if Fails(c, k) && found.Some? && found.value <= c.now { ReadingMonotone(s.persistent, found.value, c.now); }
  }

  /** When each failure but the first follows a tick of its own, each is counted when due, whatever
      else runs and, with tables, however often the process restarts. */
  lemma {:induction false} TicksKeepSchedule(s: State, cs: seq<Call>, t: State, k: Key, first: bool, found: Option<nat>,
                                             base: nat, cfg: Config)
    requires Steady(s, k, cfg) && InUnits(s.persistent, base, cfg)
    requires Run(s, cs, t, cfg) && (forall c :: c in cs ==> OnlyFails(s.persistent, c, k))
    requires Ticked(s, cs, k, first, found, cfg) && Found(s, k, first, found)
    ensures CountedWhenDue(s, cs, k, cfg)
    decreases |cs|
  {
    if cs != [] {
      var c, m := cs[0], Step(s, cs[0], cfg);
      assert c in cs;
      FoundStep(s, c, k, first, found, base, cfg);
      CallSlotStep(s, c, k, base, cfg);
      if TickFinds(s, c, k) {
        TicksKeepSchedule(m, cs[1..], t, k, first, Some(c.now), base, cfg);
      } else if Fails(c, k) {
        TicksKeepSchedule(m, cs[1..], t, k, false, None, base, cfg);
      } else {
        TicksKeepSchedule(m, cs[1..], t, k, first, found, base, cfg);
      }
    }
  }

  // --------------------------------------------------------------- times and delays

  /** The readings at which the calls counted failures; None for a call that counted none. */
  function Hits(persistent: bool, cs: seq<Call>, k: Key): seq<Option<nat>> {
    seq(|cs|, i requires 0 <= i < |cs| => if Fails(cs[i], k) then Some(Reading(persistent, cs[i].now)) else None)
  }

  function Times(hits: seq<Option<nat>>): seq<nat> {
    if hits == [] then [] else (if hits[0].Some? then [hits[0].value] else []) + Times(hits[1..])
  }

  function FailureTimes(persistent: bool, cs: seq<Call>, k: Key): seq<nat> { Times(Hits(persistent, cs, k)) }

  function Last(ts: seq<nat>): nat
    requires ts != []
  {
    ts[|ts| - 1]
  }

  /** One failure, when due, or nothing. */
  ghost predicate Move(x: Slot, y: Slot, hit: Option<nat>, base: nat, max: nat) {
    if !x.open then !y.open && hit.None?
    else if hit.None? then y == x
    else
      && (x.due.Some? ==> x.due.value <= hit.value)
      && if x.count + 1 >= max then !y.open
         else y == Slot(true, x.count + 1, Some(hit.value + Delay(base, x.count + 1)))
  }

  /** The values `xs` that the delivery takes after each call. */
  ghost predicate Story(x: Slot, hits: seq<Option<nat>>, xs: seq<Slot>, base: nat, max: nat)
    decreases |hits|
  {
    && |xs| == |hits|
    && (hits != [] ==> Move(x, xs[0], hits[0], base, max) && Story(xs[0], hits[1..], xs[1..], base, max))
  }

  function End(x: Slot, xs: seq<Slot>): Slot { if xs == [] then x else xs[|xs| - 1] }

  lemma StoryCons(x: Slot, y: Slot, rest: seq<Slot>, hits: seq<Option<nat>>, base: nat, max: nat)
    requires hits != [] && Move(x, y, hits[0], base, max) && Story(y, hits[1..], rest, base, max)
    ensures Story(x, hits, [y] + rest, base, max)
    ensures End(x, [y] + rest) == End(y, rest)
  {
    assert ([y] + rest)[1..] == rest;
  }

  lemma {:induction false} SteadyRun(s: State, cs: seq<Call>, t: State, k: Key, base: nat, cfg: Config)
    requires Steady(s, k, cfg) && InUnits(s.persistent, base, cfg)
    requires Run(s, cs, t, cfg) && (forall c :: c in cs ==> OnlyFails(s.persistent, c, k))
    ensures t.persistent == s.persistent && Steady(t, k, cfg)
    decreases |cs|
  {
    if cs != [] {
      assert cs[0] in cs;
      CallSlotStep(s, cs[0], k, base, cfg);
      SteadyRun(Step(s, cs[0], cfg), cs[1..], t, k, base, cfg);
    }
  }

  lemma OneMove(s: State, cs: seq<Call>, k: Key, base: nat, cfg: Config) returns (y: Slot)
    requires Steady(s, k, cfg) && InUnits(s.persistent, base, cfg) && cs != []
    requires Enabled(s, cs[0]) && OnlyFails(s.persistent, cs[0], k) && CountedWhenDue(s, cs, k, cfg)
    ensures var m := Step(s, cs[0], cfg);
      && y == SlotOf(m, k) && Steady(m, k, cfg) && m.persistent == s.persistent && CountedWhenDue(m, cs[1..], k, cfg)
    ensures Move(SlotOf(s, k), y, Hits(s.persistent, cs, k)[0], base, cfg.Max())
  {
    CallSlotStep(s, cs[0], k, base, cfg);
    y := SlotOf(Step(s, cs[0], cfg), k);
  }

  lemma {:induction false} TellStory(s: State, cs: seq<Call>, t: State, k: Key, base: nat, cfg: Config)
      returns (xs: seq<Slot>)
    requires Steady(s, k, cfg) && InUnits(s.persistent, base, cfg)
    requires Run(s, cs, t, cfg) && (forall c :: c in cs ==> OnlyFails(s.persistent, c, k))
             && CountedWhenDue(s, cs, k, cfg)
    ensures Story(SlotOf(s, k), Hits(s.persistent, cs, k), xs, base, cfg.Max())
    ensures SlotOf(t, k) == End(SlotOf(s, k), xs)
    decreases |cs|
  {
    if cs == [] {
      xs := [];
    } else {
      assert cs[0] in cs;
      assert Hits(s.persistent, cs, k)[1..] == Hits(s.persistent, cs[1..], k);
      var y := OneMove(s, cs, k, base, cfg);
      var rest := TellStory(Step(s, cs[0], cfg), cs[1..], t, k, base, cfg);
      xs := [y] + rest;
      StoryCons(SlotOf(s, k), y, rest, Hits(s.persistent, cs, k), base, cfg.Max());
    }
  }

  lemma {:induction false} ClosedStays(x: Slot, hits: seq<Option<nat>>, xs: seq<Slot>, base: nat, max: nat)
    requires Story(x, hits, xs, base, max) && !x.open
    ensures Times(hits) == [] && !End(x, xs).open
    decreases |hits|
  {
    if hits != [] { ClosedStays(xs[0], hits[1..], xs[1..], base, max); }
  }

  /** The delivery is closed exactly when its failures have used up the limit. */
  lemma {:induction false} ClosedExactly(x: Slot, hits: seq<Option<nat>>, xs: seq<Slot>, base: nat, max: nat)
    requires Story(x, hits, xs, base, max) && x.open && x.count < max
    ensures x.count + |Times(hits)| <= max
    ensures End(x, xs).open <==> x.count + |Times(hits)| < max
    decreases |hits|
  {
    if hits != [] {
      if xs[0].open {
        ClosedExactly(xs[0], hits[1..], xs[1..], base, max);
      } else {
        ClosedStays(xs[0], hits[1..], xs[1..], base, max);
      }
    }
  }

  /** The times `ts` of the failures of a delivery that was due at `due` after `n` failures. */
  ghost predicate Spaced(ts: seq<nat>, due: int, n: nat, base: nat) {
    ts != [] ==> Last(ts) - due >= TotalDelay(base, n + |ts| - 1) - TotalDelay(base, n)
  }

  lemma SpacedCons(at: nat, ts: seq<nat>, due: int, n: nat, base: nat)
    requires due <= at && Spaced(ts, at + Delay(base, n + 1), n + 1, base)
    ensures Spaced([at] + ts, due, n, base)
  {
    if ts != [] {
      assert Last([at] + ts) == Last(ts);
      assert TotalDelay(base, n + 1) == TotalDelay(base, n) + Delay(base, n + 1);
    }
  }

  /** From a delivery due after its failures so far. */
  lemma {:induction false} DelaysAdd(x: Slot, hits: seq<Option<nat>>, xs: seq<Slot>, base: nat, max: nat)
    requires Story(x, hits, xs, base, max) && x.open && x.due.Some?
    ensures Spaced(Times(hits), x.due.value, x.count, base)
    decreases |hits|
  {
    if hits != [] {
      if xs[0].open {
        DelaysAdd(xs[0], hits[1..], xs[1..], base, max);
      } else {
        ClosedStays(xs[0], hits[1..], xs[1..], base, max);
      }
      if hits[0].Some? {
        SpacedCons(hits[0].value, Times(hits[1..]), x.due.value, x.count, base);
      }
    }
  }

  /** From a delivery that has not failed yet. */
  lemma {:induction false} DelaysFromFirst(hits: seq<Option<nat>>, xs: seq<Slot>, base: nat, max: nat)
    requires Story(NEW, hits, xs, base, max)
    ensures var ts := Times(hits); ts != [] ==> Last(ts) - ts[0] >= TotalDelay(base, |ts| - 1)
    decreases |hits|
  {
    if hits != [] {
      if hits[0].None? {
        DelaysFromFirst(hits[1..], xs[1..], base, max);
      } else {
        if xs[0].open {
          DelaysAdd(xs[0], hits[1..], xs[1..], base, max);
        } else {
          ClosedStays(xs[0], hits[1..], xs[1..], base, max);
        }
        SpacedCons(hits[0].value, Times(hits[1..]), hits[0].value, 0, base);
        assert TotalDelay(base, 0) == 0;
      }
    }
  }

  /** From the first to the last of `max` failures: at least the closed form of the delays. */
  ghost predicate TookLong(ts: seq<nat>, max: nat, base: nat)
    requires max >= 1
  {
    ts != [] && Last(ts) - ts[0] >= if max <= 8 then base * (Pow2(max - 1) - 1) else base * (127 + 64 * (max - 8))
  }

  lemma NewStory(hits: seq<Option<nat>>, xs: seq<Slot>, base: nat, cfg: Config)
    requires Story(NEW, hits, xs, base, cfg.Max())
    ensures |Times(hits)| <= cfg.Max()
    ensures !End(NEW, xs).open <==> |Times(hits)| == cfg.Max()
    ensures |Times(hits)| == cfg.Max() ==> TookLong(Times(hits), cfg.Max(), base)
  {
    ClosedExactly(NEW, hits, xs, base, cfg.Max());
    DelaysFromFirst(hits, xs, base, cfg.Max());
    TotalDelayClosed(base, cfg.Max() - 1);
  }

  /** A new delivery whose failures are counted when due is given up exactly when it has failed as
      often as the limit allows, and then no less time has passed since its first failure than its
      delays add up to. */
  lemma GivenUpOnSchedule(s: State, cs: seq<Call>, t: State, k: Key, base: nat, cfg: Config)
    requires Steady(s, k, cfg) && InUnits(s.persistent, base, cfg) && SlotOf(s, k) == NEW
    requires Run(s, cs, t, cfg) && (forall c :: c in cs ==> OnlyFails(s.persistent, c, k))
    requires CountedWhenDue(s, cs, k, cfg)
    ensures |FailureTimes(s.persistent, cs, k)| <= cfg.Max()
    ensures GivenUp(t, k) <==> |FailureTimes(s.persistent, cs, k)| == cfg.Max()
    ensures GivenUp(t, k) ==> TookLong(FailureTimes(s.persistent, cs, k), cfg.Max(), base)
  {
    SteadyRun(s, cs, t, k, base, cfg);
    var xs := TellStory(s, cs, t, k, base, cfg);
    NewStory(Hits(s.persistent, cs, k), xs, base, cfg);
    assert GivenUp(t, k) <==> !SlotOf(t, k).open;
  }

  /** So it is when each failure but the first follows a tick of its own, with tables or without,
      whatever else runs and, with tables, across any number of restarts. */
  lemma GivenUpAfterDelays(s: State, cs: seq<Call>, t: State, k: Key, base: nat, cfg: Config)
    requires Steady(s, k, cfg) && InUnits(s.persistent, base, cfg) && SlotOf(s, k) == NEW
    requires Run(s, cs, t, cfg) && (forall c :: c in cs ==> OnlyFails(s.persistent, c, k))
    requires Ticked(s, cs, k, true, None, cfg)
    ensures |FailureTimes(s.persistent, cs, k)| <= cfg.Max()
    ensures GivenUp(t, k) <==> |FailureTimes(s.persistent, cs, k)| == cfg.Max()
    ensures GivenUp(t, k) ==> TookLong(FailureTimes(s.persistent, cs, k), cfg.Max(), base)
  {
    TicksKeepSchedule(s, cs, t, k, true, None, base, cfg);
    GivenUpOnSchedule(s, cs, t, k, base, cfg);
  }

  /** Where nothing is configured: five failures, and at least thirty seconds from first to last. */
  lemma DefaultSchedule(s: State, cs: seq<Call>, t: State, k: Key, cfg: Config)
    requires cfg.maxRetries <= 0 && cfg.baseBackoff <= 0
    requires Steady(s, k, cfg) && s.persistent && SlotOf(s, k) == NEW
    requires Run(s, cs, t, cfg) && (forall c :: c in cs ==> OnlyFails(true, c, k)) && CountedWhenDue(s, cs, k, cfg)
    ensures var ts := FailureTimes(true, cs, k);
            GivenUp(t, k) ==> |ts| == 5 && Last(ts) - ts[0] >= 30 * SECOND
  {
    GivenUpOnSchedule(s, cs, t, k, cfg.Base(), cfg);
    Pow2Values();
  }
}
