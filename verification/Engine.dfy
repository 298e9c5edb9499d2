/** The worker step by step: look-up, listing and every single attempt of a round are steps of
    their own, and so are a query for ids and each push of one of its answers. Receipts, logins,
    sends, restarts and the steps of other threads may come between any two of them. */
module Engine {
  import opened Basics
  import opened Records
  import opened StoreSpec
  import opened StoreInvariants
  import opened Durability
  import opened Rounds
  import opened Store
  import opened Delivery

  /** Where the worker is in its round. */
  datatype Stage =
    | Idle
    | Looking(id: string)
    | Listing(id: string, direct: string)
    | Attempting(id: string, users: seq<string>, online: Online)

  /** An id that a thread has been answered and has not yet tried to push. */
  datatype Hold = Hold(thread: nat, id: string)

  /** `queued` are the ids in flight other than the one in hand: reserved by an enqueue or in the
      channel. Their order is the subject of the queue. */
  datatype Engine = Engine(st: State, held: set<Hold>, queued: set<string>, stage: Stage)
  {
    function InHand(): set<string> { if stage.Idle? then {} else {stage.id} }
  }

  datatype Event =
    | Query(thread: nat, c: Call, taken: set<string>)  // of a tick, a recovery or a login
    | Push(thread: nat, id: string)                    // one enqueue of its answer
    | Drop(id: string)                                 // an enqueue finds the channel full
    | Other(c: Call)                                   // any store call that is not the worker's
    | Enqueue(id: string)                              // after a save
    | Take(id: string)
    | Look
    | List(recips: seq<string>, online: Online)
    | Try(now: nat)
    | Done
    | Restart

  /** The ids that a query can answer. Without tables a tick finds the due ids. */
  ghost function FetchedIds(s: State, c: Call): set<string> {
    if s.persistent then set k | k in Loads(s, c) :: k.outer
    else if c.CallGetDue? then DueIds(s, c.now)
    else if c.CallListPending? then UnreadIdsOf(s, c.user)
    else UnreadIds(s)
  }

  /** Only the worker attempts deliveries. */
  predicate ByOthers(c: Call) { !c.CallMarkSent? && !c.CallScheduleRetry? && !c.CallCrash? }

  ghost predicate CanStep(e: Engine, v: Event) {
    match v
    case Query(t, c, taken) =>
      && IsLoad(c) && StoreInvariants.Enabled(e.st, c) && taken <= FetchedIds(e.st, c)
      && (forall h :: h in e.held ==> h.thread != t)
    case Push(t, id) => Hold(t, id) in e.held
    case Drop(id) => id in e.queued
    case Other(c) => ByOthers(c) && StoreInvariants.Enabled(e.st, c)
    case Enqueue(id) => id != ""
    case Take(id) => e.stage.Idle? && id in e.queued
    case Look => e.stage.Looking?
    case List(recips, _) => e.stage.Listing? && RecipientsAnswer(e.st, e.stage.id, recips)
    case Try(_) => e.stage.Attempting? && e.stage.users != []
    case Done => e.stage.Attempting? && e.stage.users == []
    case Restart => e.st.persistent
  }

  ghost function Apply(e: Engine, v: Event, cfg: StoreSpec.Config): Engine
    requires CanStep(e, v)
  {
    match v
    case Query(t, c, taken) => e.(st := Step(e.st, c, cfg), held := e.held + set id | id in taken :: Hold(t, id))
    case Push(t, id) => e.(held := e.held - {Hold(t, id)}, queued := e.queued + ({id} - e.InHand()))
    case Drop(id) => e.(queued := e.queued - {id})
    case Other(c) => e.(st := Step(e.st, c, cfg))
    case Enqueue(id) => e.(queued := e.queued + ({id} - e.InHand()))
    case Take(id) => e.(queued := e.queued - {id}, stage := Looking(id))
    case Look =>
      var m := ByServerAnswer(e.st, e.stage.id);
      e.(st := GetByServer(e.st, e.stage.id),
         stage := if m.None? then Idle else Listing(e.stage.id, m.value.recipient))
    case List(recips, online) =>
      e.(st := StoreSpec.GetRecipients(e.st, e.stage.id),
         stage := Attempting(e.stage.id, Targets(recips, e.stage.direct), online))
    case Try(now) =>
      e.(st := Attempt(e.st, e.stage.id, e.stage.users[0], e.stage.online, cfg, now),
         stage := e.stage.(users := e.stage.users[1..]))
    case Done => e.(stage := Idle)
    case Restart => Engine(CrashState(e.st), {}, {}, Idle)
  }

  ghost predicate Works(e: Engine, vs: seq<Event>, f: Engine, cfg: StoreSpec.Config)
    decreases |vs|
  {
    if vs == [] then e == f else CanStep(e, vs[0]) && Works(Apply(e, vs[0], cfg), vs[1..], f, cfg)
  }

  /** The store call that a step makes. */
  function CallOf(e: Engine, v: Event): Option<Call> {
    match v
    case Query(_, c, _) => Some(c)
    case Other(c) => Some(c)
    case Look => if e.stage.Looking? then Some(CallGetByServer(e.stage.id)) else None
    case List(_, _) => if e.stage.Listing? then Some(CallGetRecipients(e.stage.id)) else None
    case Try(now) =>
      if !e.stage.Attempting? || e.stage.users == [] then None
      else
        var u := e.stage.users[0];
        Some(if u in e.stage.online then CallMarkSent(Key(e.stage.id, u), None, now)
             else CallScheduleRetry(Key(e.stage.id, u), Some(OFFLINE), now))
    case Restart => Some(CallCrash)
    case _ => None
  }

  lemma CallStep(e: Engine, v: Event, cfg: StoreSpec.Config)
    requires CanStep(e, v)
    ensures match CallOf(e, v)
            case None => Apply(e, v, cfg).st == e.st
            case Some(c) => StoreInvariants.Enabled(e.st, c) && Apply(e, v, cfg).st == Step(e.st, c, cfg)
  {
  }

  // --------------------------------------------------- one attempt each, interleaved

  lemma CallRetries(s: State, c: Call, k: Key, cfg: StoreSpec.Config)
    requires RowsOk(s.db) && StoreInvariants.Enabled(s, c) && !c.CallCrash?
    requires k in s.entries && k.outer != "" && k.inner != ""
    ensures k in Step(s, c, cfg).entries
    ensures Step(s, c, cfg).entries[k].retry == s.entries[k].retry + if IsAttempt(c, k) then 1 else 0
  {
    StepEntry(s, c, k, cfg);
  }

  /** The attempt that a step makes. */
  ghost predicate Makes(e: Engine, v: Event, k: Key)
    requires CanStep(e, v)
  {
    v.Try? && k == Key(e.stage.id, e.stage.users[0])
  }

  lemma OneAttempt(e: Engine, v: Event, k: Key, cfg: StoreSpec.Config)
    requires Inv(e.st, cfg) && CanStep(e, v) && !v.Restart? && k in e.st.entries && k.outer != "" && k.inner != ""
    ensures Inv(Apply(e, v, cfg).st, cfg) && k in Apply(e, v, cfg).st.entries
    ensures Apply(e, v, cfg).st.entries[k].retry == e.st.entries[k].retry + if Makes(e, v, k) then 1 else 0
  {
    CallStep(e, v, cfg);
    if CallOf(e, v).Some? {
      var c := CallOf(e, v).value;
      assert IsAttempt(c, k) <==> Makes(e, v, k);
      StepKeeps(e.st, c, cfg);
      CallRetries(e.st, c, k, cfg);
    }
  }

  ghost predicate InRound(vs: seq<Event>) {
    forall v :: v in vs ==> !v.Done? && !v.Restart?
  }

  ghost predicate Suffix(a: seq<string>, b: seq<string>) { |b| <= |a| && b == a[|a| - |b|..] }

  lemma SuffixTrans(a: seq<string>, b: seq<string>, c: seq<string>)
    requires Suffix(a, b) && Suffix(b, c)
    ensures Suffix(a, c)
  {
    assert a == a[..|a| - |b|] + b;
  }

  lemma SuffixIn(a: seq<string>, b: seq<string>, u: string)
    requires Suffix(a, b) && u in b
    ensures u in a
  {
  }

  /** `f` is further in the round of `e`: some of the targets have been attempted, each exactly
      once, and no other delivery has. */
  ghost predicate Further(e: Engine, f: Engine, k: Key) {
    && e.stage.Attempting? && f.stage.Attempting? && f.stage.id == e.stage.id
    && Suffix(e.stage.users, f.stage.users)
    && k in e.st.entries && k in f.st.entries
    && f.st.entries[k].retry == e.st.entries[k].retry
         + if k.outer == e.stage.id && k.inner in e.stage.users && k.inner !in f.stage.users then 1 else 0
  }

  lemma FurtherStep(e: Engine, v: Event, k: Key, cfg: StoreSpec.Config)
    requires Inv(e.st, cfg) && CanStep(e, v) && !v.Restart? && !v.Done? && e.stage.Attempting? && NoDup(e.stage.users)
    requires k in e.st.entries && k.outer != "" && k.inner != ""
    ensures Inv(Apply(e, v, cfg).st, cfg) && Further(e, Apply(e, v, cfg), k)
  {
    OneAttempt(e, v, k, cfg);
    if v.Try? {
      var users := e.stage.users;
      assert users == [users[0]] + users[1..];
      assert users[0] !in users[1..];
    }
  }

  lemma FurtherTrans(e: Engine, m: Engine, f: Engine, k: Key)
    requires Further(e, m, k) && Further(m, f, k)
    ensures Further(e, f, k)
  {
    SuffixTrans(e.stage.users, m.stage.users, f.stage.users);
    if k.inner in m.stage.users { SuffixIn(e.stage.users, m.stage.users, k.inner); }
    if k.inner in f.stage.users { SuffixIn(m.stage.users, f.stage.users, k.inner); }
  }

  /** Whatever comes between the attempts of a round, receipts, ticks, sends and logins included:
      each target that is no longer to be attempted has had exactly one attempt, and no other
      delivery has had any. When none is left, the round has attempted each target once. */
  lemma {:induction false} RoundInterleaved(e: Engine, vs: seq<Event>, f: Engine, k: Key, cfg: StoreSpec.Config)
    requires Inv(e.st, cfg) && Works(e, vs, f, cfg) && InRound(vs)
    requires e.stage.Attempting? && NoDup(e.stage.users)
    requires k in e.st.entries && k.outer != "" && k.inner != ""
    ensures Further(e, f, k)
    decreases |vs|
  {
    if vs == [] {
      assert Further(e, e, k);
    } else {
      var m := Apply(e, vs[0], cfg);
      assert vs[0] in vs;
      FurtherStep(e, vs[0], k, cfg);
      RoundInterleaved(m, vs[1..], f, k, cfg);
      FurtherTrans(e, m, f, k);
    }
  }

  // ------------------------------------------------------------- counting rounds

  lemma {:induction false} WorksAppend(e: Engine, vs: seq<Event>, f: Engine, ws: seq<Event>, g: Engine,
                                       cfg: StoreSpec.Config)
    requires Works(e, vs, f, cfg) && Works(f, ws, g, cfg)
    ensures Works(e, vs + ws, g, cfg)
    decreases |vs|
  {
    if vs == [] {
      assert vs + ws == ws;
    } else {
      WorksAppend(Apply(e, vs[0], cfg), vs[1..], f, ws, g, cfg);
      assert (vs + ws)[1..] == vs[1..] + ws;
    }
  }

  /** The step ends a round. */
  ghost predicate Ends(e: Engine, v: Event) {
    v.Done? || (v.Look? && e.stage.Looking? && ByServerAnswer(e.st, e.stage.id).None?)
  }

  /** How many rounds the run has finished. */
  ghost function Finished(e: Engine, vs: seq<Event>, cfg: StoreSpec.Config): nat
    decreases |vs|
  {
    if vs == [] || !CanStep(e, vs[0]) then 0
    else (if Ends(e, vs[0]) then 1 else 0) + Finished(Apply(e, vs[0], cfg), vs[1..], cfg)
  }

  lemma {:induction false} FinishedAppend(e: Engine, vs: seq<Event>, f: Engine, ws: seq<Event>, cfg: StoreSpec.Config)
    requires Works(e, vs, f, cfg)
    ensures Finished(e, vs + ws, cfg) == Finished(e, vs, cfg) + Finished(f, ws, cfg)
    decreases |vs|
  {
    if vs == [] {
      assert vs + ws == ws;
    } else {
      FinishedAppend(Apply(e, vs[0], cfg), vs[1..], f, ws, cfg);
      assert (vs + ws)[1..] == vs[1..] + ws;
    }
  }

  lemma FinishedSnoc(e: Engine, vs: seq<Event>, f: Engine, v: Event, cfg: StoreSpec.Config)
    requires Works(e, vs, f, cfg) && CanStep(f, v)
    ensures Finished(e, vs + [v], cfg) == Finished(e, vs, cfg) + if Ends(f, v) then 1 else 0
  {
    FinishedAppend(e, vs, f, [v], cfg);
    assert [v][1..] == [];
  }

  // ------------------------------------------------------- a round undisturbed

  lemma {:induction false} WorksSnoc(e: Engine, vs: seq<Event>, f: Engine, v: Event, cfg: StoreSpec.Config)
    requires Works(e, vs, f, cfg) && CanStep(f, v)
    ensures Works(e, vs + [v], Apply(f, v, cfg), cfg)
    decreases |vs|
  {
    if vs == [] {
      assert [v][1..] == [] && vs + [v] == [v];
      assert Works(Apply(f, v, cfg), [], Apply(f, v, cfg), cfg);
    } else {
      WorksSnoc(Apply(e, vs[0], cfg), vs[1..], f, v, cfg);
      assert (vs + [v])[1..] == vs[1..] + [v];
    }
  }

  function Tries(clock: nat -> nat, n: nat): seq<Event> { seq(n, i requires 0 <= i < n => Try(clock(i))) }

  lemma {:induction false} TriesRun(e: Engine, id: string, users: seq<string>, online: Online,
                                    clock: nat -> nat, n: nat, cfg: StoreSpec.Config)
    requires n <= |users|
    ensures Works(e.(stage := Attempting(id, users, online)), Tries(clock, n),
                e.(st := AttemptAll(e.st, id, users[..n], online, cfg, clock),
                   stage := Attempting(id, users[n..], online)), cfg)
    ensures Finished(e.(stage := Attempting(id, users, online)), Tries(clock, n), cfg) == 0
    decreases n
  {
    if n == 0 {
      assert users[0..] == users && users[..0] == [] && Tries(clock, 0) == [];
    } else {
      var m := n - 1;
      TriesRun(e, id, users, online, clock, m, cfg);
      var f := e.(st := AttemptAll(e.st, id, users[..m], online, cfg, clock),
                  stage := Attempting(id, users[m..], online));
      WorksSnoc(e.(stage := Attempting(id, users, online)), Tries(clock, m), f, Try(clock(m)), cfg);
      FinishedSnoc(e.(stage := Attempting(id, users, online)), Tries(clock, m), f, Try(clock(m)), cfg);
      assert Tries(clock, m) + [Try(clock(m))] == Tries(clock, n);
      assert users[..n][..m] == users[..m] && users[m..][1..] == users[n..];
    }
  }

  lemma WorksCons(e: Engine, v: Event, vs: seq<Event>, f: Engine, cfg: StoreSpec.Config)
    requires CanStep(e, v) && Works(Apply(e, v, cfg), vs, f, cfg)
    ensures Works(e, [v] + vs, f, cfg)
    ensures Finished(e, [v] + vs, cfg) == (if Ends(e, v) then 1 else 0) + Finished(Apply(e, v, cfg), vs, cfg)
  {
    assert ([v] + vs)[1..] == vs;
  }

  /** The rest of a round, from its listing on. */
  lemma ListingRun(e: Engine, id: string, direct: string, recips: seq<string>, online: Online,
                   clock: nat -> nat, cfg: StoreSpec.Config) returns (vs: seq<Event>)
    requires RecipientsAnswer(e.st, id, recips)
    ensures var t := AttemptAll(StoreSpec.GetRecipients(e.st, id), id, Targets(recips, direct), online, cfg, clock);
            Works(e.(stage := Listing(id, direct)), vs, e.(st := t, stage := Idle), cfg)
    ensures Finished(e.(stage := Listing(id, direct)), vs, cfg) == 1
  {
    var users := Targets(recips, direct);
    var r, n := StoreSpec.GetRecipients(e.st, id), |users|;
    var done := e.(st := AttemptAll(r, id, users, online, cfg, clock), stage := Attempting(id, [], online));
    TriesRun(e.(st := r), id, users, online, clock, n, cfg);
    assert users[..n] == users && users[n..] == [];
    WorksSnoc(e.(st := r, stage := Attempting(id, users, online)), Tries(clock, n), done, Done, cfg);
    FinishedSnoc(e.(st := r, stage := Attempting(id, users, online)), Tries(clock, n), done, Done, cfg);
    vs := Tries(clock, n) + [Done];
    WorksCons(e.(stage := Listing(id, direct)), List(recips, online), vs, done.(stage := Idle), cfg);
    vs := [List(recips, online)] + vs;
  }

  /** A delivery that nothing interrupts, as the worker object makes it, is a run of these steps. */
  lemma DeliveryIsRun(e: Engine, id: string, recips: seq<string>, online: Online, clock: nat -> nat,
                      cfg: StoreSpec.Config)
      returns (vs: seq<Event>)
    requires e.stage.Idle? && id in e.queued
    requires ByServerAnswer(e.st, id).Some? ==> RecipientsAnswer(GetByServer(e.st, id), id, recips)
    ensures var t := Worker.AfterDelivery(e.st, id, recips, online, cfg, clock);
            Works(e, vs, e.(st := t, queued := e.queued - {id}), cfg)
    ensures Finished(e, vs, cfg) == 1
  {
    var m, base := ByServerAnswer(e.st, id), e.(queued := e.queued - {id});
    var goal := base.(st := Worker.AfterDelivery(e.st, id, recips, online, cfg, clock));
    vs := [];
    if m.Some? {
      vs := ListingRun(base.(st := GetByServer(e.st, id)), id, m.value.recipient, recips, online, clock, cfg);
    }
    WorksCons(base.(stage := Looking(id)), Look, vs, goal, cfg);
    vs := [Look] + vs;
    WorksCons(e, Take(id), vs, goal, cfg);
    vs := [Take(id)] + vs;
  }

  // -------------------------------------------------------- the queue behind the engine

  /** The ids in flight, whatever part of the queue they are in. */
  function InFlight(e: Engine): set<string> { e.queued + e.InHand() }

  /** An undisturbed enqueue of the queue object is an enqueue here, and when there is no room the drop
      that follows it. */
  lemma EnqueueAgrees(e: Engine, q: Queue.Shared, id: string, cfg: StoreSpec.Config)
    requires id != "" && q.inFlight == InFlight(e)
    ensures var f := Apply(e, Enqueue(id), cfg);
      if q.Refuses(id) || q.HasRoom()
      then Queue.Enqueue(q, id).inFlight == InFlight(f)
      else CanStep(f, Drop(id)) && Queue.Enqueue(q, id).inFlight == InFlight(Apply(f, Drop(id), cfg))
  {
  }

  /** Taking the oldest id leaves it in flight, and the end of its round releases it. */
  lemma DequeueAgrees(e: Engine, f: Engine, g: Engine, q: Queue.Shared, cfg: StoreSpec.Config)
    requires q.channel != [] && q.inFlight == InFlight(e) && q.channel[0] in e.queued && e.stage.Idle?
    requires f == Apply(e, Take(q.channel[0]), cfg)
    requires g.stage.Attempting? && g.stage.users == [] && g.stage.id == q.channel[0] && g.queued == f.queued
    ensures InFlight(f) == q.inFlight && Queue.Dequeue(q).inFlight == InFlight(Apply(g, Done, cfg))
  {
  }

  /** What the store object answers to a tick, a recovery or a login can be what a query takes. */
  lemma AnswersCovered(s: State, c: Call, out: seq<string>)
    requires IsLoad(c)
    requires if s.persistent then out == Dedupe(Outers(Loads(s, c)))
             else if c.CallGetDue? then InMemoryStore.Listed(out, DueIds(s, c.now), c.limit)
             else if c.CallRecover? then InMemoryStore.Listed(out, UnreadIds(s), 0)
             else InMemoryStore.Listed(out, UnreadIdsOf(s, c.user), c.limit)
    ensures forall id :: id in out ==> id in FetchedIds(s, c)
  {
    if s.persistent {
      DedupeExact(Outers(Loads(s, c)));
      OutersHold(Loads(s, c));
    }
  }
}
