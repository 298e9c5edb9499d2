/** The bounded delivery queue with its in-flight set, under every interleaving of any number
    of enqueuers with the one worker. */
module Queue {
  import opened Basics

  const CAPACITY := 1024

  /** The state the threads share. */
  datatype Shared = Shared(inFlight: set<string>, channel: seq<string>)
  {
    /** First locked section of an enqueue: refuse an id that is in flight, else reserve it. */
    predicate Refuses(id: string) { id == "" || id in inFlight }
    function Reserve(id: string): Shared { this.(inFlight := inFlight + {id}) }

    predicate HasRoom() { |channel| < CAPACITY }
    function Push(id: string): Shared { this.(channel := channel + [id]) }

    /** Last locked section, of an enqueue that found no room and of a finished delivery. */
    function Release(id: string): Shared { this.(inFlight := inFlight - {id}) }
  }

  /** An enqueuer between its sections: holding a reservation, or about to give it back. */
  datatype Enqueuer = Reserved(id: string) | Dropping(id: string)

  datatype Machine = Machine(shared: Shared, enqueuers: map<nat, Enqueuer>, processing: Option<string>)

  const START := Machine(Shared({}, []), map[], None)

  /** One atomic step of some thread. */
  datatype Event =
    | Reserve(thread: nat, id: string)
    | Push(thread: nat)
    | Full(thread: nat)
    | Drop(thread: nat)
    | Take
    | Finish

  predicate Enabled(m: Machine, e: Event) {
    match e
    case Reserve(t, id) => t !in m.enqueuers && !m.shared.Refuses(id)
    case Push(t) => t in m.enqueuers && m.enqueuers[t].Reserved? && m.shared.HasRoom()
    case Full(t) => t in m.enqueuers && m.enqueuers[t].Reserved? && !m.shared.HasRoom()
    case Drop(t) => t in m.enqueuers && m.enqueuers[t].Dropping?
    case Take => m.processing.None? && m.shared.channel != []
    case Finish => m.processing.Some?
  }

  function Apply(m: Machine, e: Event): Machine
    requires Enabled(m, e)
  {
    match e
    case Reserve(t, id) => m.(shared := m.shared.Reserve(id), enqueuers := m.enqueuers[t := Reserved(id)])
    case Push(t) => m.(shared := m.shared.Push(m.enqueuers[t].id), enqueuers := m.enqueuers - {t})
    case Full(t) => m.(enqueuers := m.enqueuers[t := Dropping(m.enqueuers[t].id)])
    case Drop(t) => m.(shared := m.shared.Release(m.enqueuers[t].id), enqueuers := m.enqueuers - {t})
    case Take => m.(shared := m.shared.(channel := m.shared.channel[1..]), processing := Some(m.shared.channel[0]))
    case Finish => m.(shared := m.shared.Release(m.processing.value), processing := None)
  }

  ghost predicate Run(m: Machine, es: seq<Event>, n: Machine)
    decreases |es|
  {
    if es == [] then m == n else Enabled(m, es[0]) && Run(Apply(m, es[0]), es[1..], n)
  }

  ghost predicate Holds(m: Machine, id: string) {
    exists t :: t in m.enqueuers && m.enqueuers[t].id == id
  }

  ghost predicate Disjoint(m: Machine) {
    && NoDup(m.shared.channel)
    && (forall t, u :: t in m.enqueuers && u in m.enqueuers && t != u ==> m.enqueuers[t].id != m.enqueuers[u].id)
    && (forall t :: t in m.enqueuers ==> m.enqueuers[t].id !in m.shared.channel)
    && (forall t :: t in m.enqueuers ==> m.processing != Some(m.enqueuers[t].id))
    && (m.processing.Some? ==> m.processing.value !in m.shared.channel)
  }

  ghost predicate Covered(m: Machine) {
    && (forall t :: t in m.enqueuers ==> m.enqueuers[t].id in m.shared.inFlight)
    && (forall id :: id in m.shared.channel ==> id in m.shared.inFlight)
    && (m.processing.Some? ==> m.processing.value in m.shared.inFlight)
    && (forall id :: id in m.shared.inFlight ==> Holds(m, id) || id in m.shared.channel || m.processing == Some(id))
  }

  /** The in-flight set is the disjoint union of the ids held by enqueuers, the ids in the
      channel and the id being processed; the channel holds no id twice and at most its
      capacity, and no empty id gets in. */
  ghost predicate Partition(m: Machine) {
    Disjoint(m) && Covered(m) && |m.shared.channel| <= CAPACITY && "" !in m.shared.inFlight
  }

  lemma StepDisjoint(m: Machine, e: Event)
    requires Partition(m) && Enabled(m, e)
    ensures Disjoint(Apply(m, e))
  {
  }

  lemma StepCovered(m: Machine, e: Event)
    requires Partition(m) && Enabled(m, e)
    ensures Covered(Apply(m, e))
  {
    var n := Apply(m, e);
    forall id | id in n.shared.inFlight
      ensures Holds(n, id) || id in n.shared.channel || n.processing == Some(id)
    {
      if Holds(m, id) {
        var t :| t in m.enqueuers && m.enqueuers[t].id == id;
        assert t in n.enqueuers ==> n.enqueuers[t].id == id;
      }
      if e.Reserve? {
        assert n.enqueuers[e.thread].id == e.id;
      }
    }
  }

  /** The partition holds after every interleaving. */
  lemma {:induction false} RunPartition(m: Machine, es: seq<Event>, n: Machine)
    requires Partition(m) && Run(m, es, n)
    ensures Partition(n)
    decreases |es|
  {
    if es != [] {
      StepDisjoint(m, es[0]);
      StepCovered(m, es[0]);
      RunPartition(Apply(m, es[0]), es[1..], n);
    }
  }

  lemma StartPartition()
    ensures Partition(START)
  {
  }

  // ---------------------------------------------------- what goes in and what comes out

  function In(m: Machine, e: Event): seq<string>
    requires Enabled(m, e)
  {
    if e.Push? then [m.enqueuers[e.thread].id] else []
  }

  function Out(m: Machine, e: Event): seq<string>
    requires Enabled(m, e)
  {
    if e.Take? then [m.shared.channel[0]] else []
  }

  /** The ids pushed, and the ids taken, by the steps of a run. */
  function Pushed(m: Machine, es: seq<Event>): seq<string>
    decreases |es|
  {
    if es == [] || !Enabled(m, es[0]) then [] else In(m, es[0]) + Pushed(Apply(m, es[0]), es[1..])
  }

  function Taken(m: Machine, es: seq<Event>): seq<string>
    decreases |es|
  {
    if es == [] || !Enabled(m, es[0]) then [] else Out(m, es[0]) + Taken(Apply(m, es[0]), es[1..])
  }

  lemma StepBalance(m: Machine, e: Event)
    requires Enabled(m, e)
    ensures m.shared.channel + In(m, e) == Out(m, e) + Apply(m, e).shared.channel
  {
  }

  lemma Splice(a: seq<string>, i: seq<string>, o: seq<string>, b: seq<string>, p: seq<string>, q: seq<string>,
               c: seq<string>)
    requires a + i == o + b && b + p == q + c
    ensures a + (i + p) == (o + q) + c
  {
    assert a + (i + p) == (a + i) + p;
    assert (o + b) + p == o + (b + p);
    assert (o + q) + c == o + (q + c);
  }

  /** Nothing is lost or reordered inside the queue: what was in it and was pushed is what was
      taken, in order, followed by what is in it. */
  lemma {:induction false} FirstInFirstOut(m: Machine, es: seq<Event>, n: Machine)
    requires Run(m, es, n)
    ensures m.shared.channel + Pushed(m, es) == Taken(m, es) + n.shared.channel
    decreases |es|
  {
    if es != [] {
      var k := Apply(m, es[0]);
      FirstInFirstOut(k, es[1..], n);
      StepBalance(m, es[0]);
      Splice(m.shared.channel, In(m, es[0]), Out(m, es[0]), k.shared.channel,
             Pushed(k, es[1..]), Taken(k, es[1..]), n.shared.channel);
    }
  }

  // -------------------------------------------------------- an enqueue on its own

  /** All sections of one enqueue, when nothing runs in between. */
  function Enqueue(q: Shared, id: string): Shared {
    if q.Refuses(id) then q
    else if q.HasRoom() then q.Reserve(id).Push(id)
    else q.Reserve(id).Release(id)
  }

  function EnqueueAll(q: Shared, ids: seq<string>): Shared {
    if ids == [] then q else Enqueue(EnqueueAll(q, ids[..|ids| - 1]), ids[|ids| - 1])
  }

  /** An undisturbed enqueue is a run of the machine. */
  lemma EnqueueIsRun(m: Machine, t: nat, id: string)
    requires t !in m.enqueuers && !m.shared.Refuses(id)
    ensures var es := if m.shared.HasRoom() then [Reserve(t, id), Push(t)] else [Reserve(t, id), Full(t), Drop(t)];
            Run(m, es, m.(shared := Enqueue(m.shared, id)))
  {
    var m1 := Apply(m, Reserve(t, id));
    var goal := m.(shared := Enqueue(m.shared, id));
    if m.shared.HasRoom() {
      var es := [Reserve(t, id), Push(t)];
      assert es[1..] == [Push(t)] && es[1..][1..] == [];
      assert m1.enqueuers - {t} == m.enqueuers;
      assert Apply(m1, Push(t)) == goal;
      assert Run(goal, [], goal);
      assert Run(m1, es[1..], goal);
    } else {
      var es := [Reserve(t, id), Full(t), Drop(t)];
      var m2 := Apply(m1, Full(t));
      assert es[1..] == [Full(t), Drop(t)] && es[1..][1..] == [Drop(t)] && es[1..][1..][1..] == [];
      assert m2.enqueuers - {t} == m.enqueuers;
      assert Apply(m2, Drop(t)) == goal;
      assert Run(goal, [], goal);
      assert Run(m2, [Drop(t)], goal);
      assert Run(m1, es[1..], goal);
    }
  }

  lemma {:induction false} RunAppend(m: Machine, es: seq<Event>, n: Machine, fs: seq<Event>, o: Machine)
    requires Run(m, es, n) && Run(n, fs, o)
    ensures Run(m, es + fs, o)
    decreases |es|
  {
    if es == [] {
      assert es + fs == fs;
    } else {
      RunAppend(Apply(m, es[0]), es[1..], n, fs, o);
      assert (es + fs)[1..] == es[1..] + fs;
    }
  }

  /** A thread that enqueues a batch, one id after the other, undisturbed. */
  lemma {:induction false} BatchIsRun(m: Machine, t: nat, ids: seq<string>) returns (es: seq<Event>)
    requires t !in m.enqueuers
    ensures Run(m, es, m.(shared := EnqueueAll(m.shared, ids)))
    decreases |ids|
  {
    if ids == [] {
      es := [];
    } else {
      var n, id := m.(shared := EnqueueAll(m.shared, ids[..|ids| - 1])), ids[|ids| - 1];
      es := BatchIsRun(m, t, ids[..|ids| - 1]);
      if !n.shared.Refuses(id) {
        var fs := if n.shared.HasRoom() then [Reserve(t, id), Push(t)] else [Reserve(t, id), Full(t), Drop(t)];
        EnqueueIsRun(n, t, id);
        RunAppend(m, es, n, fs, n.(shared := Enqueue(n.shared, id)));
        es := es + fs;
      }
    }
  }

  /** Taking the oldest id and finishing it, when nothing runs in between, is what a delivery
      does to the queue. */
  function Dequeue(q: Shared): Shared
    requires q.channel != []
  {
    Shared(q.inFlight - {q.channel[0]}, q.channel[1..])
  }

  lemma DequeueIsRun(m: Machine)
    requires m.processing.None? && m.shared.channel != []
    ensures Run(m, [Take, Finish], m.(shared := Dequeue(m.shared)))
  {
    var m1 := Apply(m, Take);
    var goal := m.(shared := Dequeue(m.shared));
    assert [Take, Finish][1..] == [Finish] && [Finish][1..] == [];
    assert Apply(m1, Finish) == goal;
    assert Run(goal, [], goal);
    assert Run(m1, [Finish], goal);
  }

  /** After a batch every named id is in flight, unless the queue filled up; ids already there
      keep their places and no other id appears. */
  lemma {:induction false} BatchReaches(q: Shared, ids: seq<string>)
    ensures var r := EnqueueAll(q, ids);
      && q.channel <= r.channel
      && q.inFlight <= r.inFlight
      && (forall id :: id in ids && id != "" ==> id in r.inFlight || |r.channel| >= CAPACITY)
      && (forall id :: id in r.inFlight ==> id in q.inFlight || (id in ids && id in r.channel))
      && (|q.channel| <= CAPACITY ==> |r.channel| <= CAPACITY)
    decreases |ids|
  {
    if ids != [] {
      assert ids == ids[..|ids| - 1] + [ids[|ids| - 1]];
      BatchReaches(q, ids[..|ids| - 1]);
    }
  }

  /** How many of `n` ids fit in. */
  function Fitting(q: Shared, n: nat): nat {
    if |q.channel| >= CAPACITY then 0 else if n <= CAPACITY - |q.channel| then n else CAPACITY - |q.channel|
  }

  /** A batch puts behind what is queued the ids that are not in flight yet, each once, in the order
      in which they first appear, as far as there is room, and reserves just these. */
  lemma {:induction false} BatchExact(q: Shared, ids: seq<string>) returns (wanted: seq<string>)
    ensures AsAppearing(ids, wanted)
    ensures forall id :: id in wanted <==> id in ids && id != "" && id !in q.inFlight
    ensures var r, queued := EnqueueAll(q, ids), wanted[..Fitting(q, |wanted|)];
            r.channel == q.channel + queued && r.inFlight == q.inFlight + Elems(queued)
    decreases |ids|
  {
    if ids == [] {
      wanted := [];
    } else {
      var front, last := ids[..|ids| - 1], ids[|ids| - 1];
      assert ids == front + [last];
      var before := BatchExact(q, front);
      AppearingSnoc(front, before, last);
      wanted := if last == "" || last in q.inFlight || last in before then before else before + [last];
      OneMore(q, EnqueueAll(q, front), before, last);
    }
  }

  lemma OneMore(q: Shared, r: Shared, before: seq<string>, id: string)
    requires NoDup(before) && forall x :: x in before ==> x !in q.inFlight
    requires var queued := before[..Fitting(q, |before|)];
             r.channel == q.channel + queued && r.inFlight == q.inFlight + Elems(queued)
    ensures var after := if id == "" || id in q.inFlight || id in before then before else before + [id];
      var queued := after[..Fitting(q, |after|)];
      Enqueue(r, id).channel == q.channel + queued && Enqueue(r, id).inFlight == q.inFlight + Elems(queued)
  {
    var queued := before[..Fitting(q, |before|)];
    if id == "" || id in q.inFlight || id in queued {
      assert id in queued ==> id in Elems(queued);
    } else if id in before {
      assert |queued| < |before|;
    } else {
      var after := before + [id];
      if r.HasRoom() {
        assert after[..Fitting(q, |after|)] == after && queued == before;
        assert Elems(after) == Elems(before) + {id};
      } else {
        assert after[..Fitting(q, |after|)] == queued;
      }
    }
  }
}
