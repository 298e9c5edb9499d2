/** One connected user: senders, the listener, Close and Logout, under every interleaving of
    their atomic steps. */
module Session {
  import opened Basics

  const BUFFER := 10

  datatype Once = Fresh | Running(thread: nat) | Finished

  /** Where a thread is. `nested` marks steps taken inside Logout, which goes on to Close after
      its farewell message and is finished after Close. */
  datatype Pc =
    | SendLock(msg: string, nested: bool)
    | SendCheck(msg: string, nested: bool)
    | SendSelect(msg: string, nested: bool)
    | SendUnlock(nested: bool)
    | CloseOnce(nested: bool)
    | CloseLock(nested: bool)
    | CloseSet(nested: bool)
    | CloseUnlock(nested: bool)
    | CloseChannel(nested: bool)
    | CloseDone(nested: bool)
    | LogoutOnce
    | BeatLock
    | BeatUnlock
    | LogoutDone
    | Receive
    | Write(msg: string)

  datatype User = User(
    holder: Option<nat>, isClosed: bool, channel: seq<string>, channelClosed: bool,
    closeOnce: Once, logoutOnce: Once, threads: map<nat, Pc>,
    closes: nat, panicked: bool, accepted: seq<string>, taken: seq<string>)

  /** A new user has its listener running. */
  const CONNECTED := User(None, false, [], false, Fresh, Fresh, map[0 := Receive], 0, false, [], [])

  const FAREWELL := "offline"

  /** `Start` begins an operation on a new thread. In `Go`, `spare` names the thread that an
      overflowing send spawns, and `fails` says whether a write to the connection fails. */
  datatype Event =
    | Start(thread: nat, pc: Pc)
    | Go(thread: nat, spare: nat, fails: bool)

  predicate Entry(pc: Pc) {
    match pc
    case SendLock(_, nested) => !nested
    case CloseOnce(nested) => !nested
    case LogoutOnce => true
    case _ => false
  }

  /** A thread that is not waiting for the lock, a once, or a message. */
  predicate Ready(u: User, t: nat)
    requires t in u.threads
  {
    match u.threads[t]
    case SendLock(_, _) => u.holder.None?
    case CloseLock(_) => u.holder.None?
    case BeatLock => u.holder.None?
    case CloseOnce(_) => !u.closeOnce.Running?
    case LogoutOnce => !u.logoutOnce.Running?
    case Receive => u.channel != [] || u.channelClosed
    case _ => true
  }

  predicate Enabled(u: User, e: Event) {
    match e
    case Start(t, pc) => t !in u.threads && Entry(pc)
    case Go(t, spare, _) => t in u.threads && Ready(u, t) && spare !in u.threads
  }

  function At(u: User, t: nat, pc: Pc): User { u.(threads := u.threads[t := pc]) }
  function Ends(u: User, t: nat): User { u.(threads := u.threads - {t}) }

  /** What follows Close, on its own or inside Logout. */
  function AfterClose(u: User, t: nat, nested: bool): User {
    if nested then At(u, t, LogoutDone) else Ends(u, t)
  }

  predicate Sending(pc: Pc) { pc.SendLock? || pc.SendCheck? || pc.SendSelect? || pc.SendUnlock? }

  /** SendMsg: lock, check the flag, offer the message to the channel, unlock. A full channel
      spawns a Logout. */
  function SendStep(u: User, t: nat, spare: nat): User
    requires t in u.threads && Sending(u.threads[t])
  {
    match u.threads[t]
    case SendLock(m, n) => At(u, t, SendCheck(m, n)).(holder := Some(t))
    case SendCheck(m, n) => At(u, t, if u.isClosed then SendUnlock(n) else SendSelect(m, n))
    case SendSelect(m, n) =>
      if u.channelClosed then Ends(u, t).(panicked := true)
      else if |u.channel| < BUFFER
      then At(u, t, SendUnlock(n)).(channel := u.channel + [m], accepted := u.accepted + [m])
      else At(At(u, spare, LogoutOnce), t, SendUnlock(n))
    case SendUnlock(n) => (if n then At(u, t, CloseOnce(true)) else Ends(u, t)).(holder := None)
  }

  /** Close, once: lock, set the flag, unlock, close the channel. */
  function CloseStep(u: User, t: nat): User
    requires t in u.threads && (u.threads[t].CloseOnce? || InClose(u.threads[t]))
  {
    match u.threads[t]
    case CloseOnce(n) =>
      if u.closeOnce.Fresh? then At(u, t, CloseLock(n)).(closeOnce := Running(t)) else AfterClose(u, t, n)
    case CloseLock(n) => At(u, t, CloseSet(n)).(holder := Some(t))
    case CloseSet(n) => At(u, t, CloseUnlock(n)).(isClosed := true)
    case CloseUnlock(n) => At(u, t, CloseChannel(n)).(holder := None)
    case CloseChannel(n) =>
      if u.channelClosed then Ends(u, t).(panicked := true)
      else At(u, t, CloseDone(n)).(channelClosed := true, closes := u.closes + 1)
    case CloseDone(n) => AfterClose(u, t, n).(closeOnce := Finished)
  }

  predicate Leaving(pc: Pc) { pc.LogoutOnce? || pc.BeatLock? || pc.BeatUnlock? || pc.LogoutDone? }

  /** Logout, once: stop the heartbeat under the lock, say farewell, close. */
  function LogoutStep(u: User, t: nat): User
    requires t in u.threads && Leaving(u.threads[t])
  {
    match u.threads[t]
    case LogoutOnce => if u.logoutOnce.Fresh? then At(u, t, BeatLock).(logoutOnce := Running(t)) else Ends(u, t)
    case BeatLock => At(u, t, BeatUnlock).(holder := Some(t))
    case BeatUnlock => At(u, t, SendLock(FAREWELL, true)).(holder := None)
    case LogoutDone => Ends(u, t).(logoutOnce := Finished)
  }

  /** The listener: take a message and write it, until the channel is closed and empty. */
  function ListenStep(u: User, t: nat, fails: bool): User
    requires t in u.threads && (u.threads[t].Receive? || u.threads[t].Write?)
  {
    match u.threads[t]
    case Receive =>
      if u.channel == [] then Ends(u, t)
      else At(u, t, Write(u.channel[0])).(channel := u.channel[1..], taken := u.taken + [u.channel[0]])
    case Write(_) => At(u, t, if fails then LogoutOnce else Receive)
  }

  function Apply(u: User, e: Event): User
    requires Enabled(u, e)
  {
    match e
    case Start(t, pc) => At(u, t, pc)
    case Go(t, spare, fails) =>
      if Sending(u.threads[t]) then SendStep(u, t, spare)
      else if Leaving(u.threads[t]) then LogoutStep(u, t)
      else if u.threads[t].Receive? || u.threads[t].Write? then ListenStep(u, t, fails)
      else CloseStep(u, t)
  }

  ghost predicate Run(u: User, es: seq<Event>, v: User)
    decreases |es|
  {
    if es == [] then u == v else Enabled(u, es[0]) && Run(Apply(u, es[0]), es[1..], v)
  }

  // ------------------------------------------------------------------- invariant

  predicate InCritical(pc: Pc) {
    pc.SendCheck? || pc.SendSelect? || pc.SendUnlock? || pc.CloseSet? || pc.CloseUnlock? || pc.BeatUnlock?
  }

  predicate InClose(pc: Pc) {
    pc.CloseLock? || pc.CloseSet? || pc.CloseUnlock? || pc.CloseChannel? || pc.CloseDone?
  }

  predicate InLogout(pc: Pc) {
    match pc
    case SendLock(_, n) => n
    case SendCheck(_, n) => n
    case SendSelect(_, n) => n
    case SendUnlock(n) => n
    case CloseOnce(n) => n
    case CloseLock(n) => n
    case CloseSet(n) => n
    case CloseUnlock(n) => n
    case CloseChannel(n) => n
    case CloseDone(n) => n
    case BeatLock => true
    case BeatUnlock => true
    case LogoutDone => true
    case _ => false
  }

  /** The lock is held exactly by the one thread in a critical section. */
  ghost predicate LockOk(u: User) {
    && (forall t :: t in u.threads ==> (InCritical(u.threads[t]) <==> u.holder == Some(t)))
    && (u.holder.Some? ==> u.holder.value in u.threads)
  }

  /** Each once is running exactly while one thread is inside it. */
  ghost predicate CloseRunOk(u: User) {
    && (forall t :: t in u.threads ==> (InClose(u.threads[t]) <==> u.closeOnce == Running(t)))
    && (u.closeOnce.Running? ==> u.closeOnce.thread in u.threads)
  }

  ghost predicate LogoutRunOk(u: User) {
    && (forall t :: t in u.threads ==> (InLogout(u.threads[t]) <==> u.logoutOnce == Running(t)))
    && (u.logoutOnce.Running? ==> u.logoutOnce.thread in u.threads)
  }

  ghost predicate OnceOk(u: User) { CloseRunOk(u) && LogoutRunOk(u) }

  /** How far closing has got. */
  ghost predicate StageOk(u: User) {
    && (u.closeOnce.Fresh? ==> !u.isClosed && !u.channelClosed)
    && (u.closeOnce.Finished? ==> u.isClosed && u.channelClosed)
    && (u.closeOnce.Running? && u.closeOnce.thread in u.threads ==>
          var pc := u.threads[u.closeOnce.thread];
          && (u.isClosed <==> pc.CloseUnlock? || pc.CloseChannel? || pc.CloseDone?)
          && (u.channelClosed <==> pc.CloseDone?))
    && u.closes == (if u.channelClosed then 1 else 0)
    && !u.panicked
  }

  /** A sender past its check still finds the user open, because it holds the lock. */
  ghost predicate SendersOk(u: User) {
    forall t :: t in u.threads && u.threads[t].SendSelect? ==> !u.isClosed
  }

  ghost predicate TrafficOk(u: User) {
    u.accepted == u.taken + u.channel && |u.channel| <= BUFFER
  }

  ghost predicate Inv(u: User) {
    LockOk(u) && OnceOk(u) && StageOk(u) && SendersOk(u) && TrafficOk(u)
  }

  lemma StartKeeps(u: User, t: nat, pc: Pc)
    requires Inv(u) && t !in u.threads && Entry(pc)
    ensures Inv(At(u, t, pc))
  {
  }

  lemma SendLocks(u: User, t: nat, spare: nat)
    requires Inv(u) && t in u.threads && Ready(u, t) && spare !in u.threads && Sending(u.threads[t])
    ensures LockOk(SendStep(u, t, spare))
  {
  }

  lemma SendCloseRun(u: User, t: nat, spare: nat)
    requires Inv(u) && t in u.threads && Ready(u, t) && spare !in u.threads && Sending(u.threads[t])
    ensures CloseRunOk(SendStep(u, t, spare))
  {
  }

  lemma SendLogoutRun(u: User, t: nat, spare: nat)
    requires Inv(u) && t in u.threads && Ready(u, t) && spare !in u.threads && Sending(u.threads[t])
    ensures LogoutRunOk(SendStep(u, t, spare))
  {
  }

  lemma SendStages(u: User, t: nat, spare: nat)
    requires Inv(u) && t in u.threads && Ready(u, t) && spare !in u.threads && Sending(u.threads[t])
    ensures StageOk(SendStep(u, t, spare)) && SendersOk(SendStep(u, t, spare)) && TrafficOk(SendStep(u, t, spare))
  {
  }

  lemma SendKeeps(u: User, t: nat, spare: nat)
    requires Inv(u) && t in u.threads && Ready(u, t) && spare !in u.threads && Sending(u.threads[t])
    ensures Inv(SendStep(u, t, spare))
  {
    SendLocks(u, t, spare);
    SendCloseRun(u, t, spare);
    SendLogoutRun(u, t, spare);
    SendStages(u, t, spare);
  }

  lemma CloseTakesLock(u: User, t: nat)
    requires LockOk(u) && t in u.threads && Ready(u, t) && (u.threads[t].CloseLock? || u.threads[t].CloseUnlock?)
    ensures LockOk(CloseStep(u, t))
  {
  }

  lemma CloseKeepsLock(u: User, t: nat)
    requires LockOk(u) && t in u.threads && (u.threads[t].CloseSet? || u.threads[t].CloseChannel?)
    ensures LockOk(CloseStep(u, t))
  {
  }

  lemma AfterCloseLock(u: User, t: nat, n: bool)
    requires LockOk(u) && t in u.threads && !InCritical(u.threads[t])
    ensures LockOk(AfterClose(u, t, n))
  {
  }

  lemma CloseLeaves(u: User, t: nat)
    requires LockOk(u) && t in u.threads && (u.threads[t].CloseOnce? || u.threads[t].CloseDone?)
    ensures LockOk(CloseStep(u, t))
  {
    AfterCloseLock(u, t, u.threads[t].nested);
  }

  lemma CloseLocks(u: User, t: nat)
    requires LockOk(u) && t in u.threads && Ready(u, t) && (u.threads[t].CloseOnce? || InClose(u.threads[t]))
    ensures LockOk(CloseStep(u, t))
  {
    if u.threads[t].CloseLock? || u.threads[t].CloseUnlock? {
      CloseTakesLock(u, t);
    } else if u.threads[t].CloseSet? || u.threads[t].CloseChannel? {
      CloseKeepsLock(u, t);
    } else {
      CloseLeaves(u, t);
    }
  }

  lemma CloseCloseRun(u: User, t: nat)
    requires CloseRunOk(u) && StageOk(u) && t in u.threads && Ready(u, t)
             && (u.threads[t].CloseOnce? || InClose(u.threads[t]))
    ensures CloseRunOk(CloseStep(u, t))
  {
  }

  lemma CloseLogoutRun(u: User, t: nat)
    requires LogoutRunOk(u) && StageOk(u) && CloseRunOk(u)
    requires t in u.threads && Ready(u, t) && (u.threads[t].CloseOnce? || InClose(u.threads[t]))
    ensures LogoutRunOk(CloseStep(u, t))
  {
  }

  lemma CloseStages(u: User, t: nat)
    requires Inv(u) && t in u.threads && Ready(u, t) && (u.threads[t].CloseOnce? || InClose(u.threads[t]))
    ensures StageOk(CloseStep(u, t))
  {
  }

  lemma CloseTraffic(u: User, t: nat)
    requires Inv(u) && t in u.threads && Ready(u, t) && (u.threads[t].CloseOnce? || InClose(u.threads[t]))
    ensures SendersOk(CloseStep(u, t)) && TrafficOk(CloseStep(u, t))
  {
  }

  lemma CloseKeeps(u: User, t: nat)
    requires Inv(u) && t in u.threads && Ready(u, t) && (u.threads[t].CloseOnce? || InClose(u.threads[t]))
    ensures Inv(CloseStep(u, t))
  {
    CloseLocks(u, t);
    CloseCloseRun(u, t);
    CloseLogoutRun(u, t);
    CloseStages(u, t);
    CloseTraffic(u, t);
  }

  lemma LogoutLocks(u: User, t: nat)
    requires LockOk(u) && t in u.threads && Ready(u, t) && Leaving(u.threads[t])
    ensures LockOk(LogoutStep(u, t))
  {
  }

  lemma LogoutCloseRun(u: User, t: nat)
    requires CloseRunOk(u) && t in u.threads && Ready(u, t) && Leaving(u.threads[t])
    ensures CloseRunOk(LogoutStep(u, t))
  {
  }

  lemma LogoutLogoutRun(u: User, t: nat)
    requires LogoutRunOk(u) && t in u.threads && Ready(u, t) && Leaving(u.threads[t])
    ensures LogoutRunOk(LogoutStep(u, t))
  {
  }

  lemma LogoutStages(u: User, t: nat)
    requires Inv(u) && t in u.threads && Ready(u, t) && Leaving(u.threads[t])
    ensures StageOk(LogoutStep(u, t)) && SendersOk(LogoutStep(u, t)) && TrafficOk(LogoutStep(u, t))
  {
  }

  lemma LogoutKeeps(u: User, t: nat)
    requires Inv(u) && t in u.threads && Ready(u, t) && Leaving(u.threads[t])
    ensures Inv(LogoutStep(u, t))
  {
    LogoutLocks(u, t);
    LogoutCloseRun(u, t);
    LogoutLogoutRun(u, t);
    LogoutStages(u, t);
  }

  lemma ListenLocks(u: User, t: nat, fails: bool)
    requires LockOk(u) && t in u.threads && Ready(u, t) && (u.threads[t].Receive? || u.threads[t].Write?)
    ensures LockOk(ListenStep(u, t, fails))
  {
  }

  lemma ListenCloseRun(u: User, t: nat, fails: bool)
    requires CloseRunOk(u) && t in u.threads && Ready(u, t) && (u.threads[t].Receive? || u.threads[t].Write?)
    ensures CloseRunOk(ListenStep(u, t, fails))
  {
  }

  lemma ListenLogoutRun(u: User, t: nat, fails: bool)
    requires LogoutRunOk(u) && t in u.threads && Ready(u, t) && (u.threads[t].Receive? || u.threads[t].Write?)
    ensures LogoutRunOk(ListenStep(u, t, fails))
  {
  }

  lemma ListenStages(u: User, t: nat, fails: bool)
    requires Inv(u) && t in u.threads && Ready(u, t) && (u.threads[t].Receive? || u.threads[t].Write?)
    ensures StageOk(ListenStep(u, t, fails)) && SendersOk(ListenStep(u, t, fails)) && TrafficOk(ListenStep(u, t, fails))
  {
  }

  lemma ListenKeeps(u: User, t: nat, fails: bool)
    requires Inv(u) && t in u.threads && Ready(u, t) && (u.threads[t].Receive? || u.threads[t].Write?)
    ensures Inv(ListenStep(u, t, fails))
  {
    ListenLocks(u, t, fails);
    ListenCloseRun(u, t, fails);
    ListenLogoutRun(u, t, fails);
    ListenStages(u, t, fails);
  }

  /** Every step of every thread keeps the invariant. */
  lemma StepKeeps(u: User, e: Event)
    requires Inv(u) && Enabled(u, e)
    ensures Inv(Apply(u, e))
  {
    match e
    case Start(t, pc) => StartKeeps(u, t, pc);
    case Go(t, spare, fails) =>
      if Sending(u.threads[t]) {
        SendKeeps(u, t, spare);
      } else if Leaving(u.threads[t]) {
        LogoutKeeps(u, t);
      } else if u.threads[t].Receive? || u.threads[t].Write? {
        ListenKeeps(u, t, fails);
      } else {
        CloseKeeps(u, t);
      }
  }

  lemma {:induction false} RunKeeps(u: User, es: seq<Event>, v: User)
    requires Inv(u) && Run(u, es, v)
    ensures Inv(v)
    decreases |es|
  {
    if es != [] {
      StepKeeps(u, es[0]);
      RunKeeps(Apply(u, es[0]), es[1..], v);
    }
  }

  /** Under every interleaving: no send or close ever meets a closed channel, the channel is
      closed at most once and only after the flag is set, and no sender that has passed its
      check can find the channel closed. */
  lemma NeverPanics(es: seq<Event>, u: User)
    requires Run(CONNECTED, es, u)
    ensures !u.panicked && u.closes <= 1
    ensures u.channelClosed ==> u.isClosed
    ensures forall t :: t in u.threads && u.threads[t].SendSelect? ==> !u.channelClosed
  {
    RunKeeps(CONNECTED, es, u);
  }

  /** The listener receives the accepted messages in order, none lost or invented, also those
      still buffered when the channel was closed. */
  lemma InOrder(es: seq<Event>, u: User)
    requires Run(CONNECTED, es, u)
    ensures u.accepted == u.taken + u.channel && |u.channel| <= BUFFER
  {
    RunKeeps(CONNECTED, es, u);
  }

  // --------------------------------------------------------------------- progress

  lemma HolderReady(u: User)
    requires LockOk(u) && u.holder.Some?
    ensures Ready(u, u.holder.value)
  {
  }

  /** While a close is running, its thread or the lock holder can move. */
  lemma CloserReady(u: User) returns (t: nat)
    requires LockOk(u) && OnceOk(u) && u.closeOnce.Running?
    ensures t in u.threads && Ready(u, t)
  {
    if u.holder.Some? {
      HolderReady(u);
      t := u.holder.value;
    } else {
      t := u.closeOnce.thread;
    }
  }

  /** No deadlock: in every reachable state, if any thread is doing something other than
      waiting for a message, some thread can take a step. */
  lemma NeverStuck(es: seq<Event>, u: User, t: nat) returns (r: nat)
    requires Run(CONNECTED, es, u) && t in u.threads && !u.threads[t].Receive?
    ensures r in u.threads && Ready(u, r)
  {
    RunKeeps(CONNECTED, es, u);
    r := t;
    if u.holder.Some? {
      HolderReady(u);
      r := u.holder.value;
    } else if u.closeOnce.Running? {
      r := CloserReady(u);
    } else if u.logoutOnce.Running? {
      r := u.logoutOnce.thread;
    }
  }

  // ------------------------------------------------------------------- termination

  /** The steps a thread can still take on its own, with those that a message it puts into the
      channel will cost the listener. A first logout is paid for by `LEAVING` as long as there has
      been none. */
  function Rank(pc: Pc): nat {
    match pc
    case LogoutDone => 1
    case CloseDone(_) => 2
    case CloseChannel(_) => 3
    case CloseUnlock(_) => 4
    case CloseSet(_) => 5
    case CloseLock(_) => 6
    case CloseOnce(_) => 7
    case SendUnlock(_) => 8
    case SendSelect(_, _) => 11
    case SendCheck(_, _) => 12
    case SendLock(_, _) => 13
    case BeatUnlock => 14
    case BeatLock => 15
    case LogoutOnce => 1
    case Receive => 1
    case Write(_) => 2
  }

  const LEAVING := 15

  function Ranks(threads: map<nat, Pc>): map<nat, nat> { map t | t in threads :: Rank(threads[t]) }

  ghost function Effort(u: User): nat {
    Sum(Ranks(u.threads)) + Fee(u)
  }

  /** What the channel and the logout to come still cost. */
  function Fee(u: User): nat { 2 * |u.channel| + if u.logoutOnce.Fresh? then LEAVING else 0 }

  lemma MoveRank(threads: map<nat, Pc>, t: nat, pc: Pc)
    requires t in threads
    ensures Sum(Ranks(threads[t := pc])) + Rank(threads[t]) == Sum(Ranks(threads)) + Rank(pc)
  {
    SumPick(Ranks(threads), t);
    SumPick(Ranks(threads[t := pc]), t);
    assert Ranks(threads[t := pc]) - {t} == Ranks(threads) - {t};
  }

  lemma NewRank(threads: map<nat, Pc>, t: nat)
    requires t !in threads
    ensures Sum(Ranks(threads[t := LogoutOnce])) == Sum(Ranks(threads)) + 1
  {
    SumPick(Ranks(threads[t := LogoutOnce]), t);
    assert Ranks(threads[t := LogoutOnce]) - {t} == Ranks(threads);
  }

  lemma Moved(u: User, v: User, t: nat, pc: Pc)
    requires t in u.threads && v.threads == u.threads[t := pc]
    requires Rank(pc) + Fee(v) < Rank(u.threads[t]) + Fee(u)
    ensures Effort(v) < Effort(u)
  {
    MoveRank(u.threads, t, pc);
  }

  lemma Ended(u: User, v: User, t: nat)
    requires t in u.threads && v.threads == u.threads - {t} && Fee(v) <= Fee(u)
    ensures Effort(v) < Effort(u)
  {
    SumPick(Ranks(u.threads), t);
    assert Ranks(v.threads) == Ranks(u.threads) - {t};
  }

  lemma Spawned(u: User, v: User, t: nat, spare: nat, pc: Pc)
    requires t in u.threads && spare !in u.threads && v.threads == u.threads[spare := LogoutOnce][t := pc]
    requires Rank(pc) + 1 < Rank(u.threads[t]) && Fee(v) == Fee(u)
    ensures Effort(v) < Effort(u)
  {
    NewRank(u.threads, spare);
    MoveRank(u.threads[spare := LogoutOnce], t, pc);
  }

  lemma SendEffort(u: User, t: nat, spare: nat)
    requires StageOk(u) && SendersOk(u) && t in u.threads && Sending(u.threads[t]) && spare !in u.threads
    ensures Effort(SendStep(u, t, spare)) < Effort(u)
  {
    var v := SendStep(u, t, spare);
    match u.threads[t]
    case SendLock(m, n) => Moved(u, v, t, SendCheck(m, n));
    case SendCheck(m, n) => Moved(u, v, t, if u.isClosed then SendUnlock(n) else SendSelect(m, n));
    case SendSelect(m, n) => SelectEffort(u, t, spare, m, n);
    case SendUnlock(n) => if n { Moved(u, v, t, CloseOnce(true)); } else { Ended(u, v, t); }
  }

  lemma SelectEffort(u: User, t: nat, spare: nat, m: string, n: bool)
    requires t in u.threads && u.threads[t] == SendSelect(m, n) && spare !in u.threads
    ensures Effort(SendStep(u, t, spare)) < Effort(u)
  {
    var v := SendStep(u, t, spare);
    if u.channelClosed {
      Ended(u, v, t);
    } else if |u.channel| < BUFFER {
      Moved(u, v, t, SendUnlock(n));
    } else {
      Spawned(u, v, t, spare, SendUnlock(n));
    }
  }

  lemma AfterCloseEffort(u: User, v: User, t: nat, n: bool)
    requires t in u.threads && v.threads == AfterClose(u, t, n).threads && Rank(u.threads[t]) > 1 && Fee(v) == Fee(u)
    ensures Effort(v) < Effort(u)
  {
    if n { Moved(u, v, t, LogoutDone); } else { Ended(u, v, t); }
  }

  lemma CloseOnceEffort(u: User, t: nat, n: bool)
    requires t in u.threads && u.threads[t] == CloseOnce(n)
    ensures Effort(CloseStep(u, t)) < Effort(u)
  {
    var v := CloseStep(u, t);
    if u.closeOnce.Fresh? { Moved(u, v, t, CloseLock(n)); } else { AfterCloseEffort(u, v, t, n); }
  }

  lemma CloseEffort(u: User, t: nat)
    requires t in u.threads && (u.threads[t].CloseOnce? || InClose(u.threads[t]))
    ensures Effort(CloseStep(u, t)) < Effort(u)
  {
    match u.threads[t]
    case CloseOnce(n) => CloseOnceEffort(u, t, n);
    case CloseDone(n) => AfterCloseEffort(u, CloseStep(u, t), t, n);
    case _ => CloseInsideEffort(u, t);
  }

  lemma CloseInsideEffort(u: User, t: nat)
    requires t in u.threads && InClose(u.threads[t]) && !u.threads[t].CloseDone?
    ensures Effort(CloseStep(u, t)) < Effort(u)
  {
    var v := CloseStep(u, t);
    match u.threads[t]
    case CloseLock(n) => Moved(u, v, t, CloseSet(n));
    case CloseSet(n) => Moved(u, v, t, CloseUnlock(n));
    case CloseUnlock(n) => Moved(u, v, t, CloseChannel(n));
    case CloseChannel(n) => if u.channelClosed { Ended(u, v, t); } else { Moved(u, v, t, CloseDone(n)); }
  }

  lemma LogoutEffort(u: User, t: nat)
    requires t in u.threads && Leaving(u.threads[t])
    ensures Effort(LogoutStep(u, t)) < Effort(u)
  {
    var v := LogoutStep(u, t);
    match u.threads[t]
    case LogoutOnce => if u.logoutOnce.Fresh? { Moved(u, v, t, BeatLock); } else { Ended(u, v, t); }
    case BeatLock => Moved(u, v, t, BeatUnlock);
    case BeatUnlock => Moved(u, v, t, SendLock(FAREWELL, true));
    case LogoutDone => Ended(u, v, t);
  }

  lemma ListenEffort(u: User, t: nat, fails: bool)
    requires t in u.threads && (u.threads[t].Receive? || u.threads[t].Write?)
    ensures Effort(ListenStep(u, t, fails)) < Effort(u)
  {
    var v := ListenStep(u, t, fails);
    match u.threads[t]
    case Receive => if u.channel == [] { Ended(u, v, t); } else { Moved(u, v, t, Write(u.channel[0])); }
    case Write(_) => Moved(u, v, t, if fails then LogoutOnce else Receive);
  }

  /** Every step of a thread, other than the start of a new operation, uses up some effort. */
  lemma GoEffort(u: User, e: Event)
    requires Inv(u) && Enabled(u, e) && e.Go?
    ensures Effort(Apply(u, e)) < Effort(u)
  {
    var t := e.thread;
    if Sending(u.threads[t]) {
      SendEffort(u, t, e.spare);
    } else if Leaving(u.threads[t]) {
      LogoutEffort(u, t);
    } else if u.threads[t].Receive? || u.threads[t].Write? {
      ListenEffort(u, t, e.fails);
    } else {
      CloseEffort(u, t);
    }
  }

  /** Without new operations no run is longer than the effort at its start. */
  lemma {:induction false} RunsEnd(u: User, es: seq<Event>, v: User)
    requires Inv(u) && Run(u, es, v) && (forall e :: e in es ==> e.Go?)
    ensures |es| + Effort(v) <= Effort(u)
    decreases |es|
  {
    if es != [] {
      assert es[0] in es;
      GoEffort(u, es[0]);
      StepKeeps(u, es[0]);
      RunsEnd(Apply(u, es[0]), es[1..], v);
    }
  }

  /** No thread can take a step. */
  ghost predicate Still(u: User) { forall t :: t in u.threads ==> !Ready(u, t) }

  /** And where such a run comes to rest, every operation that has begun is complete: only a
      listener waiting for messages is left, and when a close or a logout has begun, nobody is. */
  lemma Completes(es: seq<Event>, u: User)
    requires Run(CONNECTED, es, u) && Still(u)
    ensures forall t :: t in u.threads ==> u.threads[t].Receive?
    ensures !u.closeOnce.Running? && !u.logoutOnce.Running?
    ensures !u.closeOnce.Fresh? ==> u.isClosed && u.channelClosed && u.threads == map[]
    ensures u.threads != map[] ==> u.accepted == u.taken
  {
    RunKeeps(CONNECTED, es, u);
    forall t | t in u.threads ensures u.threads[t].Receive? {
      if !u.threads[t].Receive? { var r := NeverStuck(es, u, t); }
    }
    if u.channelClosed { ListenersReady(u); }
    if u.threads != map[] {
      var t :| t in u.threads;
      assert !Ready(u, t);
    }
  }

  lemma ListenersReady(u: User)
    requires u.channelClosed && forall t :: t in u.threads ==> u.threads[t].Receive?
    ensures forall t :: t in u.threads ==> Ready(u, t)
  {
  }

  // -------------------------------------------- a failed write or a full buffer ends it all

  /** A logout has begun or is about to. */
  ghost predicate Doomed(u: User) { !u.logoutOnce.Fresh? || exists t :: t in u.threads && u.threads[t] == LogoutOnce }

  /** A logout that is through with its close has closed. */
  ghost predicate LogoutCloses(u: User) {
    && (u.logoutOnce.Finished? ==> u.closeOnce.Finished?)
    && (forall t :: t in u.threads && u.threads[t] == LogoutDone ==> u.closeOnce.Finished?)
  }

  /** What a step of thread `t` does to the others and to the onces: it leaves the others alone, new
      threads are logouts, onces do not go back, and a logout comes to its end after a close. */
  ghost predicate Progress(u: User, v: User, t: nat)
    requires t in u.threads
  {
    && (forall x :: x in u.threads && x != t ==> x in v.threads && v.threads[x] == u.threads[x])
    && (forall x :: x in v.threads && x !in u.threads ==> v.threads[x] == LogoutOnce)
    && (u.closeOnce.Finished? ==> v.closeOnce.Finished?)
    && (!u.logoutOnce.Fresh? || u.threads[t] == LogoutOnce ==> !v.logoutOnce.Fresh?)
    && (v.logoutOnce.Finished? ==> u.logoutOnce.Finished? || u.threads[t] == LogoutDone)
    && (t in v.threads && v.threads[t] == LogoutDone ==> v.closeOnce.Finished?)
  }

  lemma SendProgress(u: User, t: nat, spare: nat)
    requires t in u.threads && spare !in u.threads && Sending(u.threads[t])
    ensures Progress(u, SendStep(u, t, spare), t)
  {
  }

  lemma CloseProgress(u: User, t: nat)
    requires t in u.threads && Ready(u, t) && (u.threads[t].CloseOnce? || InClose(u.threads[t]))
    ensures Progress(u, CloseStep(u, t), t)
  {
  }

  lemma LogoutProgress(u: User, t: nat)
    requires t in u.threads && Leaving(u.threads[t])
    ensures Progress(u, LogoutStep(u, t), t)
  {
  }

  lemma ListenProgress(u: User, t: nat, fails: bool)
    requires t in u.threads && (u.threads[t].Receive? || u.threads[t].Write?)
    ensures Progress(u, ListenStep(u, t, fails), t)
  {
  }

  lemma GoProgress(u: User, e: Event)
    requires Enabled(u, e) && e.Go?
    ensures Progress(u, Apply(u, e), e.thread)
  {
    var t := e.thread;
    if Sending(u.threads[t]) {
      SendProgress(u, t, e.spare);
    } else if Leaving(u.threads[t]) {
      LogoutProgress(u, t);
    } else if u.threads[t].Receive? || u.threads[t].Write? {
      ListenProgress(u, t, e.fails);
    } else {
      CloseProgress(u, t);
    }
  }

  lemma Progressed(u: User, v: User, t: nat)
    requires t in u.threads && Progress(u, v, t)
    ensures LogoutCloses(u) ==> LogoutCloses(v)
    ensures Doomed(u) ==> Doomed(v)
  {
    if u.logoutOnce.Fresh? && Doomed(u) {
      var x :| x in u.threads && u.threads[x] == LogoutOnce;
      assert x != t ==> v.threads[x] == LogoutOnce;
    }
  }

  lemma DoomedStep(u: User, e: Event)
    requires Enabled(u, e)
    ensures LogoutCloses(u) ==> LogoutCloses(Apply(u, e))
    ensures Doomed(u) ==> Doomed(Apply(u, e))
  {
    match e
    case Start(t, pc) => Started(u, t, pc);
    case Go(t, _, _) =>
      GoProgress(u, e);
      Progressed(u, Apply(u, e), t);
  }

  lemma Started(u: User, t: nat, pc: Pc)
    requires t !in u.threads && Entry(pc)
    ensures LogoutCloses(u) ==> LogoutCloses(At(u, t, pc))
    ensures Doomed(u) ==> Doomed(At(u, t, pc))
  {
    if u.logoutOnce.Fresh? && Doomed(u) {
      var x :| x in u.threads && u.threads[x] == LogoutOnce;
      assert At(u, t, pc).threads[x] == LogoutOnce;
    }
  }

  /** A step that asks for a logout: a write that fails, or a send that finds the buffer full. */
  predicate Dooms(u: User, e: Event) {
    e.Go? && e.thread in u.threads
    && (|| (u.threads[e.thread].Write? && e.fails)
        || (u.threads[e.thread].SendSelect? && !u.channelClosed && |u.channel| >= BUFFER))
  }

  lemma DoomsStep(u: User, e: Event)
    requires Enabled(u, e) && Dooms(u, e)
    ensures Doomed(Apply(u, e))
  {
    var v := Apply(u, e);
    if u.threads[e.thread].Write? {
      assert v.threads[e.thread] == LogoutOnce;
    } else {
      assert v.threads[e.spare] == LogoutOnce;
    }
  }

  lemma {:induction false} RunDoomed(u: User, es: seq<Event>, v: User)
    requires Inv(u) && LogoutCloses(u) && Run(u, es, v)
    ensures Inv(v) && LogoutCloses(v)
    ensures Doomed(u) ==> Doomed(v)
    decreases |es|
  {
    if es != [] {
      StepKeeps(u, es[0]);
      DoomedStep(u, es[0]);
      RunDoomed(Apply(u, es[0]), es[1..], v);
    }
  }

  lemma RunSnoc(u: User, es: seq<Event>, v: User, e: Event)
    requires Run(u, es, v) && Enabled(v, e)
    ensures Run(u, es + [e], Apply(v, e))
  {
    assert [e][1..] == [];
    assert Run(Apply(v, e), [], Apply(v, e));
    RunOn(u, es, v, [e], Apply(v, e));
  }

  /** After a write that failed or a send that found the buffer full, wherever the run comes to rest the
      user is closed and nobody is left. */
  lemma DoomedCloses(es: seq<Event>, u: User, e: Event, fs: seq<Event>, v: User)
    requires Run(CONNECTED, es, u) && Enabled(u, e) && Dooms(u, e) && Run(Apply(u, e), fs, v) && Still(v)
    ensures v.isClosed && v.channelClosed && v.threads == map[]
  {
    RunDoomed(CONNECTED, es, u);
    DoomsStep(u, e);
    StepKeeps(u, e);
    DoomedStep(u, e);
    RunDoomed(Apply(u, e), fs, v);
    RunSnoc(CONNECTED, es, u, e);
    RunOn(CONNECTED, es + [e], Apply(u, e), fs, v);
    Completes(es + [e] + fs, v);
  }

  lemma {:induction false} RunOn(u: User, es: seq<Event>, v: User, fs: seq<Event>, w: User)
    requires Run(u, es, v) && Run(v, fs, w)
    ensures Run(u, es + fs, w)
    decreases |es|
  {
    if es == [] {
      assert es + fs == fs;
    } else {
      RunOn(Apply(u, es[0]), es[1..], v, fs, w);
      assert (es + fs)[1..] == es[1..] + fs;
    }
  }

  // ------------------------------------------------ the operations, undisturbed

  /** The state the operations share, apart from lock and onces. `closes` counts how often the
      channel has been closed. */
  datatype Link = Link(isClosed: bool, channel: seq<string>, channelClosed: bool, closes: nat)

  function LinkOf(u: User): Link { Link(u.isClosed, u.channel, u.channelClosed, u.closes) }

  function Offer(l: Link, msg: string): Link {
    if l.isClosed || |l.channel| >= BUFFER then l else l.(channel := l.channel + [msg])
  }

  predicate Overflows(l: Link) { !l.isClosed && |l.channel| >= BUFFER }

  function Shut(l: Link): Link {
    if l.channelClosed then l else l.(isClosed := true, channelClosed := true, closes := l.closes + 1)
  }

  class Connection {
    var isClosed: bool
    var channel: seq<string>
    var channelClosed: bool
    var closes: nat
    var loggedOut: bool

    ghost function View(): Link
      reads this
    {
      Link(isClosed, channel, channelClosed, closes)
    }

    /** Between operations the flag and the channel agree, and the channel has been closed at
        most once. */
    ghost predicate Valid()
      reads this
    {
      channelClosed == isClosed && closes == if channelClosed then 1 else 0
    }

    constructor ()
      ensures Valid() && View() == Link(false, [], false, 0) && !loggedOut
    {
      isClosed, channel, channelClosed, closes, loggedOut := false, [], false, 0, false;
    }

    /** `overflow`: the buffer was full, so a Logout is started elsewhere. */
    method SendMsg(msg: string) returns (overflow: bool)
      requires Valid()
      modifies this`channel
      ensures Valid() && View() == Offer(old(View()), msg)
      ensures overflow == Overflows(old(View()))
    {
      if isClosed {
        return false;
      }
      assert !channelClosed;
      if |channel| < BUFFER {
        channel := channel + [msg];
        return false;
      }
      return true;
    }

    /** However often it is called, the channel has been closed exactly once afterwards. */
    method Close()
      requires Valid()
      modifies this`isClosed, this`channelClosed, this`closes
      ensures Valid() && View() == Shut(old(View())) && closes == 1
    {
      if !channelClosed {
        isClosed := true;
        channelClosed, closes := true, closes + 1;
      }
    }

    /** Only the first call does anything: say farewell, then close. */
    method Logout()
      requires Valid()
      modifies this
      ensures Valid() && loggedOut
      ensures View() == if old(loggedOut) then old(View()) else Shut(Offer(old(View()), FAREWELL))
    {
      if loggedOut {
        return;
      }
      loggedOut := true;
      var overflow := SendMsg(FAREWELL);
      Close();
    }
  }

  ghost predicate OnlyBy(es: seq<Event>, t: nat) {
    forall i :: 0 <= i < |es| ==> es[i].thread == t
  }

  /** Steps of thread `t` with nothing in between lead from `u` to `v`. */
  ghost predicate Alone(u: User, t: nat, v: User) {
    exists es :: Run(u, es, v) && OnlyBy(es, t)
  }

  lemma AloneStart(u: User, t: nat, pc: Pc)
    requires t !in u.threads && Entry(pc)
    ensures Alone(u, t, At(u, t, pc))
  {
    RunSnoc(u, [], u, Start(t, pc));
    assert [] + [Start(t, pc)] == [Start(t, pc)];
    assert OnlyBy([Start(t, pc)], t);
  }

  lemma AloneGo(u: User, t: nat, v: User, spare: nat)
    requires Alone(u, t, v) && t in v.threads && Ready(v, t) && spare !in v.threads
    ensures Alone(u, t, Apply(v, Go(t, spare, false)))
  {
    var es :| Run(u, es, v) && OnlyBy(es, t);
    RunSnoc(u, es, v, Go(t, spare, false));
    assert OnlyBy(es + [Go(t, spare, false)], t);
  }

  /** Thread `t` at `pc`, with the lock or without. */
  function Sender(u: User, t: nat, pc: Pc, holder: Option<nat>): User { At(u, t, pc).(holder := holder) }

  /** What a send does besides moving its own thread; an overflow starts a Logout on `spare`. */
  function Offered(u: User, msg: string, spare: nat): User {
    if u.isClosed then u
    else if |u.channel| < BUFFER then u.(channel := u.channel + [msg], accepted := u.accepted + [msg])
    else At(u, spare, LogoutOnce)
  }

  function AfterSend(u: User, t: nat, nested: bool): User {
    if nested then At(u, t, CloseOnce(true)) else Ends(u, t)
  }

  lemma SendMoves(u: User, t: nat, spare: nat, msg: string, n: bool)
    requires u.holder.None?
    ensures SendStep(Sender(u, t, SendLock(msg, n), None), t, spare) == Sender(u, t, SendCheck(msg, n), Some(t))
    ensures SendStep(Sender(u, t, SendCheck(msg, n), Some(t)), t, spare)
            == Sender(u, t, if u.isClosed then SendUnlock(n) else SendSelect(msg, n), Some(t))
  {
  }

  lemma SendOffers(u: User, t: nat, spare: nat, msg: string, n: bool)
    requires u.holder.None? && !u.channelClosed && !u.isClosed && t != spare
    ensures SendStep(Sender(u, t, SendSelect(msg, n), Some(t)), t, spare)
            == Sender(Offered(u, msg, spare), t, SendUnlock(n), Some(t))
  {
    assert u.threads[t := SendSelect(msg, n)][spare := LogoutOnce][t := SendUnlock(n)]
        == u.threads[spare := LogoutOnce][t := SendUnlock(n)];
  }

  lemma SendEnds(v: User, t: nat, spare: nat, n: bool)
    requires v.holder.None? && (n || t !in v.threads)
    ensures SendStep(Sender(v, t, SendUnlock(n), Some(t)), t, spare) == AfterSend(v, t, n)
  {
    if n {
      assert v.threads[t := SendUnlock(n)][t := CloseOnce(true)] == v.threads[t := CloseOnce(true)];
    } else {
      assert v.threads[t := SendUnlock(n)] - {t} == v.threads;
      assert v.threads - {t} == v.threads;
    }
  }

  lemma SendSteps(u: User, t: nat, v: User, spare: nat, next: nat, msg: string, n: bool)
    requires Alone(u, t, At(v, t, SendLock(msg, n))) && v.holder.None? && (v.channelClosed ==> v.isClosed)
    requires t !in v.threads && spare !in v.threads && next !in v.threads && t != spare && t != next && spare != next
    ensures Alone(u, t, AfterSend(Offered(v, msg, spare), t, n))
  {
    SendMoves(v, t, spare, msg, n);
    assert At(v, t, SendLock(msg, n)) == Sender(v, t, SendLock(msg, n), None);
    AloneGo(u, t, Sender(v, t, SendLock(msg, n), None), spare);
    AloneGo(u, t, Sender(v, t, SendCheck(msg, n), Some(t)), spare);
    if !v.isClosed {
      SendOffers(v, t, spare, msg, n);
      AloneGo(u, t, Sender(v, t, SendSelect(msg, n), Some(t)), spare);
    }
    var w := Offered(v, msg, spare);
    AloneGo(u, t, Sender(w, t, SendUnlock(n), Some(t)), next);
    SendEnds(w, t, next, n);
  }

  /** Thread `t` inside its close. */
  function Closing(u: User, t: nat, pc: Pc, holder: Option<nat>, isClosed: bool): User {
    u.(threads := u.threads[t := pc], closeOnce := Running(t), holder := holder, isClosed := isClosed)
  }

  /** `u` once the channel is closed. */
  function Shutting(u: User): User {
    u.(isClosed := true, channelClosed := true, closes := u.closes + 1)
  }

  lemma CloseMoves(u: User, t: nat, n: bool)
    requires u.holder.None? && u.closeOnce.Fresh? && !u.isClosed && !u.channelClosed
    ensures CloseStep(At(u, t, CloseOnce(n)), t) == Closing(u, t, CloseLock(n), None, false)
    ensures CloseStep(Closing(u, t, CloseLock(n), None, false), t) == Closing(u, t, CloseSet(n), Some(t), false)
    ensures CloseStep(Closing(u, t, CloseSet(n), Some(t), false), t) == Closing(u, t, CloseUnlock(n), Some(t), true)
  {
  }

  lemma ShutMoves(u: User, t: nat, n: bool)
    requires u.holder.None? && u.closeOnce.Fresh? && !u.isClosed && !u.channelClosed
    ensures CloseStep(Closing(u, t, CloseUnlock(n), Some(t), true), t) == Closing(u, t, CloseChannel(n), None, true)
    ensures CloseStep(Closing(u, t, CloseChannel(n), None, true), t)
            == Closing(Shutting(u), t, CloseDone(n), None, true)
  {
  }

  lemma CloseEnds(u: User, t: nat, n: bool)
    requires u.holder.None? && u.isClosed
    ensures CloseStep(Closing(u, t, CloseDone(n), None, true), t) == AfterClose(u, t, n).(closeOnce := Finished)
  {
  }

  lemma CloseGo(u: User, t: nat, v: User, w: User, spare: nat)
    requires Alone(u, t, v) && t in v.threads && Ready(v, t) && spare !in v.threads
    requires (v.threads[t].CloseOnce? || InClose(v.threads[t])) && w == CloseStep(v, t)
    ensures Alone(u, t, w)
  {
    AloneGo(u, t, v, spare);
  }

  /** A first close goes through all its steps, ... */
  lemma FirstCloseSteps(u: User, t: nat, v: User, spare: nat, n: bool)
    requires Alone(u, t, At(v, t, CloseOnce(n))) && v.holder.None? && v.closeOnce.Fresh?
    requires !v.isClosed && !v.channelClosed && t != spare && spare !in v.threads
    ensures Alone(u, t, AfterClose(Shutting(v), t, n).(closeOnce := Finished))
  {
    CloseMoves(v, t, n);
    ShutMoves(v, t, n);
    CloseEnds(Shutting(v), t, n);
    var c1, c2 := Closing(v, t, CloseLock(n), None, false), Closing(v, t, CloseSet(n), Some(t), false);
    var c3, c4 := Closing(v, t, CloseUnlock(n), Some(t), true), Closing(v, t, CloseChannel(n), None, true);
    var c5 := Closing(Shutting(v), t, CloseDone(n), None, true);
    CloseGo(u, t, At(v, t, CloseOnce(n)), c1, spare);
    CloseGo(u, t, c1, c2, spare);
    CloseGo(u, t, c2, c3, spare);
    CloseGo(u, t, c3, c4, spare);
    CloseGo(u, t, c4, c5, spare);
    CloseGo(u, t, c5, AfterClose(Shutting(v), t, n).(closeOnce := Finished), spare);
  }

  lemma LaterClose(v: User, t: nat, n: bool)
    requires v.closeOnce.Finished?
    ensures CloseStep(At(v, t, CloseOnce(n)), t) == AfterClose(v, t, n).(closeOnce := Finished)
  {
    assert v.threads[t := CloseOnce(n)][t := LogoutDone] == v.threads[t := LogoutDone];
    assert v.threads[t := CloseOnce(n)] - {t} == v.threads - {t};
  }

  /** ... and a later one returns at once. */
  lemma CloseSteps(u: User, t: nat, v: User, spare: nat, n: bool)
    requires Alone(u, t, At(v, t, CloseOnce(n))) && v.holder.None? && !v.closeOnce.Running?
    requires v.closeOnce.Fresh? ==> !v.isClosed && !v.channelClosed
    requires t != spare && spare !in v.threads
    ensures Alone(u, t, AfterClose(if v.closeOnce.Fresh? then Shutting(v) else v, t, n).(closeOnce := Finished))
  {
    if v.closeOnce.Fresh? {
      FirstCloseSteps(u, t, v, spare, n);
    } else {
      LaterClose(v, t, n);
      CloseGo(u, t, At(v, t, CloseOnce(n)), AfterClose(v, t, n).(closeOnce := Finished), spare);
    }
  }

  /** The threads after an operation on thread `t`: those of before, and the Logout that an
      overflow has started. */
  function Others(u: User, spare: nat): map<nat, Pc> {
    if Overflows(LinkOf(u)) then u.threads[spare := LogoutOnce] else u.threads
  }

  /** A send that nothing interrupts has the effect of the operation. */
  lemma SendAlone(u: User, t: nat, spare: nat, next: nat, msg: string) returns (v: User)
    requires Inv(u) && u.holder.None? && t != spare && t != next && spare != next
    requires t !in u.threads && spare !in u.threads && next !in u.threads
    ensures Alone(u, t, v) && LinkOf(v) == Offer(LinkOf(u), msg)
    ensures v.threads == Others(u, spare) && v.holder.None?
    ensures v.accepted == if !u.isClosed && |u.channel| < BUFFER then u.accepted + [msg] else u.accepted
    ensures v.threads == if !u.isClosed && |u.channel| >= BUFFER then u.threads[spare := LogoutOnce] else u.threads
  {
    AloneStart(u, t, SendLock(msg, false));
    SendSteps(u, t, u, spare, next, msg, false);
    v := AfterSend(Offered(u, msg, spare), t, false);
    assert v.threads == Others(u, spare);
  }

  /** A close that nothing interrupts has the effect of the operation, whether it is the first
      or not, and then the channel has been closed once. */
  lemma CloseAlone(u: User, t: nat, spare: nat) returns (v: User)
    requires Inv(u) && u.holder.None? && !u.closeOnce.Running?
    requires t !in u.threads && spare !in u.threads && t != spare
    ensures Alone(u, t, v) && LinkOf(v) == Shut(LinkOf(u)) && v.closes == 1
    ensures v.threads == u.threads && v.holder.None? && v.closeOnce.Finished?
  {
    AloneStart(u, t, CloseOnce(false));
    CloseSteps(u, t, u, spare, false);
    v := AfterClose(if u.closeOnce.Fresh? then Shutting(u) else u, t, false).(closeOnce := Finished);
    assert u.threads - {t} == u.threads;
  }

  lemma LogoutMoves(u: User, t: nat)
    requires u.holder.None? && u.logoutOnce.Fresh?
    ensures var w := u.(logoutOnce := Running(t));
      && LogoutStep(At(u, t, LogoutOnce), t) == At(w, t, BeatLock)
      && LogoutStep(At(w, t, BeatLock), t) == Sender(w, t, BeatUnlock, Some(t))
      && LogoutStep(Sender(w, t, BeatUnlock, Some(t)), t) == At(w, t, SendLock(FAREWELL, true))
  {
  }

  /** A logout that nothing interrupts: the first says farewell and closes, a later one does
      nothing. */
  lemma LogoutAlone(u: User, t: nat, spare: nat, next: nat) returns (v: User)
    requires Inv(u) && u.holder.None? && !u.closeOnce.Running? && !u.logoutOnce.Running?
    requires t != spare && t != next && spare != next
    requires t !in u.threads && spare !in u.threads && next !in u.threads
    ensures Alone(u, t, v) && v.holder.None? && v.logoutOnce.Finished?
    ensures LinkOf(v) == if u.logoutOnce.Finished? then LinkOf(u) else Shut(Offer(LinkOf(u), FAREWELL))
    ensures v.threads == if u.logoutOnce.Finished? then u.threads else Others(u, spare)
  {
    AloneStart(u, t, LogoutOnce);
    AloneGo(u, t, At(u, t, LogoutOnce), next);
    if u.logoutOnce.Finished? {
      v := Ends(At(u, t, LogoutOnce), t);
      assert u.threads[t := LogoutOnce] - {t} == u.threads;
    } else {
      LogoutMoves(u, t);
      var w := u.(logoutOnce := Running(t));
      AloneGo(u, t, At(w, t, BeatLock), next);
      AloneGo(u, t, Sender(w, t, BeatUnlock, Some(t)), next);
      SendSteps(u, t, w, spare, next, FAREWELL, true);
      v := FinishLogout(u, t, Offered(w, FAREWELL, spare), next);
      assert v.threads == Others(u, spare);
    }
  }

  lemma FinishLogout(u: User, t: nat, w: User, next: nat) returns (v: User)
    requires Alone(u, t, At(w, t, CloseOnce(true))) && w.holder.None? && !w.closeOnce.Running?
    requires w.closeOnce.Fresh? ==> !w.isClosed && !w.channelClosed
    requires w.closeOnce.Finished? ==> w.isClosed && w.channelClosed
    requires t !in w.threads && next !in w.threads && t != next
    ensures Alone(u, t, v) && LinkOf(v) == Shut(LinkOf(w)) && v.threads == w.threads && v.holder.None?
            && v.logoutOnce.Finished?
  {
    CloseSteps(u, t, w, next, true);
    var x := (if w.closeOnce.Fresh? then Shutting(w) else w).(closeOnce := Finished);
    assert AfterClose(if w.closeOnce.Fresh? then Shutting(w) else w, t, true).(closeOnce := Finished)
        == At(x, t, LogoutDone);
    AloneGo(u, t, At(x, t, LogoutDone), next);
    v := Ends(At(x, t, LogoutDone), t).(logoutOnce := Finished);
    assert w.threads[t := LogoutDone] - {t} == w.threads;
  }
}
