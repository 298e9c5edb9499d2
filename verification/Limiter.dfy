/** The connection limiter: a sliding window over the accepted attempts of each address. */
module Limiter {

  /** The records later than the cutoff, in order. */
  function Recent(ts: seq<nat>, cutoff: int): seq<nat> {
    if ts == [] then []
    else
      var n := |ts| - 1;
      Recent(ts[..n], cutoff) + if ts[n] > cutoff then [ts[n]] else []
  }

  /** `filtered := records[:0]` and the appends that follow: the kept records move to the front
      of the same array, and no unread record is overwritten. */
  method FilterInPlace(buf: array<nat>, cutoff: int) returns (kept: nat)
    modifies buf
    ensures kept <= buf.Length && buf[..kept] == Recent(old(buf[..]), cutoff)
  {
    kept := 0;
    ghost var was := buf[..];
    for i := 0 to buf.Length
      invariant kept <= i && buf[..kept] == Recent(was[..i], cutoff)
      invariant buf[i..] == was[i..]
    {
      assert was[..i + 1][..i] == was[..i];
      assert buf[i] == buf[i..][0] == was[i];
      assert was[i..][1..] == was[i + 1..] && buf[i..][1..] == buf[i + 1..];
      if buf[i] > cutoff {
        buf[kept] := buf[i];
        kept := kept + 1;
      }
    }
    assert was[..buf.Length] == was;
  }

  datatype Limits = Limits(window: nat, limit: nat, blacklist: set<string>)

  datatype Decision = NoAddress | Blacklisted | Limited | Accepted
  {
    predicate Admits() { NoAddress? || Accepted? }
  }

  type Attempts = map<string, seq<nat>>

  function Records(a: Attempts, ip: string): seq<nat> { if ip in a then a[ip] else [] }

  function Decide(l: Limits, a: Attempts, ip: string, now: nat): Decision {
    if ip == "" then NoAddress
    else if ip in l.blacklist then Blacklisted
    else if |Recent(Records(a, ip), now - l.window)| >= l.limit then Limited
    else Accepted
  }

  function After(l: Limits, a: Attempts, ip: string, now: nat): Attempts {
    var kept := Recent(Records(a, ip), now - l.window);
    match Decide(l, a, ip, now)
    case Limited => a[ip := kept]
    case Accepted => a[ip := kept + [now]]
    case _ => a
  }

  // ------------------------------------------------------------------- whole runs

  datatype Connect = Connect(ip: string, now: nat)

  ghost predicate ClockForward(cs: seq<Connect>) {
    forall i, j :: 0 <= i < j < |cs| ==> cs[i].now <= cs[j].now
  }

  function RunFrom(l: Limits, cs: seq<Connect>): Attempts {
    if cs == [] then map[]
    else
      var n := |cs| - 1;
      After(l, RunFrom(l, cs[..n]), cs[n].ip, cs[n].now)
  }

  /** The times at which connections of `ip` were accepted, independent of what the limiter
      remembers of them. */
  function AcceptLog(l: Limits, cs: seq<Connect>, ip: string): seq<nat> {
    if cs == [] then []
    else
      var n := |cs| - 1;
      AcceptLog(l, cs[..n], ip)
      + if cs[n].ip == ip && Decide(l, RunFrom(l, cs[..n]), ip, cs[n].now).Accepted? then [cs[n].now] else []
  }

  /** The logged times in the window that ends at `t`: later than t - window, and not after t. */
  function InWindow(log: seq<nat>, window: nat, t: nat): seq<nat> {
    if log == [] then []
    else
      var n := |log| - 1;
      InWindow(log[..n], window, t) + if t - window < log[n] <= t then [log[n]] else []
  }

  lemma {:induction false} RecentTwice(ts: seq<nat>, early: int, late: int)
    requires early <= late
    ensures Recent(Recent(ts, early), late) == Recent(ts, late)
    decreases |ts|
  {
    if ts != [] {
      var n := |ts| - 1;
      RecentTwice(ts[..n], early, late);
      if ts[n] > early {
        RecentSnoc(Recent(ts[..n], early), ts[n], late);
      } else {
        assert Recent(ts, early) == Recent(ts[..n], early) && Recent(ts, late) == Recent(ts[..n], late);
      }
    }
  }

  lemma RecentSnoc(ts: seq<nat>, t: nat, cutoff: int)
    ensures Recent(ts + [t], cutoff) == Recent(ts, cutoff) + if t > cutoff then [t] else []
  {
    assert (ts + [t])[..|ts|] == ts;
  }

  lemma {:induction false} RecentShrinks(ts: seq<nat>, early: int, late: int)
    requires early <= late
    ensures |Recent(ts, late)| <= |Recent(ts, early)|
    decreases |ts|
  {
    if ts != [] { RecentShrinks(ts[..|ts| - 1], early, late); }
  }

  ghost predicate NotAfter(log: seq<nat>, t: nat) {
    forall i :: 0 <= i < |log| ==> log[i] <= t
  }

  lemma {:induction false} WindowIsRecent(log: seq<nat>, window: nat, t: nat)
    requires NotAfter(log, t)
    ensures InWindow(log, window, t) == Recent(log, t - window)
    decreases |log|
  {
    if log != [] { WindowIsRecent(log[..|log| - 1], window, t); }
  }

  function LastTime(cs: seq<Connect>): nat { if cs == [] then 0 else cs[|cs| - 1].now }

  /** One attempt: pruning the records at `early` loses nothing a cutoff from there on can see. */
  lemma PruneStep(records: seq<nat>, log: seq<nat>, now: nat, early: int, cutoff: int)
    requires early <= cutoff && Recent(records, cutoff) == Recent(log, cutoff)
    ensures Recent(Recent(records, early), cutoff) == Recent(log, cutoff)
    ensures Recent(Recent(records, early) + [now], cutoff) == Recent(log + [now], cutoff)
  {
    RecentTwice(records, early, cutoff);
    RecentSnoc(Recent(records, early), now, cutoff);
    RecentSnoc(log, now, cutoff);
  }

  lemma RecordsAfter(l: Limits, a: Attempts, ip: string, other: string, now: nat)
    ensures var kept, d := Recent(Records(a, ip), now - l.window), Decide(l, a, ip, now);
      && Records(After(l, a, other, now), ip) == (if other == ip && d.Accepted? then kept + [now]
                                                  else if other == ip && d.Limited? then kept
                                                  else Records(a, ip))
      && (d.Accepted? ==> |kept| < l.limit)
  {
  }

  /** The records of an address after one more attempt, and whether that attempt is logged. */
  lemma OneMore(l: Limits, cs: seq<Connect>, ip: string)
    requires cs != []
    ensures var n := |cs| - 1; var a, log, now := RunFrom(l, cs[..n]), AcceptLog(l, cs[..n], ip), cs[n].now;
      Advance(l, a, log, ip, now, RunFrom(l, cs), AcceptLog(l, cs, ip))
  {
    var n := |cs| - 1;
    var a, log, now := RunFrom(l, cs[..n]), AcceptLog(l, cs[..n], ip), cs[n].now;
    AdvanceHolds(l, a, log, ip, cs[n].ip, now);
  }

  ghost predicate Advance(l: Limits, a: Attempts, log: seq<nat>, ip: string, now: nat, a': Attempts, log': seq<nat>) {
    var kept := Recent(Records(a, ip), now - l.window);
    || (log' == log && Records(a', ip) == Records(a, ip))
    || (log' == log && Records(a', ip) == kept)
    || (log' == log + [now] && Records(a', ip) == kept + [now] && |kept| < l.limit)
  }

  lemma AdvanceHolds(l: Limits, a: Attempts, log: seq<nat>, ip: string, other: string, now: nat)
    ensures Advance(l, a, log, ip, now, After(l, a, other, now),
                    log + if other == ip && Decide(l, a, ip, now).Accepted? then [now] else [])
  {
    RecordsAfter(l, a, ip, other, now);
  }

  /** What the limiter remembers of an address decides every later window: it has forgotten
      only what no later window can contain. */
  lemma {:induction false} RecordsSuffice(l: Limits, cs: seq<Connect>, ip: string, cutoff: int)
    requires ClockForward(cs) && cutoff >= LastTime(cs) - l.window
    ensures Recent(Records(RunFrom(l, cs), ip), cutoff) == Recent(AcceptLog(l, cs, ip), cutoff)
    decreases |cs|
  {
    if cs != [] {
      var n := |cs| - 1;
      var front, now := cs[..n], cs[n].now;
      assert LastTime(front) <= now;
      RecordsSuffice(l, front, ip, cutoff);
      OneMore(l, cs, ip);
      PruneStep(Records(RunFrom(l, front), ip), AcceptLog(l, front, ip), now, now - l.window, cutoff);
    }
  }

  lemma {:induction false} LogBefore(l: Limits, cs: seq<Connect>, ip: string)
    requires ClockForward(cs)
    ensures NotAfter(AcceptLog(l, cs, ip), LastTime(cs))
    decreases |cs|
  {
    if cs != [] {
      var front := cs[..|cs| - 1];
      assert LastTime(front) <= LastTime(cs);
      LogBefore(l, front, ip);
      OneMore(l, cs, ip);
    }
  }

  lemma AcceptInWindow(log: seq<nat>, now: nat, window: nat, limit: nat, t: nat)
    requires NotAfter(log, now)
    requires |Recent(log, now - window)| < limit && |InWindow(log, window, t)| <= limit
    ensures |InWindow(log + [now], window, t)| <= limit
  {
    assert (log + [now])[..|log|] == log;
    if t >= now {
      WindowIsRecent(log + [now], window, t);
      RecentShrinks(log + [now], now - window, t - window);
      RecentSnoc(log, now, now - window);
    }
  }

  /** At most `limit` connections of an address are accepted in any window, wherever it ends. */
  lemma {:induction false} WindowBound(l: Limits, cs: seq<Connect>, ip: string, t: nat)
    requires ClockForward(cs)
    ensures |InWindow(AcceptLog(l, cs, ip), l.window, t)| <= l.limit
    decreases |cs|
  {
    if cs != [] {
      var n := |cs| - 1;
      WindowBound(l, cs[..n], ip, t);
      assert LastTime(cs[..n]) <= cs[n].now;
      BoundStep(l, cs[..n], cs[n], ip, t);
      assert AcceptLog(l, cs, ip) == Logged(l, RunFrom(l, cs[..n]), AcceptLog(l, cs[..n], ip), ip, cs[n]);
    }
  }

  ghost predicate Within(log: seq<nat>, l: Limits, t: nat) { |InWindow(log, l.window, t)| <= l.limit }

  /** The log of an address after one more attempt, by anyone. */
  function Logged(l: Limits, a: Attempts, log: seq<nat>, ip: string, c: Connect): seq<nat> {
    log + if c.ip == ip && Decide(l, a, ip, c.now).Accepted? then [c.now] else []
  }

  lemma WindowStep(l: Limits, a: Attempts, log: seq<nat>, ip: string, c: Connect, t: nat)
    requires Recent(Records(a, ip), c.now - l.window) == Recent(log, c.now - l.window)
    requires NotAfter(log, c.now) && Within(log, l, t)
    ensures Within(Logged(l, a, log, ip, c), l, t)
  {
    if c.ip == ip && Decide(l, a, ip, c.now).Accepted? {
      AcceptInWindow(log, c.now, l.window, l.limit, t);
    } else {
      assert Logged(l, a, log, ip, c) == log;
    }
  }

  lemma BoundStep(l: Limits, front: seq<Connect>, c: Connect, ip: string, t: nat)
    requires ClockForward(front) && LastTime(front) <= c.now && Within(AcceptLog(l, front, ip), l, t)
    ensures Within(Logged(l, RunFrom(l, front), AcceptLog(l, front, ip), ip, c), l, t)
  {
    RecordsSuffice(l, front, ip, c.now - l.window);
    LogBefore(l, front, ip);
    WindowStep(l, RunFrom(l, front), AcceptLog(l, front, ip), ip, c, t);
  }

  /** The records that the limiter counts are the accepted attempts of the current window. */
  lemma CountsTheWindow(l: Limits, cs: seq<Connect>, ip: string, now: nat)
    requires ClockForward(cs) && LastTime(cs) <= now
    ensures Recent(Records(RunFrom(l, cs), ip), now - l.window) == InWindow(AcceptLog(l, cs, ip), l.window, now)
  {
    var log := AcceptLog(l, cs, ip);
    RecordsSuffice(l, cs, ip, now - l.window);
    assert InWindow(log, l.window, now) == Recent(log, now - l.window) by {
      LogBefore(l, cs, ip);
      LaterWindow(log, l.window, LastTime(cs), now);
    }
  }

  lemma LaterWindow(log: seq<nat>, window: nat, last: nat, now: nat)
    requires last <= now && NotAfter(log, last)
    ensures InWindow(log, window, now) == Recent(log, now - window)
  {
    WindowIsRecent(log, window, now);
  }

  lemma DecideByCount(l: Limits, a: Attempts, ip: string, now: nat, window: seq<nat>)
    requires ip != "" && ip !in l.blacklist && Recent(Records(a, ip), now - l.window) == window && |window| <= l.limit
    ensures !Decide(l, a, ip, now).Admits() <==> |window| == l.limit
  {
  }

  /** An address that is not blacklisted is refused exactly when its current window is full. */
  lemma RefusedExactlyWhenFull(l: Limits, cs: seq<Connect>, ip: string, now: nat)
    requires ClockForward(cs) && LastTime(cs) <= now && ip != "" && ip !in l.blacklist
    ensures !Decide(l, RunFrom(l, cs), ip, now).Admits()
            <==> |InWindow(AcceptLog(l, cs, ip), l.window, now)| == l.limit
  {
    CountsTheWindow(l, cs, ip, now);
    WindowBound(l, cs, ip, now);
    DecideByCount(l, RunFrom(l, cs), ip, now, InWindow(AcceptLog(l, cs, ip), l.window, now));
  }

  // ------------------------------------------------------- the limiter that forgets nothing

  /** What the limiter is meant to do, by the whole history of attempts: admit an address that is empty,
      and one that is not blacklisted and has fewer than `limit` admissions in the current window. */
  predicate Admits(l: Limits, cs: seq<Connect>, ip: string, now: nat)
    decreases |cs|, 1
  {
    ip == "" || (ip !in l.blacklist && |InWindow(Admitted(l, cs, ip), l.window, now)| < l.limit)
  }

  /** The times at which attempts of a named address were admitted. */
  function Admitted(l: Limits, cs: seq<Connect>, ip: string): seq<nat>
    decreases |cs|, 0
  {
    if cs == [] then []
    else
      var n := |cs| - 1;
      Admitted(l, cs[..n], ip) + if cs[n].ip == ip && Admits(l, cs[..n], ip, cs[n].now) then [cs[n].now] else []
  }

  lemma Verdict(l: Limits, a: Attempts, ip: string, now: nat)
    ensures ip == "" ==> Decide(l, a, ip, now).Admits() && After(l, a, ip, now) == a
    ensures ip != "" && ip in l.blacklist ==> Decide(l, a, ip, now) == Blacklisted && After(l, a, ip, now) == a
    ensures ip != "" && ip !in l.blacklist ==> (Decide(l, a, ip, now).Admits() <==> Decide(l, a, ip, now).Accepted?)
  {
  }

  lemma {:induction false} LogIsAdmitted(l: Limits, cs: seq<Connect>, ip: string)
    requires ClockForward(cs) && ip != ""
    ensures AcceptLog(l, cs, ip) == Admitted(l, cs, ip)
    decreases |cs|, 0
  {
    if cs != [] {
      var n := |cs| - 1;
      var front, c := cs[..n], cs[n];
      LogIsAdmitted(l, front, ip);
      if c.ip == ip {
        assert LastTime(front) <= c.now;
        Refines(l, front, ip, c.now);
        Verdict(l, RunFrom(l, front), ip, c.now);
      }
    }
  }

  /** With its pruned records the limiter decides, after any run, as the one that forgets nothing:
      an address is admitted exactly when it is empty, or not blacklisted and admitted fewer than
      `limit` times in the current window. */
  lemma {:induction false} Refines(l: Limits, cs: seq<Connect>, ip: string, now: nat)
    requires ClockForward(cs) && LastTime(cs) <= now
    ensures Decide(l, RunFrom(l, cs), ip, now).Admits() <==> Admits(l, cs, ip, now)
    decreases |cs|, 1
  {
    Verdict(l, RunFrom(l, cs), ip, now);
    if ip != "" && ip !in l.blacklist {
      LogIsAdmitted(l, cs, ip);
      RefusedExactlyWhenFull(l, cs, ip, now);
      WindowBound(l, cs, ip, now);
    }
  }

  // ------------------------------------------------------------------------ the object

  class ConnectionLimiter {
    const limits: Limits
    var attempts: Attempts
    ghost var history: seq<Connect>  // every attempt so far

    /** What is remembered is what the history leaves. */
    ghost predicate Valid()
      reads this
    {
      attempts == RunFrom(limits, history)
    }

    constructor (limits: Limits)
      ensures Valid() && this.limits == limits && attempts == map[] && history == []
    {
      this.limits := limits;
      attempts := map[];
      history := [];
    }

    /** Whatever came before, as long as the clock has not gone back: the attempt is admitted as the
        whole history has it. */
    method AllowConnection(ip: string, now: nat) returns (ok: bool, reason: string)
      requires Valid()
      modifies this
      ensures Valid() && history == old(history) + [Connect(ip, now)]
      ensures attempts == After(limits, old(attempts), ip, now)
      ensures ok == Decide(limits, old(attempts), ip, now).Admits()
      ensures ClockForward(history) ==> (ok <==> Admits(limits, old(history), ip, now))
      ensures reason == if ok then "" else if ip in limits.blacklist then "ip is blacklisted" else "rate limit exceeded"
      ensures ip == "" || ip in limits.blacklist ==> attempts == old(attempts)
    {
      Verdict(limits, attempts, ip, now);
      RunSnoc(limits, history, ip, now);
      history := history + [Connect(ip, now)];
      if ip == "" {
        return true, "";
      }
      if ip in limits.blacklist {
        return false, "ip is blacklisted";
      }
      ok, reason := CheckWindow(ip, now);
    }

    method CheckWindow(ip: string, now: nat) returns (ok: bool, reason: string)
      requires ip != "" && ip !in limits.blacklist
      modifies this`attempts
      ensures attempts == After(limits, old(attempts), ip, now)
      ensures ok == Decide(limits, old(attempts), ip, now).Accepted?
      ensures reason == if ok then "" else "rate limit exceeded"
    {
      var records := if ip in attempts then attempts[ip] else [];
      var buf := new nat[|records|](i requires 0 <= i < |records| => records[i]);
      assert buf[..] == records;
      var kept := FilterInPlace(buf, now - limits.window);
      var filtered := buf[..kept];
      assert filtered == Recent(Records(attempts, ip), now - limits.window);
      if |filtered| >= limits.limit {
        attempts := attempts[ip := filtered];
        return false, "rate limit exceeded";
      }
      attempts := attempts[ip := filtered + [now]];
      return true, "";
    }
  }

  lemma RunSnoc(l: Limits, cs: seq<Connect>, ip: string, now: nat)
    ensures RunFrom(l, cs + [Connect(ip, now)]) == After(l, RunFrom(l, cs), ip, now)
    ensures ClockForward(cs + [Connect(ip, now)]) ==>
              (Decide(l, RunFrom(l, cs), ip, now).Admits() <==> Admits(l, cs, ip, now))
  {
    var ds := cs + [Connect(ip, now)];
    assert ds[..|ds| - 1] == cs && ds[|ds| - 1] == Connect(ip, now);
    if ClockForward(ds) {
      Earlier(ds);
      Refines(l, cs, ip, now);
    }
  }

  lemma Earlier(cs: seq<Connect>)
    requires cs != [] && ClockForward(cs)
    ensures ClockForward(cs[..|cs| - 1]) && LastTime(cs[..|cs| - 1]) <= cs[|cs| - 1].now
  {
  }
}
