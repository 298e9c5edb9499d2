/** One delivery round over a message: which recipients are attempted, and what each attempt
    does to its own entry and row. */
module Rounds {
  import opened Basics
  import opened Records
  import opened StoreSpec
  import opened StoreInvariants

  const OFFLINE := "recipient offline"

  /** Who is reachable. The value says whether there is a connection to write to. */
  type Online = map<string, bool>

  const NOBODY: Online := map[]

  function Attempt(s: State, id: string, user: string, online: Online, cfg: Config, now: nat): State {
    if user in online then MarkSent(s, Key(id, user), None, now)
    else ScheduleRetry(s, Key(id, user), Some(OFFLINE), cfg, now)
  }

  /** Attempts in order; attempt number `i` reads the clock as `clock(i)`. */
  function AttemptAll(s: State, id: string, users: seq<string>, online: Online, cfg: Config, clock: nat -> nat): State
    decreases |users|
  {
    if users == [] then s
    else
      var n := |users| - 1;
      Attempt(AttemptAll(s, id, users[..n], online, cfg, clock), id, users[n], online, cfg, clock(n))
  }

  /** The recipients of a round: the answer of the store, and the direct recipient once. */
  function Targets(recips: seq<string>, direct: string): seq<string> {
    if direct != "" && direct !in recips then recips + [direct] else recips
  }

  /** What is written to connections, in order. */
  function Delivered(m: Message, id: string, users: seq<string>, online: Online): seq<Message> {
    if users == [] then []
    else
      var n := |users| - 1;
      var before := Delivered(m, id, users[..n], online);
      if users[n] in online && online[users[n]]
      then before + [m.(serverId := id, recipient := users[n], clientId := "", status := PENDING)]
      else before
  }

  lemma TargetsExact(recips: seq<string>, direct: string)
    requires NoDup(recips)
    ensures NoDup(Targets(recips, direct)) && recips <= Targets(recips, direct)
    ensures forall u :: u in Targets(recips, direct) <==> u in recips || (u == direct && direct != "")
  {
  }

  function Addressees(out: seq<Message>): (r: seq<string>)
    ensures |r| == |out|
  {
    seq(|out|, i requires 0 <= i < |out| => out[i].recipient)
  }

  /** Deliveries are written in the order of the targets. */
  lemma {:induction false} DeliveredInOrder(m: Message, id: string, users: seq<string>, online: Online)
    requires NoDup(users)
    ensures AsAppearing(users, Addressees(Delivered(m, id, users, online)))
    decreases |users|
  {
    if users != [] {
      var n := |users| - 1;
      assert users == users[..n] + [users[n]] && users[n] !in users[..n];
      DeliveredInOrder(m, id, users[..n], online);
      DeliveredExact(m, id, users[..n], online);
      var before := Delivered(m, id, users[..n], online);
      AppearingSnoc(users[..n], Addressees(before), users[n]);
      if users[n] in online && online[users[n]] {
        assert Addressees(Delivered(m, id, users, online)) == Addressees(before) + [users[n]];
      }
    }
  }

  /** Exactly one delivery is written for each reachable recipient, addressed to it. */
  lemma {:induction false} DeliveredExact(m: Message, id: string, users: seq<string>, online: Online)
    requires NoDup(users)
    ensures var out := Delivered(m, id, users, online);
      && (forall d :: d in out ==> d.recipient in users && d.recipient in online && online[d.recipient]
                                   && d == Message(id, "", m.chatId, m.sender, d.recipient, m.seqNo,
                                                   m.body, m.ts, PENDING))
      && (forall u :: u in users && u in online && online[u] ==> exists d :: d in out && d.recipient == u)
      && (forall i, j :: 0 <= i < j < |out| ==> out[i].recipient != out[j].recipient)
    decreases |users|
  {
    if users != [] {
      var n := |users| - 1;
      assert users == users[..n] + [users[n]];
      assert users[n] !in users[..n];
      DeliveredExact(m, id, users[..n], online);
      var out, before := Delivered(m, id, users, online), Delivered(m, id, users[..n], online);
      forall u | u in users && u in online && online[u]
        ensures exists d :: d in out && d.recipient == u
      {
        if u in users[..n] {
          var d :| d in before && d.recipient == u;
          assert d in out;
        } else {
          assert out[|out| - 1].recipient == u;
        }
      }
    }
  }

  // --------------------------------------------------------------- one attempt

  lemma AttemptTouches(s: State, id: string, user: string, online: Online, cfg: Config, now: nat)
    ensures Touches(s, Attempt(s, id, user, online, cfg, now), Key(id, user))
  {
    if user in online {
      MarkSentEffect(s, Key(id, user), None, now);
    } else {
      ScheduleRetryEffect(s, Key(id, user), Some(OFFLINE), cfg, now);
    }
  }

  ghost predicate AgreeAt(s: State, t: State, k: Key) {
    && s.persistent == t.persistent
    && (k in s.entries <==> k in t.entries) && (k in s.entries ==> s.entries[k] == t.entries[k])
    && (k in s.db.rows <==> k in t.db.rows) && (k in s.db.rows ==> s.db.rows[k] == t.db.rows[k])
  }

  ghost predicate RowsNamed(s: State) {
    if s.persistent then forall k :: k in s.db.rows ==> k.outer != "" && k.inner != "" else s.db.rows == map[]
  }

  /** An attempt reads nothing but its own entry and row. */
  lemma AttemptLocal(s: State, t: State, id: string, user: string, online: Online, cfg: Config, now: nat)
    requires AgreeAt(s, t, Key(id, user)) && RowsNamed(s) && RowsNamed(t)
    ensures AgreeAt(Attempt(s, id, user, online, cfg, now), Attempt(t, id, user, online, cfg, now), Key(id, user))
  {
    var k := Key(id, user);
    if user in online {
      MarkSentEffect(s, k, None, now);
      MarkSentEffect(t, k, None, now);
    } else {
      ScheduleRetryEffect(s, k, Some(OFFLINE), cfg, now);
      ScheduleRetryEffect(t, k, Some(OFFLINE), cfg, now);
    }
  }

  // ---------------------------------------------------------------- whole round

  lemma TouchAgrees(s: State, t: State, k: Key)
    requires Touches(s, t, k)
    ensures forall j: Key :: j != k ==> AgreeAt(t, s, j)
  {
  }

  /** `t` is `s` after the targets have been attempted: each target's entry and row are as a
      single attempt on `s` leaves them, and every other entry and row is untouched. */
  ghost predicate RoundResult(s: State, t: State, id: string, users: seq<string>, online: Online, cfg: Config,
                              clock: nat -> nat)
  {
    && t == s.(entries := t.entries, db := s.db.(rows := t.db.rows))
    && (forall i :: 0 <= i < |users| ==>
          AgreeAt(t, Attempt(s, id, users[i], online, cfg, clock(i)), Key(id, users[i])))
    && (forall k: Key :: k.outer != id || k.inner !in users ==> AgreeAt(t, s, k))
  }

  lemma RoundStep(s: State, mid: State, t: State, id: string, users: seq<string>, online: Online, cfg: Config,
                  clock: nat -> nat)
    requires users != [] && NoDup(users)
    requires RoundResult(s, mid, id, users[..|users| - 1], online, cfg, clock)
    requires Touches(mid, t, Key(id, users[|users| - 1]))
    requires var n := |users| - 1;
             AgreeAt(t, Attempt(s, id, users[n], online, cfg, clock(n)), Key(id, users[n]))
    ensures RoundResult(s, t, id, users, online, cfg, clock)
  {
    var n := |users| - 1;
    var front, last := users[..n], Key(id, users[n]);
    assert users == front + [users[n]] && users[n] !in front;
    TouchAgrees(mid, t, last);
    forall i | 0 <= i < |users|
      ensures AgreeAt(t, Attempt(s, id, users[i], online, cfg, clock(i)), Key(id, users[i]))
    {
      if i < n {
        assert front[i] == users[i];
        assert AgreeAt(mid, Attempt(s, id, front[i], online, cfg, clock(i)), Key(id, front[i]));
      }
    }
    forall k: Key | k.outer != id || k.inner !in users
      ensures AgreeAt(t, s, k)
    {
      assert AgreeAt(mid, s, k);
    }
  }

  lemma AgreeRowsNamed(s: State, t: State, id: string, users: seq<string>, online: Online, cfg: Config,
                       clock: nat -> nat)
    requires RowsNamed(s) && RoundResult(s, t, id, users, online, cfg, clock)
    ensures RowsNamed(t)
  {
    forall k | k in t.db.rows
      ensures k in s.db.rows
    {
      if k.outer == id && k.inner in users {
        var i :| 0 <= i < |users| && users[i] == k.inner;
        assert AgreeAt(t, Attempt(s, id, users[i], online, cfg, clock(i)), Key(id, users[i]));
        AttemptTouches(s, id, users[i], online, cfg, clock(i));
      } else {
        assert AgreeAt(t, s, k);
      }
    }
  }

  /** The round does that whatever the order of the targets. */
  lemma {:induction false} RoundExact(s: State, id: string, users: seq<string>, online: Online, cfg: Config,
                                      clock: nat -> nat)
    requires NoDup(users) && RowsNamed(s)
    ensures RoundResult(s, AttemptAll(s, id, users, online, cfg, clock), id, users, online, cfg, clock)
    ensures RowsNamed(AttemptAll(s, id, users, online, cfg, clock))
    decreases |users|
  {
    var t := AttemptAll(s, id, users, online, cfg, clock);
    if users != [] {
      var n := |users| - 1;
      var front, u := users[..n], users[n];
      assert users == front + [u] && u !in front;
      RoundExact(s, id, front, online, cfg, clock);
      var mid := AttemptAll(s, id, front, online, cfg, clock);
      AttemptTouches(mid, id, u, online, cfg, clock(n));
      assert AgreeAt(mid, s, Key(id, u));
      AttemptLocal(mid, s, id, u, online, cfg, clock(n));
      RoundStep(s, mid, t, id, users, online, cfg, clock);
    }
    AgreeRowsNamed(s, t, id, users, online, cfg, clock);
  }

  /** What an attempt records: for somebody online a send without error, ... */
  lemma OnlineAttempt(s: State, id: string, user: string, online: Online, cfg: Config, now: nat)
    requires user in online && id != "" && user != ""
    ensures var t, k := Attempt(s, id, user, online, cfg, now), Key(id, user);
      && (k in s.entries ==>
            k in t.entries
            && t.entries[k] == s.entries[k].(retry := s.entries[k].retry + 1, lastSent := now / SECOND))
      && (s.persistent && k in s.db.rows ==>
            k in t.db.rows
            && t.db.rows[k] == s.db.rows[k].(retryCount := s.db.rows[k].retryCount + 1, lastSendAt := Some(now),
                                             lastError := ""))
  {
    MarkSentEffect(s, Key(id, user), None, now);
  }

  /** ... and for somebody offline a failure. */
  lemma OfflineAttempt(s: State, id: string, user: string, online: Online, cfg: Config, now: nat)
    requires user !in online && id != "" && user != ""
    ensures var t, k := Attempt(s, id, user, online, cfg, now), Key(id, user);
      && (k in s.entries ==>
            k in t.entries && t.entries[k].retry == s.entries[k].retry + 1
            && t.entries[k].lastSent == s.entries[k].lastSent && t.entries[k].lastError == "recipient offline")
      && (s.persistent && s.db.IsPending(k) ==>
            k in t.db.rows
            && t.db.rows[k].lastSendAt == s.db.rows[k].lastSendAt && t.db.rows[k].lastError == "recipient offline")
  {
    ScheduleRetryEffect(s, Key(id, user), Some(OFFLINE), cfg, now);
  }

  /** In a round every named target's entry gains exactly one attempt. */
  lemma RoundCountsOnce(s: State, id: string, users: seq<string>, online: Online, cfg: Config, clock: nat -> nat,
                        u: string)
    requires NoDup(users) && RowsNamed(s) && id != "" && u != "" && u in users
    requires Key(id, u) in s.entries
    ensures Key(id, u) in AttemptAll(s, id, users, online, cfg, clock).entries
    ensures AttemptAll(s, id, users, online, cfg, clock).entries[Key(id, u)].retry == s.entries[Key(id, u)].retry + 1
  {
    RoundExact(s, id, users, online, cfg, clock);
    var i :| 0 <= i < |users| && users[i] == u;
    var t := AttemptAll(s, id, users, online, cfg, clock);
    assert AgreeAt(t, Attempt(s, id, users[i], online, cfg, clock(i)), Key(id, users[i]));
    if u in online {
      MarkSentEffect(s, Key(id, u), None, clock(i));
    } else {
      ScheduleRetryEffect(s, Key(id, u), Some(OFFLINE), cfg, clock(i));
    }
  }
}
