/** The store as the program has it: an object whose nested maps are updated in place and
    whose tables are written through. Every method is proved against its specification. */
module Store {
  import opened Basics
  import opened Records
  import opened StoreSpec
  import opened StoreInvariants
  import opened Durability
  import opened Accounting
  import opened Listings

  datatype Stats = Stats(pending: nat, delivered: nat, read: nat, dead: nat)

  /** dedupeStrings. */
  method DedupeStrings(xs: seq<string>) returns (out: seq<string>)
    ensures out == Dedupe(xs)
  {
    var seen := {};
    out := [];
    for i := 0 to |xs|
      invariant out == Dedupe(xs[..i])
      invariant forall x :: x in seen <==> x in out
    {
      assert xs[..i + 1][..i] == xs[..i];
      if xs[i] == "" || xs[i] in seen {
        continue;
      }
      seen := seen + {xs[i]};
      out := out + [xs[i]];
    }
    assert xs[..|xs|] == xs;
  }

  lemma {:induction false} DedupeNoDup(xs: seq<string>)
    requires NoDup(xs) && "" !in xs
    ensures Dedupe(xs) == xs
    decreases |xs|
  {
    if xs != [] {
      var front, last := xs[..|xs| - 1], xs[|xs| - 1];
      assert last in xs && last !in front;
      assert "" !in front;
      DedupeNoDup(front);
      assert xs == front + [last];
    }
  }

  lemma FlatEmpty<V>(d: map<string, map<string, V>>, a: string)
    requires a !in d
    ensures Flat(d[a := map[]]) == Flat(d)
  {
    var e := d[a := map[]];
    forall k: Key
      ensures k in Flat(e) <==> k in Flat(d)
      ensures k in Flat(e) && k in Flat(d) ==> Flat(e)[k] == Flat(d)[k]
    {
    }
  }

  lemma EnsureOneMore(s: State, id: string, users: seq<string>, i: nat)
    requires i < |users|
    ensures EnsureEntries(s, id, users[..i + 1]) == EnsureEntry(EnsureEntries(s, id, users[..i]), Key(id, users[i]))
  {
    assert users[..i + 1][..i] == users[..i];
  }

  class InMemoryStore {
    const persistent: bool
    var nextSeq: map<string, nat>
    var messages: map<string, Message>
    var byClient: map<string, map<string, Message>>
    var deliveries: map<string, map<string, Entry>>
    var db: Tables  // the database behind the store

    ghost function St(): State
      reads this
    {
      State(persistent, nextSeq, messages, Flat(byClient), Flat(deliveries), db)
    }

    ghost predicate Valid()
      reads this
    {
      "" !in deliveries && RowsOk(db)
    }

    constructor (persistent: bool)
      ensures Valid() && St() == InitState(persistent)
    {
      this.persistent := persistent;
      nextSeq := map[];
      messages := map[];
      byClient := map[];
      deliveries := map[];
      db := Tables([], map[], []);
    }

    // ------------------------------------------------------------- messages

    method NextSeq(chat: string) returns (seqNo: nat)
      modifies this`nextSeq
      ensures St() == StoreSpec.NextSeq(old(St()), chat)
      ensures seqNo == NextSeqNo(old(St()), chat)
    {
      var chatId := if chat == "" then "default" else chat;
      if chatId !in nextSeq && persistent {
        nextSeq := nextSeq[chatId := MaxSeq(db.messages, chatId)];
      }
      seqNo := (if chatId in nextSeq then nextSeq[chatId] else 0) + 1;
      nextSeq := nextSeq[chatId := seqNo];
      assert nextSeq == old(nextSeq)[chatId := seqNo];
    }

    method SaveMessageUnsafe(m: Message)
      modifies this`messages, this`byClient
      ensures St() == CacheMessage(old(St()), m)
    {
      ghost var before := St();
      messages := messages[m.serverId := m];
      if m.sender != "" && m.clientId != "" {
        PutFlat(byClient, m.sender, m.clientId, m);
        byClient := Put(byClient, m.sender, m.clientId, m);
        assert Flat(byClient) == before.byClient[Key(m.sender, m.clientId) := m];
      }
      assert St() == CacheMessage(before, m);
    }

    /** The transaction: the message row, then one row per named recipient. */
    method WriteMessage(m: Message, users: seq<string>, now: nat)
      requires Valid() && m.serverId != "" && persistent
      modifies this`db
      ensures Valid() && St() == SaveTables(old(St()), m, users, now)
    {
      db := db.InsertMessage(Stored(m, now));
      InsertRowsOk(db, m.serverId, users);
      db := db.InsertRows(m.serverId, users);
    }

    method SaveMessageWithRecipients(m: Message, users: seq<string>, now: nat) returns (ok: bool)
      requires Valid()
      modifies this
      ensures Valid() && St() == SaveMessage(old(St()), m, users, now)
      ensures ok == (m.serverId != "")
    {
      if m.serverId == "" {
        return false;
      }
      if persistent {
        WriteMessage(m, users, now);
      }
      SaveMessageUnsafe(m);
      SaveDeliveriesUnsafe(m.serverId, users);
      ok := true;
    }

    method GetMessageByClientID(sender: string, clientId: string) returns (m: Option<Message>)
      requires Valid()
      modifies this`messages, this`byClient
      ensures St() == GetByClient(old(St()), sender, clientId)
      ensures m == ByClientAnswer(old(St()), sender, clientId)
    {
      if sender != "" && clientId != "" {
        if sender in byClient && clientId in byClient[sender] {
          assert Key(sender, clientId) in Flat(byClient);
          return Some(byClient[sender][clientId]);
        }
      }
      if !persistent || sender == "" || clientId == "" {
        return None;
      }
      m := FindByClient(db.messages, sender, clientId);
      if m.Some? {
        SaveMessageUnsafe(m.value);
      }
    }

    method GetMessageByServerID(id: string) returns (m: Option<Message>)
      requires Valid()
      modifies this`messages, this`byClient, this`db
      ensures Valid() && St() == GetByServer(old(St()), id)
      ensures m == ByServerAnswer(old(St()), id)
    {
      if id in messages {
        return Some(messages[id]);
      }
      if !persistent || id == "" {
        return None;
      }
      m := FindByServer(db.messages, id);
      if m.None? {
        MarkRecipientRowsDeadIfMessageMissing(id, "message not found");
        return None;
      }
      SaveMessageUnsafe(m.value);
    }

    // ----------------------------------------------------------- deliveries

    method SaveDeliveryUnsafe(id: string, user: string)
      requires Valid() && id != ""
      modifies this`deliveries
      ensures Valid() && St() == EnsureEntry(old(St()), Key(id, user))
    {
      if id !in deliveries {
        FlatEmpty(deliveries, id);
        deliveries := deliveries[id := map[]];
      }
      assert St() == old(St());
      InFlat(id, user);
      if user !in deliveries[id] {
        PutFlat(deliveries, id, user, FreshEntry(user));
        deliveries := Put(deliveries, id, user, FreshEntry(user));
      }
    }

    method SaveDeliveriesUnsafe(id: string, users: seq<string>)
      requires Valid() && (users != [] ==> id != "")
      modifies this`deliveries
      ensures Valid() && St() == EnsureEntries(old(St()), id, users)
    {
      for i := 0 to |users|
        invariant Valid() && St() == EnsureEntries(old(St()), id, users[..i])
      {
        EnsureOneMore(old(St()), id, users, i);
        SaveDeliveryUnsafe(id, users[i]);
      }
      assert users[..|users|] == users;
    }

    method SaveDelivery(id: string, user: string)
      requires Valid()
      modifies this`deliveries, this`db
      ensures Valid() && St() == StoreSpec.SaveDelivery(old(St()), Key(id, user))
    {
      if id == "" || user == "" {
        return;
      }
      SaveDeliveryUnsafe(id, user);
      if !persistent {
        return;
      }
      InsertRowOk(db, Key(id, user));
      db := db.InsertRow(Key(id, user));
    }

    method SaveDeliveries(ks: seq<Key>)
      requires Valid()
      modifies this`deliveries, this`db
      ensures Valid() && St() == Load(old(St()), ks)
    {
      for i := 0 to |ks|
        invariant Valid() && St() == Load(old(St()), ks[..i])
      {
        assert ks[..i + 1][..i] == ks[..i];
        SaveDelivery(ks[i].outer, ks[i].inner);
      }
      assert ks[..|ks|] == ks;
    }

    method GetRecipients(id: string) returns (out: seq<string>)
      requires Valid()
      modifies this`deliveries
      ensures Valid() && St() == StoreSpec.GetRecipients(old(St()), id)
      ensures RecipientsAnswer(old(St()), id, out)
    {
      out := [];
      if id in deliveries {
        var m := deliveries[id];
        var todo := m.Keys;
        while todo != {}
          invariant todo <= m.Keys && NoDup(out)
          invariant forall u :: u in out <==> u in m && u !in todo && m[u].Pending()
          decreases todo
        {
          var user :| user in todo;
          todo := todo - {user};
          if m[user].Pending() {
            out := out + [user];
          }
        }
      }
      PendingUsersNested(id);
      if |out| > 0 || !persistent {
        assert out != [] ==> out[0] in PendingUsers(St(), id);
        assert Elems(out) == PendingUsers(St(), id);
        return;
      }
      var rows := UsersOf(db.PendingKeys(), id);
      PendingInExact(db, db.order);
      UsersOfExact(db.PendingKeys(), id);
      assert rows != [] ==> Key(id, rows[0]) in db.rows;
      SaveDeliveriesUnsafe(id, rows);
      out := rows;
    }

    lemma PendingUsersNested(id: string)
      ensures PendingUsers(St(), id) == if id in deliveries
                                        then set u | u in deliveries[id] && deliveries[id][u].Pending()
                                        else {}
    {
      forall u
        ensures u in PendingUsers(St(), id) <==> id in deliveries && u in deliveries[id] && deliveries[id][u].Pending()
      {
        if id in deliveries && u in deliveries[id] && deliveries[id][u].Pending() {
          assert Key(id, u) in St().entries;
        }
      }
    }

    method UpdateEntry(id: string, user: string, e: Entry)
      requires Valid() && id in deliveries && user in deliveries[id]
      modifies this`deliveries
      ensures Valid() && St() == old(St()).(entries := old(St()).entries[Key(id, user) := e])
    {
      PutFlat(deliveries, id, user, e);
      deliveries := Put(deliveries, id, user, e);
    }

    method WriteRow(k: Key, r: Row)
      requires Valid() && k in db.rows
      modifies this`db
      ensures Valid() && St() == old(St()).(db := old(db).UpdateRow(k, r))
    {
      db := db.UpdateRow(k, r);
    }

    lemma InFlat(id: string, user: string)
      ensures Key(id, user) in St().entries <==> id in deliveries && user in deliveries[id]
      ensures Key(id, user) in St().entries ==> St().entries[Key(id, user)] == deliveries[id][user]
    {
    }

    method MarkDeliverySent(id: string, user: string, err: Option<string>, now: nat)
      requires Valid()
      modifies this`deliveries, this`db
      ensures Valid() && St() == MarkSent(old(St()), Key(id, user), err, now)
    {
      InFlat(id, user);
      if id in deliveries && user in deliveries[id] {
        UpdateEntry(id, user, SentEntry(deliveries[id][user], now));
      }
      if !persistent || id == "" || user == "" {
        return;
      }
      var k := Key(id, user);
      if k in db.rows {
        WriteRow(k, SentRow(db.rows[k], err, now));
      }
    }

    method MarkDeliveryAcked(id: string, user: string, now: nat)
      requires Valid()
      modifies this`deliveries, this`db
      ensures Valid() && St() == MarkAcked(old(St()), Key(id, user), now)
    {
      InFlat(id, user);
      if id in deliveries && user in deliveries[id] {
        UpdateEntry(id, user, deliveries[id][user].(acked := true));
      }
      if !persistent {
        return;
      }
      var k := Key(id, user);
      if k in db.rows {
        WriteRow(k, AckedRow(db.rows[k], now));
      }
    }

    method MarkDeliveryRead(id: string, user: string, now: nat)
      requires Valid()
      modifies this`deliveries, this`db
      ensures Valid() && St() == MarkRead(old(St()), Key(id, user), now)
    {
      InFlat(id, user);
      if id in deliveries && user in deliveries[id] {
        UpdateEntry(id, user, deliveries[id][user].(acked := true, read := true));
      }
      if !persistent {
        return;
      }
      var k := Key(id, user);
      if k in db.rows {
        WriteRow(k, ReadRow(db.rows[k], now));
      }
    }

    method MarkRecipientRowsDeadIfMessageMissing(id: string, reason: string)
      requires Valid()
      modifies this`db
      ensures Valid()
      ensures db == if !persistent || id == "" then old(db)
                    else OrphanRows(old(db), id, if reason == "" then "message not found" else reason)
    {
      if !persistent || id == "" {
        return;
      }
      var text := if reason == "" then "message not found" else reason;
      db := OrphanRows(db, id, text);
    }

    // ---------------------------------------------------------------- retry

    /** The section under the lock: count the failure and decide whether it is the last. */
    method CountFailure(id: string, user: string, err: string, cfg: Config, now: nat) returns (kills: bool, count: nat)
      requires Valid()
      modifies this`deliveries
      ensures Valid() && St() == StoreSpec.CountFailure(old(St()), Key(id, user), err, cfg, now)
      ensures kills == MemoryKills(old(St()), Key(id, user), cfg)
      ensures kills ==> count == old(St()).entries[Key(id, user)].retry + 1
    {
      kills, count := false, 0;
      InFlat(id, user);
      if id in deliveries && user in deliveries[id] {
        var e := deliveries[id][user];
        e := e.(retry := e.retry + 1, lastError := err);
        kills, count := e.retry >= cfg.Max(), e.retry;
        if kills {
          e := e.(dead := true);
        } else {
          e := e.(nextRetryAt := Unix(now + Delay(cfg.Base(), e.retry)));
        }
        assert e == FailEntry(deliveries[id][user], err, cfg, now);
        UpdateEntry(id, user, e);
      }
    }

    /** The database section of a failure that memory did not find final. */
    method CountRowFailure(k: Key, err: string, cfg: Config, now: nat) returns (dead: bool, missing: bool)
      requires Valid()
      modifies this`db
      ensures Valid() && St() == StoreSpec.CountRowFailure(old(St()), k, err, cfg, now)
      ensures missing == (k !in old(db).rows)
      ensures dead == (old(db).IsPending(k) && old(db).rows[k].retryCount + 1 >= cfg.Max())
    {
      if k !in db.rows {
        return false, true;
      }
      var row := db.rows[k];
      if row.status >= DELIVERED {
        return false, false;
      }
      var count := row.retryCount + 1;
      dead, missing := count >= cfg.Max(), false;
      if dead {
        row := DeadRow(row, count, err);
      } else {
        row := row.(retryCount := count, lastError := err, nextRetryAt := Some(now + Delay(cfg.Base(), count)));
      }
      assert row == FailRow(db.rows[k], err, cfg, now);
      WriteRow(k, row);
    }

    /** The database section of a failure that memory found final: whatever the row held. */
    method KillRow(k: Key, count: nat, err: string)
      requires Valid()
      modifies this`db
      ensures Valid()
      ensures St() == if persistent && k in old(db).rows
                      then old(St()).(db := old(db).UpdateRow(k, DeadRow(old(db).rows[k], count, err)))
                      else old(St())
    {
      if persistent && k in db.rows {
        WriteRow(k, DeadRow(db.rows[k], count, err));
      }
    }

    method ScheduleRetry(id: string, user: string, lastErr: Option<string>, cfg: Config, now: nat)
        returns (dead: bool, missing: bool)
      requires Valid()
      modifies this`deliveries, this`db
      ensures Valid() && St() == StoreSpec.ScheduleRetry(old(St()), Key(id, user), lastErr, cfg, now)
      ensures dead == RetryDead(old(St()), Key(id, user), cfg)
      ensures missing == RetryMissing(old(St()), Key(id, user), cfg)
    {
      if id == "" || user == "" {
        return false, false;
      }
      var k, err := Key(id, user), ErrText(lastErr);
      ghost var before := St();
      var kills, count := CountFailure(id, user, err, cfg, now);
      ghost var counted := St();
      if kills {
        FailedKilled(before, k, lastErr, cfg, now);
        KillRow(k, count, err);
        assert St() == StoreSpec.ScheduleRetry(before, k, lastErr, cfg, now);
        return true, false;
      }
      FailedAlive(before, k, lastErr, cfg, now);
      if !persistent {
        assert St() == StoreSpec.ScheduleRetry(before, k, lastErr, cfg, now);
        return false, false;
      }
      assert counted.db == before.db;
      dead, missing := CountRowFailure(k, err, cfg, now);
      assert St() == StoreSpec.ScheduleRetry(before, k, lastErr, cfg, now);
    }

    // -------------------------------------------------------------- queries

    /** Memory mode: `out` lists ids from `all`, each once, all of them unless cut at `limit`. */
    static ghost predicate Listed(out: seq<string>, all: set<string>, limit: int) {
      && NoDup(out) && (forall x :: x in out ==> x in all)
      && (limit > 0 ==> |out| <= limit)
      && (limit <= 0 || |out| < limit ==> forall x :: x in all ==> x in out)
    }

    /** The rows of a query answer: their deliveries are saved, and their ids returned. */
    method LoadRows(rows: seq<Key>) returns (out: seq<string>)
      requires Valid()
      modifies this`deliveries, this`db
      ensures Valid() && St() == Load(old(St()), rows)
      ensures out == Dedupe(Outers(rows)) && IdsOf(rows, out)
    {
      SaveDeliveries(rows);
      out := DedupeStrings(Outers(rows));
      DedupeIds(rows);
    }

    method GetDueRetryServerMsgIDs(limit: int, now: nat, answer: seq<Key>) returns (out: seq<string>)
      requires Valid() && (persistent ==> DueAnswer(db, now, limit, answer))
      modifies this`deliveries, this`db
      ensures Valid() && St() == if persistent then Load(old(St()), answer) else old(St())
      ensures !persistent ==> Listed(out, DueIds(old(St()), now), limit)
      ensures persistent ==> out == Dedupe(Outers(answer)) && IdsOf(answer, out)
    {
      if !persistent {
        out := [];
        var ids := deliveries.Keys;
        while ids != {}
          invariant ids <= deliveries.Keys && NoDup(out)
          invariant forall x :: x in out <==> x in deliveries && x !in ids && DueNested(x, now)
          decreases ids
        {
          var id :| id in ids;
          var m := deliveries[id];
          var users, found := m.Keys, false;
          while users != {} && !found
            invariant users <= m.Keys
            invariant found <==> exists u :: u in m && u !in users && IsDueEntry(m[u], now)
            decreases users
          {
            var user :| user in users;
            users := users - {user};
            if IsDueEntry(m[user], now) {
              found := true;
            }
          }
          ids := ids - {id};
          if found {
            out := out + [id];
          }
        }
        DueIdsNested(now);
        if limit > 0 && |out| > limit {
          out := out[..limit];
        }
        DedupeNoDup(out);
        out := DedupeStrings(out);
        return;
      }
      out := LoadRows(answer);
    }

    static predicate IsDueEntry(e: Entry, now: nat) {
      e.Pending() && e.nextRetryAt > 0 && e.nextRetryAt <= Unix(now)
    }

    ghost predicate DueNested(id: string, now: nat)
      reads this
    {
      id in deliveries && exists u :: u in deliveries[id] && IsDueEntry(deliveries[id][u], now)
    }

    lemma DueIdsNested(now: nat)
      ensures forall x :: x in DueIds(St(), now) <==> DueNested(x, now)
    {
      forall x
        ensures x in DueIds(St(), now) <==> DueNested(x, now)
      {
        if DueNested(x, now) {
          var u :| u in deliveries[x] && IsDueEntry(deliveries[x][u], now);
          assert Key(x, u) in St().entries;
        }
      }
    }

    ghost predicate UnreadNested(id: string)
      reads this
    {
      id in deliveries && exists u :: u in deliveries[id] && !deliveries[id][u].acked && !deliveries[id][u].read
    }

    lemma UnreadIdsNested()
      ensures forall x :: x in UnreadIds(St()) <==> UnreadNested(x)
    {
      forall x
        ensures x in UnreadIds(St()) <==> UnreadNested(x)
      {
        if UnreadNested(x) {
          var u :| u in deliveries[x] && !deliveries[x][u].acked && !deliveries[x][u].read;
          assert Key(x, u) in St().entries;
        }
      }
    }

    method ListAllUnread() returns (out: seq<string>)
      requires Valid()
      ensures Listed(out, UnreadIds(St()), 0)
    {
      out := [];
      var ids := deliveries.Keys;
      while ids != {}
        invariant ids <= deliveries.Keys && NoDup(out)
        invariant forall x :: x in out <==> x in deliveries && x !in ids && UnreadNested(x)
        decreases ids
      {
        var id :| id in ids;
        var m := deliveries[id];
        var users, found := m.Keys, false;
        while users != {} && !found
          invariant users <= m.Keys
          invariant found <==> exists u :: u in m && u !in users && !m[u].acked && !m[u].read
          decreases users
        {
          var user :| user in users;
          users := users - {user};
          if !m[user].acked && !m[user].read {
            found := true;
          }
        }
        ids := ids - {id};
        if found {
          out := out + [id];
        }
      }
      UnreadIdsNested();
      DedupeNoDup(out);
      out := DedupeStrings(out);
    }

    method RecoverRows(limit: int) returns (out: seq<string>)
      requires Valid() && persistent
      modifies this`deliveries, this`db
      ensures Valid() && St() == Recover(old(St()), limit)
      ensures out == RecoverIds(old(St()), limit) && AnswersFor(old(db), AllPending(old(db)), limit, out)
    {
      ghost var s := St();
      RecoveryLoads(s, limit);
      var rows := First(db.PendingKeys(), limit);
      assert rows == Loads(s, CallRecover(limit));
      out := LoadRows(rows);
      assert St() == Recover(s, limit);
    }

    method RecoverPendingServerMsgIDs(limit: int) returns (out: seq<string>)
      requires Valid()
      modifies this`deliveries, this`db
      ensures Valid() && St() == Recover(old(St()), limit)
      ensures persistent ==> out == RecoverIds(old(St()), limit)
      ensures persistent ==> AnswersFor(old(db), AllPending(old(db)), limit, out)
      ensures !persistent ==> Listed(out, UnreadIds(old(St())), 0)
    {
      if !persistent {
        out := ListAllUnread();
        return;
      }
      out := RecoverRows(limit);
    }

    method ListUnread(user: string, limit: int) returns (out: seq<string>)
      ensures Listed(out, UnreadIdsOf(St(), user), limit)
    {
      out := [];
      var ids := deliveries.Keys;
      while ids != {}
        invariant ids <= deliveries.Keys && NoDup(out)
        invariant forall x :: x in out <==> x in deliveries && x !in ids && user in deliveries[x]
                                            && !deliveries[x][user].acked && !deliveries[x][user].read
        decreases ids
      {
        var id :| id in ids;
        ids := ids - {id};
        if user in deliveries[id] && !deliveries[id][user].acked && !deliveries[id][user].read {
          out := out + [id];
        }
      }
      forall x ensures x in UnreadIdsOf(St(), user) <==> x in out {
        InFlat(x, user);
      }
      if limit > 0 && |out| > limit {
        out := out[..limit];
      }
    }

    method ListRows(user: string, limit: int) returns (out: seq<string>)
      requires Valid() && persistent && user != ""
      modifies this`deliveries, this`db
      ensures Valid() && St() == ListPending(old(St()), user, limit)
      ensures AnswersFor(old(db), PendingOf(old(db), user), limit, out)
    {
      ghost var s := St();
      LoginLoads(s, user, limit);
      var rows := First(KeysOfUser(db.PendingKeys(), user), limit);
      assert rows == Loads(s, CallListPending(user, limit));
      out := LoadRows(rows);
      assert St() == ListPending(s, user, limit);
    }

    method ListPendingServerMsgIDsByUser(user: string, limit: int) returns (out: seq<string>)
      requires Valid()
      modifies this`deliveries, this`db
      ensures Valid() && St() == ListPending(old(St()), user, limit)
      ensures user == "" ==> out == []
      ensures user != "" && persistent ==> AnswersFor(old(db), PendingOf(old(db), user), limit, out)
      ensures user != "" && !persistent ==> Listed(out, UnreadIdsOf(old(St()), user), limit)
    {
      out := [];
      if user == "" {
        return;
      }
      if !persistent {
        out := ListUnread(user, limit);
        return;
      }
      out := ListRows(user, limit);
    }

    /** Adding one counted entry to the running statistics. */
    static function Tally(st: Stats, c: Status): Stats {
      if c == DEAD then st.(dead := st.dead + 1)
      else if c == READ then st.(read := st.read + 1)
      else if c == DELIVERED then st.(delivered := st.delivered + 1)
      else st.(pending := st.pending + 1)
    }

    static ghost function Counts(m: map<Key, Entry>, ks: set<Key>): Stats {
      Stats(Count(m, ks, PENDING), Count(m, ks, DELIVERED), Count(m, ks, READ), Count(m, ks, DEAD))
    }

    static lemma CountsAdd(m: map<Key, Entry>, ks: set<Key>, k: Key)
      requires k in m && k !in ks
      ensures Counts(m, ks + {k}) == Tally(Counts(m, ks), ClassOf(m[k]))
    {
      CountAdd(m, ks, k, PENDING);
      CountAdd(m, ks, k, DELIVERED);
      CountAdd(m, ks, k, READ);
      CountAdd(m, ks, k, DEAD);
    }

    method DeliveryStats() returns (st: Stats)
      ensures !persistent ==> st == Counts(St().entries, St().entries.Keys)
      ensures !persistent ==> var m := St().entries; st == Stats(
        |set k | k in m && !m[k].dead && !m[k].read && !m[k].acked|,
        |set k | k in m && !m[k].dead && !m[k].read && m[k].acked|,
        |set k | k in m && !m[k].dead && m[k].read|,
        |set k | k in m && m[k].dead|)
      ensures persistent ==> st == Stats(
        |set k | k in db.rows && db.rows[k].status == PENDING|,
        |set k | k in db.rows && db.rows[k].status == DELIVERED|,
        |set k | k in db.rows && db.rows[k].status == READ|,
        |set k | k in db.rows && db.rows[k].status == DEAD|)
    {
      if !persistent {
        ghost var m := Flat(deliveries);
        ghost var seen: set<Key> := {};
        st := Stats(0, 0, 0, 0);
        var ids := deliveries.Keys;
        while ids != {}
          invariant ids <= deliveries.Keys && st == Counts(m, seen)
          invariant forall k :: k in seen <==> k in m && k.outer !in ids
          decreases ids
        {
          var id :| id in ids;
          var users := deliveries[id].Keys;
          while users != {}
            invariant users <= deliveries[id].Keys && st == Counts(m, seen)
            invariant forall k :: k in seen <==> k in m && (k.outer !in ids || (k.outer == id && k.inner !in users))
            decreases users
          {
            var user :| user in users;
            var e := deliveries[id][user];
            CountsAdd(m, seen, Key(id, user));
            seen := seen + {Key(id, user)};
            users := users - {user};
            if e.dead {
              st := st.(dead := st.dead + 1);
            } else if e.read {
              st := st.(read := st.read + 1);
            } else if e.acked {
              st := st.(delivered := st.delivered + 1);
            } else {
              st := st.(pending := st.pending + 1);
            }
          }
          ids := ids - {id};
        }
        assert seen == m.Keys;
        ClassMeaning(m);
        return;
      }
      st := Stats(
        |set k | k in db.rows && db.rows[k].status == PENDING|,
        |set k | k in db.rows && db.rows[k].status == DELIVERED|,
        |set k | k in db.rows && db.rows[k].status == READ|,
        |set k | k in db.rows && db.rows[k].status == DEAD|);
    }
  }
}
