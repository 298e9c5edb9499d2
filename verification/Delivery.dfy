/** The delivery worker: feeding the queue from the store, and delivering one id. */
module Delivery {
  import opened Basics
  import opened Records
  import opened StoreSpec
  import opened StoreInvariants
  import opened Durability
  import opened Rounds
  import opened Store
  import opened Listings
  import opened Queue

  /** In a good state the store's answer lists, once each, exactly the recipients whose
      entries are pending once the answer has been cached. */
  lemma RecipientsComplete(s: State, id: string, out: seq<string>, cfg: StoreSpec.Config)
    requires Inv(s, cfg) && RecipientsAnswer(s, id, out)
    ensures NoDup(out)
    ensures forall u :: u in out <==> Key(id, u) in StoreSpec.GetRecipients(s, id).entries
                                      && StoreSpec.GetRecipients(s, id).entries[Key(id, u)].Pending()
  {
    var t := StoreSpec.GetRecipients(s, id);
    if PendingUsers(s, id) != {} || !s.persistent {
      forall u
        ensures u in out <==> Key(id, u) in t.entries && t.entries[Key(id, u)].Pending()
      {
        assert u in Elems(out) <==> u in PendingUsers(s, id);
        assert Key(id, u) in s.entries && s.entries[Key(id, u)].Pending() ==> Key(id, u).inner in PendingUsers(s, id);
      }
    } else {
      PendingInExact(s.db, s.db.order);
      UsersOfExact(s.db.PendingKeys(), id);
      EnsureEntriesAdds(s, id, out);
      forall u
        ensures u in out <==> Key(id, u) in t.entries && t.entries[Key(id, u)].Pending()
      {
        var k := Key(id, u);
        if k in s.entries {
          assert s.entries[k].Pending() ==> u in PendingUsers(s, id);
          assert k.inner != "" ==> CoupledAt(s, k);
        }
      }
    }
  }

  class Worker {
    const store: InMemoryStore
    const cfg: StoreSpec.Config
    var deliverQueue: seq<string>
    var deliverInFlight: set<string>

    ghost function Q(): Shared
      reads this
    {
      Shared(deliverInFlight, deliverQueue)
    }

    constructor (store: InMemoryStore, cfg: StoreSpec.Config)
      ensures this.store == store && this.cfg == cfg && Q() == START.shared
    {
      this.store := store;
      this.cfg := cfg;
      deliverQueue := [];
      deliverInFlight := {};
    }

    method EnqueueServerMsg(id: string)
      modifies this
      ensures Q() == Enqueue(old(Q()), id)
    {
      if id == "" {
        return;
      }
      if id in deliverInFlight {
        return;
      }
      deliverInFlight := deliverInFlight + {id};
      if |deliverQueue| < CAPACITY {
        deliverQueue := deliverQueue + [id];
      } else {
        deliverInFlight := deliverInFlight - {id};
      }
    }

    method EnqueueEach(ids: seq<string>)
      modifies this
      ensures Q() == EnqueueAll(old(Q()), ids)
    {
      for i := 0 to |ids|
        invariant Q() == EnqueueAll(old(Q()), ids[..i])
      {
        assert ids[..i + 1][..i] == ids[..i];
        EnqueueServerMsg(ids[i]);
      }
      assert ids[..|ids|] == ids;
    }

    /** Start-up, when nothing runs in between: the id of every row loaded is in flight afterwards,
        unless the queue filled up; when the pending rows fit in the limit, that is every message
        with a pending row. Without tables it is every message with an unread delivery. */
    method RecoverPendingDeliveries(limit: int) returns (ghost ids: seq<string>)
      requires store.Valid()
      modifies this, store
      ensures store.Valid() && store.St() == Recover(old(store.St()), limit)
      ensures Q() == EnqueueAll(old(Q()), ids)
      ensures store.persistent ==> ids == RecoverIds(old(store.St()), limit)
      ensures store.persistent ==> AnswersFor(old(store.db), AllPending(old(store.db)), limit, ids)
      ensures !store.persistent ==> InMemoryStore.Listed(ids, UnreadIds(old(store.St())), 0)
      ensures store.persistent ==> InFlight(Loaded(old(store.St()), limit))
      ensures store.persistent && (limit <= 0 || |old(store.db).PendingKeys()| <= limit) ==> AllInFlight()
    {
      ghost var s := store.St();
      var out := store.RecoverPendingServerMsgIDs(limit);
      EnqueueEach(out);
      ids := out;
      BatchReaches(old(Q()), out);
      if store.persistent {
        RecoveredIds(s, limit);
      }
    }

    /** The ids of these rows are in flight, or the queue is full. */
    ghost predicate InFlight(ks: seq<Key>)
      reads this
    {
      forall k :: k in ks ==> k.outer in deliverInFlight || |deliverQueue| >= CAPACITY
    }

    /** Every message with a pending row is in flight, or the queue is full. */
    ghost predicate AllInFlight()
      reads this, store
    {
      forall k :: k in store.db.rows && store.db.IsPending(k) ==>
            k.outer in deliverInFlight || |deliverQueue| >= CAPACITY
    }

    static lemma RecoveredIds(s: State, limit: int)
      requires RowsOk(s.db) && s.persistent
      ensures Recover(s, limit).db == s.db
      ensures forall k :: k in Loaded(s, limit) ==> k.outer in RecoverIds(s, limit) && k.outer != ""
      ensures limit <= 0 || |s.db.PendingKeys()| <= limit ==>
                forall k :: k in s.db.rows && s.db.IsPending(k) ==> k in Loaded(s, limit)
    {
      var ks := Loaded(s, limit);
      LoadedExact(s, limit);
      LoadAdds(s, ks);
      DedupeExact(Outers(ks));
      OutersHold(ks);
    }

    method EnqueuePendingForUser(user: string, limit: int) returns (ghost ids: seq<string>)
      requires store.Valid()
      modifies this, store
      ensures store.Valid() && store.St() == ListPending(old(store.St()), user, limit)
      ensures Q() == EnqueueAll(old(Q()), ids)
      ensures user == "" ==> ids == []
      ensures user != "" && !store.persistent ==> InMemoryStore.Listed(ids, UnreadIdsOf(old(store.St()), user), limit)
      ensures user != "" && store.persistent ==> AnswersFor(old(store.db), PendingOf(old(store.db), user), limit, ids)
    {
      var out := store.ListPendingServerMsgIDsByUser(user, limit);
      EnqueueEach(out);
      ids := out;
    }

    /** One tick of the retry worker. */
    method RetryTick(now: nat, answer: seq<Key>) returns (ghost ids: seq<string>)
      requires store.Valid() && (store.persistent ==> DueAnswer(store.db, now, 500, answer))
      modifies this, store
      ensures store.Valid() && store.St() == if store.persistent then Load(old(store.St()), answer) else old(store.St())
      ensures Q() == EnqueueAll(old(Q()), ids)
      ensures !store.persistent ==> InMemoryStore.Listed(ids, DueIds(old(store.St()), now), 500)
      ensures store.persistent ==> IdsOf(answer, ids)
    {
      var out := store.GetDueRetryServerMsgIDs(500, now, answer);
      EnqueueEach(out);
      ids := out;
    }

    /** The state after delivering `id`, given the recipients the store answered with. */
    static ghost function AfterDelivery(s: State, id: string, recips: seq<string>, online: Online,
                                        cfg: StoreSpec.Config, clock: nat -> nat): State
    {
      var t := GetByServer(s, id);
      var m := ByServerAnswer(s, id);
      if m.None? then t
      else AttemptAll(StoreSpec.GetRecipients(t, id), id, Targets(recips, m.value.recipient), online, cfg, clock)
    }

    /** Takes the oldest id off the queue and attempts its recipients; nothing runs in between. */
    method DeliverNext(online: Online, clock: nat -> nat) returns (sent: seq<Message>, ghost recips: seq<string>)
      requires store.Valid() && deliverQueue != []
      modifies this, store
      ensures store.Valid()
      ensures var id, s := old(deliverQueue)[0], old(store.St());
        && Q() == Dequeue(old(Q()))
        && store.St() == AfterDelivery(s, id, recips, online, cfg, clock)
        && (ByServerAnswer(s, id).None? ==> sent == [])
        && (ByServerAnswer(s, id).Some? ==>
              && RecipientsAnswer(GetByServer(s, id), id, recips)
              && sent == Delivered(ByServerAnswer(s, id).value, id,
                                   Targets(recips, ByServerAnswer(s, id).value.recipient), online))
    {
      var id := deliverQueue[0];
      deliverQueue := deliverQueue[1..];
      sent, recips := [], [];
      var m := store.GetMessageByServerID(id);
      if m.Some? {
        var users := store.GetRecipients(id);
        recips := users;
        if m.value.recipient != "" && m.value.recipient !in users {
          users := users + [m.value.recipient];
        }
        sent := AttemptEach(id, m.value, users, online, clock);
      }
      deliverInFlight := deliverInFlight - {id};
    }

    method AttemptEach(id: string, m: Message, users: seq<string>, online: Online, clock: nat -> nat)
        returns (sent: seq<Message>)
      requires store.Valid()
      modifies store
      ensures store.Valid() && store.St() == AttemptAll(old(store.St()), id, users, online, cfg, clock)
      ensures sent == Delivered(m, id, users, online)
    {
      sent := [];
      for i := 0 to |users|
        invariant store.Valid() && store.St() == AttemptAll(old(store.St()), id, users[..i], online, cfg, clock)
        invariant sent == Delivered(m, id, users[..i], online)
      {
        assert users[..i + 1][..i] == users[..i];
        var user := users[i];
        if user !in online {
          var dead, missing := store.ScheduleRetry(id, user, Some(OFFLINE), cfg, clock(i));
        } else {
          if online[user] {
            sent := sent + [Message(id, "", m.chatId, m.sender, user, m.seqNo, m.body, m.ts, PENDING)];
          }
          store.MarkDeliverySent(id, user, None, clock(i));
        }
      }
      assert users[..|users|] == users;
    }
  }
}
