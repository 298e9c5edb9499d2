/** The service objects: id generation, sending, acknowledgements, client requests and system
    events, proved against the transitions of the service state machine. */
module Service {
  import opened Basics
  import opened Text
  import opened Records
  import opened StoreSpec
  import opened Store
  import opened Logic
  import opened Content
  import opened Queue
  import opened Delivery

  lemma PlainPrefix()
    ensures TrimSpace("s") == "s" && TrimSpace("sys") == "sys"
  {
    assert TrimLeft("s") == "s" && TrimRight("s") == "s";
    assert TrimLeft("sys") == "sys" && TrimRight("sys") == "sys";
  }

  /** The client's request; the server fills in a missing client id. */
  class Request {
    var sender: string
    var clientId: string
    var chatId: string
    var recipient: string
    var body: string

    constructor (sender: string, clientId: string, chatId: string, recipient: string, body: string)
      ensures Value() == Send(sender, clientId, chatId, recipient, body)
    {
      this.sender, this.clientId, this.chatId, this.recipient, this.body := sender, clientId, chatId, recipient, body;
    }

    function Value(): Send
      reads this
    {
      Send(sender, clientId, chatId, recipient, body)
    }
  }

  class LogicService {
    const store: InMemoryStore
    var idCounter: nat

    constructor (store: InMemoryStore)
      ensures this.store == store && idCounter == 0
    {
      this.store := store;
      idCounter := 0;
    }

    /** The service state; sending does not depend on the last two parts. */
    ghost function Sys(): System
      reads this, store
    {
      System(store.St(), idCounter, 0, 0)
    }

    /** The store and the counter are as in `y`. */
    ghost predicate SameAs(y: System)
      reads this, store
    {
      store.St() == y.st && idCounter == y.counter
    }

    ghost predicate StoredAs(y: System, m: Message, users: seq<string>, at: Times)
      reads this, store
    {
      SameAs(Storing(y, m, users, at))
    }

    method GenerateServerMsgID(prefix: string, now: nat) returns (id: string)
      modifies this
      ensures idCounter == old(idCounter) + 1
      ensures id == ServerId(if Blank(prefix) then "s" else TrimSpace(prefix), now / MILLISECOND, idCounter)
    {
      var p := TrimSpace(prefix);
      if p == "" {
        p := "s";
      }
      idCounter := idCounter + 1;
      id := p + "-" + Dec(Millis(now)) + "-" + Dec(idCounter);
    }

    method ProcessSend(req: Request?, users: seq<string>, at: Times)
        returns (saved: Option<Message>, existing: Option<Message>, failed: bool)
      requires store.Valid()
      modifies this, store, req
      ensures store.Valid()
      ensures req == null ==> failed && Sys() == old(Sys()) && saved.None? && existing.None?
      ensures req != null ==>
        var r := old(req.Value());
        && SameAs(Logic.ProcessSend(old(Sys()), r, users, at))
        && (match SendOutcome(old(Sys()), r, at)
            case Rejected => failed && saved.None? && existing.None? && req.Value() == r
            case Existing(m) => !failed && saved.None? && existing == Some(m)
            case Saved(m) => !failed && saved == Some(m) && existing.None?)
        && (saved.Some? ==> saved.value.sender == r.sender && saved.value.recipient == r.recipient
                            && saved.value.body == r.body && InChat(saved.value.chatId, r))
        && (!failed ==> req.Value() == r.(clientId := r.EffectiveClientId(at.first)))
    {
      saved, existing, failed := None, None, false;
      if req == null || TrimSpace(req.sender) == "" {
        failed := true;
        return;
      }
      ghost var r := req.Value();
      if TrimSpace(req.clientId) == "" {
        req.clientId := "c-" + Dec(at.first);
      }
      existing := store.GetMessageByClientID(req.sender, req.clientId);
      if existing.Some? {
        return;
      }
      assert store.St() == old(store.St());
      var m := SendNew(req.Value(), users, at, r);
      saved := Some(m);
    }

    /** The part of a send after the look-up has found nothing. */
    method SendNew(filled: Send, users: seq<string>, at: Times, ghost r: Send) returns (m: Message)
      requires store.Valid() && filled == r.(clientId := r.EffectiveClientId(at.first))
      modifies this, store
      ensures store.Valid() && m == NewMessage(old(Sys()), r, at)
      ensures StoredAs(old(Sys()), m, users, at)
    {
      PlainPrefix();
      var chat := ChooseChat(filled);
      assert filled.EffectiveChat() == r.EffectiveChat();
      m := StoreNew("s", filled.clientId, chat, filled.sender, filled.recipient, filled.body, users, at);
    }

    /** The named chat, else the private chat with the recipient, else the broadcast chat. */
    static method ChooseChat(r: Send) returns (chat: string)
      ensures chat == r.EffectiveChat() && chat != ""
    {
      chat := TrimSpace(r.chatId);
      if chat == "" && r.recipient != "" {
        chat := C2CChatId(r.sender, r.recipient);
      }
      if chat == "" {
        chat := "broadcast";
      }
      Sending.ChatNotEmpty(r);
    }

    /** Number, id, save. */
    method StoreNew(prefix: string, clientId: string, chat: string, sender: string, recipient: string, body: string,
                    users: seq<string>, at: Times) returns (saved: Message)
      requires store.Valid() && TrimSpace(prefix) == prefix && prefix != ""
      modifies this, store
      ensures store.Valid() && StoredAs(old(Sys()), saved, users, at)
      ensures saved == Build(old(Sys()), prefix, clientId, chat, sender, recipient, body, at)
    {
      ghost var y := Sys();
      var seqNo := store.NextSeq(chat);
      ghost var numbered := store.St();
      var id := GenerateServerMsgID(prefix, at.id);
      var m := Message(id, clientId, chat, sender, recipient, seqNo, body, Unix(at.stamp), PENDING);
      assert id == ServerId(prefix, Millis(at.id), y.counter + 1) && store.St() == numbered;
      var ok := store.SaveMessageWithRecipients(m, users, at.row);
      saved := m;
      StoringParts(y, m, users, at, numbered, store.St());
    }

    static lemma StoringParts(y: System, m: Message, users: seq<string>, at: Times, numbered: State, stored: State)
      requires numbered == StoreSpec.NextSeq(y.st, m.chatId) && stored == SaveMessage(numbered, m, users, at.row)
      ensures Storing(y, m, users, at).st == stored && Storing(y, m, users, at).counter == y.counter + 1
    {
    }

    method HandleDeliverAck(user: string, id: string, now: nat)
      requires store.Valid()
      modifies store
      ensures store.Valid()
      ensures store.St() == if user == "" || id == "" then old(store.St())
                            else MarkAcked(old(store.St()), Key(id, user), now)
    {
      if user == "" || id == "" {
        return;
      }
      store.MarkDeliveryAcked(id, user, now);
    }

    method HandleReadAck(user: string, id: string, now: nat)
      requires store.Valid()
      modifies store
      ensures store.Valid()
      ensures store.St() == if user == "" || id == "" then old(store.St())
                            else MarkRead(old(store.St()), Key(id, user), now)
    {
      if user == "" || id == "" {
        return;
      }
      store.MarkDeliveryRead(id, user, now);
    }
  }

  class Server {
    const store: InMemoryStore
    const logic: LogicService
    const worker: Worker
    var onlineMap: set<string>

    ghost predicate Valid()
      reads this, store
    {
      logic.store == store && worker.store == store && store.Valid()
    }

    constructor (store: InMemoryStore, logic: LogicService, worker: Worker)
      requires store.Valid() && logic.store == store && worker.store == store
      ensures Valid() && this.store == store && this.logic == logic && this.worker == worker && onlineMap == {}
    {
      this.store, this.logic, this.worker, onlineMap := store, logic, worker, {};
    }

    /** The names online except one, in whatever order the map yields them. */
    method OthersOnline(exclude: string) returns (users: seq<string>)
      ensures NoDup(users) && Elems(users) == onlineMap - {exclude}
    {
      users := [];
      var todo := onlineMap;
      while todo != {}
        invariant todo <= onlineMap && NoDup(users)
        invariant forall u :: u in users <==> u in onlineMap - todo && u != exclude
        decreases todo
      {
        var name :| name in todo;
        assert name !in users;
        todo := todo - {name};
        if name != exclude {
          users := users + [name];
        }
      }
    }

    method BroadcastSystemEvent(body: string, exclude: string, at: Times)
        returns (id: string, seqNo: nat, ghost users: seq<string>)
      requires Valid()
      modifies store, logic, worker
      ensures Valid() && NoDup(users) && Elems(users) == onlineMap - {exclude}
      ensures var y, m := old(logic.Sys()), EventMessage(old(logic.Sys()), body, at);
        && id == m.serverId && seqNo == m.seqNo && Announces(m, body, id, at.stamp)
        && logic.SameAs(Broadcast(y, body, users, at))
        && worker.Q() == Enqueue(old(worker.Q()), id)
    {
      var names := OthersOnline(exclude);
      users := names;
      PlainPrefix();
      var m := logic.StoreNew("sys", "", "system", "system", "", body, names, at);
      id, seqNo := m.serverId, m.seqNo;
      worker.EnqueueServerMsg(id);
    }

    /** A request without a sender or client id gets the connection's name or a generated id. */
    method Complete(name: string, req: Request, now: nat)
      modifies req
      ensures var r := old(req.Value());
        req.Value() == r.(sender := if Blank(r.sender) then name else r.sender, clientId := r.EffectiveClientId(now))
    {
      if TrimSpace(req.sender) == "" {
        req.sender := name;
      }
      if TrimSpace(req.clientId) == "" {
        req.clientId := "c-" + Dec(now);
      }
    }

    method RecipientsOf(name: string, recipient: string) returns (users: seq<string>)
      ensures recipient != "" ==> users == [recipient]
      ensures recipient == "" ==> NoDup(users) && Elems(users) == onlineMap - {name}
    {
      if recipient != "" {
        users := [recipient];
      } else {
        users := OthersOnline(name);
      }
    }

    /** A client's send: the acknowledgement carries the id and number under which the message
        is on record, and only a message saved by this very call is queued for delivery. */
    method HandleClientSend(name: string, req: Request, at: Times)
        returns (ackClientId: string, ackId: string, ackSeq: nat, ghost users: seq<string>)
      requires Valid()
      modifies store, logic, worker, req
      ensures Valid()
      ensures var given := old(req.Value());
        var r := given.(sender := if Blank(given.sender) then name else given.sender,
                        clientId := given.EffectiveClientId(at.first));
        && (given.recipient != "" ==> users == [given.recipient])
        && (given.recipient == "" ==> NoDup(users) && Elems(users) == onlineMap - {name})
        && logic.SameAs(Logic.ProcessSend(old(logic.Sys()), r, users, at))
        && ackClientId == r.EffectiveClientId(at.first)
        && (match SendOutcome(old(logic.Sys()), r, at)
            case Rejected => ackId == "" && ackSeq == 0 && worker.Q() == old(worker.Q())
            case Existing(m) => ackId == m.serverId && ackSeq == m.seqNo && worker.Q() == old(worker.Q())
            case Saved(m) => ackId == m.serverId && ackSeq == m.seqNo && m.body == given.body
                             && worker.Q() == Enqueue(old(worker.Q()), m.serverId))
    {
      Complete(name, req, at.first);
      ClientIdStable(at.first);
      var names := RecipientsOf(name, req.recipient);
      users := names;
      var saved, existing, failed := logic.ProcessSend(req, names, at);
      ackClientId, ackId, ackSeq := req.clientId, "", 0;
      if failed {
        return;
      }
      if existing.Some? {
        ackId, ackSeq := existing.value.serverId, existing.value.seqNo;
        return;
      }
      ackId, ackSeq := saved.value.serverId, saved.value.seqNo;
      worker.EnqueueServerMsg(ackId);
    }

    /** A generated client id is not blank, so it is generated once. */
    static lemma ClientIdStable(now: nat)
      ensures !Blank("c-" + Dec(now))
    {
      var s := "c-" + Dec(now);
      assert TrimLeft(s) == s;
      KeepsFirst(s);
    }

    static lemma {:induction false} KeepsFirst(s: string)
      requires s != "" && !IsSpace(s[0])
      ensures TrimRight(s) != ""
      decreases |s|
    {
      if IsSpace(s[|s| - 1]) {
        KeepsFirst(s[..|s| - 1]);
      }
    }
  }
}
