/** What one call of each store method does to the state, as functions on values.
    The store class is proved against these functions; the theorems are about them. */
module StoreSpec {
  import opened Basics
  import opened Records

  // ------------------------------------------------------------ sequence numbers

  function ChatOr(chat: string): string { if chat == "" then "default" else chat }

  function SeqBase(s: State, chat: string): nat {
    if chat in s.nextSeq then s.nextSeq[chat]
    else if s.persistent then MaxSeq(s.db.messages, chat)
    else 0
  }

  function NextSeqNo(s: State, chat: string): nat { SeqBase(s, ChatOr(chat)) + 1 }

  function NextSeq(s: State, chat: string): State {
    s.(nextSeq := s.nextSeq[ChatOr(chat) := NextSeqNo(s, chat)])
  }

  // -------------------------------------------------------------------- messages

  function CacheMessage(s: State, m: Message): State {
    var s := s.(messages := s.messages[m.serverId := m]);
    if m.sender != "" && m.clientId != "" then s.(byClient := s.byClient[Key(m.sender, m.clientId) := m]) else s
  }

  function EnsureEntry(s: State, k: Key): State {
    if k in s.entries then s else s.(entries := s.entries[k := FreshEntry(k.inner)])
  }

  function EnsureEntries(s: State, id: string, users: seq<string>): State {
    if users == [] then s
    else EnsureEntry(EnsureEntries(s, id, users[..|users| - 1]), Key(id, users[|users| - 1]))
  }

  function SaveTables(s: State, m: Message, users: seq<string>, now: nat): State {
    if s.persistent
    then s.(db := s.db.InsertMessage(Stored(m, now)).InsertRows(m.serverId, users))
    else s
  }

  /** The error path of an empty server id leaves the state alone. */
  function SaveMessage(s: State, m: Message, users: seq<string>, now: nat): State {
    if m.serverId == "" then s
    else EnsureEntries(CacheMessage(SaveTables(s, m, users, now), m), m.serverId, users)
  }

  function ByClientAnswer(s: State, sender: string, clientId: string): Option<Message> {
    if sender == "" || clientId == "" then None
    else if Key(sender, clientId) in s.byClient then Some(s.byClient[Key(sender, clientId)])
    else if s.persistent then FindByClient(s.db.messages, sender, clientId)
    else None
  }

  function GetByClient(s: State, sender: string, clientId: string): State {
    var a := ByClientAnswer(s, sender, clientId);
    if a.Some? && Key(sender, clientId) !in s.byClient then CacheMessage(s, a.value) else s
  }

  function ByServerAnswer(s: State, id: string): Option<Message> {
    if id in s.messages then Some(s.messages[id])
    else if s.persistent && id != "" then FindByServer(s.db.messages, id)
    else None
  }

  function Orphaned(r: Row, reason: string): Row {
    r.(status := DEAD, lastError := reason, nextRetryAt := None)
  }

  function OrphanRows(db: Tables, id: string, reason: string): Tables {
    db.(rows := map k | k in db.rows ::
          if k.outer == id && db.rows[k].status == PENDING then Orphaned(db.rows[k], reason) else db.rows[k])
  }

  function GetByServer(s: State, id: string): State {
    var a := ByServerAnswer(s, id);
    if id in s.messages || !s.persistent || id == "" then s
    else if a.Some? then CacheMessage(s, a.value)
    else s.(db := OrphanRows(s.db, id, "message not found"))
  }

  // ------------------------------------------------------------------- deliveries

  function SaveDelivery(s: State, k: Key): State {
    if k.outer == "" || k.inner == "" then s
    else
      var s := EnsureEntry(s, k);
      if s.persistent then s.(db := s.db.InsertRow(k)) else s
  }

  /** SaveDelivery for each row of a query answer, in order. */
  function Load(s: State, ks: seq<Key>): State {
    if ks == [] then s else SaveDelivery(Load(s, ks[..|ks| - 1]), ks[|ks| - 1])
  }

  ghost function PendingUsers(s: State, id: string): set<string> {
    set k | k in s.entries && k.outer == id && s.entries[k].Pending() :: k.inner
  }

  function UsersOf(ks: seq<Key>, id: string): seq<string> {
    if ks == [] then []
    else if ks[0].outer == id then [ks[0].inner] + UsersOf(ks[1..], id)
    else UsersOf(ks[1..], id)
  }

  /** Memory answers when it has anything pending; otherwise the table does, and is cached. */
  ghost function GetRecipients(s: State, id: string): State {
    if PendingUsers(s, id) != {} || !s.persistent then s
    else EnsureEntries(s, id, UsersOf(s.db.PendingKeys(), id))
  }

  ghost predicate RecipientsAnswer(s: State, id: string, out: seq<string>) {
    if PendingUsers(s, id) != {} || !s.persistent
    then NoDup(out) && Elems(out) == PendingUsers(s, id)
    else out == UsersOf(s.db.PendingKeys(), id)
  }

  function SentEntry(e: Entry, now: nat): Entry { e.(retry := e.retry + 1, lastSent := Unix(now)) }

  function SentRow(r: Row, err: Option<string>, now: nat): Row {
    r.(retryCount := r.retryCount + 1, lastSendAt := Some(now), lastError := if err.Some? then err.value else "")
  }

  function MarkSent(s: State, k: Key, err: Option<string>, now: nat): State {
    var s := if k in s.entries then s.(entries := s.entries[k := SentEntry(s.entries[k], now)]) else s;
    if !s.persistent || k.outer == "" || k.inner == "" || k !in s.db.rows then s
    else s.(db := s.db.UpdateRow(k, SentRow(s.db.rows[k], err, now)))
  }

  function AckedRow(r: Row, now: nat): Row {
    r.(status := if r.status < DELIVERED then DELIVERED else r.status, ackedAt := Some(now))
  }

  function MarkAcked(s: State, k: Key, now: nat): State {
    var s := if k in s.entries then s.(entries := s.entries[k := s.entries[k].(acked := true)]) else s;
    if s.persistent && k in s.db.rows then s.(db := s.db.UpdateRow(k, AckedRow(s.db.rows[k], now))) else s
  }

  function ReadRow(r: Row, now: nat): Row {
    r.(status := READ, ackedAt := Some(now), readAt := Some(now))
  }

  function MarkRead(s: State, k: Key, now: nat): State {
    var s := if k in s.entries
             then s.(entries := s.entries[k := s.entries[k].(acked := true, read := true)]) else s;
    if s.persistent && k in s.db.rows then s.(db := s.db.UpdateRow(k, ReadRow(s.db.rows[k], now))) else s
  }

  // ------------------------------------------------------------------------ retry

  /** Retry limit and base delay as configured; non-positive values mean the defaults. */
  datatype Config = Config(maxRetries: int, baseBackoff: int)
  {
    function Max(): (n: nat) ensures n >= 1 { if maxRetries <= 0 then 5 else maxRetries }
    function Base(): (n: nat) ensures n >= 1 { if baseBackoff <= 0 then 2 * SECOND else baseBackoff }
  }

  function Pow2(n: nat): (p: nat) ensures p >= 1 { if n == 0 then 1 else 2 * Pow2(n - 1) }

  /** Delay before the attempt after failure number `n`. */
  function Delay(base: nat, n: nat): nat
    requires n >= 1
  {
    base * Pow2(if n - 1 > 6 then 6 else n - 1)
  }

  function ErrText(err: Option<string>): string {
    if err.Some? then err.value else "delivery failed"
  }

  function FailEntry(e: Entry, err: string, cfg: Config, now: nat): Entry {
    var e := e.(retry := e.retry + 1, lastError := err);
    if e.retry >= cfg.Max() then e.(dead := true)
    else e.(nextRetryAt := Unix(now + Delay(cfg.Base(), e.retry)))
  }

  function DeadRow(r: Row, count: nat, err: string): Row {
    r.(status := DEAD, retryCount := count, lastError := err, nextRetryAt := None)
  }

  function FailRow(r: Row, err: string, cfg: Config, now: nat): Row {
    var n := r.retryCount + 1;
    if n >= cfg.Max() then DeadRow(r, n, err)
    else r.(retryCount := n, lastError := err, nextRetryAt := Some(now + Delay(cfg.Base(), n)))
  }

  /** True when memory alone decides that this failure is the last one. */
  predicate MemoryKills(s: State, k: Key, cfg: Config) {
    k in s.entries && s.entries[k].retry + 1 >= cfg.Max()
  }

  /** The section under the lock. */
  function CountFailure(s: State, k: Key, err: string, cfg: Config, now: nat): State {
    if k in s.entries then s.(entries := s.entries[k := FailEntry(s.entries[k], err, cfg, now)]) else s
  }

  /** The database section of a failure that memory did not find final. */
  function CountRowFailure(s: State, k: Key, err: string, cfg: Config, now: nat): State {
    if s.db.IsPending(k) then s.(db := s.db.UpdateRow(k, FailRow(s.db.rows[k], err, cfg, now))) else s
  }

  function ScheduleRetry(s: State, k: Key, lastErr: Option<string>, cfg: Config, now: nat): State {
    if k.outer == "" || k.inner == "" then s
    else
      var t := CountFailure(s, k, ErrText(lastErr), cfg, now);
      if !s.persistent then t
      else if !MemoryKills(s, k, cfg) then CountRowFailure(t, k, ErrText(lastErr), cfg, now)
      else if k in s.db.rows
      then t.(db := s.db.UpdateRow(k, DeadRow(s.db.rows[k], s.entries[k].retry + 1, ErrText(lastErr))))
      else t
  }

  /** The boolean result: this failure was final. */
  predicate RetryDead(s: State, k: Key, cfg: Config) {
    && k.outer != "" && k.inner != ""
    && (|| MemoryKills(s, k, cfg)
        || (s.persistent && s.db.IsPending(k) && s.db.rows[k].retryCount + 1 >= cfg.Max()))
  }

  /** The error result: the row to update does not exist. */
  predicate RetryMissing(s: State, k: Key, cfg: Config) {
    k.outer != "" && k.inner != "" && !MemoryKills(s, k, cfg) && s.persistent && k !in s.db.rows
  }

  // ---------------------------------------------------------------------- queries

  function First<T>(xs: seq<T>, limit: int): seq<T> {
    if limit > 0 && |xs| > limit then xs[..limit] else xs
  }

  /** dedupeStrings: first occurrences, in order, without the empty string. */
  function Dedupe(xs: seq<string>): seq<string> {
    if xs == [] then []
    else
      var front, last := Dedupe(xs[..|xs| - 1]), xs[|xs| - 1];
      if last == "" || last in front then front else front + [last]
  }

  function Outers(ks: seq<Key>): (r: seq<string>)
    ensures |r| == |ks| && forall i :: 0 <= i < |ks| ==> r[i] == ks[i].outer
  {
    seq(|ks|, i requires 0 <= i < |ks| => ks[i].outer)
  }

  ghost function DueIds(s: State, now: nat): set<string> {
    set k | k in s.entries && s.entries[k].Pending() && 0 < s.entries[k].nextRetryAt <= Unix(now) :: k.outer
  }

  ghost function UnreadIds(s: State): set<string> {
    set k | k in s.entries && !s.entries[k].acked && !s.entries[k].read :: k.outer
  }

  ghost function UnreadIdsOf(s: State, user: string): set<string> {
    set k | k in s.entries && k.inner == user && !s.entries[k].acked && !s.entries[k].read :: k.outer
  }

  /** An answer to: due rows ORDER BY next_retry_at LIMIT. Ties may come in any order. */
  ghost predicate DueAnswer(db: Tables, now: nat, limit: int, ks: seq<Key>) {
    && NoDup(ks)
    && (forall k :: k in ks ==> db.IsDue(k, now))
    && (forall i, j :: 0 <= i < j < |ks| ==> db.DueAt(ks[i]) <= db.DueAt(ks[j]))
    && (limit > 0 ==> |ks| <= limit)
    && (limit <= 0 || |ks| < limit ==> forall k :: k in db.rows && db.IsDue(k, now) ==> k in ks)
    && (forall k, j :: k in db.rows && db.IsDue(k, now) && k !in ks && 0 <= j < |ks|
          ==> db.DueAt(ks[j]) <= db.DueAt(k))
  }

  function Recover(s: State, limit: int): State {
    if s.persistent then Load(s, First(s.db.PendingKeys(), limit)) else s
  }

  function KeysOfUser(ks: seq<Key>, user: string): seq<Key> {
    if ks == [] then []
    else if ks[0].inner == user then [ks[0]] + KeysOfUser(ks[1..], user)
    else KeysOfUser(ks[1..], user)
  }

  function ListPending(s: State, user: string, limit: int): State {
    if user != "" && s.persistent then Load(s, First(KeysOfUser(s.db.PendingKeys(), user), limit)) else s
  }
}
