/** The last messages between two users: read from the memory map, or from the table. */
module History {
  import opened Basics
  import opened Records
  import Store

  predicate Between(m: Message, a: string, b: string) {
    (m.sender == a && m.recipient == b) || (m.sender == b && m.recipient == a)
  }

  ghost predicate Ascending(ms: seq<Message>) {
    forall i, j :: 0 <= i < j < |ms| ==> ms[i].seqNo <= ms[j].seqNo
  }

  ghost predicate DistinctNumbers(pool: set<Message>) {
    forall m, n :: m in pool && n in pool && m.seqNo == n.seqNo ==> m == n
  }

  /** `out` is an answer: some of the pool, each once, by rising number; everything when no
      limit is given, otherwise at most `limit`; and nothing left out is newer than anything kept. */
  ghost predicate Answer(pool: set<Message>, limit: int, out: seq<Message>) {
    && NoDup(out) && Ascending(out)
    && (forall m :: m in out ==> m in pool)
    && |out| == (if 0 < limit < |pool| then limit else |pool|)
    && (forall m, n :: m in pool && m !in out && n in out ==> m.seqNo <= n.seqNo)
  }

  // --------------------------------------------------------------------- memory

  /** One more element into an ascending sequence (the library sort, one insertion at a time). */
  method InsertBySeq(sorted: seq<Message>, m: Message) returns (out: seq<Message>)
    requires Ascending(sorted) && NoDup(sorted) && m !in sorted
    ensures Ascending(out) && NoDup(out) && |out| == |sorted| + 1
    ensures forall x :: x in out <==> x in sorted || x == m
  {
    var i := 0;
    while i < |sorted| && sorted[i].seqNo < m.seqNo
      invariant 0 <= i <= |sorted|
      invariant forall j :: 0 <= j < i ==> sorted[j].seqNo < m.seqNo
    {
      i := i + 1;
    }
    out := sorted[..i] + [m] + sorted[i..];
    assert forall x :: x in sorted <==> x in sorted[..i] || x in sorted[i..];
  }

  method SortBySeq(ms: seq<Message>) returns (out: seq<Message>)
    requires NoDup(ms)
    ensures Ascending(out) && NoDup(out) && |out| == |ms|
    ensures forall x :: x in out <==> x in ms
  {
    out := [];
    for i := 0 to |ms|
      invariant Ascending(out) && NoDup(out) && |out| == i
      invariant forall x :: x in out <==> x in ms[..i]
    {
      assert ms[..i + 1] == ms[..i] + [ms[i]];
      out := InsertBySeq(out, ms[i]);
    }
    assert ms[..|ms|] == ms;
  }

  ghost function MemoryPool(messages: map<string, Message>, a: string, b: string): set<Message> {
    set id | id in messages && Between(messages[id], a, b) :: messages[id]
  }

  lemma {:induction false} SameSize(out: seq<Message>, pool: set<Message>)
    requires NoDup(out) && forall m :: m in out <==> m in pool
    ensures |out| == |pool|
    decreases |out|
  {
    if out != [] {
      var n := |out| - 1;
      assert out == out[..n] + [out[n]];
      SameSize(out[..n], pool - {out[n]});
    }
  }

  /** What is cut off the front of an ascending listing is no newer than what is kept. */
  lemma CutIsOlder(sorted: seq<Message>, cut: nat, m: Message, n: Message)
    requires Ascending(sorted) && cut <= |sorted| && m in sorted && m !in sorted[cut..] && n in sorted[cut..]
    ensures m.seqNo <= n.seqNo
  {
    var i :| 0 <= i < |sorted| && sorted[i] == m;
    var j :| 0 <= j < |sorted[cut..]| && sorted[cut..][j] == n;
    assert forall q :: cut <= q < |sorted| ==> sorted[q] == sorted[cut..][q - cut] && sorted[q] in sorted[cut..];
    assert i < cut;
  }

  /** The newest `limit` of an ascending listing of the pool. */
  lemma SuffixAnswers(pool: set<Message>, sorted: seq<Message>, limit: int)
    requires NoDup(sorted) && Ascending(sorted) && forall m :: m in sorted <==> m in pool
    ensures |sorted| == |pool|
    ensures Answer(pool, limit, if limit > 0 && |sorted| > limit then sorted[|sorted| - limit..] else sorted)
  {
    SameSize(sorted, pool);
    if limit > 0 && |sorted| > limit {
      var cut := |sorted| - limit;
      forall m, n | m in pool && m !in sorted[cut..] && n in sorted[cut..]
        ensures m.seqNo <= n.seqNo
      {
        CutIsOlder(sorted, cut, m, n);
      }
    }
  }

  /** getC2CHistoryFromMemory, for every order in which the map may be walked. */
  method FromMemory(messages: map<string, Message>, a: string, b: string, limit: int) returns (out: seq<Message>)
    requires forall id :: id in messages ==> messages[id].serverId == id
    ensures Answer(MemoryPool(messages, a, b), limit, out)
  {
    out := [];
    var todo := messages.Keys;
    while todo != {}
      invariant todo <= messages.Keys && NoDup(out)
      invariant forall m :: m in out <==> m.serverId in messages && m.serverId !in todo
                                          && messages[m.serverId] == m && Between(m, a, b)
      decreases todo
    {
      var id :| id in todo;
      todo := todo - {id};
      if Between(messages[id], a, b) {
        out := out + [messages[id]];
      }
    }
    ghost var pool := MemoryPool(messages, a, b);
    assert forall m :: m in out <==> m in pool;
    out := SortBySeq(out);
    SuffixAnswers(pool, out, limit);
    if limit > 0 && |out| > limit {
      out := out[|out| - limit..];
    }
  }

  // ---------------------------------------------------------------------- table

  ghost function TablePool(t: seq<Message>, a: string, b: string): set<Message> {
    set m | m in t && Between(m, a, b)
  }

  /** An answer of the database: matching rows ORDER BY seq DESC LIMIT. Equal numbers may come
      in any order. */
  ghost predicate QueryAnswer(pool: set<Message>, limit: int, rows: seq<Message>) {
    && NoDup(rows)
    && (forall i, j :: 0 <= i < j < |rows| ==> rows[i].seqNo >= rows[j].seqNo)
    && (forall m :: m in rows ==> m in pool)
    && |rows| == (if 0 < limit < |pool| then limit else |pool|)
    && (forall m, n :: m in pool && m !in rows && n in rows ==> m.seqNo <= n.seqNo)
  }

  function Reversed<T>(s: seq<T>): seq<T> {
    seq(|s|, i requires 0 <= i < |s| => s[|s| - 1 - i])
  }

  lemma ReversedIn<T>(s: seq<T>, x: T)
    ensures x in Reversed(s) <==> x in s
  {
    if x in s {
      var i :| 0 <= i < |s| && s[i] == x;
      assert Reversed(s)[|s| - 1 - i] == x;
    }
  }

  /** reverseMessages, in place. */
  method ReverseMessages(a: array<Message>)
    modifies a
    ensures a[..] == Reversed(old(a[..]))
  {
    var i, j := 0, a.Length - 1;
    while i < j
      invariant 0 <= i <= a.Length && j == a.Length - 1 - i
      invariant forall k :: 0 <= k < i || j < k < a.Length ==> a[k] == old(a[a.Length - 1 - k])
      invariant forall k :: i <= k <= j ==> a[k] == old(a[k])
    {
      a[i], a[j] := a[j], a[i];
      i, j := i + 1, j - 1;
    }
  }

  /** The delivery status shown with a message: that of the row of the other side. */
  function ShownStatus(m: Message, a: string, b: string, db: Tables): Status {
    var k := Key(m.serverId, if m.sender == a then b else a);
    if k in db.rows then db.rows[k].status else m.status
  }

  lemma ReversedAnswers(pool: set<Message>, limit: int, rows: seq<Message>)
    requires QueryAnswer(pool, limit, rows)
    ensures Answer(pool, limit, Reversed(rows))
  {
    var out := Reversed(rows);
    forall m ensures m in out <==> m in rows { ReversedIn(rows, m); }
  }

  function Show(m: Message, a: string, b: string, db: Tables): Message {
    m.(status := ShownStatus(m, a, b, db))
  }

  function ShowAll(rows: seq<Message>, a: string, b: string, db: Tables): seq<Message> {
    seq(|rows|, i requires 0 <= i < |rows| => Show(rows[i], a, b, db))
  }

  lemma ReversedShown(rows: seq<Message>, a: string, b: string, db: Tables)
    ensures Reversed(ShowAll(rows, a, b, db)) == ShowAll(Reversed(rows), a, b, db)
  {
  }

  /** `out` shows the messages `ms` in their order, and each with the status of its recipient's
      row, or with its own when there is no such row. */
  ghost predicate ShowsStatuses(out: seq<Message>, ms: seq<Message>, db: Tables) {
    && |out| == |ms|
    && forall i :: 0 <= i < |out| ==>
         && out[i] == ms[i].(status := out[i].status)
         && out[i].status == (if Key(ms[i].serverId, ms[i].recipient) in db.rows
                              then db.rows[Key(ms[i].serverId, ms[i].recipient)].status else ms[i].status)
  }

  /** Between two users the other side of a message is its recipient, whoever asks. */
  lemma ShownIsRecipients(ms: seq<Message>, a: string, b: string, db: Tables)
    requires forall m :: m in ms ==> Between(m, a, b)
    ensures ShowsStatuses(ShowAll(ms, a, b, db), ms, db)
  {
    forall i | 0 <= i < |ms|
      ensures Key(ms[i].serverId, if ms[i].sender == a then b else a) == Key(ms[i].serverId, ms[i].recipient)
    {
      assert ms[i] in ms;
    }
  }

  /** A history belongs to both sides. */
  lemma BothSides(m: Message, a: string, b: string)
    ensures Between(m, a, b) <==> {m.sender, m.recipient} == {a, b}
    ensures Between(m, a, b) <==> Between(m, b, a)
  {
    assert m.sender in {m.sender, m.recipient} && m.recipient in {m.sender, m.recipient};
    assert a in {a, b} && b in {a, b};
  }

  /** GetC2CHistory with a database: the query's rows, each with its delivery status, oldest
      first. */
  method FromTable(db: Tables, a: string, b: string, limit: int, rows: seq<Message>) returns (out: seq<Message>)
    requires QueryAnswer(TablePool(db.messages, a, b), limit, rows)
    ensures Answer(TablePool(db.messages, a, b), limit, Reversed(rows))
    ensures out == ShowAll(Reversed(rows), a, b, db) && ShowsStatuses(out, Reversed(rows), db)
  {
    out := ShowReversed(db, a, b, rows);
    ReversedAnswers(TablePool(db.messages, a, b), limit, rows);
    ShownIsRecipients(Reversed(rows), a, b, db);
  }

  method ShowReversed(db: Tables, a: string, b: string, rows: seq<Message>) returns (out: seq<Message>)
    ensures out == ShowAll(Reversed(rows), a, b, db)
  {
    var buf := new Message[|rows|](i requires 0 <= i < |rows| => Show(rows[i], a, b, db));
    assert buf[..] == ShowAll(rows, a, b, db);
    ReverseMessages(buf);
    ReversedShown(rows, a, b, db);
    out := buf[..];
  }

  /** GetC2CHistory: nothing for an unnamed side, else from the table or from memory. */
  method GetC2CHistory(store: Store.InMemoryStore, a: string, b: string, limit: int, rows: seq<Message>)
      returns (out: seq<Message>)
    requires forall id :: id in store.messages ==> store.messages[id].serverId == id
    requires store.persistent ==> QueryAnswer(TablePool(store.db.messages, a, b), limit, rows)
    ensures a == "" || b == "" ==> out == []
    ensures a != "" && b != "" && store.persistent ==>
              Answer(TablePool(store.db.messages, a, b), limit, Reversed(rows))
                  && out == ShowAll(Reversed(rows), a, b, store.db) && ShowsStatuses(out, Reversed(rows), store.db)
    ensures a != "" && b != "" && !store.persistent ==> Answer(MemoryPool(store.messages, a, b), limit, out)
  {
    if a == "" || b == "" {
      return [];
    }
    if !store.persistent {
      out := FromMemory(store.messages, a, b, limit);
      return;
    }
    out := FromTable(store.db, a, b, limit, rows);
  }

  // ------------------------------------------------------------------ agreement

  /** With distinct numbers there is one answer. */
  lemma AnswerUnique(pool: set<Message>, limit: int, x: seq<Message>, y: seq<Message>)
    requires DistinctNumbers(pool) && Answer(pool, limit, x) && Answer(pool, limit, y)
    ensures x == y
  {
    SameKept(pool, limit, x, y);
    SameKept(pool, limit, y, x);
    SortedUnique(x, y);
  }

  lemma SameKept(pool: set<Message>, limit: int, x: seq<Message>, y: seq<Message>)
    requires DistinctNumbers(pool) && Answer(pool, limit, x) && Answer(pool, limit, y)
    ensures forall m :: m in x ==> m in y
  {
    if m :| m in x && m !in y {
      var n := Missing(x, y, m);
    }
  }

  /** Of two listings of equal length, one that has something extra lacks something. */
  lemma Missing(x: seq<Message>, y: seq<Message>, m: Message) returns (n: Message)
    requires NoDup(x) && NoDup(y) && |x| == |y| && m in x && m !in y
    ensures n in y && n !in x
  {
    var sx, sy := Elems(x), Elems(y);
    SameSize(x, sx);
    SameSize(y, sy);
    if sy <= sx {
      Smaller(sy, sx, m);
    }
    n :| n in sy && n !in sx;
  }

  lemma Smaller(a: set<Message>, b: set<Message>, m: Message)
    requires a <= b && m in b && m !in a
    ensures |a| < |b|
  {
    var c := b - {m};
    SubsetSize(a, c);
    assert b == c + {m};
  }

  lemma {:induction false} SubsetSize(a: set<Message>, b: set<Message>)
    requires a <= b
    ensures |a| <= |b|
    decreases |a|
  {
    if a != {} {
      var m :| m in a;
      SubsetSize(a - {m}, b - {m});
    }
  }

  ghost predicate SameListed(x: seq<Message>, y: seq<Message>) {
    && NoDup(x) && NoDup(y) && Ascending(x) && Ascending(y)
    && (forall m :: m in x <==> m in y)
    && (forall m, n :: m in x && n in x && m.seqNo == n.seqNo ==> m == n)
  }

  lemma SameHead(x: seq<Message>, y: seq<Message>)
    requires SameListed(x, y) && x != [] && y != []
    ensures x[0] == y[0] && SameListed(x[1..], y[1..])
  {
    assert x[0] in x && x[0] in y && y[0] in y && y[0] in x;
    assert forall m :: m in x[1..] <==> m in x && m != x[0];
    assert forall m :: m in y[1..] <==> m in y && m != y[0];
  }

  lemma {:induction false} SortedUnique(x: seq<Message>, y: seq<Message>)
    requires SameListed(x, y)
    ensures x == y
    decreases |x|
  {
    SameSize(x, Elems(x));
    SameSize(y, Elems(x));
    if x != [] {
      SameHead(x, y);
      SortedUnique(x[1..], y[1..]);
      assert x == [x[0]] + x[1..] && y == [y[0]] + y[1..];
    }
  }

  /** The rows of the table, before their status is looked up, are the memory answer for every
      order of walking the map, every order of tied rows and every limit, exactly when the
      numbers are distinct. */
  lemma RowsAgree(pool: set<Message>)
    ensures DistinctNumbers(pool) <==>
      forall limit, x, rows :: Answer(pool, limit, x) && QueryAnswer(pool, limit, rows) ==> x == Reversed(rows)
  {
    if DistinctNumbers(pool) {
      forall limit, x, rows | Answer(pool, limit, x) && QueryAnswer(pool, limit, rows)
        ensures x == Reversed(rows)
      {
        ReversedAnswers(pool, limit, rows);
        AnswerUnique(pool, limit, x, Reversed(rows));
      }
    } else {
      var x, y := TiedHistories(pool);
      assert Answer(pool, 0, x) && QueryAnswer(pool, 0, Reversed(y));
      ReversedTwice(y);
    }
  }

  lemma TiedHistories(pool: set<Message>) returns (x: seq<Message>, y: seq<Message>)
    requires !DistinctNumbers(pool)
    ensures Answer(pool, 0, x) && Answer(pool, 0, y) && QueryAnswer(pool, 0, Reversed(y)) && x != y
  {
    var m, n :| m in pool && n in pool && m.seqNo == n.seqNo && m != n;
    x, y := TiedAnswers(pool, m, n);
    AnswerReversed(pool, y);
  }

  /** All of a message but its status. */
  function Plain(m: Message): Message { m.(status := PENDING) }

  function PlainAll(ms: seq<Message>): seq<Message> {
    seq(|ms|, i requires 0 <= i < |ms| => Plain(ms[i]))
  }

  /** With distinct numbers the two outputs are the same messages in the same order, and differ
      at most in the status shown. */
  lemma AgreeUpToStatus(pool: set<Message>, limit: int, x: seq<Message>, rows: seq<Message>, a: string, b: string,
                        db: Tables)
    requires DistinctNumbers(pool) && Answer(pool, limit, x) && QueryAnswer(pool, limit, rows)
    ensures PlainAll(x) == PlainAll(ShowAll(Reversed(rows), a, b, db))
  {
    ReversedAnswers(pool, limit, rows);
    AnswerUnique(pool, limit, x, Reversed(rows));
  }

  /** Every message carries the status that its row would show. */
  ghost predicate StatusesShown(pool: set<Message>, a: string, b: string, db: Tables) {
    forall m :: m in pool ==> ShownStatus(m, a, b, db) == m.status
  }

  lemma ShownSame(pool: set<Message>, ms: seq<Message>, a: string, b: string, db: Tables)
    requires forall m :: m in ms <==> m in pool
    ensures ShowAll(ms, a, b, db) == ms <==> StatusesShown(pool, a, b, db)
  {
    if ShowAll(ms, a, b, db) == ms {
      forall m | m in pool ensures ShownStatus(m, a, b, db) == m.status {
        var i :| 0 <= i < |ms| && ms[i] == m;
        assert Show(ms[i], a, b, db) == ShowAll(ms, a, b, db)[i];
      }
    }
    if StatusesShown(pool, a, b, db) {
      forall i | 0 <= i < |ms| ensures Show(ms[i], a, b, db) == ms[i] {
      }
    }
  }

  lemma ShownKept(pool: set<Message>, ms: seq<Message>, a: string, b: string, db: Tables)
    requires StatusesShown(pool, a, b, db) && forall m :: m in ms ==> m in pool
    ensures ShowAll(ms, a, b, db) == ms
  {
    forall i | 0 <= i < |ms| ensures Show(ms[i], a, b, db) == ms[i] {
    }
  }

  /** The memory output and the table output of a pool. */
  ghost predicate SameOutputs(pool: set<Message>, a: string, b: string, db: Tables) {
    forall limit, x, rows :: Answer(pool, limit, x) && QueryAnswer(pool, limit, rows) ==>
      x == ShowAll(Reversed(rows), a, b, db)
  }

  lemma TieDiffers(pool: set<Message>, a: string, b: string, db: Tables)
    requires !DistinctNumbers(pool)
    ensures !SameOutputs(pool, a, b, db)
  {
    var x, y := TiedHistories(pool);
    ReversedTwice(y);
  }

  /** They are equal, for every order of walking the map, every order of tied rows and every
      limit, exactly when the numbers are distinct and every message carries the status its row
      shows. */
  lemma HistoryAgrees(pool: set<Message>, a: string, b: string, db: Tables)
    ensures SameOutputs(pool, a, b, db) <==> DistinctNumbers(pool) && StatusesShown(pool, a, b, db)
  {
    if DistinctNumbers(pool) && StatusesShown(pool, a, b, db) {
      forall limit, x, rows | Answer(pool, limit, x) && QueryAnswer(pool, limit, rows)
        ensures x == ShowAll(Reversed(rows), a, b, db)
      {
        ReversedAnswers(pool, limit, rows);
        AnswerUnique(pool, limit, x, Reversed(rows));
        ShownKept(pool, x, a, b, db);
      }
    }
    if SameOutputs(pool, a, b, db) {
      if !DistinctNumbers(pool) { TieDiffers(pool, a, b, db); }
      var all := Listing(pool);
      SuffixAnswers(pool, all, 0);
      AnswerReversed(pool, all);
      ReversedTwice(all);
      assert all == ShowAll(Reversed(Reversed(all)), a, b, db);
      ShownSame(pool, all, a, b, db);
    }
  }

  lemma ReversedNoDup(s: seq<Message>)
    requires NoDup(s)
    ensures NoDup(Reversed(s))
  {
    var r := Reversed(s);
    forall i, j | 0 <= i < j < |r| ensures r[i] != r[j] {
      var p, q := |s| - 1 - j, |s| - 1 - i;
      assert 0 <= p < q < |s| && s[p] != s[q];
    }
  }

  lemma ReversedTwice<T>(s: seq<T>)
    ensures Reversed(Reversed(s)) == s
  {
  }

  lemma AnswerReversed(pool: set<Message>, y: seq<Message>)
    requires Answer(pool, 0, y)
    ensures QueryAnswer(pool, 0, Reversed(y))
  {
    var rows := Reversed(y);
    forall m ensures m in rows <==> m in y { ReversedIn(y, m); }
    ReversedNoDup(y);
    SameSize(y, pool) by {
      if m :| m in pool && m !in y {
        SameSize(y, Elems(y));
        Smaller(Elems(y), pool, m);
      }
    }
  }

  /** Some ascending listing of a finite pool. */
  lemma {:induction false} Listing(pool: set<Message>) returns (out: seq<Message>)
    ensures NoDup(out) && Ascending(out) && forall m :: m in out <==> m in pool
    decreases |pool|
  {
    if pool == {} {
      out := [];
    } else {
      var m := Newest(pool);
      var rest := Listing(pool - {m});
      Join(rest, [m]);
      out := rest + [m];
    }
  }

  lemma {:induction false} Newest(pool: set<Message>) returns (m: Message)
    requires pool != {}
    ensures m in pool && forall n :: n in pool ==> n.seqNo <= m.seqNo
    decreases |pool|
  {
    m :| m in pool;
    if pool != {m} {
      var other := Newest(pool - {m});
      m := if other.seqNo > m.seqNo then other else m;
    }
  }

  /** A tie gives two different answers: list one of the tied messages before or after the other. */
  lemma TiedAnswers(pool: set<Message>, m: Message, n: Message) returns (x: seq<Message>, y: seq<Message>)
    requires m in pool && n in pool && m != n && m.seqNo == n.seqNo
    ensures Answer(pool, 0, x) && Answer(pool, 0, y) && x != y
  {
    var older := set k | k in pool && k.seqNo < m.seqNo;
    var same := set k | k in pool && k.seqNo == m.seqNo && k != m && k != n;
    var newer := set k | k in pool && k.seqNo > m.seqNo;
    var a := Listing(older);
    var b := Listing(same);
    var c := Listing(newer);
    x := a + [m, n] + b + c;
    y := a + [n, m] + b + c;
    assert x[|a|] == m && y[|a|] == n;
    TieListed(pool, m, n, a, b, c);
    TieListed(pool, n, m, a, b, c);
    SuffixAnswers(pool, x, 0);
    SuffixAnswers(pool, y, 0);
  }

  /** Joining two listings whose numbers do not overlap the wrong way. */
  lemma Join(a: seq<Message>, b: seq<Message>)
    requires NoDup(a) && NoDup(b) && Ascending(a) && Ascending(b)
    requires forall m, n :: m in a && n in b ==> m != n && m.seqNo <= n.seqNo
    ensures NoDup(a + b) && Ascending(a + b) && forall m :: m in a + b <==> m in a || m in b
  {
    var x := a + b;
    assert forall i :: 0 <= i < |x| ==>
             if i < |a| then x[i] == a[i] && a[i] in a else x[i] == b[i - |a|] && b[i - |a|] in b;
  }

  lemma TieFront(a: seq<Message>, m: Message, n: Message)
    requires NoDup(a) && Ascending(a) && m != n && m.seqNo == n.seqNo
    requires forall k :: k in a ==> k.seqNo < m.seqNo
    ensures NoDup(a + [m, n]) && Ascending(a + [m, n])
    ensures forall k :: k in a + [m, n] <==> k in a || k == m || k == n
  {
    Join(a, [m, n]);
  }

  lemma TieListed(pool: set<Message>, m: Message, n: Message, a: seq<Message>, b: seq<Message>, c: seq<Message>)
    requires m in pool && n in pool && m != n && m.seqNo == n.seqNo
    requires NoDup(a) && NoDup(b) && NoDup(c) && Ascending(a) && Ascending(b) && Ascending(c)
    requires forall k :: k in a <==> k in pool && k.seqNo < m.seqNo
    requires forall k :: k in b <==> k in pool && k.seqNo == m.seqNo && k != m && k != n
    requires forall k :: k in c <==> k in pool && k.seqNo > m.seqNo
    ensures var x := a + [m, n] + b + c; NoDup(x) && Ascending(x) && forall k :: k in x <==> k in pool
  {
    TieFront(a, m, n);
    Join(a + [m, n], b);
    Join(a + [m, n] + b, c);
  }
}
