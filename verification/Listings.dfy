/** Which rows the queries for pending deliveries load, in which order and where they are cut, and in
    which order their ids come out. */
module Listings {
  import opened Basics
  import opened Records
  import opened StoreSpec
  import opened StoreInvariants
  import opened Durability

  /** All pending rows, and those of one user. */
  ghost function AllPending(db: Tables): set<Key> { set k | k in db.rows && db.rows[k].status == PENDING }

  ghost function PendingOf(db: Tables, user: string): set<Key> {
    set k | k in db.rows && db.rows[k].status == PENDING && k.inner == user
  }

  /** `ks` are rows of the pool, each once, in the order of insertion: all of them when they fit in the
      limit or there is none, otherwise `limit` of them, and then those left out came after. */
  ghost predicate Oldest(order: seq<Key>, pool: set<Key>, limit: int, ks: seq<Key>) {
    && NoDup(ks) && Ordered(order, ks)
    && (forall k :: k in ks ==> k in pool)
    && |ks| == (if 0 < limit < |pool| then limit else |pool|)
    && (forall k, j :: k in ks && j in pool && j !in ks ==> After(order, j, k))
  }

  /** The ids of these rows, each once, in the order in which they first appear. */
  ghost predicate IdsOf(ks: seq<Key>, ids: seq<string>) {
    AsAppearing(Outers(ks), ids) && forall id :: id in ids <==> id != "" && exists k :: k in ks && k.outer == id
  }

  /** The answer for a user is the ids of that user's oldest pending rows. */
  ghost predicate AnswersFor(db: Tables, pool: set<Key>, limit: int, ids: seq<string>) {
    exists ks :: Oldest(db.order, pool, limit, ks) && IdsOf(ks, ids)
  }

  // ---------------------------------------------------------------------- ids in order

  lemma {:induction false} DedupeAppearing(xs: seq<string>)
    ensures AsAppearing(xs, Dedupe(xs))
    decreases |xs|
  {
    if xs != [] {
      var front, last := xs[..|xs| - 1], xs[|xs| - 1];
      assert xs == front + [last];
      DedupeAppearing(front);
      DedupeExact(front);
      AppearingSnoc(front, Dedupe(front), last);
    }
  }

  /** Deduplication keeps first occurrences, in their order. */
  lemma DedupeIds(ks: seq<Key>)
    ensures IdsOf(ks, Dedupe(Outers(ks)))
  {
    DedupeAppearing(Outers(ks));
    DedupeExact(Outers(ks));
    OutersHold(ks);
  }

  // --------------------------------------------------------------------- rows in order

  /** An ordered listing of an ordered listing is ordered. */
  lemma OrderedWithin(order: seq<Key>, ps: seq<Key>, us: seq<Key>)
    requires Ordered(order, ps) && Ordered(ps, us)
    ensures Ordered(order, us)
  {
    forall i, j | 0 <= i < j < |us| ensures After(order, us[j], us[i]) {
      assert After(ps, us[j], us[i]);
      var p, q :| AfterAt(ps, us[j], us[i], p, q);
      assert After(order, ps[q], ps[p]);
    }
  }

  lemma {:induction false} KeysOfUserInOrder(ks: seq<Key>, user: string)
    ensures Ordered(ks, KeysOfUser(ks, user))
    ensures NoDup(ks) ==> NoDup(KeysOfUser(ks, user))
    decreases |ks|
  {
    if ks != [] {
      var rest := ks[1..];
      var us, vs := KeysOfUser(ks, user), KeysOfUser(rest, user);
      KeysOfUserInOrder(rest, user);
      KeysOfUserExact(rest, user);
      var d := if ks[0].inner == user then 1 else 0;
      forall i, j | 0 <= i < j < |us| ensures After(ks, us[j], us[i]) {
        if d == 1 && i == 0 {
          assert us[j] == vs[j - 1] && us[j] in rest;
          var q :| 0 <= q < |rest| && rest[q] == us[j];
          assert AfterAt(ks, us[j], us[i], 0, q + 1);
        } else {
          assert us[i] == vs[i - d] && us[j] == vs[j - d];
          AfterLater(ks, us[j], us[i]);
        }
      }
    }
  }

  lemma {:induction false} ListSize(ks: seq<Key>, pool: set<Key>)
    requires NoDup(ks) && forall k :: k in ks <==> k in pool
    ensures |ks| == |pool|
  {
    ElemsSize(ks);
    assert Elems(ks) == pool;
  }

  /** The first rows of an ordered listing of the pool. */
  lemma FirstAreOldest(order: seq<Key>, pool: set<Key>, all: seq<Key>, limit: int)
    requires NoDup(all) && Ordered(order, all) && forall k :: k in all <==> k in pool
    ensures Oldest(order, pool, limit, First(all, limit))
  {
    ListSize(all, pool);
    var ks := First(all, limit);
    assert ks == all[..|ks|];
    forall k, j | k in ks && j in pool && j !in ks ensures After(order, j, k) {
      var p :| 0 <= p < |ks| && ks[p] == k;
      var q :| 0 <= q < |all| && all[q] == j;
      assert forall r :: 0 <= r < |ks| ==> all[r] == ks[r] && ks[r] in ks;
    }
  }

  /** A recovery loads the oldest pending rows, ... */
  lemma RecoveryLoads(s: State, limit: int)
    requires RowsOk(s.db)
    ensures Oldest(s.db.order, AllPending(s.db), limit, Loads(s, CallRecover(limit)))
  {
    PendingInExact(s.db, s.db.order);
    PendingInOrder(s.db, s.db.order);
    FirstAreOldest(s.db.order, AllPending(s.db), s.db.PendingKeys(), limit);
  }

  /** ... and a login the oldest pending rows of the user, for every limit. */
  lemma LoginLoads(s: State, user: string, limit: int)
    requires RowsOk(s.db)
    ensures Oldest(s.db.order, PendingOf(s.db, user), limit, Loads(s, CallListPending(user, limit)))
  {
    var ps := s.db.PendingKeys();
    PendingInExact(s.db, s.db.order);
    PendingInOrder(s.db, s.db.order);
    KeysOfUserExact(ps, user);
    KeysOfUserInOrder(ps, user);
    OrderedWithin(s.db.order, ps, KeysOfUser(ps, user));
    FirstAreOldest(s.db.order, PendingOf(s.db, user), KeysOfUser(ps, user), limit);
  }

  // --------------------------------------------------------- there is only one such listing

  lemma AfterOneWay(order: seq<Key>, j: Key, k: Key)
    requires NoDup(order)
    ensures !(After(order, j, k) && After(order, k, j))
  {
  }

  lemma SameRows(order: seq<Key>, pool: set<Key>, limit: int, x: seq<Key>, y: seq<Key>)
    requires NoDup(order) && Oldest(order, pool, limit, x) && Oldest(order, pool, limit, y)
    ensures Elems(x) <= Elems(y)
  {
    if m :| m in x && m !in y {
      ElemsSize(x);
      ElemsSize(y);
      if Elems(y) <= Elems(x) { Smaller(Elems(y), Elems(x), m); }
      var n :| n in y && n !in x;
      AfterOneWay(order, n, m);
    }
  }

  lemma Smaller(a: set<Key>, b: set<Key>, m: Key)
    requires a <= b && m in b && m !in a
    ensures |a| < |b|
  {
    assert a + (b - a) == b && m in b - a;
  }

  lemma HeadLeads(order: seq<Key>, x: seq<Key>, k: Key)
    requires Ordered(order, x) && k in x
    ensures k == x[0] || After(order, k, x[0])
  {
    var i :| 0 <= i < |x| && x[i] == k;
  }

  lemma {:induction false} OrderedUnique(order: seq<Key>, x: seq<Key>, y: seq<Key>)
    requires NoDup(order) && NoDup(x) && NoDup(y) && Ordered(order, x) && Ordered(order, y)
    requires Elems(x) == Elems(y)
    ensures x == y
    decreases |x|
  {
    ElemsSize(x);
    ElemsSize(y);
    if x != [] {
      assert x[0] in Elems(y) && y[0] in Elems(x);
      HeadLeads(order, x, y[0]);
      HeadLeads(order, y, x[0]);
      AfterOneWay(order, x[0], y[0]);
      Tails(x);
      Tails(y);
      OrderedUnique(order, x[1..], y[1..]);
      assert x == [x[0]] + x[1..] && y == [y[0]] + y[1..];
    }
  }

  lemma Tails(x: seq<Key>)
    requires NoDup(x) && x != []
    ensures Elems(x[1..]) == Elems(x) - {x[0]}
  {
  }

  /** The rows that a listing loads, and their order, are determined by the table. */
  lemma OldestUnique(order: seq<Key>, pool: set<Key>, limit: int, x: seq<Key>, y: seq<Key>)
    requires NoDup(order) && Oldest(order, pool, limit, x) && Oldest(order, pool, limit, y)
    ensures x == y
  {
    SameRows(order, pool, limit, x, y);
    SameRows(order, pool, limit, y, x);
    OrderedUnique(order, x, y);
  }

  // ----------------------------------------------------------------- recipients in order

  lemma {:induction false} UsersInOrder(ks: seq<Key>, id: string)
    ensures forall i, j :: 0 <= i < j < |UsersOf(ks, id)| ==>
              After(ks, Key(id, UsersOf(ks, id)[j]), Key(id, UsersOf(ks, id)[i]))
    decreases |ks|
  {
    if ks != [] {
      var rest := ks[1..];
      var us, vs := UsersOf(ks, id), UsersOf(rest, id);
      UsersInOrder(rest, id);
      UsersOfExact(rest, id);
      var d := if ks[0].outer == id then 1 else 0;
      forall i, j | 0 <= i < j < |us| ensures After(ks, Key(id, us[j]), Key(id, us[i])) {
        if d == 1 && i == 0 {
          assert us[j] == vs[j - 1] && Key(id, us[j]) in rest;
          var q :| 0 <= q < |rest| && rest[q] == Key(id, us[j]);
          assert AfterAt(ks, Key(id, us[j]), Key(id, us[i]), 0, q + 1);
        } else {
          assert us[i] == vs[i - d] && us[j] == vs[j - d];
          AfterLater(ks, Key(id, us[j]), Key(id, us[i]));
        }
      }
    }
  }

  /** The recipients that the table answers are attempted in the order of their rows. */
  lemma RecipientsInOrder(s: State, id: string, out: seq<string>, i: nat, j: nat)
    requires s.persistent && PendingUsers(s, id) == {} && RecipientsAnswer(s, id, out) && i < j < |out|
    ensures After(s.db.order, Key(id, out[j]), Key(id, out[i]))
  {
    var ps := s.db.PendingKeys();
    UsersInOrder(ps, id);
    PendingInOrder(s.db, s.db.order);
    var p, q :| AfterAt(ps, Key(id, out[j]), Key(id, out[i]), p, q);
    assert After(s.db.order, ps[q], ps[p]);
  }

  /** `added` are the recipients that get a row: those that are named and have none, each once, in the
      order in which they are first named. */
  ghost predicate GetRows(db: Tables, id: string, users: seq<string>, added: seq<string>) {
    && AsAppearing(users, added)
    && (forall u :: u in added <==> u in users && u != "" && Key(id, u) !in db.rows)
    && db.InsertRows(id, users).order == db.order + KeysTo(id, added)
  }

  lemma SkippedFirst(db: Tables, id: string, u: string, rest: seq<string>, added: seq<string>)
    requires GetRows(db, id, rest, added) && (u == "" || Key(id, u) in db.rows)
    ensures GetRows(db, id, [u] + rest, added)
  {
    assert ([u] + rest)[1..] == rest;
    AppearingCons(u, rest, added);
  }

  lemma AddedFirst(db: Tables, id: string, u: string, rest: seq<string>, others: seq<string>)
    requires RowsOk(db) && id != "" && u != "" && Key(id, u) !in db.rows
    requires GetRows(db.InsertRow(Key(id, u)), id, rest, others)
    ensures GetRows(db, id, [u] + rest, [u] + others)
  {
    assert ([u] + rest)[1..] == rest;
    NewlyNamed(db, id, [u] + rest);
    AppearingCons(u, rest, others);
    FirstAppears(u, rest, others);
    assert KeysTo(id, [u] + others) == [Key(id, u)] + KeysTo(id, others);
  }

  /** Saving a message appends just these rows, in this order. */
  lemma {:induction false} RowsInOrder(db: Tables, id: string, users: seq<string>) returns (added: seq<string>)
    requires RowsOk(db) && id != ""
    ensures GetRows(db, id, users, added)
    decreases |users|
  {
    if users == [] {
      added := [];
    } else {
      var u, rest := users[0], users[1..];
      assert users == [u] + rest;
      if u == "" || Key(id, u) in db.rows {
        added := RowsInOrder(db, id, rest);
        SkippedFirst(db, id, u, rest, added);
      } else {
        InsertRowOk(db, Key(id, u));
        var others := RowsInOrder(db.InsertRow(Key(id, u)), id, rest);
        AddedFirst(db, id, u, rest, others);
        added := [u] + others;
      }
    }
  }

  lemma NewlyNamed(db: Tables, id: string, users: seq<string>)
    requires RowsOk(db) && id != "" && users != [] && users[0] != "" && Key(id, users[0]) !in db.rows
    ensures var next := db.InsertRow(Key(id, users[0]));
      && RowsOk(next) && next.order == db.order + [Key(id, users[0])]
      && (forall k :: k in next.rows <==> k in db.rows || k == Key(id, users[0]))
      && db.InsertRows(id, users) == next.InsertRows(id, users[1..])
  {
    InsertRowOk(db, Key(id, users[0]));
  }

  function KeysTo(id: string, users: seq<string>): seq<Key> {
    seq(|users|, i requires 0 <= i < |users| => Key(id, users[i]))
  }

  lemma AppearingCons(u: string, rest: seq<string>, out: seq<string>)
    requires AsAppearing(rest, out) && u !in out
    ensures AsAppearing([u] + rest, out)
  {
    forall i, j | 0 <= i < j < |out| ensures Before([u] + rest, out[i], out[j]) {
      BeforeCons(u, rest, out[i], out[j]);
    }
  }

  lemma FirstAppears(u: string, rest: seq<string>, out: seq<string>)
    requires AsAppearing([u] + rest, out) && u !in out
    ensures AsAppearing([u] + rest, [u] + out)
  {
    var xs := [u] + rest;
    forall i, j | 0 <= i < j < |[u] + out| ensures Before(xs, ([u] + out)[i], ([u] + out)[j]) {
      if i == 0 {
        assert xs[0] == u && ([u] + out)[j] !in xs[..0];
      } else {
        assert Before(xs, out[i - 1], out[j - 1]);
      }
    }
  }
}
