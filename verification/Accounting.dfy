/** Counting deliveries: the statistics, and the measure that shows offline retries end. */
module Accounting {
  import opened Basics
  import opened Records
  import opened StoreSpec

  /** How the statistics classify an entry; numbered like the status column. */
  function ClassOf(e: Entry): Status {
    if e.dead then DEAD else if e.read then READ else if e.acked then DELIVERED else PENDING
  }

  ghost function InClass(m: map<Key, Entry>, ks: set<Key>, c: Status): set<Key> {
    set k | k in ks && k in m && ClassOf(m[k]) == c
  }

  ghost function Count(m: map<Key, Entry>, ks: set<Key>, c: Status): nat {
    |InClass(m, ks, c)|
  }

  lemma CountAdd(m: map<Key, Entry>, ks: set<Key>, k: Key, c: Status)
    requires k in m && k !in ks
    ensures Count(m, ks + {k}, c) == Count(m, ks, c) + if ClassOf(m[k]) == c then 1 else 0
  {
    if ClassOf(m[k]) == c {
      assert InClass(m, ks + {k}, c) == InClass(m, ks, c) + {k};
    } else {
      assert InClass(m, ks + {k}, c) == InClass(m, ks, c);
    }
  }

  /** Every entry is in exactly one class. */
  lemma {:induction false} ClassesPartition(m: map<Key, Entry>, ks: set<Key>)
    requires ks <= m.Keys
    ensures Count(m, ks, PENDING) + Count(m, ks, DELIVERED) + Count(m, ks, READ) + Count(m, ks, DEAD) == |ks|
    decreases |ks|
  {
    if ks != {} {
      var k :| k in ks;
      var rest := ks - {k};
      ClassesPartition(m, rest);
      CountAdd(m, rest, k, PENDING);
      CountAdd(m, rest, k, DELIVERED);
      CountAdd(m, rest, k, READ);
      CountAdd(m, rest, k, DEAD);
      assert rest + {k} == ks;
    }
  }

  /** Given up comes before read, and read before delivered. */
  lemma ClassMeaning(m: map<Key, Entry>)
    ensures Count(m, m.Keys, DEAD) == |set k | k in m && m[k].dead|
    ensures Count(m, m.Keys, READ) == |set k | k in m && !m[k].dead && m[k].read|
    ensures Count(m, m.Keys, DELIVERED) == |set k | k in m && !m[k].dead && !m[k].read && m[k].acked|
    ensures Count(m, m.Keys, PENDING) == |set k | k in m && !m[k].dead && !m[k].read && !m[k].acked|
  {
    assert InClass(m, m.Keys, DEAD) == set k | k in m && m[k].dead;
    assert InClass(m, m.Keys, READ) == set k | k in m && !m[k].dead && m[k].read;
    assert InClass(m, m.Keys, DELIVERED) == set k | k in m && !m[k].dead && !m[k].read && m[k].acked;
    assert InClass(m, m.Keys, PENDING) == set k | k in m && !m[k].dead && !m[k].read && !m[k].acked;
  }

  // ------------------------------------------- pending count is what the worker sees

  ghost function InnersAt(ks: set<Key>, id: string): set<string> {
    set k | k in ks && k.outer == id :: k.inner
  }

  lemma {:induction false} InnersAtSize(ks: set<Key>, id: string)
    requires forall k :: k in ks ==> k.outer == id
    ensures |InnersAt(ks, id)| == |ks|
    decreases |ks|
  {
    if ks != {} {
      var k :| k in ks;
      InnersAtSize(ks - {k}, id);
      assert InnersAt(ks, id) == InnersAt(ks - {k}, id) + {k.inner};
    }
  }

  ghost function GroupSizes(ks: set<Key>, ids: set<string>): map<string, nat> {
    map id | id in ids :: |InnersAt(ks, id)|
  }

  lemma {:induction false} GroupsPartition(ks: set<Key>, ids: set<string>)
    requires forall k :: k in ks ==> k.outer in ids
    ensures |ks| == Sum(GroupSizes(ks, ids))
    decreases |ids|
  {
    if ids == {} {
      assert ks == {};
      assert GroupSizes(ks, ids) == map[];
    } else {
      var id :| id in ids;
      var here := set k | k in ks && k.outer == id;
      GroupsPartition(ks - here, ids - {id});
      SumPick(GroupSizes(ks, ids), id);
      GroupsWithout(ks, ids, id, here);
      InnersAtSize(here, id);
      assert |ks| == |here| + |ks - here|;
    }
  }

  lemma GroupsWithout(ks: set<Key>, ids: set<string>, id: string, here: set<Key>)
    requires id in ids && here == set k | k in ks && k.outer == id
    ensures GroupSizes(ks - here, ids - {id}) == GroupSizes(ks, ids) - {id}
    ensures InnersAt(here, id) == InnersAt(ks, id)
  {
    forall x | x in ids - {id} ensures InnersAt(ks - here, x) == InnersAt(ks, x) {
    }
  }

  ghost function MessageIds(s: State): set<string> {
    set k | k in s.entries :: k.outer
  }

  ghost function RecipientCounts(s: State): map<string, nat> {
    map id | id in MessageIds(s) :: |PendingUsers(s, id)|
  }

  /** The reported pending count is the total number of recipients still to be attempted,
      over all messages. */
  lemma PendingIsRecipients(s: State)
    requires forall k :: k in s.entries && s.entries[k].read ==> s.entries[k].acked
    ensures Count(s.entries, s.entries.Keys, PENDING) == Sum(RecipientCounts(s))
  {
    var ks := InClass(s.entries, s.entries.Keys, PENDING);
    GroupsPartition(ks, MessageIds(s));
    forall id | id in MessageIds(s) ensures InnersAt(ks, id) == PendingUsers(s, id) {
    }
    assert GroupSizes(ks, MessageIds(s)) == RecipientCounts(s);
  }

  // ------------------------------------------------------- the measure of offline work

  /** The failures that a pending entry can still absorb. */
  function EntryCost(e: Entry, cfg: Config): nat {
    if !e.Pending() then 0 else if e.retry + 1 >= cfg.Max() then 1 else cfg.Max() - e.retry
  }

  /** The failures that a pending row can still absorb. */
  function RowCost(r: Row, cfg: Config): nat {
    if r.status != PENDING then 0 else if r.retryCount + 1 >= cfg.Max() then 1 else cfg.Max() - r.retryCount
  }

  /** The deliveries that the store accounts for: its rows, or without tables its entries. */
  function Domain(s: State): set<Key> { if s.persistent then s.db.rows.Keys else s.entries.Keys }

  function Price(s: State, k: Key, cfg: Config): nat
    requires k in Domain(s)
  {
    if s.persistent then RowCost(s.db.rows[k], cfg) else EntryCost(s.entries[k], cfg)
  }

  ghost function Prices(s: State, cfg: Config): map<Key, nat> {
    map k | k in Domain(s) :: Price(s, k, cfg)
  }

  /** The failed attempts that all pending deliveries together can still absorb. */
  ghost function Total(s: State, cfg: Config): nat { Sum(Prices(s, cfg)) }
}
