/** Strings the server builds and compares: trimmed text, decimal numbers,
    server message ids and the private-chat key. */
module Text {

  predicate IsSpace(c: char) {
    || c == ' ' || '\U{9}' <= c <= '\U{d}' || c == '\U{85}' || c == '\U{a0}' || c == '\U{1680}'
    || '\U{2000}' <= c <= '\U{200a}' || c == '\U{2028}' || c == '\U{2029}' || c == '\U{202f}'
    || c == '\U{205f}' || c == '\U{3000}'
  }

  function TrimLeft(s: string): string {
    if s != "" && IsSpace(s[0]) then TrimLeft(s[1..]) else s
  }

  function TrimRight(s: string): string {
    if s != "" && IsSpace(s[|s| - 1]) then TrimRight(s[..|s| - 1]) else s
  }

  function TrimSpace(s: string): string {
    TrimRight(TrimLeft(s))
  }

  predicate Blank(s: string) {
    TrimSpace(s) == ""
  }

  lemma {:induction false} TrimLeftExact(s: string) returns (i: nat)
    ensures i <= |s| && TrimLeft(s) == s[i..] && (forall n :: 0 <= n < i ==> IsSpace(s[n]))
    ensures i < |s| ==> !IsSpace(s[i])
    decreases |s|
  {
    i := 0;
    if s != "" && IsSpace(s[0]) {
      var j := TrimLeftExact(s[1..]);
      i := j + 1;
    }
  }

  lemma {:induction false} TrimRightExact(s: string) returns (j: nat)
    ensures j <= |s| && TrimRight(s) == s[..j] && (forall n :: j <= n < |s| ==> IsSpace(s[n]))
    ensures j > 0 ==> !IsSpace(s[j - 1])
    decreases |s|
  {
    j := |s|;
    if s != "" && IsSpace(s[|s| - 1]) {
      j := TrimRightExact(s[..|s| - 1]);
    }
  }

  /** Trimming takes the longest runs of spaces off both ends and nothing else. */
  lemma TrimExact(s: string) returns (i: nat, j: nat)
    ensures i <= j <= |s| && TrimSpace(s) == s[i..j]
    ensures forall n :: 0 <= n < i || j <= n < |s| ==> IsSpace(s[n])
    ensures i < j ==> !IsSpace(s[i]) && !IsSpace(s[j - 1])
  {
    i := TrimLeftExact(s);
    var k := TrimRightExact(s[i..]);
    j := i + k;
    assert s[i..][..k] == s[i..j];
    forall n | j <= n < |s| ensures IsSpace(s[n]) { assert s[n] == s[i..][n - i]; }
    assert k > 0 ==> s[j - 1] == s[i..][k - 1];
  }

  // ---------------------------------------------------------------- decimals

  function Digit(d: nat): (c: char)
    requires d < 10
    ensures c != '-'
  {
    "0123456789"[d]
  }

  function Dec(n: nat): (s: string)
    ensures s != "" && '-' !in s
  {
    if n < 10 then [Digit(n)] else Dec(n / 10) + [Digit(n % 10)]
  }

  predicate IsDigits(s: string) { forall i :: 0 <= i < |s| ==> '0' <= s[i] <= '9' }

  /** The number that a string of digits denotes. */
  function Value(s: string): nat
    requires IsDigits(s)
  {
    if s == "" then 0 else 10 * Value(s[..|s| - 1]) + (s[|s| - 1] as int - '0' as int)
  }

  lemma DigitValue(d: nat)
    requires d < 10
    ensures '0' <= Digit(d) <= '9' && Digit(d) as int - '0' as int == d
  {
  }

  /** A number is written in decimal, without leading zeros. */
  lemma {:induction false} DecDenotes(n: nat)
    ensures IsDigits(Dec(n)) && Value(Dec(n)) == n
    ensures |Dec(n)| > 1 ==> Dec(n)[0] != '0'
    decreases n
  {
    var s := Dec(n);
    DigitValue(n % 10);
    if n < 10 {
      assert s[..0] == "" && Value("") == 0;
    } else {
      DecDenotes(n / 10);
      assert s[..|s| - 1] == Dec(n / 10);
      if n / 10 < 10 { DigitValue(n / 10); }
    }
  }

  lemma DecInjective(a: nat, b: nat)
    requires Dec(a) == Dec(b)
    ensures a == b
  {
    DecDenotes(a);
    DecDenotes(b);
  }

  // ------------------------------------------------------ server message ids

  /** "prefix-millis-counter". */
  function ServerId(prefix: string, millis: nat, counter: nat): string {
    prefix + "-" + Dec(millis) + "-" + Dec(counter)
  }

  /** The text before and after the last separator. */
  function CutLast(s: string): (r: (string, string))
    ensures '-' !in r.1
  {
    if s == "" then ("", "")
    else
      var n := |s| - 1;
      if s[n] == '-' then (s[..n], "") else (CutLast(s[..n]).0, CutLast(s[..n]).1 + [s[n]])
  }

  lemma {:induction false} CutLastExact(a: string, d: string)
    requires '-' !in d
    ensures CutLast(a + "-" + d) == (a, d)
    decreases |d|
  {
    var s := a + "-" + d;
    if d == "" {
      assert s[..|s| - 1] == a;
    } else {
      CutLastExact(a, d[..|d| - 1]);
      assert s[..|s| - 1] == a + "-" + d[..|d| - 1];
      assert d == d[..|d| - 1] + [d[|d| - 1]];
    }
  }

  /** Reading an id back: what follows the last separator is the counter, what is between the last
      two is the millisecond, and what comes before is the prefix. */
  lemma ServerIdReadsBack(prefix: string, millis: nat, counter: nat)
    ensures var (front, last) := CutLast(ServerId(prefix, millis, counter)); var (first, middle) := CutLast(front);
      && first == prefix && IsDigits(middle) && IsDigits(last)
      && Value(middle) == millis && Value(last) == counter
  {
    DecDenotes(millis);
    DecDenotes(counter);
    CutLastExact(prefix + "-" + Dec(millis), Dec(counter));
    CutLastExact(prefix, Dec(millis));
  }

  /** Two server message ids are the same text exactly when all three parts agree. */
  lemma ServerIdInjective(p: string, m: nat, c: nat, q: string, n: nat, d: nat)
    ensures ServerId(p, m, c) == ServerId(q, n, d) <==> p == q && m == n && c == d
  {
    ServerIdReadsBack(p, m, c);
    ServerIdReadsBack(q, n, d);
  }

  // --------------------------------------------------------- private-chat key

  /** Go's `a <= b` on strings; byte order of UTF-8 is code-point order. */
  predicate Leq(a: string, b: string) {
    a == "" || (b != "" && (a[0] < b[0] || (a[0] == b[0] && Leq(a[1..], b[1..]))))
  }

  function C2CChatId(a: string, b: string): string {
    if Leq(a, b) then "c2c:" + a + ":" + b else "c2c:" + b + ":" + a
  }

  lemma {:induction false} LeqTotal(a: string, b: string)
    ensures Leq(a, b) || Leq(b, a)
    ensures Leq(a, b) && Leq(b, a) ==> a == b
    decreases |a|
  {
    if a != "" && b != "" {
      LeqTotal(a[1..], b[1..]);
      assert a == [a[0]] + a[1..] && b == [b[0]] + b[1..];
    }
  }

  /** The strings agree up to `i`, where `a` has the smaller character. */
  predicate DiffersAt(a: string, b: string, i: nat) {
    i < |a| && i < |b| && a[..i] == b[..i] && a[i] < b[i]
  }

  lemma DiffersFirst(a: string, b: string, i: nat)
    requires DiffersAt(a, b, i)
    ensures a[0] < b[0] || a[0] == b[0]
  {
    if i > 0 { assert a[..i][0] == a[0] && b[..i][0] == b[0]; }
  }

  /** The order of names is that of a dictionary. */
  lemma {:induction false} LeqExact(a: string, b: string)
    ensures Leq(a, b) <==> a <= b || exists i: nat :: DiffersAt(a, b, i)
    decreases |a|
  {
    if a != "" && b != "" {
      assert a == [a[0]] + a[1..] && b == [b[0]] + b[1..];
      LeqExact(a[1..], b[1..]);
      if a[0] == b[0] {
        if i: nat :| DiffersAt(a[1..], b[1..], i) {
          assert a[..i + 1] == [a[0]] + a[1..][..i] && b[..i + 1] == [b[0]] + b[1..][..i];
          assert DiffersAt(a, b, i + 1);
        }
        if i: nat :| DiffersAt(a, b, i) {
          assert i > 0 && a[1..][..i - 1] == a[..i][1..] && b[1..][..i - 1] == b[..i][1..];
          assert DiffersAt(a[1..], b[1..], i - 1);
        }
      } else {
        forall i: nat | DiffersAt(a, b, i) ensures a[0] < b[0] { DiffersFirst(a, b, i); }
        assert a[0] < b[0] ==> DiffersAt(a, b, 0);
      }
    }
  }

  /** The key of two users starts with the one that comes first in a dictionary. */
  lemma ChatKeyForm(a: string, b: string)
    requires a <= b || exists i: nat :: DiffersAt(a, b, i)
    ensures C2CChatId(a, b) == "c2c:" + a + ":" + b && C2CChatId(b, a) == C2CChatId(a, b)
  {
    LeqExact(a, b);
    LeqTotal(a, b);
  }

  function Low(a: string, b: string): string { if Leq(a, b) then a else b }
  function High(a: string, b: string): string { if Leq(a, b) then b else a }

  ghost predicate SamePair(a: string, b: string, c: string, d: string) {
    (a == c && b == d) || (a == d && b == c)
  }

  /** `m:k` is `l:h` with the separator moved right: a piece `w` of `h` has become the end of `m`. */
  ghost predicate Moved(l: string, h: string, m: string, k: string) {
    exists w: string :: MovedBy(l, h, m, k, w)
  }

  ghost predicate MovedBy(l: string, h: string, m: string, k: string, w: string) {
    m == l + ":" + w && h == w + ":" + k
  }

  /** One of the two ordered pairs is the other with the separator moved. */
  ghost predicate Shifted(a: string, b: string, c: string, d: string) {
    || Moved(Low(a, b), High(a, b), Low(c, d), High(c, d))
    || Moved(Low(c, d), High(c, d), Low(a, b), High(a, b))
  }

  lemma MovedJoin(l: string, h: string, m: string, k: string)
    requires Moved(l, h, m, k)
    ensures l + ":" + h == m + ":" + k
    ensures ':' in m && ':' in h
  {
    var w: string :| MovedBy(l, h, m, k, w);
    assert m[|l|] == ':' && h[|w|] == ':';
    assert l + ":" + (w + ":" + k) == (l + ":" + w) + ":" + k;
  }

  lemma JoinMoved(l: string, h: string, m: string, k: string)
    requires l + ":" + h == m + ":" + k && |l| < |m|
    ensures Moved(l, h, m, k)
  {
    var s, t := l + ":" + h, m + ":" + k;
    assert l == s[..|l|] && t[..|l|] == m[..|l|];
    assert s[|l|] == ':' && t[|l|] == m[|l|];
    var w := m[|l| + 1..];
    assert m == l + ":" + w;
    assert h == s[|l| + 1..];
    assert t == l + ":" + (w + ":" + k);
    assert t[|l| + 1..] == w + ":" + k;
    assert MovedBy(l, h, m, k, w);
  }

  lemma JoinEqual(l: string, h: string, m: string, k: string)
    ensures l + ":" + h == m + ":" + k <==> (l == m && h == k) || Moved(l, h, m, k) || Moved(m, k, l, h)
  {
    if Moved(l, h, m, k) { MovedJoin(l, h, m, k); }
    if Moved(m, k, l, h) { MovedJoin(m, k, l, h); }
    var s, t := l + ":" + h, m + ":" + k;
    if s == t {
      if |l| < |m| {
        JoinMoved(l, h, m, k);
      } else if |m| < |l| {
        JoinMoved(m, k, l, h);
      } else {
        assert l == s[..|l|] && m == t[..|m|];
        assert h == s[|l| + 1..] && k == t[|m| + 1..];
      }
    }
  }

  lemma ChatKeySymmetric(a: string, b: string)
    ensures C2CChatId(a, b) == C2CChatId(b, a)
  {
    LeqTotal(a, b);
  }

  lemma ChatKeyParts(a: string, b: string)
    ensures C2CChatId(a, b) == "c2c:" + (Low(a, b) + ":" + High(a, b))
  {
    var l, h := Low(a, b), High(a, b);
    assert "c2c:" + l + ":" + h == "c2c:" + (l + ":" + h);
  }

  /** Exactly when two pairs of names share a chat key, for arbitrary names. */
  lemma ChatKeyCollision(a: string, b: string, c: string, d: string)
    ensures C2CChatId(a, b) == C2CChatId(c, d) <==> SamePair(a, b, c, d) || Shifted(a, b, c, d)
  {
    ChatKeyParts(a, b);
    ChatKeyParts(c, d);
    var x, y := Low(a, b) + ":" + High(a, b), Low(c, d) + ":" + High(c, d);
    assert ("c2c:" + x)[4..] == x && ("c2c:" + y)[4..] == y;
    JoinEqual(Low(a, b), High(a, b), Low(c, d), High(c, d));
    SameEnds(a, b, c, d);
  }

  lemma SameEnds(a: string, b: string, c: string, d: string)
    ensures SamePair(a, b, c, d) <==> Low(a, b) == Low(c, d) && High(a, b) == High(c, d)
  {
    LeqTotal(a, b);
    LeqTotal(c, d);
  }

  /** Names without the separator: a key belongs to one unordered pair. */
  lemma ChatKeyInjective(a: string, b: string, c: string, d: string)
    requires ':' !in a && ':' !in b && ':' !in c && ':' !in d
    ensures C2CChatId(a, b) == C2CChatId(c, d) <==> SamePair(a, b, c, d)
  {
    ChatKeyCollision(a, b, c, d);
    if Moved(Low(a, b), High(a, b), Low(c, d), High(c, d)) {
      MovedJoin(Low(a, b), High(a, b), Low(c, d), High(c, d));
    }
    if Moved(Low(c, d), High(c, d), Low(a, b), High(a, b)) {
      MovedJoin(Low(c, d), High(c, d), Low(a, b), High(a, b));
    }
  }

  /** With a separator in a name two different pairs do share a key. */
  lemma ChatKeyClash()
    ensures C2CChatId("a:b", "c") == C2CChatId("a", "b:c")
    ensures !SamePair("a:b", "c", "a", "b:c")
  {
    assert "a:b" + ":" + "c" == "a" + ":" + "b:c";
    assert Leq("a:b", "c") && Leq("a", "b:c");
  }
}
