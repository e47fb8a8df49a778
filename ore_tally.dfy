/**
 * The per-ore tally of a core sample: a dictionary from ore key to count,
 * kept as a sequence of entries in the order their keys were first added
 * (the enumeration order of a dictionary that is only ever added to), and
 * the stable descending sort by count applied before reporting.
 */
module OreTally {

  datatype Entry = Entry(key: string, count: nat)

  type Tally = seq<Entry>

  /** No two entries share a key. */
  ghost predicate DistinctKeys(t: Tally) {
    forall i, j :: 0 <= i < j < |t| ==> t[i].key != t[j].key
  }

  /** The index of the entry for `key`, or -1 when there is none. */
  function Find(t: Tally, key: string): (r: int)
    ensures -1 <= r < |t|
    ensures r >= 0 ==> t[r].key == key && forall j :: 0 <= j < r ==> t[j].key != key
    ensures r == -1 <==> forall j :: 0 <= j < |t| ==> t[j].key != key
  {
    if t == [] then -1
    else if t[0].key == key then 0
    else
      var r' := Find(t[1..], key);
      if r' == -1 then -1 else r' + 1
  }

  /** Looking a key up with a default of 0 for a key never stored. */
  function Lookup(t: Tally, key: string): nat {
    var i := Find(t, key);
    if i < 0 then 0 else t[i].count
  }

  /** Assigning a count to a key: an existing entry is replaced where it stands, a new key is appended. */
  function Store(t: Tally, key: string, v: nat): Tally {
    var i := Find(t, key);
    if i < 0 then t + [Entry(key, v)] else t[i := Entry(key, v)]
  }

  /** Adding one to a key's count. */
  function Bump(t: Tally, key: string): Tally {
    Store(t, key, Lookup(t, key) + 1)
  }

  /** The sum of all counts. */
  function Sum(t: Tally): nat {
    if t == [] then 0 else t[0].count + Sum(t[1..])
  }

  /** The tally built by bumping each key of `ks` in turn, starting from an empty dictionary. */
  function TallyOf(ks: seq<string>): Tally
    decreases |ks|
  {
    if ks == [] then [] else Bump(TallyOf(ks[..|ks| - 1]), ks[|ks| - 1])
  }

  /** The position at which `k` first occurs in `ks`. */
  function FirstIndex(ks: seq<string>, k: string): (r: nat)
    requires k in ks
    ensures r < |ks| && ks[r] == k && k !in ks[..r]
  {
    if ks[0] == k then 0 else 1 + FirstIndex(ks[1..], k)
  }

  lemma {:induction false} LookupAt(t: Tally, j: int)
    requires DistinctKeys(t) && 0 <= j < |t|
    ensures Find(t, t[j].key) == j && Lookup(t, t[j].key) == t[j].count
  {
  }

  lemma {:induction false} SumAppend(t: Tally, e: Entry)
    ensures Sum(t + [e]) == Sum(t) + e.count
  {
    if t != [] {
      assert (t + [e])[1..] == t[1..] + [e];
      SumAppend(t[1..], e);
    }
  }

  lemma {:induction false} SumUpdate(t: Tally, i: int, e: Entry)
    requires 0 <= i < |t|
    ensures Sum(t[i := e]) + t[i].count == Sum(t) + e.count
  {
    if i > 0 {
      assert t[i := e][1..] == t[1..][i - 1 := e];
      SumUpdate(t[1..], i - 1, e);
    }
  }

  /** Storing keeps every existing entry's key in place and appends a new key at the end. */
  lemma StoreKeys(t: Tally, key: string, v: nat)
    ensures var r := Store(t, key, v);
      && |r| == (if Find(t, key) < 0 then |t| + 1 else |t|)
      && (forall j :: 0 <= j < |t| ==> r[j].key == t[j].key)
      && (forall j :: 0 <= j < |t| && t[j].key != key ==> r[j] == t[j])
      && (Find(t, key) < 0 ==> r[|t|] == Entry(key, v))
  {
  }

  lemma StoreLookup(t: Tally, key: string, v: nat)
    requires DistinctKeys(t)
    ensures var r := Store(t, key, v);
      && DistinctKeys(r)
      && Lookup(r, key) == v
      && (forall k :: k != key ==> Lookup(r, k) == Lookup(t, k))
  {
    var r := Store(t, key, v);
    var i := Find(t, key);
    StoreKeys(t, key, v);
    LookupAt(r, if i < 0 then |t| else i);
    forall k | k != key ensures Lookup(r, k) == Lookup(t, k) {
      var f := Find(t, k);
      if f >= 0 {
        LookupAt(t, f);
        LookupAt(r, f);
      }
    }
  }

  lemma StoreSum(t: Tally, key: string, v: nat)
    ensures Sum(Store(t, key, v)) + Lookup(t, key) == Sum(t) + v
  {
    var i := Find(t, key);
    if i < 0 {
      SumAppend(t, Entry(key, v));
    } else {
      SumUpdate(t, i, Entry(key, v));
    }
  }

  /**
   * What assigning a count does: that key now has the count, every other key
   * keeps its count and its place, and a key not yet present goes last.
   */
  lemma StoreSpec(t: Tally, key: string, v: nat)
    requires DistinctKeys(t)
    ensures var r := Store(t, key, v);
      && DistinctKeys(r)
      && |r| == (if Find(t, key) < 0 then |t| + 1 else |t|)
      && Lookup(r, key) == v
      && (forall k :: k != key ==> Lookup(r, k) == Lookup(t, k))
      && (forall j :: 0 <= j < |t| ==> r[j].key == t[j].key)
      && (Find(t, key) < 0 ==> r == t + [Entry(key, v)])
      && Sum(r) + Lookup(t, key) == Sum(t) + v
  {
    StoreKeys(t, key, v);
    StoreLookup(t, key, v);
    StoreSum(t, key, v);
  }

  /** The tally of `ks` has distinct keys, counts each key's occurrences and sums to |ks|. */
  ghost predicate CountsOf(t: Tally, ks: seq<string>) {
    && DistinctKeys(t)
    && (forall k :: Lookup(t, k) == multiset(ks)[k])
    && Sum(t) == |ks|
  }

  lemma {:induction false} TallyOfCounts(ks: seq<string>)
    ensures CountsOf(TallyOf(ks), ks)
  {
    if ks != [] {
      var pre, k := ks[..|ks| - 1], ks[|ks| - 1];
      TallyOfCounts(pre);
      BumpCounts(TallyOf(pre), pre, k);
      assert ks == pre + [k];
    }
  }

  lemma BumpCounts(t0: Tally, pre: seq<string>, k: string)
    requires CountsOf(t0, pre)
    ensures CountsOf(Bump(t0, k), pre + [k])
  {
    StoreLookup(t0, k, Lookup(t0, k) + 1);
    StoreSum(t0, k, Lookup(t0, k) + 1);
    assert multiset(pre + [k]) == multiset(pre) + multiset{k};
  }

  /** The tally's keys occur in `ks`, in the order of their first occurrence there. */
  ghost predicate InFirstOrder(t: Tally, ks: seq<string>) {
    && (forall i :: 0 <= i < |t| ==> t[i].key in ks)
    && (forall i, j :: 0 <= i < j < |t| && t[i].key in ks && t[j].key in ks ==> FirstIndex(ks, t[i].key) < FirstIndex(ks, t[j].key))
  }

  lemma {:induction false} TallyOfOrder(ks: seq<string>)
    ensures InFirstOrder(TallyOf(ks), ks)
  {
    if ks != [] {
      var pre, k := ks[..|ks| - 1], ks[|ks| - 1];
      assert ks == pre + [k];
      TallyOfOrder(pre);
      TallyOfCounts(pre);
      OrderStep(pre, k);
    }
  }

  lemma OrderStep(pre: seq<string>, k: string)
    requires InFirstOrder(TallyOf(pre), pre) && CountsOf(TallyOf(pre), pre)
    ensures InFirstOrder(TallyOf(pre + [k]), pre + [k])
  {
    var ks := pre + [k];
    assert ks[..|ks| - 1] == pre;
    BumpOrder(TallyOf(pre), pre, k);
  }

  lemma BumpOrder(t0: Tally, pre: seq<string>, k: string)
    requires InFirstOrder(t0, pre) && CountsOf(t0, pre)
    ensures InFirstOrder(Bump(t0, k), pre + [k])
  {
    var ks := pre + [k];
    StoreKeys(t0, k, Lookup(t0, k) + 1);
    var t := Bump(t0, k);
    forall i | 0 <= i < |t| ensures t[i].key in ks {
      if i < |t0| {
        assert t[i].key == t0[i].key;
      }
    }
    forall i, j | 0 <= i < j < |t| ensures FirstIndex(ks, t[i].key) < FirstIndex(ks, t[j].key) {
      assert t[i].key == t0[i].key && t0[i].key in pre;
      FirstIndexPrefix(pre, k, t[i].key);
      if j < |t0| {
        assert t[j].key == t0[j].key && t0[j].key in pre;
        FirstIndexPrefix(pre, k, t[j].key);
      } else {
        assert t[j].key == k;
        assert multiset(pre)[k] == 0;
        FirstIndexLast(pre, k);
      }
    }
  }

  lemma {:induction false} FirstIndexLast(pre: seq<string>, k: string)
    requires k !in pre
    ensures FirstIndex(pre + [k], k) == |pre|
  {
    if pre != [] {
      assert (pre + [k])[1..] == pre[1..] + [k];
      FirstIndexLast(pre[1..], k);
    }
  }

  /**
   * What the tally of a sequence of keys holds: one entry per distinct key,
   * in order of first occurrence, each counting the occurrences of its key.
   */
  lemma TallyOfSpec(ks: seq<string>)
    ensures var t := TallyOf(ks);
      && DistinctKeys(t)
      && (forall k :: Lookup(t, k) == multiset(ks)[k])
      && (forall i :: 0 <= i < |t| ==> t[i].key in ks && t[i].count == multiset(ks)[t[i].key] && t[i].count >= 1)
      && (forall i, j :: 0 <= i < j < |t| ==> FirstIndex(ks, t[i].key) < FirstIndex(ks, t[j].key))
      && Sum(t) == |ks|
  {
    TallyOfCounts(ks);
    TallyOfOrder(ks);
    var t := TallyOf(ks);
    forall i | 0 <= i < |t| ensures t[i].count == multiset(ks)[t[i].key] {
      LookupAt(t, i);
    }
  }

  lemma {:induction false} FirstIndexPrefix(pre: seq<string>, k: string, x: string)
    requires x in pre
    ensures FirstIndex(pre + [k], x) == FirstIndex(pre, x)
  {
    if pre[0] != x {
      assert (pre + [k])[1..] == pre[1..] + [k];
      FirstIndexPrefix(pre[1..], k, x);
    }
  }

  // ---------------------------------------------------------------------
  // Stable sort by count, descending.

  /** Counts never increase from left to right. */
  ghost predicate SortedDesc(s: Tally) {
    forall i, j :: 0 <= i < j < |s| ==> s[i].count >= s[j].count
  }

  /** The entries of `s` whose count is `c`, in their order in `s`. */
  function WithCount(s: Tally, c: nat): Tally {
    if s == [] then []
    else if s[0].count == c then [s[0]] + WithCount(s[1..], c)
    else WithCount(s[1..], c)
  }

  /** Places `e` before the first entry whose count does not exceed its own. */
  function Insert(e: Entry, s: Tally): Tally {
    if s == [] || e.count >= s[0].count then [e] + s else [s[0]] + Insert(e, s[1..])
  }

  /** Ordering by count, descending; entries of equal count keep their relative order. */
  function SortByCountDesc(t: Tally): Tally {
    if t == [] then [] else Insert(t[0], SortByCountDesc(t[1..]))
  }

  lemma {:induction false} InsertPerm(e: Entry, s: Tally)
    ensures multiset(Insert(e, s)) == multiset(s) + multiset{e}
  {
    if s != [] && e.count < s[0].count {
      InsertPerm(e, s[1..]);
      assert s == [s[0]] + s[1..];
    }
  }

  lemma {:induction false} InsertSorted(e: Entry, s: Tally)
    requires SortedDesc(s)
    ensures SortedDesc(Insert(e, s))
  {
    if s != [] && e.count < s[0].count {
      var tail := s[1..];
      InsertSorted(e, tail);
      var r := Insert(e, tail);
      assert r[0] == if tail == [] || e.count >= tail[0].count then e else tail[0];
      forall j | 0 <= j < |r| ensures r[j].count <= s[0].count {
        assert j == 0 || r[0].count >= r[j].count;
      }
      var out := [s[0]] + r;
      assert Insert(e, s) == out;
      forall i, j | 0 <= i < j < |out| ensures out[i].count >= out[j].count {
        assert out[j] == r[j - 1];
        if i > 0 {
          assert out[i] == r[i - 1];
        }
      }
    }
  }

  lemma {:induction false} InsertStable(e: Entry, s: Tally, c: nat)
    ensures WithCount(Insert(e, s), c) == WithCount([e] + s, c)
  {
    if s != [] && e.count < s[0].count {
      InsertStable(e, s[1..], c);
      assert ([s[0]] + Insert(e, s[1..]))[1..] == Insert(e, s[1..]);
      assert ([e] + s)[1..] == s;
      assert ([e] + s[1..])[1..] == s[1..];
      assert s == [s[0]] + s[1..];
    }
  }

  lemma {:induction false} SortPerm(t: Tally)
    ensures multiset(SortByCountDesc(t)) == multiset(t) && |SortByCountDesc(t)| == |t|
  {
    if t != [] {
      SortPerm(t[1..]);
      var s := SortByCountDesc(t[1..]);
      InsertPerm(t[0], s);
      assert t == [t[0]] + t[1..];
      assert |Insert(t[0], s)| == |multiset(Insert(t[0], s))|;
    }
  }

  lemma {:induction false} SortSorted(t: Tally)
    ensures SortedDesc(SortByCountDesc(t))
  {
    if t != [] {
      SortSorted(t[1..]);
      InsertSorted(t[0], SortByCountDesc(t[1..]));
    }
  }

  lemma {:induction false} SortStable(t: Tally, c: nat)
    ensures WithCount(SortByCountDesc(t), c) == WithCount(t, c)
  {
    if t != [] {
      SortStable(t[1..], c);
      var s := SortByCountDesc(t[1..]);
      InsertStable(t[0], s, c);
      assert ([t[0]] + s)[1..] == s;
      assert WithCount(t, c) == if t[0].count == c then [t[0]] + WithCount(t[1..], c) else WithCount(t[1..], c);
    }
  }

  /**
   * The sorted tally: counts non-increasing, a permutation of the tally,
   * and for every count the entries with that count in the tally's order.
   */
  lemma SortSpec(t: Tally)
    ensures var r := SortByCountDesc(t);
      && SortedDesc(r)
      && multiset(r) == multiset(t)
      && |r| == |t|
      && forall c: nat :: WithCount(r, c) == WithCount(t, c)
  {
    SortPerm(t);
    SortSorted(t);
    forall c: nat ensures WithCount(SortByCountDesc(t), c) == WithCount(t, c) {
      SortStable(t, c);
    }
  }

  lemma {:induction false} WithCountIn(s: Tally, c: nat, x: Entry)
    ensures x in WithCount(s, c) <==> x in s && x.count == c
  {
    if s != [] {
      WithCountIn(s[1..], c, x);
      assert s == [s[0]] + s[1..];
    }
  }

  lemma HeadHasCount(s: Tally)
    ensures s != [] ==> s[0] in WithCount(s, s[0].count)
  {
  }

  /**
   * A stable descending sort is determined by its two properties: any
   * sequence with counts non-increasing that has, for every count, the
   * same entries in the same order as the tally is the sorted tally.
   */
  lemma {:induction false} SortUnique(t: Tally, r: Tally)
    requires SortedDesc(r)
    requires forall c: nat :: WithCount(r, c) == WithCount(t, c)
    ensures r == SortByCountDesc(t)
  {
    SortSpec(t);
    SortedSame(r, SortByCountDesc(t));
  }

  lemma {:induction false} SortedSame(a: Tally, b: Tally)
    requires SortedDesc(a) && SortedDesc(b)
    requires forall c: nat :: WithCount(a, c) == WithCount(b, c)
    ensures a == b
    decreases |a| + |b|
  {
    if a == [] || b == [] {
      HeadHasCount(a);
      HeadHasCount(b);
    } else {
      var m := a[0].count;
      WithCountIn(a, m, a[0]);
      var y := WithCount(b, m)[0];
      WithCountIn(b, m, y);
      assert m <= b[0].count by {
        var j :| 0 <= j < |b| && b[j] == y;
      }
      WithCountIn(b, b[0].count, b[0]);
      var z := WithCount(a, b[0].count)[0];
      WithCountIn(a, b[0].count, z);
      assert b[0].count <= m by {
        var j :| 0 <= j < |a| && a[j] == z;
      }
      assert WithCount(a, m) == [a[0]] + WithCount(a[1..], m);
      assert WithCount(b, m) == [b[0]] + WithCount(b[1..], m);
      assert a[0] == b[0];
      forall c: nat ensures WithCount(a[1..], c) == WithCount(b[1..], c) {
        if c != m {
          assert WithCount(a, c) == WithCount(a[1..], c);
          assert WithCount(b, c) == WithCount(b[1..], c);
        } else {
          assert [a[0]] + WithCount(a[1..], m) == [b[0]] + WithCount(b[1..], m);
          assert ([a[0]] + WithCount(a[1..], m))[1..] == WithCount(a[1..], m);
          assert ([b[0]] + WithCount(b[1..], m))[1..] == WithCount(b[1..], m);
        }
      }
      SortedSame(a[1..], b[1..]);
      assert a == [a[0]] + a[1..] && b == [b[0]] + b[1..];
    }
  }

  /** Sorting keeps the keys distinct. */
  lemma SortDistinct(t: Tally)
    requires DistinctKeys(t)
    ensures DistinctKeys(SortByCountDesc(t))
  {
    SortSpec(t);
    var r := SortByCountDesc(t);
    forall i, j | 0 <= i < j < |r| ensures r[i].key != r[j].key {
      assert r[i] in multiset(t) && r[j] in multiset(t);
      var p :| 0 <= p < |t| && t[p] == r[i];
      var q :| 0 <= q < |t| && t[q] == r[j];
      OnceInDistinct(t, p);
      NotTwice(r, i, j);
    }
  }

  /** In a sequence with distinct keys every entry occurs once. */
  lemma OnceInDistinct(t: Tally, p: int)
    requires DistinctKeys(t) && 0 <= p < |t|
    ensures multiset(t)[t[p]] == 1
  {
    var e := t[p];
    assert t == t[..p] + [e] + t[p + 1..];
    forall x | 0 <= x < |t| && x != p ensures t[x] != e {
      assert t[x].key != t[p].key;
    }
    assert e !in t[..p] && e !in t[p + 1..];
    assert multiset(t) == multiset(t[..p]) + multiset{e} + multiset(t[p + 1..]);
  }

  /** An entry that occurs at most once cannot stand at two positions. */
  lemma NotTwice(r: Tally, i: int, j: int)
    requires 0 <= i < j < |r| && multiset(r)[r[i]] <= 1
    ensures r[i] != r[j]
  {
    assert r == r[..j] + [r[j]] + r[j + 1..];
    assert r[i] in r[..j];
    assert multiset(r) == multiset(r[..j]) + multiset{r[j]} + multiset(r[j + 1..]);
  }
}
