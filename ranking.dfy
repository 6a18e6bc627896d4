/**
 * `sorted(table.items(), key=lambda kv: (kv[1], kv[0]), reverse=True)[:cap]`,
 * the ranking step shared by the scoreboard (bot.py:205-206) and the radar
 * (bot.py:93). Python compares the key tuples metric first, then ticker as a
 * `str`; `reverse=True` reverses the whole key, so among equal metrics the
 * lexicographically larger ticker comes first.
 */
module Ranking {

  /** Python's `<` on `str`: code-point lexicographic order, a proper prefix first. */
  predicate LexLess(a: string, b: string)
    decreases |a|
  {
    b != [] && (a == [] || a[0] < b[0] || (a[0] == b[0] && LexLess(a[1..], b[1..])))
  }

  lemma {:induction false} LexIrreflexive(a: string)
    ensures !LexLess(a, a)
    decreases |a|
  {
    if a != [] {
      LexIrreflexive(a[1..]);
    }
  }

  lemma {:induction false} LexTransitive(a: string, b: string, c: string)
    requires LexLess(a, b) && LexLess(b, c)
    ensures LexLess(a, c)
    decreases |a|
  {
    if a != [] && a[0] == b[0] && b[0] == c[0] {
      LexTransitive(a[1..], b[1..], c[1..]);
    }
  }

  lemma {:induction false} LexTotal(a: string, b: string)
    ensures a == b || LexLess(a, b) || LexLess(b, a)
    decreases |a|
  {
    if a != [] && b != [] && a[0] == b[0] {
      LexTotal(a[1..], b[1..]);
      if a[1..] == b[1..] {
        assert a == [a[0]] + a[1..] && b == [b[0]] + b[1..];
      }
    }
  }

  lemma LexAsymmetric(a: string, b: string)
    requires LexLess(a, b)
    ensures !LexLess(b, a)
  {
    if LexLess(b, a) {
      LexTransitive(a, b, a);
      LexIrreflexive(a);
    }
  }

  /** One row of the aggregated table: a ticker and its metric. */
  datatype Entry = Entry(ticker: string, metric: real)

  /** The key order of `(kv[1], kv[0])`: metric first, then ticker. */
  predicate KeyLess(a: Entry, b: Entry) {
    a.metric < b.metric || (a.metric == b.metric && LexLess(a.ticker, b.ticker))
  }

  lemma KeyTransitive(a: Entry, b: Entry, c: Entry)
    requires KeyLess(a, b) && KeyLess(b, c)
    ensures KeyLess(a, c)
  {
    if a.metric == b.metric == c.metric {
      LexTransitive(a.ticker, b.ticker, c.ticker);
    }
  }

  lemma KeyTotal(a: Entry, b: Entry)
    ensures a == b || KeyLess(a, b) || KeyLess(b, a)
  {
    LexTotal(a.ticker, b.ticker);
  }

  lemma KeyAsymmetric(a: Entry, b: Entry)
    requires KeyLess(a, b)
    ensures !KeyLess(b, a)
  {
    if a.metric == b.metric {
      LexAsymmetric(a.ticker, b.ticker);
    }
  }

  /** Each entry's key is at least that of every later entry. */
  predicate Descending(s: seq<Entry>) {
    forall i, j :: 0 <= i < j < |s| ==> !KeyLess(s[i], s[j])
  }

  /** Each entry's key is strictly above that of every later entry. */
  predicate StrictlyDescending(s: seq<Entry>) {
    forall i, j :: 0 <= i < j < |s| ==> KeyLess(s[j], s[i])
  }

  /**
   * `reverse=True` reverses the whole key, so among equal metrics the
   * tickers come in reverse lexicographic order.
   */
  lemma TiesReverseLexicographic(s: seq<Entry>, i: nat, j: nat)
    requires StrictlyDescending(s)
    requires i < j < |s| && s[i].metric == s[j].metric
    ensures LexLess(s[j].ticker, s[i].ticker) && !LexLess(s[i].ticker, s[j].ticker)
  {
    LexAsymmetric(s[j].ticker, s[i].ticker);
  }

  /** No ticker occurs twice, as in the items of a dict keyed by ticker. */
  predicate DistinctTickers(s: seq<Entry>) {
    forall i, j :: 0 <= i < j < |s| ==> s[i].ticker != s[j].ticker
  }

  /** An entry whose key no later entry exceeds can go in front. */
  lemma PrependDescending(x: Entry, s: seq<Entry>)
    requires Descending(s)
    requires forall j :: 0 <= j < |s| ==> !KeyLess(x, s[j])
    ensures Descending([x] + s)
  {
  }

  /** An entry strictly above the first one is above all of them. */
  lemma AboveHead(e: Entry, s: seq<Entry>)
    requires Descending(s) && s != [] && KeyLess(s[0], e)
    ensures Descending([e] + s)
  {
    forall j | 0 <= j < |s| ensures !KeyLess(e, s[j]) {
      KeyTotal(s[0], s[j]);
      if s[j] != s[0] {
        KeyAsymmetric(s[j], s[0]);
        KeyTransitive(s[j], s[0], e);
      }
      KeyAsymmetric(s[j], e);
    }
    PrependDescending(e, s);
  }

  /** The head stays in front of the rest with e inserted, when e is not above it. */
  lemma HeadStays(e: Entry, s: seq<Entry>, t: seq<Entry>)
    requires Descending(s) && s != [] && !KeyLess(s[0], e)
    requires multiset(t) == multiset(s[1..]) + multiset{e} && Descending(t)
    ensures Descending([s[0]] + t)
  {
    forall j | 0 <= j < |t| ensures !KeyLess(s[0], t[j]) {
      assert t[j] in multiset(t);
      if t[j] != e {
        assert t[j] in multiset(s[1..]);
        var k :| 0 <= k < |s[1..]| && s[1..][k] == t[j];
        assert s[k + 1] == t[j];
      }
    }
    PrependDescending(s[0], t);
  }

  /** Places e before the first entry whose key is below it. */
  function Insert(e: Entry, s: seq<Entry>): (r: seq<Entry>)
    requires Descending(s)
    ensures |r| == |s| + 1
    ensures multiset(r) == multiset(s) + multiset{e}
    ensures Descending(r)
  {
    if s == [] then [e]
    else if KeyLess(s[0], e) then
      AboveHead(e, s);
      [e] + s
    else
      var t := Insert(e, s[1..]);
      assert s == [s[0]] + s[1..];
      HeadStays(e, s, t);
      [s[0]] + t
  }

  /** `sorted(..., reverse=True)` by the key above. */
  function SortDesc(s: seq<Entry>): (r: seq<Entry>)
    ensures |r| == |s|
    ensures multiset(r) == multiset(s)
    ensures Descending(r)
  {
    if s == [] then []
    else
      assert s == s[..|s| - 1] + [s[|s| - 1]];
      Insert(s[|s| - 1], SortDesc(s[..|s| - 1]))
  }

  /** Length of the Python slice `xs[:n]` of a list of length len. */
  function SliceLen(len: nat, n: int): (k: nat)
    ensures k <= len
    ensures n >= 0 ==> k == if n < len then n else len
    ensures n < 0 ==> k == if len + n > 0 then len + n else 0
  {
    if n >= 0 then (if n < len then n else len)
    else if len + n > 0 then len + n else 0
  }

  /**
   * The ranked and truncated table: descending by key, as long as the slice
   * allows, drawn from the table, and every entry left out ranks below every
   * entry kept. With distinct tickers (a dict's items) the order is strict.
   */
  function Rank(table: seq<Entry>, cap: int): (r: seq<Entry>)
    ensures |r| == SliceLen(|table|, cap)
    ensures Descending(r)
    ensures DistinctTickers(table) ==> StrictlyDescending(r) && DistinctTickers(r)
    ensures multiset(r) <= multiset(table)
    ensures forall x, y :: x in r && y in table && y !in r ==> KeyLess(y, x)
  {
    var s := SortDesc(table);
    var r := s[..SliceLen(|s|, cap)];
    PrefixOfDescending(table, s, r);
    r
  }

  /** The facts `Rank` promises, for a prefix r of a descending permutation s of the table. */
  lemma PrefixOfDescending(table: seq<Entry>, s: seq<Entry>, r: seq<Entry>)
    requires multiset(s) == multiset(table) && Descending(s)
    requires |r| <= |s| && r == s[..|r|]
    ensures Descending(r)
    ensures DistinctTickers(table) ==> StrictlyDescending(r) && DistinctTickers(r)
    ensures multiset(r) <= multiset(table)
    ensures forall x, y :: x in r && y in table && y !in r ==> KeyLess(y, x)
  {
    assert s == r + s[|r|..];
    assert multiset(s) == multiset(r) + multiset(s[|r|..]);
    forall x, y | x in r && y in table && y !in r ensures KeyLess(y, x) {
      var i :| 0 <= i < |r| && r[i] == x;
      assert y in multiset(s);
      var j :| 0 <= j < |s| && s[j] == y;
      assert j >= |r|;
      assert !KeyLess(s[i], s[j]);
      KeyTotal(x, y);
    }
    if DistinctTickers(table) {
      DistinctPreserved(table, s);
      forall i, j | 0 <= i < j < |r| ensures KeyLess(r[j], r[i]) {
        assert !KeyLess(r[i], r[j]);
        KeyTotal(r[i], r[j]);
      }
    }
  }

  /** In a table with distinct tickers no entry occurs twice. */
  lemma {:induction false} DistinctCount(a: seq<Entry>, x: Entry)
    requires DistinctTickers(a)
    ensures multiset(a)[x] <= 1
  {
    if a != [] {
      var rest := a[1..];
      assert a == [a[0]] + rest;
      assert DistinctTickers(rest) by {
        forall i, j | 0 <= i < j < |rest| ensures rest[i].ticker != rest[j].ticker {
          assert rest[i] == a[i + 1] && rest[j] == a[j + 1];
        }
      }
      DistinctCount(rest, x);
      if a[0] == x {
        forall k | 0 <= k < |rest| ensures rest[k] != x {
        }
      }
    }
  }

  /** An entry that occurs at most once is not repeated later. */
  lemma NoRepeat(b: seq<Entry>, i: nat, j: nat)
    requires i < j < |b|
    requires multiset(b)[b[i]] <= 1
    ensures b[i] != b[j]
  {
    assert b == b[..j] + [b[j]] + b[j + 1..];
    assert b[..j][i] == b[i];
  }

  /** A permutation of a table with distinct tickers has distinct tickers. */
  lemma DistinctPreserved(a: seq<Entry>, b: seq<Entry>)
    requires multiset(a) == multiset(b)
    requires DistinctTickers(a)
    ensures DistinctTickers(b)
  {
    forall i, j | 0 <= i < j < |b| ensures b[i].ticker != b[j].ticker {
      assert b[i] in multiset(a) && b[j] in multiset(a);
      var p :| 0 <= p < |a| && a[p] == b[i];
      var q :| 0 <= q < |a| && a[q] == b[j];
      DistinctCount(a, b[i]);
      NoRepeat(b, i, j);
      if p < q {
        assert a[p].ticker != a[q].ticker;
      } else {
        assert a[q].ticker != a[p].ticker;
      }
    }
  }

  /**
   * Two descending orderings of the same multiset of entries are equal: the
   * ranking depends only on the table's contents, not on the order in which
   * the dict received its keys.
   */
  lemma {:induction false} DescendingUnique(a: seq<Entry>, b: seq<Entry>)
    requires Descending(a) && Descending(b)
    requires multiset(a) == multiset(b)
    ensures a == b
    decreases |a|
  {
    if a != [] {
      assert |b| == |a| by { assert |multiset(a)| == |multiset(b)|; }
      SameHead(a, b);
      TailMultiset(a);
      TailMultiset(b);
      DescendingUnique(a[1..], b[1..]);
      assert a == [a[0]] + a[1..] && b == [b[0]] + b[1..];
    }
  }

  /** Two descending orderings of the same entries start with the same entry. */
  lemma SameHead(a: seq<Entry>, b: seq<Entry>)
    requires Descending(a) && Descending(b)
    requires multiset(a) == multiset(b)
    requires a != [] && b != []
    ensures a[0] == b[0]
  {
    assert a[0] in multiset(b) && b[0] in multiset(a);
    var i :| 0 <= i < |b| && b[i] == a[0];
    var j :| 0 <= j < |a| && a[j] == b[0];
    assert !KeyLess(b[0], b[i]) || i == 0;
    assert !KeyLess(a[0], a[j]) || j == 0;
    KeyTotal(a[0], b[0]);
  }

  lemma TailMultiset(a: seq<Entry>)
    requires a != []
    ensures multiset(a[1..]) == multiset(a) - multiset{a[0]}
  {
    assert a == [a[0]] + a[1..];
    assert multiset([a[0]] + a[1..]) == multiset([a[0]]) + multiset(a[1..]);
  }

  /** The ranking of a table does not depend on the order of its rows. */
  lemma RankIgnoresOrder(t1: seq<Entry>, t2: seq<Entry>, cap: int)
    requires multiset(t1) == multiset(t2)
    ensures Rank(t1, cap) == Rank(t2, cap)
  {
    DescendingUnique(SortDesc(t1), SortDesc(t2));
    assert |t1| == |t2| by { assert |multiset(t1)| == |multiset(t2)|; }
  }

  /** No ticker of the sequence occurs twice. */
  predicate Distinct(order: seq<string>) {
    forall i, j :: 0 <= i < j < |order| ==> order[i] != order[j]
  }

  /** A repetition-free listing of a set is as long as the set is large. */
  lemma {:induction false} DistinctCard(order: seq<string>, keys: set<string>)
    requires Distinct(order)
    requires forall t :: t in order <==> t in keys
    ensures |order| == |keys|
  {
    if order != [] {
      var last := order[|order| - 1];
      var init := order[..|order| - 1];
      forall t ensures t in init <==> t in keys - {last} {
        if t in init {
          var i :| 0 <= i < |init| && init[i] == t;
          assert order[i] == t;
        }
        if t in order && t != last {
          var i :| 0 <= i < |order| && order[i] == t;
          assert init[i] == t;
        }
      }
      DistinctCard(init, keys - {last});
    }
  }
}
