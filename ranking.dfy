/** Scored entries and the stable descending sort both rankings of the text
    service use: `scored_chunks.sort(reverse=True, key=score)` and
    `sorted(word_freq.items(), key=count, reverse=True)`. Python's sort is stable
    also with `reverse=True`, so entries with equal keys keep their order. */
module Ranking {

  /** A `(score, chunk)` pair, or a `(word, count)` item with the count as key. */
  datatype Entry = Entry(key: nat, item: string)

  predicate SortedDesc(s: seq<Entry>) {
    forall i, j :: 0 <= i < j < |s| ==> s[i].key >= s[j].key
  }

  /** The entries of `s` whose key is `k`, in their order in `s`. */
  function WithKey(s: seq<Entry>, k: nat): seq<Entry> {
    if s == [] then []
    else (if s[0].key == k then [s[0]] else []) + WithKey(s[1..], k)
  }

  function SumKeys(s: seq<Entry>): nat {
    if s == [] then 0 else s[0].key + SumKeys(s[1..])
  }

  /** Number of entries with a positive key. */
  function CountPositive(s: seq<Entry>): nat {
    if s == [] then 0 else (if s[0].key > 0 then 1 else 0) + CountPositive(s[1..])
  }

  /** Python's slice `s[:n]`. */
  function Take<T>(s: seq<T>, n: nat): (r: seq<T>)
    ensures r <= s
    ensures |r| == if |s| <= n then |s| else n
  {
    if |s| <= n then s else s[..n]
  }

  /** Places `x` after every entry with a larger key and before the rest. */
  function Insert(x: Entry, s: seq<Entry>): seq<Entry> {
    if s == [] || x.key >= s[0].key then [x] + s else [s[0]] + Insert(x, s[1..])
  }

  lemma InsertFacts(x: Entry, s: seq<Entry>)
    requires SortedDesc(s)
    ensures SortedDesc(Insert(x, s))
    ensures multiset(Insert(x, s)) == multiset{x} + multiset(s)
    ensures SumKeys(Insert(x, s)) == x.key + SumKeys(s)
    ensures CountPositive(Insert(x, s)) == (if x.key > 0 then 1 else 0) + CountPositive(s)
    ensures forall k :: WithKey(Insert(x, s), k) == (if x.key == k then [x] else []) + WithKey(s, k)
  {
    InsertMultiset(x, s);
    InsertSorted(x, s);
    InsertCounts(x, s);
    forall k ensures WithKey(Insert(x, s), k) == (if x.key == k then [x] else []) + WithKey(s, k) {
      InsertWithKey(x, s, k);
    }
  }

  lemma {:induction false} InsertMultiset(x: Entry, s: seq<Entry>)
    ensures multiset(Insert(x, s)) == multiset{x} + multiset(s)
  {
    if s != [] && x.key < s[0].key {
      InsertMultiset(x, s[1..]);
      assert s == [s[0]] + s[1..];
    }
  }

  lemma {:induction false} InsertSorted(x: Entry, s: seq<Entry>)
    requires SortedDesc(s)
    ensures SortedDesc(Insert(x, s))
  {
    if s == [] || x.key >= s[0].key {
      SortedCons(x, s);
    } else {
      var t := Insert(x, s[1..]);
      InsertSorted(x, s[1..]);
      InsertAtMost(x, s[1..], s[0].key);
      SortedCons(s[0], t);
    }
  }

  predicate KeysAtMost(s: seq<Entry>, bound: nat) {
    forall i :: 0 <= i < |s| ==> s[i].key <= bound
  }

  lemma SortedCons(e: Entry, s: seq<Entry>)
    requires SortedDesc(s) && KeysAtMost(s, e.key)
    ensures SortedDesc([e] + s)
  {
  }

  lemma {:induction false} InsertAtMost(x: Entry, s: seq<Entry>, bound: nat)
    requires x.key <= bound && KeysAtMost(s, bound)
    ensures KeysAtMost(Insert(x, s), bound)
  {
    if s != [] && x.key < s[0].key {
      InsertAtMost(x, s[1..], bound);
    }
  }

  lemma {:induction false} InsertCounts(x: Entry, s: seq<Entry>)
    ensures SumKeys(Insert(x, s)) == x.key + SumKeys(s)
    ensures CountPositive(Insert(x, s)) == (if x.key > 0 then 1 else 0) + CountPositive(s)
  {
    if s == [] || x.key >= s[0].key {
      assert ([x] + s)[1..] == s;
    } else {
      InsertCounts(x, s[1..]);
      assert ([s[0]] + Insert(x, s[1..]))[1..] == Insert(x, s[1..]);
    }
  }

  lemma {:induction false} InsertWithKey(x: Entry, s: seq<Entry>, k: nat)
    ensures WithKey(Insert(x, s), k) == (if x.key == k then [x] else []) + WithKey(s, k)
  {
    if s == [] || x.key >= s[0].key {
      WithKeyCons(x, s, k);
    } else {
      var t := Insert(x, s[1..]);
      InsertWithKey(x, s[1..], k);
      WithKeyCons(s[0], t, k);
      WithKeyCons(s[0], s[1..], k);
      assert s == [s[0]] + s[1..];
      assert x.key == k ==> s[0].key != k;
    }
  }

  lemma WithKeyCons(e: Entry, s: seq<Entry>, k: nat)
    ensures WithKey([e] + s, k) == (if e.key == k then [e] else []) + WithKey(s, k)
  {
    assert ([e] + s)[1..] == s;
  }

  /** Python's stable sort with `reverse=True`: an insertion sort. */
  function SortDesc(s: seq<Entry>): (r: seq<Entry>)
    ensures SortedDesc(r)
    ensures multiset(r) == multiset(s)
  {
    if s == [] then []
    else
      var rest := SortDesc(s[1..]);
      InsertFacts(s[0], rest);
      assert s == [s[0]] + s[1..];
      Insert(s[0], rest)
  }

  /** The sort is stable, keeps the total of the keys and the number of positive keys. */
  lemma {:induction false} SortDescKeeps(s: seq<Entry>)
    ensures forall k :: WithKey(SortDesc(s), k) == WithKey(s, k)
    ensures SumKeys(SortDesc(s)) == SumKeys(s)
    ensures CountPositive(SortDesc(s)) == CountPositive(s)
  {
    if s != [] {
      SortDescKeeps(s[1..]);
      InsertFacts(s[0], SortDesc(s[1..]));
    }
  }

  lemma {:induction false} PrefixKeeps(p: seq<Entry>, s: seq<Entry>)
    requires p <= s
    ensures forall k :: WithKey(p, k) <= WithKey(s, k)
    ensures SumKeys(p) <= SumKeys(s)
    ensures CountPositive(p) <= CountPositive(s)
  {
    if p != [] {
      assert p[1..] <= s[1..];
      PrefixKeeps(p[1..], s[1..]);
    }
  }

  /** After a descending sort the positive keys come first, so a prefix of
      length `n` holds `min(n, CountPositive(s))` of them. */
  lemma {:induction false} TakePositive(s: seq<Entry>, n: nat)
    requires SortedDesc(s)
    ensures CountPositive(Take(s, n)) == if n <= CountPositive(s) then n else CountPositive(s)
  {
    if |s| <= n {
      CountPositiveAtMostLength(s);
    } else if n > 0 {
      assert Take(s, n)[1..] == Take(s[1..], n - 1);
      TakePositive(s[1..], n - 1);
      if s[0].key == 0 {
        SortedZero(s);
      } else {
        CountPositiveAtMostLength(s[1..]);
      }
    } else {
      assert Take(s, n) == [];
      if s[0].key == 0 { SortedZero(s); }
    }
  }

  /** In a descending order the entries with a positive key all come before the
      first entry whose key is zero. */
  lemma {:induction false} PositivesFirst(s: seq<Entry>)
    requires SortedDesc(s)
    ensures forall m :: 0 <= m < |s| && s[m].key > 0 ==> m < CountPositive(s)
  {
    if s != [] {
      if s[0].key > 0 {
        PositivesFirst(s[1..]);
        forall m | 1 <= m < |s| && s[m].key > 0 ensures m < CountPositive(s) {
          assert s[1..][m - 1] == s[m];
        }
      } else {
        assert forall m :: 0 <= m < |s| ==> s[m].key <= s[0].key;
      }
    }
  }

  /** Taking the first `n` entries of the sort keeps the best ones: an entry that
      is left out has a key no larger than that of any entry taken, and entries
      are left out only when `n` entries were taken. */
  lemma TopOfSort(s: seq<Entry>, n: nat)
    ensures var t := Take(SortDesc(s), n);
      && (forall i :: 0 <= i < |t| ==> t[i] in s)
      && (forall e :: e in s && e !in t ==> |t| == n && forall i :: 0 <= i < |t| ==> e.key <= t[i].key)
  {
    var sorted := SortDesc(s);
    var t := Take(sorted, n);
    forall i | 0 <= i < |t| ensures t[i] in s {
      assert t[i] == sorted[i] && sorted[i] in multiset(sorted);
    }
    forall e | e in s && e !in t ensures |t| == n && forall i :: 0 <= i < |t| ==> e.key <= t[i].key {
      assert e in multiset(sorted);
      var m :| 0 <= m < |sorted| && sorted[m] == e;
      assert forall i :: 0 <= i < |t| ==> t[i] == sorted[i];
    }
  }

  lemma {:induction false} CountPositiveAtMostLength(s: seq<Entry>)
    ensures CountPositive(s) <= |s|
  {
    if s != [] { CountPositiveAtMostLength(s[1..]); }
  }

  lemma {:induction false} SortedZero(s: seq<Entry>)
    requires SortedDesc(s) && s != [] && s[0].key == 0
    ensures CountPositive(s) == 0 && CountPositive(Take(s, 0)) == 0
    ensures forall n: nat :: CountPositive(Take(s, n)) == 0
  {
    if |s| > 1 {
      SortedZero(s[1..]);
    }
    forall n: nat ensures CountPositive(Take(s, n)) == 0 {
      PrefixKeeps(Take(s, n), s);
    }
  }
}
