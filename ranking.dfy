/**
 Ranking of one sample's genes: `sorted(d, key=first score, reverse=True)`. Python's
 sort is stable also with `reverse=True`, so genes whose first scores are equal stay
 in the dictionary's iteration order. The sort is modelled as a stable insertion
 sort over the dictionary's keys.
 */
module Ranking {
  import opened Evidence
  import opened Sequences

  /** Sort keys never increase along `gs`. */
  ghost predicate Descending(gs: seq<Gene>, key: Gene -> real) {
    forall i, j :: 0 <= i < j < |gs| ==> key(gs[i]) >= key(gs[j])
  }

  /** The genes of `gs` whose key is `v`, in their order in `gs`. */
  function Filter(gs: seq<Gene>, key: Gene -> real, v: real): seq<Gene> {
    if gs == [] then []
    else (if key(gs[0]) == v then [gs[0]] else []) + Filter(gs[1..], key, v)
  }

  lemma {:induction false} FilterAppend(a: seq<Gene>, b: seq<Gene>, key: Gene -> real, v: real)
    ensures Filter(a + b, key, v) == Filter(a, key, v) + Filter(b, key, v)
    decreases |a|
  {
    if a == [] {
      assert a + b == b;
    } else {
      ConsAppend(a, b);
      FilterAppend(a[1..], b, key, v);
      var head := if key(a[0]) == v then [a[0]] else [];
      assert Filter(a + b, key, v) == head + Filter(a[1..] + b, key, v);
      Assoc(head, Filter(a[1..], key, v), Filter(b, key, v));
    }
  }

  /** In a descending list whose head is below `v`, nothing has key `v`. */
  lemma {:induction false} FilterBelowHead(s: seq<Gene>, key: Gene -> real, v: real)
    requires Descending(s, key)
    requires s != [] && key(s[0]) < v
    ensures Filter(s, key, v) == []
    decreases |s|
  {
    if |s| > 1 {
      FilterBelowHead(s[1..], key, v);
    }
  }

  /** Inserts `g` into the descending list `s` after every gene whose key is at least
      `g`'s, so that `g` follows the genes with an equal key. */
  function Insert(g: Gene, s: seq<Gene>, key: Gene -> real): seq<Gene>
    decreases |s|
  {
    if s == [] then [g]
    else if key(s[0]) >= key(g) then [s[0]] + Insert(g, s[1..], key)
    else [g] + s
  }

  /** Insertion adds `g` and loses nothing. */
  lemma {:induction false} InsertPermutes(g: Gene, s: seq<Gene>, key: Gene -> real)
    ensures multiset(Insert(g, s, key)) == multiset(s) + multiset{g}
    decreases |s|
  {
    if s != [] && key(s[0]) >= key(g) {
      InsertPermutes(g, s[1..], key);
      assert s == [s[0]] + s[1..];
    }
  }

  /** Insertion keeps a list descending. */
  lemma {:induction false} InsertDescending(g: Gene, s: seq<Gene>, key: Gene -> real)
    requires Descending(s, key)
    ensures Descending(Insert(g, s, key), key)
    decreases |s|
  {
    if s == [] {
      DescendingCons(g, [], key);
    } else if key(s[0]) >= key(g) {
      InsertDescending(g, s[1..], key);
      var t := Insert(g, s[1..], key);
      InsertPermutes(g, s[1..], key);
      forall j | 0 <= j < |t| ensures key(s[0]) >= key(t[j]) {
        assert t[j] in multiset(t);
        if t[j] != g {
          assert t[j] in multiset(s[1..]);
          var k :| 0 <= k < |s[1..]| && s[1..][k] == t[j];
          assert s[k + 1] == t[j];
        }
      }
      DescendingCons(s[0], t, key);
    } else {
      DescendingCons(g, s, key);
    }
  }

  lemma DescendingCons(x: Gene, t: seq<Gene>, key: Gene -> real)
    requires Descending(t, key)
    requires forall j :: 0 <= j < |t| ==> key(x) >= key(t[j])
    ensures Descending([x] + t, key)
  {
    forall i, j | 0 <= i < j < |[x] + t| ensures key(([x] + t)[i]) >= key(([x] + t)[j]) {
      assert ([x] + t)[j] == t[j - 1];
      if i > 0 {
        assert ([x] + t)[i] == t[i - 1];
      }
    }
  }

  /** `g` lands behind every gene with the same key, and the other keys' genes keep
      their order. */
  lemma {:induction false} InsertStable(g: Gene, s: seq<Gene>, key: Gene -> real, v: real)
    requires Descending(s, key)
    ensures Filter(Insert(g, s, key), key, v) == Filter(s, key, v) + (if key(g) == v then [g] else [])
    decreases |s|
  {
    var tail := if key(g) == v then [g] else [];
    if s == [] {
      assert Insert(g, s, key) == [g];
      assert Filter([g], key, v) == tail + Filter([], key, v);
    } else if key(s[0]) >= key(g) {
      var head := if key(s[0]) == v then [s[0]] else [];
      var t := Insert(g, s[1..], key);
      InsertStable(g, s[1..], key, v);
      assert Insert(g, s, key) == [s[0]] + t;
      FilterCons(s[0], t, key, v);
      assert Filter(s, key, v) == head + Filter(s[1..], key, v);
      Assoc(head, Filter(s[1..], key, v), tail);
    } else {
      if key(g) == v {
        FilterBelowHead(s, key, v);
      }
      assert Insert(g, s, key) == [g] + s;
      FilterCons(g, s, key, v);
    }
  }

  lemma FilterCons(x: Gene, t: seq<Gene>, key: Gene -> real, v: real)
    ensures Filter([x] + t, key, v) == (if key(x) == v then [x] else []) + Filter(t, key, v)
  {
    assert ([x] + t)[1..] == t;
  }

  /** Stable descending sort of `gs` by `key`. */
  function SortDesc(gs: seq<Gene>, key: Gene -> real): seq<Gene>
    decreases |gs|
  {
    if gs == [] then [] else Insert(gs[|gs| - 1], SortDesc(gs[..|gs| - 1], key), key)
  }

  /** Sorting is a permutation. */
  lemma {:induction false} SortDescPermutes(gs: seq<Gene>, key: Gene -> real)
    ensures multiset(SortDesc(gs, key)) == multiset(gs)
    decreases |gs|
  {
    if gs != [] {
      var init, last := gs[..|gs| - 1], gs[|gs| - 1];
      SortDescPermutes(init, key);
      InsertPermutes(last, SortDesc(init, key), key);
      assert gs == init + [last];
    }
  }

  lemma {:induction false} SortDescDescending(gs: seq<Gene>, key: Gene -> real)
    ensures Descending(SortDesc(gs, key), key)
    decreases |gs|
  {
    if gs != [] {
      SortDescDescending(gs[..|gs| - 1], key);
      InsertDescending(gs[|gs| - 1], SortDesc(gs[..|gs| - 1], key), key);
    }
  }

  lemma {:induction false} SortDescStable(gs: seq<Gene>, key: Gene -> real, v: real)
    ensures Filter(SortDesc(gs, key), key, v) == Filter(gs, key, v)
    decreases |gs|
  {
    if gs != [] {
      var init, last := gs[..|gs| - 1], gs[|gs| - 1];
      var tail := if key(last) == v then [last] else [];
      SortDescStable(init, key, v);
      SortDescDescending(init, key);
      InsertStable(last, SortDesc(init, key), key, v);
      assert SortDesc(gs, key) == Insert(last, SortDesc(init, key), key);
      assert gs == init + [last];
      FilterAppend(init, [last], key, v);
      assert [last][1..] == [];
      assert Filter([last], key, v) == tail + Filter([], key, v);
    }
  }

  /** The sort key `lovdAmelieOutput[k][0][1]`: the score of a gene's first entry.
      It is only ever applied to keys of `d`, whose lists are non-empty; the value
      for any other gene is an arbitrary placeholder. */
  function FirstScore(d: Dict): (key: Gene -> real)
    ensures forall g :: g in d.values && d.values[g] != [] ==> key(g) == d.values[g][0].score
  {
    g => if d.Lookup(g) != [] then d.Lookup(g)[0].score else 0.0
  }

  /** The dictionary's genes, best first score first; genes with equal first scores
      in the dictionary's iteration order. */
  function RetrieveSortedAmelieList(d: Dict): (sorted: seq<Gene>)
    ensures Descending(sorted, FirstScore(d))
  {
    SortDescDescending(d.keys, FirstScore(d));
    SortDesc(d.keys, FirstScore(d))
  }

  /** The ranking lists exactly the dictionary's genes, each once. */
  lemma RankedGenes(d: Dict)
    requires d.Valid()
    ensures var sorted := RetrieveSortedAmelieList(d);
      && |sorted| == |d.keys|
      && (forall k :: 0 <= k < |sorted| ==> sorted[k] in d.values)
      && (forall g :: g in d.values ==> g in sorted)
  {
    var sorted := RetrieveSortedAmelieList(d);
    SortDescPermutes(d.keys, FirstScore(d));
    assert |multiset(d.keys)| == |d.keys|;
    forall k | 0 <= k < |sorted| ensures sorted[k] in d.values {
      assert sorted[k] in multiset(sorted);
    }
    forall g | g in d.values ensures g in sorted {
      assert g in multiset(d.keys);
    }
  }

  /** The ranking is a permutation of the dictionary's keys, ordered by non-increasing
      first score, and it keeps the iteration order among genes with equal first
      scores. */
  lemma RankingIsStableDescendingSort(d: Dict)
    ensures var sorted, key := RetrieveSortedAmelieList(d), FirstScore(d);
      && multiset(sorted) == multiset(d.keys)
      && (forall i, j :: 0 <= i < j < |sorted| ==> key(sorted[i]) >= key(sorted[j]))
      && (forall v :: Filter(sorted, key, v) == Filter(d.keys, key, v))
  {
    var key := FirstScore(d);
    SortDescPermutes(d.keys, key);
    SortDescDescending(d.keys, key);
    forall v ensures Filter(SortDesc(d.keys, key), key, v) == Filter(d.keys, key, v) {
      SortDescStable(d.keys, key, v);
    }
  }
}
