/**
 The per-sample result accumulator of the benchmark runner: the dictionary that
 maps a gene symbol to the evidence entries the scoring API returned for it, and
 the merge of one chunk's API response into that dictionary.
 */
module Evidence {

  datatype Option<T> = None | Some(value: T)

  type Gene = string

  /** An evidence entry as the runner stores it: `[pubmedId, score]`. */
  datatype Entry = Entry(id: string, score: real)

  /** An evidence pair as the API returns it: `[score, pubmedId]`. The score is
      already a number here (the text-to-float conversion is not modelled). */
  datatype Pair = Pair(score: real, id: string)

  /** One element of the API's answer: `[geneSymbol, [[score, pubmedId], ...]]`. */
  datatype GeneHit = GeneHit(symbol: Gene, pairs: seq<Pair>)

  /** The decoded body of one API answer, in the order the API sent it. */
  type Response = seq<GeneHit>

  /** A Python dictionary from gene symbol to evidence entries. `keys` is its
      iteration order (insertion order); assigning to a key that is already present
      replaces the value and keeps the key where it was. */
  datatype Dict = Dict(keys: seq<Gene>, values: map<Gene, seq<Entry>>) {

    /** The keys are distinct and are exactly the mapped genes. */
    ghost predicate Valid() {
      && (forall i, j :: 0 <= i < j < |keys| ==> keys[i] != keys[j])
      && (forall g :: g in values <==> g in keys)
    }

    /** Every gene maps to at least one evidence entry. */
    ghost predicate NonEmpty() {
      forall g :: g in values ==> |values[g]| > 0
    }

    /** `d[gene]`. The runner only looks up genes it took from the dictionary's own
        keys; any other gene yields no entries. */
    function Lookup(gene: Gene): seq<Entry> {
      if gene in values then values[gene] else []
    }

    /** `d[gene] = entries`. */
    function Put(gene: Gene, entries: seq<Entry>): (d: Dict)
      ensures d.values == values[gene := entries]
      ensures gene in values ==> d.keys == keys
      ensures gene !in values ==> d.keys == keys + [gene]
    {
      if gene in values then Dict(keys, values[gene := entries])
      else Dict(keys + [gene], values[gene := entries])
    }

    /** Assignment keeps the keys distinct and in step with the mapped genes. */
    lemma PutKeepsValid(gene: Gene, entries: seq<Entry>)
      requires Valid()
      ensures Put(gene, entries).Valid()
    {
      if gene !in values {
        var d := Put(gene, entries);
        forall i, j | 0 <= i < j < |d.keys| ensures d.keys[i] != d.keys[j] {
          if j == |keys| {
            assert d.keys[i] == keys[i] && keys[i] in values;
          }
        }
      }
    }
  }

  /** The dictionary a sample starts from: `{}`. */
  const Empty: Dict := Dict([], map[])

  /** The entries built from one gene's pairs: each `[score, id]` becomes
      `[id, score]`, in the order the API returned them. */
  function Stored(pairs: seq<Pair>): (entries: seq<Entry>)
    ensures |entries| == |pairs|
    ensures forall k :: 0 <= k < |pairs| ==> entries[k] == Entry(pairs[k].id, pairs[k].score)
  {
    if pairs == [] then []
    else
      var last := pairs[|pairs| - 1];
      Stored(pairs[..|pairs| - 1]) + [Entry(last.id, last.score)]
  }

  /** The loop that builds `genePubmedScores` for one gene of the response. */
  method DigestScores(pairs: seq<Pair>) returns (genePubmedScores: seq<Entry>)
    ensures genePubmedScores == Stored(pairs)
  {
    genePubmedScores := [];
    var i := 0;
    while i < |pairs|
      invariant 0 <= i <= |pairs|
      invariant genePubmedScores == Stored(pairs[..i])
    {
      var pubmedScores := pairs[i];
      assert pairs[..i + 1][..i] == pairs[..i];
      genePubmedScores := genePubmedScores + [Entry(pubmedScores.id, pubmedScores.score)];
      i := i + 1;
    }
    assert pairs[..i] == pairs;
  }

  /** The effect of one element of the response on the dictionary: a gene whose
      evidence list is empty leaves it alone, any other gene is (re)assigned. */
  function MergeHit(d: Dict, hit: GeneHit): Dict {
    var entries := Stored(hit.pairs);
    if |entries| > 0 then d.Put(hit.symbol, entries) else d
  }

  /** The dictionary after digesting a whole response, element by element. */
  function Merge(d: Dict, response: Response): Dict
    decreases |response|
  {
    if response == [] then d else Merge(MergeHit(d, response[0]), response[1..])
  }

  /** The loop over `response.json()` that merges one chunk's answer into the
      sample's dictionary. */
  method MergeResponse(lovdAmelieOutput: Dict, response: Response) returns (merged: Dict)
    ensures merged == Merge(lovdAmelieOutput, response)
  {
    merged := lovdAmelieOutput;
    var i := 0;
    while i < |response|
      invariant 0 <= i <= |response|
      invariant Merge(merged, response[i..]) == Merge(lovdAmelieOutput, response)
    {
      var gene := response[i];
      var genePubmedScores := DigestScores(gene.pairs);
      if |genePubmedScores| > 0 {
        merged := merged.Put(gene.symbol, genePubmedScores);
      }
      assert response[i..][1..] == response[i + 1..];
      i := i + 1;
    }
  }

  /** Reference definition of what a response says about one gene: the pairs of the
      LAST element naming that gene with a non-empty evidence list, if any. */
  function LastEvidence(response: Response, gene: Gene): Option<seq<Pair>> {
    if response == [] then None
    else match LastEvidence(response[1..], gene)
      case Some(pairs) => Some(pairs)
      case None =>
        if response[0].symbol == gene && |response[0].pairs| > 0 then Some(response[0].pairs) else None
  }

  /** Merging keeps the dictionary's keys distinct and in step with its genes. */
  lemma {:induction false} MergeKeepsValid(d: Dict, response: Response)
    requires d.Valid()
    ensures Merge(d, response).Valid()
    decreases |response|
  {
    if response != [] {
      var entries := Stored(response[0].pairs);
      if |entries| > 0 {
        d.PutKeepsValid(response[0].symbol, entries);
      }
      MergeKeepsValid(MergeHit(d, response[0]), response[1..]);
    }
  }

  /** Merging keeps every gene's evidence list non-empty. */
  lemma {:induction false} MergeKeepsNonEmpty(d: Dict, response: Response)
    requires d.NonEmpty()
    ensures Merge(d, response).NonEmpty()
    decreases |response|
  {
    if response != [] {
      MergeKeepsNonEmpty(MergeHit(d, response[0]), response[1..]);
    }
  }

  /** What a merge does to each gene: a gene the response gives evidence for holds
      exactly the entries of its last such element (replacing, not extending, what was
      there); every other gene is exactly as before, present or absent. */
  lemma {:induction false} MergeOverwrites(d: Dict, response: Response, gene: Gene)
    ensures var r := Merge(d, response);
      match LastEvidence(response, gene)
      case Some(pairs) => gene in r.values && r.values[gene] == Stored(pairs)
      case None =>
        && (gene in r.values <==> gene in d.values)
        && (gene in d.values ==> r.values[gene] == d.values[gene])
    decreases |response|
  {
    if response != [] {
      MergeOverwrites(MergeHit(d, response[0]), response[1..], gene);
    }
  }

  /** One element either leaves the keys alone or appends its gene, which was absent
      and has evidence. */
  lemma MergeHitKeys(d: Dict, hit: GeneHit)
    requires d.Valid()
    ensures MergeHit(d, hit).Valid()
    ensures var d' := MergeHit(d, hit);
      || d'.keys == d.keys
      || (d'.keys == d.keys + [hit.symbol] && hit.symbol !in d.keys && |hit.pairs| > 0)
  {
    var entries := Stored(hit.pairs);
    if |entries| > 0 {
      d.PutKeepsValid(hit.symbol, entries);
    }
  }

  /** Merging never moves a key: the old iteration order is a prefix of the new one,
      and each key added has evidence in the response. */
  lemma {:induction false} MergeKeepsOrder(d: Dict, response: Response)
    requires d.Valid()
    ensures var r := Merge(d, response);
      && |d.keys| <= |r.keys|
      && r.keys[..|d.keys|] == d.keys
      && forall k :: |d.keys| <= k < |r.keys| ==> LastEvidence(response, r.keys[k]).Some?
    decreases |response|
  {
    if response != [] {
      var d' := MergeHit(d, response[0]);
      MergeHitKeys(d, response[0]);
      MergeKeepsOrder(d', response[1..]);
      var r := Merge(d', response[1..]);
      assert r.keys[..|d.keys|] == r.keys[..|d'.keys|][..|d.keys|];
      forall k | |d.keys| <= k < |r.keys|
        ensures LastEvidence(response, r.keys[k]).Some?
      {
        if k >= |d'.keys| {
          assert LastEvidence(response[1..], r.keys[k]).Some?;
        } else {
          assert r.keys[k] == d'.keys[k] == response[0].symbol;
        }
      }
    }
  }
}
