/**
 What a run of the benchmark runner does, stated over its trace: which requests it
 sends and in which order, which files it writes and with what text, where it stops
 when a request fails, and what elapsed times it hands to the rate limiter.
 */
module RunnerProperties {
  import opened Evidence
  import opened Runner
  import opened Sequences

  /** A sample whose result file already exists sends no request and writes nothing. */
  lemma SampleSkipped(j: Job, w: World, outDir: string, chunks: seq<seq<Gene>>, q: Query)
    requires OutFile(outDir, q.lovd) in j.files
    ensures SampleStep(j, w, outDir, chunks, q) == j
  {
  }

  /** A sample that completes sends one request per chunk, in chunk order, and writes
      exactly one file, its own. */
  lemma SampleCompleted(j: Job, w: World, outDir: string, chunks: seq<seq<Gene>>, q: Query)
    requires j.status == Running && OutFile(outDir, q.lovd) !in j.files
    requires SampleStep(j, w, outDir, chunks, q).status == Running
    ensures var j', path := SampleStep(j, w, outDir, chunks, q), OutFile(outDir, q.lovd);
      && j'.files == j.files + {path}
      && j'.calls == j.calls + |chunks|
      && Requests(j'.trace) == Requests(j.trace) + Sent(chunks, q.phenotypes, |chunks|)
      && Paths(j'.trace) == Paths(j.trace) + [path]
      && Answered(w, j.calls, q.phenotypes, chunks, |chunks|)
  {
    SampleStepCases(j, w, outDir, chunks, q);
    AsksReplies(j, w, q.phenotypes, chunks);
    AsksEffect(j, w, q.phenotypes, chunks);
    AsksRequests(j, w, q.phenotypes, chunks);
    WriteStep(j, Asks(j, w, q.phenotypes, chunks), SampleStep(j, w, outDir, chunks, q),
              OutFile(outDir, q.lovd), SampleText(w, j.calls, q.phenotypes, chunks), chunks, q.phenotypes);
  }

  /** Writing the result file after all of a sample's requests were answered. */
  lemma WriteStep(j: Job, a: Job, j': Job, path: string, text: string, chunks: seq<seq<Gene>>, phenotypes: seq<string>)
    requires a.files == j.files && a.calls == j.calls + |chunks|
    requires Requests(a.trace) == Requests(j.trace) + Sent(chunks, phenotypes, a.calls - j.calls)
    requires Paths(a.trace) == Paths(j.trace)
    requires j' == a.(files := a.files + {path}, trace := a.trace + [Write(path, text)])
    ensures j'.files == j.files + {path} && j'.calls == j.calls + |chunks|
    ensures Requests(j'.trace) == Requests(j.trace) + Sent(chunks, phenotypes, |chunks|)
    ensures Paths(j'.trace) == Paths(j.trace) + [path]
  {
    RequestsAppend(a.trace, [Write(path, text)]);
    PathsAppend(a.trace, [Write(path, text)]);
    WriteOnly(path, text);
    assert Requests(a.trace) + [] == Requests(a.trace);
  }

  /** A sample whose request fails writes nothing; the failed request is its last
      event, and the requests before it went out in chunk order. */
  lemma SampleAborted(j: Job, w: World, outDir: string, chunks: seq<seq<Gene>>, q: Query)
    requires j.status == Running
    requires SampleStep(j, w, outDir, chunks, q).status.Aborted?
    ensures var j' := SampleStep(j, w, outDir, chunks, q);
      && OutFile(outDir, q.lovd) !in j.files
      && j'.files == j.files
      && j.calls < j'.calls <= j.calls + |chunks|
      && Requests(j'.trace) == Requests(j.trace) + Sent(chunks, q.phenotypes, j'.calls - j.calls)
      && Paths(j'.trace) == Paths(j.trace)
      && j'.trace != [] && j'.trace[|j'.trace| - 1].Post?
      && StoppedAt(j', w, chunks, q.phenotypes, j'.calls - j.calls)
  {
    if OutFile(outDir, q.lovd) in j.files {
      SampleSkipped(j, w, outDir, chunks, q);
      assert false;
    }
    SampleStepCases(j, w, outDir, chunks, q);
    AsksAborted(j, w, q.phenotypes, chunks);
  }

  /** The two outcomes of a sample whose file does not exist yet. */
  lemma SampleStepCases(j: Job, w: World, outDir: string, chunks: seq<seq<Gene>>, q: Query)
    requires j.status == Running && OutFile(outDir, q.lovd) !in j.files
    ensures var a, path := Asks(j, w, q.phenotypes, chunks), OutFile(outDir, q.lovd);
      SampleStep(j, w, outDir, chunks, q)
      == if a.status.Aborted? then a
         else a.(files := a.files + {path}, trace := a.trace + [Write(path, SampleText(w, j.calls, q.phenotypes, chunks))])
  {
  }

  /** A sample that completes ends with the write of its file, whose text ranks the
      dictionary built from an empty one with the answers to this sample's own
      requests, which are the job's requests from number `j.calls` on. */
  lemma SampleWrite(j: Job, w: World, outDir: string, chunks: seq<seq<Gene>>, q: Query)
    requires j.status == Running && OutFile(outDir, q.lovd) !in j.files
    requires SampleStep(j, w, outDir, chunks, q).status == Running
    ensures var j' := SampleStep(j, w, outDir, chunks, q);
      && |j'.trace| > |j.trace|
      && j'.trace[|j'.trace| - 1]
         == Write(OutFile(outDir, q.lovd), SampleText(w, j.calls, q.phenotypes, chunks))
  {
    AsksEffect(j, w, q.phenotypes, chunks);
    AsksTraceGrows(j, w, q.phenotypes, chunks);
  }

  /** The samples a job processes when no request fails, in order: those whose file
      exists neither before the job nor because an earlier sample wrote it. */
  function Pending(outDir: string, queries: seq<Query>, files: set<string>): seq<Query>
    decreases |queries|
  {
    if queries == [] then []
    else
      var path := OutFile(outDir, queries[0].lovd);
      if path in files then Pending(outDir, queries[1..], files)
      else [queries[0]] + Pending(outDir, queries[1..], files + {path})
  }

  /** The requests of the given samples: every chunk of the first, then every chunk
      of the next, and so on. */
  function Expected(samples: seq<Query>, chunks: seq<seq<Gene>>): seq<Request>
    decreases |samples|
  {
    if samples == [] then []
    else Sent(chunks, samples[0].phenotypes, |chunks|) + Expected(samples[1..], chunks)
  }

  /** The result files of the given samples, in order. */
  function Written(outDir: string, samples: seq<Query>): seq<string>
    decreases |samples|
  {
    if samples == [] then [] else [OutFile(outDir, samples[0].lovd)] + Written(outDir, samples[1..])
  }

  /** The samples from a running job on, when no request fails: the job sends the
      requests of the pending samples, chunk by chunk, and writes their files in the
      same order. */
  lemma {:induction false} SamplesCompleted(j: Job, w: World, outDir: string, chunks: seq<seq<Gene>>, queries: seq<Query>)
    requires j.status == Running
    requires Samples(j, w, outDir, chunks, queries).status == Running
    ensures var j', pending := Samples(j, w, outDir, chunks, queries), Pending(outDir, queries, j.files);
      && Requests(j'.trace) == Requests(j.trace) + Expected(pending, chunks)
      && Paths(j'.trace) == Paths(j.trace) + Written(outDir, pending)
    decreases |queries|
  {
    if queries != [] {
      var q := queries[0];
      var path := OutFile(outDir, q.lovd);
      var j1 := SampleStep(j, w, outDir, chunks, q);
      var j' := Samples(j1, w, outDir, chunks, queries[1..]);
      assert Samples(j, w, outDir, chunks, queries) == j';
      if j1.status.Aborted? {
        SamplesAfterAbort(j1, w, outDir, chunks, queries[1..]);
        assert false;
      }
      SamplesCompleted(j1, w, outDir, chunks, queries[1..]);
      if path in j.files {
        SampleSkipped(j, w, outDir, chunks, q);
        assert Pending(outDir, queries, j.files) == Pending(outDir, queries[1..], j.files);
      } else {
        SampleCompleted(j, w, outDir, chunks, q);
        var rest := Pending(outDir, queries[1..], j.files + {path});
        assert j1.files == j.files + {path};
        assert Pending(outDir, queries[1..], j1.files) == rest;
        var sent := Sent(chunks, q.phenotypes, |chunks|);
        PendingStep(outDir, queries, j.files, chunks);
        Concat(Requests(j.trace), Requests(j1.trace), Requests(j'.trace), sent, Expected(rest, chunks));
        Concat(Paths(j.trace), Paths(j1.trace), Paths(j'.trace), [path], Written(outDir, rest));
      }
    }
  }

  /** A first sample whose file does not exist is pending, followed by the rest. */
  lemma PendingStep(outDir: string, queries: seq<Query>, files: set<string>, chunks: seq<seq<Gene>>)
    requires queries != [] && OutFile(outDir, queries[0].lovd) !in files
    ensures var q, path := queries[0], OutFile(outDir, queries[0].lovd);
      var rest := Pending(outDir, queries[1..], files + {path});
      && Pending(outDir, queries, files) == [q] + rest
      && Expected([q] + rest, chunks) == Sent(chunks, q.phenotypes, |chunks|) + Expected(rest, chunks)
      && Written(outDir, [q] + rest) == [path] + Written(outDir, rest)
  {
    var q := queries[0];
    var rest := Pending(outDir, queries[1..], files + {OutFile(outDir, q.lovd)});
    assert ([q] + rest)[0] == q && ([q] + rest)[1..] == rest;
  }

  /** The first `m + 1` pending samples, when the first sample is pending: it and the
      first `m` pending samples after it. */
  lemma PendingPrefix(outDir: string, queries: seq<Query>, files: set<string>, chunks: seq<seq<Gene>>, m: nat)
    requires queries != [] && OutFile(outDir, queries[0].lovd) !in files
    requires m < |Pending(outDir, queries[1..], files + {OutFile(outDir, queries[0].lovd)})|
    ensures var q, path := queries[0], OutFile(outDir, queries[0].lovd);
      var rest, pending := Pending(outDir, queries[1..], files + {path}), Pending(outDir, queries, files);
      && m + 1 < |pending| && pending[m + 1] == rest[m]
      && Expected(pending[..m + 1], chunks) == Sent(chunks, q.phenotypes, |chunks|) + Expected(rest[..m], chunks)
      && Written(outDir, pending[..m + 1]) == [path] + Written(outDir, rest[..m])
  {
    var q := queries[0];
    var rest := Pending(outDir, queries[1..], files + {OutFile(outDir, q.lovd)});
    PendingStep(outDir, queries, files, chunks);
    PrefixCons(q, rest, m);
    var done := [q] + rest[..m];
    assert done[0] == q && done[1..] == rest[..m];
  }

  /** The samples from a running job on, when a request fails: the job has finished
      the first `n` pending samples and written exactly their files, sent the first
      `k` requests of the next pending sample (at least one), and stopped right after
      the failed one. */
  lemma {:induction false} SamplesAborted(j: Job, w: World, outDir: string, chunks: seq<seq<Gene>>, queries: seq<Query>)
    returns (n: nat, k: nat)
    requires j.status == Running
    requires Samples(j, w, outDir, chunks, queries).status.Aborted?
    ensures var j', pending := Samples(j, w, outDir, chunks, queries), Pending(outDir, queries, j.files);
      && j'.trace != [] && j'.trace[|j'.trace| - 1].Post?
      && n < |pending| && 1 <= k <= |chunks|
      && Paths(j'.trace) == Paths(j.trace) + Written(outDir, pending[..n])
      && Requests(j'.trace) == Requests(j.trace) + Expected(pending[..n], chunks)
                               + Sent(chunks, pending[n].phenotypes, k)
      && StoppedAt(j', w, chunks, pending[n].phenotypes, k)
    decreases |queries|, 1
  {
    assert queries != [];
    var q := queries[0];
    var path := OutFile(outDir, q.lovd);
    var j1 := SampleStep(j, w, outDir, chunks, q);
    var j' := Samples(j1, w, outDir, chunks, queries[1..]);
    assert Samples(j, w, outDir, chunks, queries) == j';
    var pending := Pending(outDir, queries, j.files);
    if path in j.files {
      SampleSkipped(j, w, outDir, chunks, q);
      assert pending == Pending(outDir, queries[1..], j.files);
      n, k := SamplesAborted(j, w, outDir, chunks, queries[1..]);
    } else if j1.status.Aborted? {
      k := AbortedFirst(j, w, outDir, chunks, queries);
      n := 0;
    } else {
      n, k := AbortedAfterWrite(j, w, outDir, chunks, queries);
    }
  }

  /** The case of `SamplesAborted` where the first pending sample aborts. */
  lemma AbortedFirst(j: Job, w: World, outDir: string, chunks: seq<seq<Gene>>, queries: seq<Query>)
    returns (k: nat)
    requires j.status == Running && queries != [] && OutFile(outDir, queries[0].lovd) !in j.files
    requires SampleStep(j, w, outDir, chunks, queries[0]).status.Aborted?
    ensures var j', pending := Samples(SampleStep(j, w, outDir, chunks, queries[0]), w, outDir, chunks, queries[1..]),
                               Pending(outDir, queries, j.files);
      && j'.trace != [] && j'.trace[|j'.trace| - 1].Post?
      && 0 < |pending| && 1 <= k <= |chunks|
      && Paths(j'.trace) == Paths(j.trace) + Written(outDir, pending[..0])
      && Requests(j'.trace) == Requests(j.trace) + Expected(pending[..0], chunks)
                               + Sent(chunks, pending[0].phenotypes, k)
      && StoppedAt(j', w, chunks, pending[0].phenotypes, k)
  {
    var q := queries[0];
    var j1 := SampleStep(j, w, outDir, chunks, q);
    SampleAborted(j, w, outDir, chunks, q);
    SamplesAfterAbort(j1, w, outDir, chunks, queries[1..]);
    k := j1.calls - j.calls;
    var pending := Pending(outDir, queries, j.files);
    assert pending[0] == q && pending[..0] == [];
    assert Expected([], chunks) == [] && Written(outDir, []) == [];
  }

  /** The case of `SamplesAborted` where the first sample's file is written and a later
      sample aborts. */
  lemma {:induction false} AbortedAfterWrite(j: Job, w: World, outDir: string, chunks: seq<seq<Gene>>, queries: seq<Query>)
    returns (n: nat, k: nat)
    requires j.status == Running && queries != [] && OutFile(outDir, queries[0].lovd) !in j.files
    requires SampleStep(j, w, outDir, chunks, queries[0]).status == Running
    requires Samples(SampleStep(j, w, outDir, chunks, queries[0]), w, outDir, chunks, queries[1..]).status.Aborted?
    ensures var j', pending := Samples(SampleStep(j, w, outDir, chunks, queries[0]), w, outDir, chunks, queries[1..]),
                               Pending(outDir, queries, j.files);
      && j'.trace != [] && j'.trace[|j'.trace| - 1].Post?
      && n < |pending| && 1 <= k <= |chunks|
      && Paths(j'.trace) == Paths(j.trace) + Written(outDir, pending[..n])
      && Requests(j'.trace) == Requests(j.trace) + Expected(pending[..n], chunks)
                               + Sent(chunks, pending[n].phenotypes, k)
      && StoppedAt(j', w, chunks, pending[n].phenotypes, k)
    decreases |queries|, 0
  {
    var q := queries[0];
    var path := OutFile(outDir, q.lovd);
    var j1 := SampleStep(j, w, outDir, chunks, q);
    var j' := Samples(j1, w, outDir, chunks, queries[1..]);
    SampleCompleted(j, w, outDir, chunks, q);
    var rest := Pending(outDir, queries[1..], j.files + {path});
    assert Pending(outDir, queries[1..], j1.files) == rest;
    var m;
    m, k := SamplesAborted(j1, w, outDir, chunks, queries[1..]);
    n := m + 1;
    PendingPrefix(outDir, queries, j.files, chunks, m);
    var sent := Sent(chunks, q.phenotypes, |chunks|);
    Concat3(Requests(j.trace), Requests(j1.trace), Requests(j'.trace), sent,
            Expected(rest[..m], chunks), Sent(chunks, rest[m].phenotypes, k));
    Concat(Paths(j.trace), Paths(j1.trace), Paths(j'.trace), [path], Written(outDir, rest[..m]));
  }
}
