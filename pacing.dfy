/**
 The rate limiter's timestamp across a whole run. The job reads the clock once at the
 start (`requestTime = -time()`), once before every request (the elapsed time it hands
 to `waitTillElapsed`) and once after every answered request (`requestTime = time()`).
 So the wait before request `m` of the job measures from the reading taken after the
 answer to request `m - 1`, whichever sample that request belonged to, and the first
 wait measures from minus the start reading, which is large enough that the first
 request is not delayed.
 */
module Pacing {
  import opened Evidence
  import opened Runner
  import opened RunnerProperties
  import opened Sequences

  /** The timestamp in force before request `calls` of the job. */
  function Stamp(w: World, calls: nat): real {
    if calls == 0 then -w.clock(0) else w.clock(2 * calls)
  }

  /** The waits so far: one per request, each measured from the timestamp in force;
      while running, the next wait reads clock number `2 * calls + 1` against the
      timestamp of the last answered request. */
  ghost predicate Paced(j: Job, w: World) {
    && |Elapsed(j.trace)| == j.calls
    && (forall m :: 0 <= m < j.calls ==> Elapsed(j.trace)[m] == w.clock(2 * m + 1) - Stamp(w, m))
    && (j.status == Running ==> j.readings == 2 * j.calls + 1 && j.requestTime == Stamp(w, j.calls))
  }

  lemma PacedExtend(before: seq<real>, calls: nat, e: real, w: World)
    requires |before| == calls
    requires forall m :: 0 <= m < calls ==> before[m] == w.clock(2 * m + 1) - Stamp(w, m)
    requires e == w.clock(2 * calls + 1) - Stamp(w, calls)
    ensures |before + [e]| == calls + 1
    ensures forall m :: 0 <= m < calls + 1 ==> (before + [e])[m] == w.clock(2 * m + 1) - Stamp(w, m)
  {
  }

  lemma StartPaced(w: World)
    ensures Paced(Start(w), w)
  {
    assert Elapsed([]) == [];
  }

  /** One chunk keeps the waits paced: its wait measures from the timestamp in force,
      and only an answer moves the timestamp. */
  lemma AskPaced(j: Job, w: World, phenotypes: seq<string>, chunk: seq<Gene>)
    requires Paced(j, w)
    ensures Paced(Ask(j, w, phenotypes, chunk), w)
  {
    if j.status == Running {
      var e := w.clock(j.readings) - j.requestTime;
      var r := ChunkRequest(chunk, phenotypes);
      var j' := Ask(j, w, phenotypes, chunk);
      assert j'.trace == j.trace + [Wait(e), Post(r)];
      ElapsedAppend(j.trace, [Wait(e), Post(r)]);
      Exchange(e, r);
      PacedExtend(Elapsed(j.trace), j.calls, e, w);
    }
  }

  lemma {:induction false} AsksPaced(j: Job, w: World, phenotypes: seq<string>, chunks: seq<seq<Gene>>)
    requires Paced(j, w)
    ensures Paced(Asks(j, w, phenotypes, chunks), w)
    decreases |chunks|
  {
    if chunks != [] {
      AskPaced(j, w, phenotypes, chunks[0]);
      AsksPaced(Ask(j, w, phenotypes, chunks[0]), w, phenotypes, chunks[1..]);
    }
  }

  /** A sample keeps the waits paced: writing its file neither waits nor moves the
      timestamp, and skipping it changes nothing. */
  lemma SamplePaced(j: Job, w: World, outDir: string, chunks: seq<seq<Gene>>, q: Query)
    requires Paced(j, w)
    ensures Paced(SampleStep(j, w, outDir, chunks, q), w)
  {
    var path := OutFile(outDir, q.lovd);
    if j.status == Running && path !in j.files {
      AsksPaced(j, w, q.phenotypes, chunks);
      SampleStepCases(j, w, outDir, chunks, q);
      var a := Asks(j, w, q.phenotypes, chunks);
      if a.status == Running {
        var text := SampleText(w, j.calls, q.phenotypes, chunks);
        ElapsedAppend(a.trace, [Write(path, text)]);
        WriteOnly(path, text);
        assert Elapsed(a.trace) + [] == Elapsed(a.trace);
      }
    }
  }

  lemma {:induction false} SamplesPaced(j: Job, w: World, outDir: string, chunks: seq<seq<Gene>>, queries: seq<Query>)
    requires Paced(j, w)
    ensures Paced(Samples(j, w, outDir, chunks, queries), w)
    decreases |queries|
  {
    if queries != [] {
      SamplePaced(j, w, outDir, chunks, queries[0]);
      SamplesPaced(SampleStep(j, w, outDir, chunks, queries[0]), w, outDir, chunks, queries[1..]);
    }
  }

  /** Over a whole run, the wait before request `m` is clock reading `2m + 1` minus
      the timestamp in force: minus the start reading for the first request, and the
      reading taken right after the answer to request `m - 1` for every later one,
      across sample boundaries. */
  lemma RunPaced(w: World, outDir: string, chunks: seq<seq<Gene>>, queries: seq<Query>)
    ensures var j := Run(w, outDir, chunks, queries);
      && |Elapsed(j.trace)| == j.calls
      && (j.calls > 0 ==> Elapsed(j.trace)[0] == w.clock(1) + w.clock(0))
      && (forall m :: 1 <= m < j.calls ==> Elapsed(j.trace)[m] == w.clock(2 * m + 1) - w.clock(2 * m))
  {
    StartPaced(w);
    SamplesPaced(Start(w), w, outDir, chunks, queries);
  }
}
