/**
 The batch orchestrator `retrieveAmelieResults`: for every sample, in order, skip it
 when its `<sample>.tsv` already exists; otherwise query the scoring API once per
 gene chunk, waiting for the rate limiter before each query, merge the answers into
 a fresh dictionary, and write the ranked result file. A failed query ends the whole
 job at once.

 The outside world is a `World` value: which output files exist when the job starts,
 the API's answer to the n-th query of the job, the n-th reading of the clock, and
 Python's `str(float)`. What the job does to that world is recorded as a trace of
 events: the elapsed time handed to the rate limiter, each query, each file written.
 */
module Runner {
  import opened Strings
  import opened Evidence
  import opened Report
  import opened Sequences

  /** A sample ("LOVD") identifier. */
  type Sample = string

  /** One entry of `lovdPhenotypes`: a sample and its phenotype ids. */
  datatype Query = Query(lovd: Sample, phenotypes: seq<string>)

  /** The two form fields of one POST: comma-joined genes and phenotype ids. */
  datatype Request = Request(genes: string, phenotypes: string)

  /** The failures the runner catches around the POST. */
  datatype Failure = ConnectionError | HttpError | ReadTimeout

  /** The outcome of one POST: a decoded answer, or a failure. */
  datatype Reply = Answer(body: Response) | Failed(failure: Failure)

  /** Everything outside the program that the job observes. */
  datatype World = World(
    existing: set<string>,            // output files present before the job starts
    server: (nat, Request) -> Reply,  // the reply to the n-th request of the job (from 0)
    clock: nat -> real,               // the n-th reading of `time()` in the job (from 0)
    render: real -> string)           // `str(float)`

  /** What the job does to the world, in order. */
  datatype Event =
    | Wait(elapsed: real)                // `waitTillElapsed(1, elapsed)`
    | Post(request: Request)             // one request to the API
    | Write(path: string, text: string)  // one result file, written in full

  /** `Running` while no request has failed; a finished job that is still `Running`
      processed every sample. */
  datatype Status = Running | Aborted(failure: Failure)

  /** The job between two steps: the rate limiter's timestamp, how many clock readings
      and requests were made, the files that exist, the trace so far, the status. */
  datatype Job = Job(requestTime: real, readings: nat, calls: nat, files: set<string>,
                     trace: seq<Event>, status: Status)

  /** `outDir + "/" + lovd + ".tsv"`. */
  function OutFile(outDir: string, lovd: Sample): string {
    outDir + "/" + lovd + ".tsv"
  }

  /** The request for one chunk of genes and one sample's phenotypes. */
  function ChunkRequest(chunk: seq<Gene>, phenotypes: seq<string>): Request {
    Request(Join(chunk, ','), Join(phenotypes, ','))
  }

  /** The job before the first sample: `requestTime = -time()` (clock reading 0). */
  function Start(w: World): Job {
    Job(-w.clock(0), 1, 0, w.existing, [], Running)
  }

  /** What one chunk does to the job: read the clock and hand the elapsed time to
      the rate limiter, send the request; on failure stop, otherwise read the clock
      into the timestamp. Nothing happens once the job has stopped. */
  function Ask(j: Job, w: World, phenotypes: seq<string>, chunk: seq<Gene>): Job {
    if j.status.Aborted? then j
    else
      var elapsed := w.clock(j.readings) - j.requestTime;
      var request := ChunkRequest(chunk, phenotypes);
      var trace := j.trace + [Wait(elapsed), Post(request)];
      match w.server(j.calls, request)
      case Failed(f) =>
        j.(readings := j.readings + 1, calls := j.calls + 1, trace := trace, status := Aborted(f))
      case Answer(_) =>
        j.(requestTime := w.clock(j.readings + 1), readings := j.readings + 2, calls := j.calls + 1, trace := trace)
  }

  /** What the chunks of one sample do to the job, in order. */
  function Asks(j: Job, w: World, phenotypes: seq<string>, chunks: seq<seq<Gene>>): Job
    decreases |chunks|
  {
    if chunks == [] then j else Asks(Ask(j, w, phenotypes, chunks[0]), w, phenotypes, chunks[1..])
  }

  /** The dictionary a sample's answers build from `d`, given that its requests are
      the job's requests number `calls`, `calls + 1`, ...: each answer merged in
      order, up to the first failure. */
  function Collected(w: World, calls: nat, phenotypes: seq<string>, chunks: seq<seq<Gene>>, d: Dict): Dict
    decreases |chunks|
  {
    if chunks == [] then d
    else match w.server(calls, ChunkRequest(chunks[0], phenotypes))
      case Failed(_) => d
      case Answer(body) => Collected(w, calls + 1, phenotypes, chunks[1..], Merge(d, body))
  }

  /** A sample's dictionary keeps its keys in step with its genes, and no gene in it
      has an empty evidence list. */
  lemma {:induction false} CollectedValid(w: World, calls: nat, phenotypes: seq<string>, chunks: seq<seq<Gene>>, d: Dict)
    requires d.Valid() && d.NonEmpty()
    ensures var r := Collected(w, calls, phenotypes, chunks, d); r.Valid() && r.NonEmpty()
    decreases |chunks|
  {
    if chunks != [] {
      match w.server(calls, ChunkRequest(chunks[0], phenotypes))
      case Failed(_) =>
      case Answer(body) =>
        MergeKeepsValid(d, body);
        MergeKeepsNonEmpty(d, body);
        CollectedValid(w, calls + 1, phenotypes, chunks[1..], Merge(d, body));
    }
  }

  /** One sample: skipped when its file exists; otherwise all chunks and, unless a
      request failed, the file written with the ranking of a dictionary built from an
      empty one with this sample's answers only. */
  function SampleStep(j: Job, w: World, outDir: string, chunks: seq<seq<Gene>>, q: Query): Job {
    if j.status.Aborted? then j
    else
      var path := OutFile(outDir, q.lovd);
      if path in j.files then j
      else
        var j' := Asks(j, w, q.phenotypes, chunks);
        if j'.status.Aborted? then j'
        else
          j'.(files := j'.files + {path}, trace := j'.trace + [Write(path, SampleText(w, j.calls, q.phenotypes, chunks))])
  }

  /** The text of a sample's result file: the ranking of the dictionary built from an
      empty one with the answers to the sample's requests, which are the job's
      requests number `calls`, `calls + 1`, ... */
  function SampleText(w: World, calls: nat, phenotypes: seq<string>, chunks: seq<seq<Gene>>): string {
    FileText(Collected(w, calls, phenotypes, chunks, Empty), w.render)
  }

  /** The samples, in order. */
  function Samples(j: Job, w: World, outDir: string, chunks: seq<seq<Gene>>, queries: seq<Query>): Job
    decreases |queries|
  {
    if queries == [] then j
    else Samples(SampleStep(j, w, outDir, chunks, queries[0]), w, outDir, chunks, queries[1..])
  }

  /** The whole job. */
  function Run(w: World, outDir: string, chunks: seq<seq<Gene>>, queries: seq<Query>): Job {
    Samples(Start(w), w, outDir, chunks, queries)
  }

  /** Once a request has failed, nothing more happens. */
  lemma {:induction false} SamplesAfterAbort(j: Job, w: World, outDir: string, chunks: seq<seq<Gene>>, queries: seq<Query>)
    requires j.status.Aborted?
    ensures Samples(j, w, outDir, chunks, queries) == j
    decreases |queries|
  {
    if queries != [] {
      SamplesAfterAbort(j, w, outDir, chunks, queries[1..]);
    }
  }

  /** The runner's outer loop. `lovdPhenotypes` is the samples with their phenotype
      ids in dictionary order, `hgncs` the gene chunks in order. The method returns how
      the job ended and what it did. */
  method RetrieveAmelieResults(lovdPhenotypes: seq<Query>, hgncs: seq<seq<Gene>>, outDir: string, w: World)
    returns (status: Status, trace: seq<Event>)
    ensures status == Run(w, outDir, hgncs, lovdPhenotypes).status
    ensures trace == Run(w, outDir, hgncs, lovdPhenotypes).trace
  {
    var readings := 0;
    var requestTime := -w.clock(readings);
    readings := readings + 1;
    var job := Job(requestTime, readings, 0, w.existing, [], Running);
    ghost var goal := Run(w, outDir, hgncs, lovdPhenotypes);
    var i := 0;
    while i < |lovdPhenotypes|
      invariant 0 <= i <= |lovdPhenotypes|
      invariant job.status == Running
      invariant Samples(job, w, outDir, hgncs, lovdPhenotypes[i..]) == goal
    {
      var lovd := lovdPhenotypes[i];
      var outFile := OutFile(outDir, lovd.lovd);
      assert lovdPhenotypes[i..][1..] == lovdPhenotypes[i + 1..];
      if outFile in job.files {
        i := i + 1;
        continue;
      }
      ghost var before := job;
      var lovdAmelieOutput;
      job, lovdAmelieOutput := RetrieveChunks(job, w, lovd.phenotypes, hgncs);
      if job.status.Aborted? {
        SamplesAfterAbort(job, w, outDir, hgncs, lovdPhenotypes[i + 1..]);
        return job.status, job.trace;
      }
      CollectedValid(w, before.calls, lovd.phenotypes, hgncs, Empty);
      var text := WriteLovdResultsToFile(lovdAmelieOutput, w.render);
      job := job.(files := job.files + {outFile}, trace := job.trace + [Write(outFile, text)]);
      assert SampleStep(before, w, outDir, hgncs, lovd) == job;
      i := i + 1;
    }
    return job.status, job.trace;
  }

  /** The runner's inner loop over the chunks of one sample, from a fresh dictionary:
      wait for the rate limiter, send the request, give up on a failure, otherwise take
      the timestamp and merge the answer. */
  method RetrieveChunks(job: Job, w: World, phenotypes: seq<string>, hgncs: seq<seq<Gene>>)
    returns (next: Job, lovdAmelieOutput: Dict)
    requires job.status == Running
    ensures next == Asks(job, w, phenotypes, hgncs)
    ensures lovdAmelieOutput == Collected(w, job.calls, phenotypes, hgncs, Empty)
  {
    next := job;
    lovdAmelieOutput := Empty;
    var k := 0;
    while k < |hgncs|
      invariant 0 <= k <= |hgncs|
      invariant next.status == Running
      invariant Asks(next, w, phenotypes, hgncs[k..]) == Asks(job, w, phenotypes, hgncs)
      invariant Collected(w, next.calls, phenotypes, hgncs[k..], lovdAmelieOutput)
             == Collected(w, job.calls, phenotypes, hgncs, Empty)
    {
      var hgncsChunk := hgncs[k];
      ghost var current, before := next, lovdAmelieOutput;
      StepAt(hgncs, k);
      AsksStep(current, w, phenotypes, hgncs[k..]);
      CollectedStep(w, current.calls, phenotypes, hgncs[k..], before);
      var elapsed := w.clock(next.readings) - next.requestTime;
      var request := ChunkRequest(hgncsChunk, phenotypes);
      var response := w.server(next.calls, request);
      next := next.(readings := next.readings + 1, calls := next.calls + 1,
                    trace := next.trace + [Wait(elapsed), Post(request)]);
      if response.Failed? {
        next := next.(status := Aborted(response.failure));
        AskFailed(current, w, phenotypes, hgncsChunk);
        AsksAfterAbort(next, w, phenotypes, hgncs[k + 1..]);
        return;
      }
      next := next.(requestTime := w.clock(next.readings), readings := next.readings + 1);
      AskAnswered(current, w, phenotypes, hgncsChunk);
      lovdAmelieOutput := MergeResponse(lovdAmelieOutput, response.body);
      k := k + 1;
    }
    assert hgncs[k..] == [];
  }


  // ---------------------------------------------------------------------------
  // What the trace shows

  /** The requests of a trace, in order. */
  function Requests(trace: seq<Event>): seq<Request> {
    if trace == [] then []
    else (if trace[0].Post? then [trace[0].request] else []) + Requests(trace[1..])
  }

  /** The files written in a trace, in order. */
  function Paths(trace: seq<Event>): seq<string> {
    if trace == [] then []
    else (if trace[0].Write? then [trace[0].path] else []) + Paths(trace[1..])
  }

  /** The elapsed times handed to the rate limiter, in order. */
  function Elapsed(trace: seq<Event>): seq<real> {
    if trace == [] then []
    else (if trace[0].Wait? then [trace[0].elapsed] else []) + Elapsed(trace[1..])
  }

  lemma {:induction false} RequestsAppend(a: seq<Event>, b: seq<Event>)
    ensures Requests(a + b) == Requests(a) + Requests(b)
    decreases |a|
  {
    if a == [] {
      assert a + b == b;
    } else {
      ConsAppend(a, b);
      RequestsAppend(a[1..], b);
      Assoc(if a[0].Post? then [a[0].request] else [], Requests(a[1..]), Requests(b));
    }
  }

  lemma {:induction false} PathsAppend(a: seq<Event>, b: seq<Event>)
    ensures Paths(a + b) == Paths(a) + Paths(b)
    decreases |a|
  {
    if a == [] {
      assert a + b == b;
    } else {
      ConsAppend(a, b);
      PathsAppend(a[1..], b);
      Assoc(if a[0].Write? then [a[0].path] else [], Paths(a[1..]), Paths(b));
    }
  }

  lemma {:induction false} ElapsedAppend(a: seq<Event>, b: seq<Event>)
    ensures Elapsed(a + b) == Elapsed(a) + Elapsed(b)
    decreases |a|
  {
    if a == [] {
      assert a + b == b;
    } else {
      ConsAppend(a, b);
      ElapsedAppend(a[1..], b);
      Assoc(if a[0].Wait? then [a[0].elapsed] else [], Elapsed(a[1..]), Elapsed(b));
    }
  }

  /** Each projection of a trace distributes over concatenation. */
  lemma ProjectAppend(a: seq<Event>, b: seq<Event>)
    ensures Requests(a + b) == Requests(a) + Requests(b)
    ensures Paths(a + b) == Paths(a) + Paths(b)
    ensures Elapsed(a + b) == Elapsed(a) + Elapsed(b)
  {
    RequestsAppend(a, b);
    PathsAppend(a, b);
    ElapsedAppend(a, b);
  }

  /** The requests for the first `k` chunks of one sample, in chunk order. */
  function Sent(chunks: seq<seq<Gene>>, phenotypes: seq<string>, k: nat): (rs: seq<Request>)
    requires k <= |chunks|
    ensures |rs| == k
    decreases k
  {
    if k == 0 then [] else [ChunkRequest(chunks[0], phenotypes)] + Sent(chunks[1..], phenotypes, k - 1)
  }

  lemma SentStep(chunks: seq<seq<Gene>>, phenotypes: seq<string>, n: nat)
    requires n < |chunks|
    ensures Sent(chunks, phenotypes, n + 1) == [ChunkRequest(chunks[0], phenotypes)] + Sent(chunks[1..], phenotypes, n)
  {
  }

  /** The requests after the first chunk of a sample, added to its first request. */
  lemma RequestsStep(j: Job, j1: Job, j': Job, chunks: seq<seq<Gene>>, phenotypes: seq<string>)
    requires chunks != []
    requires j1.calls == j.calls + 1 && j1.calls <= j'.calls <= j1.calls + |chunks| - 1
    requires Requests(j1.trace) == Requests(j.trace) + [ChunkRequest(chunks[0], phenotypes)]
    requires Requests(j'.trace) == Requests(j1.trace) + Sent(chunks[1..], phenotypes, j'.calls - j1.calls)
    ensures Requests(j'.trace) == Requests(j.trace) + Sent(chunks, phenotypes, j'.calls - j.calls)
  {
    var n := j'.calls - j1.calls;
    SentStep(chunks, phenotypes, n);
    Concat(Requests(j.trace), Requests(j1.trace), Requests(j'.trace),
           [ChunkRequest(chunks[0], phenotypes)], Sent(chunks[1..], phenotypes, n));
  }

  /** The `i`-th request of a sample is for its `i`-th chunk of genes, with all of the
      sample's phenotype ids. */
  lemma {:induction false} SentInOrder(chunks: seq<seq<Gene>>, phenotypes: seq<string>, k: nat)
    requires k <= |chunks|
    ensures forall i :: 0 <= i < k ==> Sent(chunks, phenotypes, k)[i] == Request(Join(chunks[i], ','), Join(phenotypes, ','))
    decreases k
  {
    if k > 0 {
      SentInOrder(chunks[1..], phenotypes, k - 1);
    }
  }

  lemma StepAt<T>(s: seq<T>, k: nat)
    requires k < |s|
    ensures s[k..] != [] && s[k..][0] == s[k] && s[k..][1..] == s[k + 1..]
  {
  }

  lemma AsksStep(j: Job, w: World, phenotypes: seq<string>, chunks: seq<seq<Gene>>)
    requires chunks != []
    ensures Asks(j, w, phenotypes, chunks) == Asks(Ask(j, w, phenotypes, chunks[0]), w, phenotypes, chunks[1..])
  {
  }

  lemma CollectedStep(w: World, calls: nat, phenotypes: seq<string>, chunks: seq<seq<Gene>>, d: Dict)
    requires chunks != []
    ensures var reply := w.server(calls, ChunkRequest(chunks[0], phenotypes));
      && (reply.Failed? ==> Collected(w, calls, phenotypes, chunks, d) == d)
      && (reply.Answer? ==> Collected(w, calls, phenotypes, chunks, d)
                            == Collected(w, calls + 1, phenotypes, chunks[1..], Merge(d, reply.body)))
  {
  }

  lemma AskFailed(j: Job, w: World, phenotypes: seq<string>, chunk: seq<Gene>)
    requires j.status == Running
    requires w.server(j.calls, ChunkRequest(chunk, phenotypes)).Failed?
    ensures var request := ChunkRequest(chunk, phenotypes);
      Ask(j, w, phenotypes, chunk)
      == j.(readings := j.readings + 1, calls := j.calls + 1,
            trace := j.trace + [Wait(w.clock(j.readings) - j.requestTime), Post(request)],
            status := Aborted(w.server(j.calls, request).failure))
  {
  }

  lemma AskAnswered(j: Job, w: World, phenotypes: seq<string>, chunk: seq<Gene>)
    requires j.status == Running
    requires w.server(j.calls, ChunkRequest(chunk, phenotypes)).Answer?
    ensures var request := ChunkRequest(chunk, phenotypes);
      Ask(j, w, phenotypes, chunk)
      == j.(requestTime := w.clock(j.readings + 1), readings := j.readings + 2, calls := j.calls + 1,
            trace := j.trace + [Wait(w.clock(j.readings) - j.requestTime), Post(request)])
  {
  }

  /** The requests and files of a wait followed by a request. */
  lemma Exchange(elapsed: real, request: Request)
    ensures Requests([Wait(elapsed), Post(request)]) == [request]
    ensures Paths([Wait(elapsed), Post(request)]) == []
    ensures Elapsed([Wait(elapsed), Post(request)]) == [elapsed]
  {
    var e := [Wait(elapsed), Post(request)];
    assert e[1..] == [Post(request)];
    assert [Post(request)][1..] == [];
    assert Requests([Post(request)]) == [request] + Requests([]);
    assert Paths([Post(request)]) == [] + Paths([]);
    assert Elapsed([Post(request)]) == [] + Elapsed([]);
    assert Requests(e) == [] + Requests([Post(request)]);
    assert Paths(e) == [] + Paths([Post(request)]);
    assert Elapsed(e) == [elapsed] + Elapsed([Post(request)]);
  }

  /** The requests, files and waits of a single write. */
  lemma WriteOnly(path: string, text: string)
    ensures Requests([Write(path, text)]) == []
    ensures Paths([Write(path, text)]) == [path]
    ensures Elapsed([Write(path, text)]) == []
  {
    assert [Write(path, text)][1..] == [];
    assert Requests([Write(path, text)]) == [] + Requests([]);
    assert Paths([Write(path, text)]) == [path] + Paths([]);
    assert Elapsed([Write(path, text)]) == [] + Elapsed([]);
  }

  // ---------------------------------------------------------------------------
  // One sample

  /** One chunk sends exactly its request, after a wait, and writes nothing. */
  lemma AskEffect(j: Job, w: World, phenotypes: seq<string>, chunk: seq<Gene>)
    requires j.status == Running
    ensures var j' := Ask(j, w, phenotypes, chunk);
      && j'.files == j.files
      && j'.calls == j.calls + 1
      && j'.trace != [] && j'.trace[|j'.trace| - 1].Post?
      && Paths(j'.trace) == Paths(j.trace)
      && Requests(j'.trace) == Requests(j.trace) + [ChunkRequest(chunk, phenotypes)]
  {
    var request := ChunkRequest(chunk, phenotypes);
    var elapsed := w.clock(j.readings) - j.requestTime;
    assert Ask(j, w, phenotypes, chunk).trace == j.trace + [Wait(elapsed), Post(request)];
    ProjectAppend(j.trace, [Wait(elapsed), Post(request)]);
    Exchange(elapsed, request);
  }

  lemma {:induction false} AsksAfterAbort(j: Job, w: World, phenotypes: seq<string>, chunks: seq<seq<Gene>>)
    requires j.status.Aborted?
    ensures Asks(j, w, phenotypes, chunks) == j
    decreases |chunks|
  {
    if chunks != [] {
      AsksAfterAbort(j, w, phenotypes, chunks[1..]);
    }
  }

  /** The trace only grows. */
  lemma {:induction false} AsksTraceGrows(j: Job, w: World, phenotypes: seq<string>, chunks: seq<seq<Gene>>)
    ensures |Asks(j, w, phenotypes, chunks).trace| >= |j.trace|
    decreases |chunks|
  {
    if chunks != [] {
      AsksTraceGrows(Ask(j, w, phenotypes, chunks[0]), w, phenotypes, chunks[1..]);
    }
  }

  /** Processing the chunks of a sample writes nothing and sends the chunks' requests
      in chunk order, one per request counted; it sends them all unless one fails, and
      then the failed request is the last event. */
  lemma {:induction false} AsksEffect(j: Job, w: World, phenotypes: seq<string>, chunks: seq<seq<Gene>>)
    requires j.status == Running
    ensures var j' := Asks(j, w, phenotypes, chunks);
      && j'.files == j.files
      && Paths(j'.trace) == Paths(j.trace)
      && j.calls <= j'.calls <= j.calls + |chunks|
      && (j'.status == Running ==> j'.calls == j.calls + |chunks|)
      && (j'.status.Aborted? ==> j'.calls > j.calls && j'.trace != [] && j'.trace[|j'.trace| - 1].Post?)
    decreases |chunks|
  {
    if chunks == [] {
      assert Sent(chunks, phenotypes, 0) == [];
    } else {
      var j1 := Ask(j, w, phenotypes, chunks[0]);
      AskEffect(j, w, phenotypes, chunks[0]);
      var j' := Asks(j1, w, phenotypes, chunks[1..]);
      if j1.status.Aborted? {
        AsksAfterAbort(j1, w, phenotypes, chunks[1..]);
      } else {
        AsksEffect(j1, w, phenotypes, chunks[1..]);
      }
    }
  }

  /** The requests a sample sends are those of its first chunks, in chunk order, one
      per request counted. */
  lemma {:induction false} AsksRequests(j: Job, w: World, phenotypes: seq<string>, chunks: seq<seq<Gene>>)
    requires j.status == Running
    ensures var j' := Asks(j, w, phenotypes, chunks);
      && j.calls <= j'.calls <= j.calls + |chunks|
      && Requests(j'.trace) == Requests(j.trace) + Sent(chunks, phenotypes, j'.calls - j.calls)
    decreases |chunks|
  {
    if chunks != [] {
      var j1 := Ask(j, w, phenotypes, chunks[0]);
      AskEffect(j, w, phenotypes, chunks[0]);
      var j' := Asks(j1, w, phenotypes, chunks[1..]);
      assert Asks(j, w, phenotypes, chunks) == j';
      if j1.status.Aborted? {
        AsksAfterAbort(j1, w, phenotypes, chunks[1..]);
        assert j' == j1;
        assert Requests(j'.trace) == Requests(j1.trace) + Sent(chunks[1..], phenotypes, 0);
      } else {
        AsksRequests(j1, w, phenotypes, chunks[1..]);
      }
      RequestsStep(j, j1, j', chunks, phenotypes);
    }
  }

  /** The first `n` requests of a sample, the job's requests number `calls`,
      `calls + 1`, ..., were all answered. */
  ghost predicate Answered(w: World, calls: nat, phenotypes: seq<string>, chunks: seq<seq<Gene>>, n: nat) {
    n <= |chunks| && forall m :: 0 <= m < n ==> w.server(calls + m, ChunkRequest(chunks[m], phenotypes)).Answer?
  }

  lemma AnsweredCons(w: World, calls: nat, phenotypes: seq<string>, chunks: seq<seq<Gene>>, n: nat)
    requires chunks != [] && w.server(calls, ChunkRequest(chunks[0], phenotypes)).Answer?
    requires Answered(w, calls + 1, phenotypes, chunks[1..], n)
    ensures Answered(w, calls, phenotypes, chunks, n + 1)
  {
    forall m | 0 <= m < n + 1 ensures w.server(calls + m, ChunkRequest(chunks[m], phenotypes)).Answer? {
      if m > 0 {
        assert chunks[1..][m - 1] == chunks[m];
      }
    }
  }

  /** What the API said to the requests a sample made between `j` and `j'`: when the
      sample went through, every request was answered; when it stopped, every request
      but the last was answered and the last one failed, with the failure the job
      stopped with. */
  ghost predicate Replied(j: Job, j': Job, w: World, phenotypes: seq<string>, chunks: seq<seq<Gene>>) {
    && j.calls <= j'.calls <= j.calls + |chunks|
    && (j'.status == Running ==> j'.calls == j.calls + |chunks| && Answered(w, j.calls, phenotypes, chunks, |chunks|))
    && (j'.status.Aborted? ==>
          && j.calls < j'.calls
          && Answered(w, j.calls, phenotypes, chunks, j'.calls - j.calls - 1)
          && w.server(j'.calls - 1, ChunkRequest(chunks[j'.calls - j.calls - 1], phenotypes)) == Failed(j'.status.failure))
  }

  /** The replies to a sample's requests, as `Replied` states them. */
  lemma {:induction false} AsksReplies(j: Job, w: World, phenotypes: seq<string>, chunks: seq<seq<Gene>>)
    requires j.status == Running
    ensures Replied(j, Asks(j, w, phenotypes, chunks), w, phenotypes, chunks)
    decreases |chunks|
  {
    if chunks != [] {
      AsksStep(j, w, phenotypes, chunks);
      var j1 := Ask(j, w, phenotypes, chunks[0]);
      var j' := Asks(j1, w, phenotypes, chunks[1..]);
      if w.server(j.calls, ChunkRequest(chunks[0], phenotypes)).Failed? {
        AskFailed(j, w, phenotypes, chunks[0]);
        AsksAfterAbort(j1, w, phenotypes, chunks[1..]);
        FirstFailed(j, j', w, phenotypes, chunks);
      } else {
        AskAnswered(j, w, phenotypes, chunks[0]);
        AsksReplies(j1, w, phenotypes, chunks[1..]);
        RepliedStep(j, j1, j', w, phenotypes, chunks);
      }
    }
  }

  /** A sample that stops at its first request. */
  lemma FirstFailed(j: Job, j': Job, w: World, phenotypes: seq<string>, chunks: seq<seq<Gene>>)
    requires chunks != [] && w.server(j.calls, ChunkRequest(chunks[0], phenotypes)).Failed?
    requires j'.calls == j.calls + 1
    requires j'.status == Aborted(w.server(j.calls, ChunkRequest(chunks[0], phenotypes)).failure)
    ensures Replied(j, j', w, phenotypes, chunks)
  {
  }

  /** An answered first request followed by the replies to the rest. */
  lemma RepliedStep(j: Job, j1: Job, j': Job, w: World, phenotypes: seq<string>, chunks: seq<seq<Gene>>)
    requires chunks != [] && w.server(j.calls, ChunkRequest(chunks[0], phenotypes)).Answer?
    requires j1.calls == j.calls + 1
    requires Replied(j1, j', w, phenotypes, chunks[1..])
    ensures Replied(j, j', w, phenotypes, chunks)
  {
    if j'.status == Running {
      AnsweredCons(w, j.calls, phenotypes, chunks, |chunks| - 1);
    } else {
      AnsweredCons(w, j.calls, phenotypes, chunks, j'.calls - j1.calls - 1);
      assert chunks[1..][j'.calls - j1.calls - 1] == chunks[j'.calls - j.calls - 1];
    }
  }
  /** The job stopped at request `k` of a sample with these phenotype ids: the
      sample's requests are the job's last `k`, the first `k - 1` of them were
      answered, and the `k`-th failed with the failure the job stopped with. */
  ghost predicate StoppedAt(j: Job, w: World, chunks: seq<seq<Gene>>, phenotypes: seq<string>, k: nat) {
    && 1 <= k <= |chunks| && k <= j.calls
    && Answered(w, j.calls - k, phenotypes, chunks, k - 1)
    && j.status.Aborted?
    && w.server(j.calls - 1, ChunkRequest(chunks[k - 1], phenotypes)) == Failed(j.status.failure)
  }

  lemma RepliedStopped(j: Job, j': Job, w: World, phenotypes: seq<string>, chunks: seq<seq<Gene>>)
    requires Replied(j, j', w, phenotypes, chunks) && j'.status.Aborted?
    ensures StoppedAt(j', w, chunks, phenotypes, j'.calls - j.calls)
  {
  }

  /** A sample that stops: it wrote nothing, sent its first requests in chunk order,
      and stopped right after the request that failed. */
  lemma AsksAborted(j: Job, w: World, phenotypes: seq<string>, chunks: seq<seq<Gene>>)
    requires j.status == Running
    requires Asks(j, w, phenotypes, chunks).status.Aborted?
    ensures var j' := Asks(j, w, phenotypes, chunks);
      && j'.files == j.files
      && j.calls < j'.calls <= j.calls + |chunks|
      && Requests(j'.trace) == Requests(j.trace) + Sent(chunks, phenotypes, j'.calls - j.calls)
      && Paths(j'.trace) == Paths(j.trace)
      && j'.trace != [] && j'.trace[|j'.trace| - 1].Post?
      && StoppedAt(j', w, chunks, phenotypes, j'.calls - j.calls)
  {
    var j' := Asks(j, w, phenotypes, chunks);
    AsksEffect(j, w, phenotypes, chunks);
    AsksRequests(j, w, phenotypes, chunks);
    AsksReplies(j, w, phenotypes, chunks);
    RepliedStopped(j, j', w, phenotypes, chunks);
  }
}
