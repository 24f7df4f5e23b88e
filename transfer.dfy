/** `download_assets` and its per-asset worker `_dl`: every collected URL is
    fetched, streamed chunk by chunk into its output file, and recorded in
    the URL-to-path mapping when it completes. The network is an input: for
    each asset, `Fetch` says whether a cancellation was observed before the
    request and how the server answered, chunk by chunk, with the
    cancellation checks the stream loop makes. The tasks run one after the
    other, in the order they are created. */
module Transfer {
  import opened Text
  import opened Assets
  import Filenames

  type Byte = b: int | 0 <= b < 256

  /** One chunk of a streamed body, with the outcome of the cancellation
      check the loop makes before handling it (`cancel_cb()` or
      `asset_cancel_cb(kind, url)`). */
  datatype Chunk = Chunk(cancelRequested: bool, data: seq<Byte>)

  /** How the server answers: no response at all, an error status
      (`raise_for_status` raises), or a body. A body "breaks off" when the
      stream raises after the listed chunks. */
  datatype Response =
    | Unreachable
    | HttpError(status: int)
    | Body(contentType: Option<string>, contentLength: Option<int>, chunks: seq<Chunk>, breaksOff: bool)

  /** What one task meets: the global cancellation test before the request,
      then the response. */
  datatype Fetch = Fetch(cancelledBefore: bool, response: Response)

  /** The `asset_cb` events. */
  datatype AssetEvent =
    | Start(kind: Category, url: Url, total: Option<int>)
    | Progress(kind: Category, url: Url, read: nat, total: Option<int>)
    | Cancelled(kind: Category, url: Url)
    | Done(kind: Category, url: Url, rel: string)
    | Error(kind: Category, url: Url, status: Option<int>)

  /** A `progress_cb(completed, total, phase)` call. */
  datatype ProgressEvent = ProgressEvent(completed: nat, total: nat, phase: string)

  /** `normalize_filename`: the file name for a URL and its content type. */
  type Namer = (Url, Option<string>) -> string

  /** One download task, `_dl(url, kind)`. */
  datatype Task = Task(kind: Category, url: Url)

  /** How a task ends: skipped before the request, failed, cancelled during
      the transfer, or saved at a relative path. */
  datatype Outcome = Skipped | Failed | Stopped | Saved(rel: string)

  // -------------------------------------------------- one streamed body

  /** The index of the first chunk at which a cancellation is seen, or the
      number of chunks when none is. */
  function CancelPoint(cs: seq<Chunk>): (k: nat)
    ensures k <= |cs|
    ensures forall j :: 0 <= j < k ==> !cs[j].cancelRequested
    ensures k < |cs| ==> cs[k].cancelRequested
  {
    if cs == [] then 0
    else if cs[0].cancelRequested then 0
    else 1 + CancelPoint(cs[1..])
  }

  /** The bytes of the chunks, in order. */
  function Received(cs: seq<Chunk>): seq<Byte> {
    if cs == [] then [] else Received(cs[..|cs| - 1]) + cs[|cs| - 1].data
  }

  /** The progress events for the chunks handled: one per non-empty chunk,
      with the running byte count. */
  function ProgressOf(kind: Category, url: Url, cs: seq<Chunk>, total: Option<int>): seq<AssetEvent> {
    if cs == [] then []
    else
      var front := ProgressOf(kind, url, cs[..|cs| - 1], total);
      if cs[|cs| - 1].data == [] then front
      else front + [Progress(kind, url, |Received(cs)|, total)]
  }

  /** The files after a body is streamed to `path`: the bytes received when
      the stream ran to its end, nothing at `path` when it was cancelled. */
  function Stored(files: map<string, seq<Byte>>, path: string, cs: seq<Chunk>): map<string, seq<Byte>> {
    if CancelPoint(cs) < |cs| then files - {path} else files[path := Received(cs)]
  }

  /** The `with open(out, "wb")` block and its clean-up: copy chunks until a
      cancellation is seen, reporting progress after each non-empty one, and
      unlink the file when the copy was cancelled. */
  method Copy(files0: map<string, seq<Byte>>, events0: seq<AssetEvent>, kind: Category, url: Url,
              path: string, cs: seq<Chunk>, total: Option<int>)
    returns (files: map<string, seq<Byte>>, events: seq<AssetEvent>)
    ensures files == Stored(files0, path, cs)
    ensures events == events0 + ProgressOf(kind, url, cs[..CancelPoint(cs)], total)
  {
    events := events0;
    files := files0[path := []];
    var body: seq<Byte> := [];
    var i := 0;
    var stopped := false;
    while i < |cs| && !stopped
      invariant 0 <= i <= CancelPoint(cs)
      invariant stopped ==> i == CancelPoint(cs) && i < |cs|
      invariant body == Received(cs[..i])
      invariant files == files0[path := body]
      invariant events == events0 + ProgressOf(kind, url, cs[..i], total)
      decreases |cs| - i + (if stopped then 0 else 1)
    {
      CancelPointAt(cs, i);
      if cs[i].cancelRequested {
        stopped := true;
      } else {
        body, events := Feed(kind, url, cs, i, total, events0, body, events);
        files := files[path := body];
        i := i + 1;
      }
    }
    if stopped {
      DropUpdated(files0, path, body);
      files := files - {path};
    } else {
      assert i == |cs| == CancelPoint(cs);
      assert cs[..|cs|] == cs;
    }
  }

  /** Within the stream, a chunk asks for cancellation exactly at the
      cancellation point. */
  lemma CancelPointAt(cs: seq<Chunk>, i: nat)
    requires i <= CancelPoint(cs) && i < |cs|
    ensures cs[i].cancelRequested <==> i == CancelPoint(cs)
  {
  }

  lemma DropUpdated<K, V>(m: map<K, V>, k: K, v: V)
    ensures m[k := v] - {k} == m - {k}
  {
  }

  /** One turn of the copy loop on a chunk that is not cancelled: write its
      bytes and report the running count when it is not empty. */
  method Feed(kind: Category, url: Url, cs: seq<Chunk>, i: nat, total: Option<int>,
              ghost events0: seq<AssetEvent>, body0: seq<Byte>, before: seq<AssetEvent>)
    returns (body: seq<Byte>, events: seq<AssetEvent>)
    requires i < |cs| && body0 == Received(cs[..i])
    requires before == events0 + ProgressOf(kind, url, cs[..i], total)
    ensures body == Received(cs[..i + 1])
    ensures events == events0 + ProgressOf(kind, url, cs[..i + 1], total)
  {
    ChunkStep(kind, url, cs, i, total);
    body, events := body0, before;
    if cs[i].data != [] {
      Associative(events0, ProgressOf(kind, url, cs[..i], total), [Progress(kind, url, |body0 + cs[i].data|, total)]);
      body := body0 + cs[i].data;
      events := before + [Progress(kind, url, |body|, total)];
    } else {
      assert body0 + cs[i].data == body0;
    }
  }

  /** Handling chunk `i` extends the bytes by its data and the events by
      one report when that data is not empty. */
  lemma ChunkStep(kind: Category, url: Url, cs: seq<Chunk>, i: nat, total: Option<int>)
    requires i < |cs|
    ensures Received(cs[..i + 1]) == Received(cs[..i]) + cs[i].data
    ensures ProgressOf(kind, url, cs[..i + 1], total) ==
      if cs[i].data == [] then ProgressOf(kind, url, cs[..i], total)
      else ProgressOf(kind, url, cs[..i], total) + [Progress(kind, url, |Received(cs[..i + 1])|, total)]
  {
    assert cs[..i + 1][..i] == cs[..i];
  }

  /** The local path a body is written to. */
  function PathOf(t: Task, r: Response, name: Namer): string
    requires r.Body?
  {
    Folder(t.kind) + "/" + name(t.url, r.contentType)
  }

  function OutcomeOf(t: Task, f: Fetch, name: Namer): Outcome {
    if f.cancelledBefore then Skipped
    else
      match f.response
      case Unreachable => Failed
      case HttpError(_) => Failed
      case Body(_, _, cs, breaks) =>
        if CancelPoint(cs) < |cs| then Stopped
        else if breaks then Failed
        else Saved(PathOf(t, f.response, name))
  }

  /** The events one task emits. */
  function TaskEvents(t: Task, f: Fetch, name: Namer): seq<AssetEvent> {
    if f.cancelledBefore then []
    else
      match f.response
      case Unreachable => [Error(t.kind, t.url, None)]
      case HttpError(s) => [Error(t.kind, t.url, Some(s))]
      case Body(_, len, cs, breaks) =>
        var k := CancelPoint(cs);
        [Start(t.kind, t.url, len)] + ProgressOf(t.kind, t.url, cs[..k], len) +
        (if k < |cs| then [Cancelled(t.kind, t.url)]
         else if breaks then [Error(t.kind, t.url, None)]
         else [Done(t.kind, t.url, PathOf(t, f.response, name))])
  }

  /** The output files after one task. */
  function FilesAfter(files: map<string, seq<Byte>>, t: Task, f: Fetch, name: Namer): map<string, seq<Byte>> {
    if f.cancelledBefore || !f.response.Body? then files
    else
      Stored(files, PathOf(t, f.response, name), f.response.chunks)
  }

  /** The mapping after one task: the path is recorded only for a saved body. */
  function MappingAfter(m: Mapping, t: Task, f: Fetch, name: Namer): (r: Mapping)
    requires Total(m)
    ensures Total(r)
  {
    match OutcomeOf(t, f, name)
    case Saved(rel) => m[t.kind := m[t.kind][t.url := rel]]
    case _ => m
  }

  // ------------------------------------------------------------- a whole run

  /** The tasks for the URLs of one category, in the given order. */
  function TasksOf(kind: Category, urls: seq<Url>): (r: seq<Task>)
    ensures |r| == |urls|
    ensures forall j :: 0 <= j < |urls| ==> r[j] == Task(kind, urls[j])
  {
    if urls == [] then [] else TasksOf(kind, urls[..|urls| - 1]) + [Task(kind, urls[|urls| - 1])]
  }

  /** The tasks of the first `n` categories, category by category. */
  function TaskListUpTo(order: map<Category, seq<Url>>, n: nat): seq<Task>
    requires Total(order) && n <= |Categories|
  {
    if n == 0 then [] else TaskListUpTo(order, n - 1) + TasksOf(Categories[n - 1], order[Categories[n - 1]])
  }

  /** `for kind, urls in assets.items(): for url in urls:`, with `order[kind]`
      the order in which the set `assets[kind]` is iterated. */
  function TaskList(order: map<Category, seq<Url>>): seq<Task>
    requires Total(order)
  {
    TaskListUpTo(order, |Categories|)
  }

  predicate Distinct<T(==)>(s: seq<T>) {
    forall i, j :: 0 <= i < j < |s| ==> s[i] != s[j]
  }

  /** `order[c]` lists each URL of `assets[c]` exactly once. */
  ghost predicate Enumerates(order: map<Category, seq<Url>>, assets: AssetSet) {
    Total(order) && Total(assets) &&
    forall c: Category :: Distinct(order[c]) && forall u :: u in order[c] <==> u in assets[c]
  }

  function RunFiles(files: map<string, seq<Byte>>, tasks: seq<Task>, env: Task -> Fetch, name: Namer): map<string, seq<Byte>> {
    if tasks == [] then files
    else
      var t := tasks[|tasks| - 1];
      FilesAfter(RunFiles(files, tasks[..|tasks| - 1], env, name), t, env(t), name)
  }

  function RunMapping(m: Mapping, tasks: seq<Task>, env: Task -> Fetch, name: Namer): (r: Mapping)
    requires Total(m)
    ensures Total(r)
  {
    if tasks == [] then m
    else
      var t := tasks[|tasks| - 1];
      MappingAfter(RunMapping(m, tasks[..|tasks| - 1], env, name), t, env(t), name)
  }

  function RunEvents(tasks: seq<Task>, env: Task -> Fetch, name: Namer): seq<AssetEvent> {
    if tasks == [] then []
    else
      var t := tasks[|tasks| - 1];
      RunEvents(tasks[..|tasks| - 1], env, name) + TaskEvents(t, env(t), name)
  }

  /** `progress_cb(k, n, "assets")` for k = 1, ..., upto: the report each
      finished task makes. */
  function Counted(upto: nat, n: nat): (r: seq<ProgressEvent>)
    ensures |r| == upto
    ensures forall k :: 0 <= k < upto ==> r[k] == ProgressEvent(k + 1, n, "assets")
  {
    if upto == 0 then [] else Counted(upto - 1, n) + [ProgressEvent(upto, n, "assets")]
  }

  /** The state of one `download_assets` call: the output files, the events
      sent to the callbacks, the mapping being built and the counters. */
  class Downloader {
    var files: map<string, seq<Byte>>
    var events: seq<AssetEvent>
    var progress: seq<ProgressEvent>
    var mapping: Mapping
    var completed: nat
    var total: nat
    const name: Namer

    /** A downloader whose files are named by `normalize_filename` with the
        query digest `digest`. */
    constructor(files0: map<string, seq<Byte>>, digest: string -> Filenames.Digest8)
      ensures files == files0 && events == [] && progress == []
      ensures mapping == EmptyMapping() && completed == 0 && total == 0
      ensures forall u, ct :: name(u, ct) == Filenames.NormalizeFilename(u, ct, digest)
    {
      files := files0;
      events := [];
      progress := [];
      mapping := EmptyMapping();
      completed := 0;
      total := 0;
      name := (u, ct) => Filenames.NormalizeFilename(u, ct, digest);
    }

    /** `_dl(url, kind)`: one task's effect on the state, then the
        `completed` count and its progress report. */
    method Dl(t: Task, f: Fetch)
      requires Total(mapping)
      modifies this
      ensures mapping == MappingAfter(old(mapping), t, f, name)
      ensures files == FilesAfter(old(files), t, f, name)
      ensures events == old(events) + TaskEvents(t, f, name)
      ensures completed == old(completed) + 1 && total == old(total)
      ensures progress == old(progress) + [ProgressEvent(completed, total, "assets")]
    {
      files, events, mapping := HandleTask(files, events, mapping, t, f, name);
      completed := completed + 1;
      progress := progress + [ProgressEvent(completed, total, "assets")];
    }

    /** `download_assets(assets)`: create the tasks category by category,
        announce `(0, total)` when there is any, and run them. */
    method Run(assets: AssetSet, order: map<Category, seq<Url>>, env: Task -> Fetch)
      requires Enumerates(order, assets)
      modifies this
      ensures total == TotalSize(assets) && completed == total
      ensures mapping == RunMapping(EmptyMapping(), TaskList(order), env, name)
      ensures files == RunFiles(old(files), TaskList(order), env, name)
      ensures events == old(events) + RunEvents(TaskList(order), env, name)
      ensures progress == old(progress) +
        (if total == 0 then [] else [ProgressEvent(0, total, "assets")] + Counted(total, total))
    {
      mapping := EmptyMapping();
      total := TotalSize(assets);
      completed := 0;
      var tasks := BuildTasks(order);
      TaskCount(order, assets);
      ghost var progress0 := progress;
      if |tasks| > 0 {
        progress := progress + [ProgressEvent(0, total, "assets")];
      }
      RunTasks(tasks, env);
      if total > 0 {
        Associative(progress0, [ProgressEvent(0, total, "assets")], Counted(total, total));
      }
    }

    /** Run the task at index `i` after those before it. */
    method Next(tasks: seq<Task>, i: nat, env: Task -> Fetch,
                ghost files0: map<string, seq<Byte>>, ghost events0: seq<AssetEvent>,
                ghost progress0: seq<ProgressEvent>)
      requires i < |tasks| && total == |tasks| && completed == i
      requires mapping == RunMapping(EmptyMapping(), tasks[..i], env, name)
      requires files == RunFiles(files0, tasks[..i], env, name)
      requires events == events0 + RunEvents(tasks[..i], env, name)
      requires progress == progress0 + Counted(i, total)
      modifies this
      ensures total == old(total) && completed == i + 1
      ensures mapping == RunMapping(EmptyMapping(), tasks[..i + 1], env, name)
      ensures files == RunFiles(files0, tasks[..i + 1], env, name)
      ensures events == events0 + RunEvents(tasks[..i + 1], env, name)
      ensures progress == progress0 + Counted(i + 1, total)
    {
      RunStep(mapping, files0, events, tasks, i, env, name);
      Dl(tasks[i], env(tasks[i]));
      Associative(events0, RunEvents(tasks[..i], env, name), TaskEvents(tasks[i], env(tasks[i]), name));
      Associative(progress0, Counted(i, total), [ProgressEvent(i + 1, total, "assets")]);
    }

    /** `asyncio.gather(*tasks)`, the tasks taken one after the other. */
    method RunTasks(tasks: seq<Task>, env: Task -> Fetch)
      requires mapping == EmptyMapping() && completed == 0 && total == |tasks|
      modifies this
      ensures total == old(total) && completed == total
      ensures mapping == RunMapping(EmptyMapping(), tasks, env, name)
      ensures files == RunFiles(old(files), tasks, env, name)
      ensures events == old(events) + RunEvents(tasks, env, name)
      ensures progress == old(progress) + Counted(total, total)
    {
      var i := 0;
      while i < |tasks|
        invariant 0 <= i <= |tasks| && total == |tasks| && completed == i
        invariant Total(mapping)
        invariant mapping == RunMapping(EmptyMapping(), tasks[..i], env, name)
        invariant files == RunFiles(old(files), tasks[..i], env, name)
        invariant events == old(events) + RunEvents(tasks[..i], env, name)
        invariant progress == old(progress) + Counted(i, total)
      {
        Next(tasks, i, env, old(files), old(events), old(progress));
        i := i + 1;
      }
      assert tasks[..|tasks|] == tasks;
    }
  }

  /** The body of `_dl` up to its `finally`: what one task does to the
      output files, the events and the mapping. */
  method HandleTask(files0: map<string, seq<Byte>>, events0: seq<AssetEvent>, mapping0: Mapping,
                    t: Task, f: Fetch, name: Namer)
    returns (files: map<string, seq<Byte>>, events: seq<AssetEvent>, mapping: Mapping)
    requires Total(mapping0)
    ensures mapping == MappingAfter(mapping0, t, f, name)
    ensures files == FilesAfter(files0, t, f, name)
    ensures events == events0 + TaskEvents(t, f, name)
  {
    files, events, mapping := files0, events0, mapping0;
    if !f.cancelledBefore {
      match f.response
      case Unreachable =>
        events := events + [Error(t.kind, t.url, None)];
      case HttpError(s) =>
        events := events + [Error(t.kind, t.url, Some(s))];
      case Body(ct, len, cs, breaks) =>
        var path := PathOf(t, f.response, name);
        var k := CancelPoint(cs);
        var streamed;
        files, streamed := Copy(files, [], t.kind, t.url, path, cs, len);
        var last: AssetEvent;
        if k < |cs| {
          last := Cancelled(t.kind, t.url);
        } else if breaks {
          last := Error(t.kind, t.url, None);
        } else {
          mapping := mapping[t.kind := mapping[t.kind][t.url := path]];
          last := Done(t.kind, t.url, path);
        }
        assert streamed == ProgressOf(t.kind, t.url, cs[..k], len);
        assert TaskEvents(t, f, name) == [Start(t.kind, t.url, len)] + streamed + [last];
        events := events0 + ([Start(t.kind, t.url, len)] + streamed + [last]);
    }
  }

  lemma Associative<T>(a: seq<T>, b: seq<T>, c: seq<T>)
    ensures (a + b) + c == a + (b + c)
  {
  }

  /** Running one more task extends the run by that task's effect. */
  lemma RunStep(m: Mapping, files: map<string, seq<Byte>>, events: seq<AssetEvent>,
                tasks: seq<Task>, i: nat, env: Task -> Fetch, name: Namer)
    requires i < |tasks|
    ensures RunMapping(EmptyMapping(), tasks[..i + 1], env, name) ==
      MappingAfter(RunMapping(EmptyMapping(), tasks[..i], env, name), tasks[i], env(tasks[i]), name)
    ensures RunFiles(files, tasks[..i + 1], env, name) ==
      FilesAfter(RunFiles(files, tasks[..i], env, name), tasks[i], env(tasks[i]), name)
    ensures RunEvents(tasks[..i + 1], env, name) ==
      RunEvents(tasks[..i], env, name) + TaskEvents(tasks[i], env(tasks[i]), name)
  {
    assert tasks[..i + 1][..i] == tasks[..i];
  }

  /** The task-creation loops of `download_assets`. */
  method BuildTasks(order: map<Category, seq<Url>>) returns (tasks: seq<Task>)
    requires Total(order)
    ensures tasks == TaskList(order)
  {
    tasks := [];
    for n := 0 to |Categories|
      invariant tasks == TaskListUpTo(order, n)
    {
      var kind := Categories[n];
      var urls := order[kind];
      for j := 0 to |urls|
        invariant tasks == TaskListUpTo(order, n) + TasksOf(kind, urls[..j])
      {
        assert urls[..j + 1][..j] == urls[..j];
        tasks := tasks + [Task(kind, urls[j])];
      }
      assert urls[..|urls|] == urls;
    }
  }

  lemma {:induction false} DistinctCard(s: seq<Url>)
    requires Distinct(s)
    ensures |set u | u in s| == |s|
  {
    if s != [] {
      var front := s[..|s| - 1];
      DistinctCard(front);
      assert (set u | u in s) == (set u | u in front) + {s[|s| - 1]};
      assert s[|s| - 1] !in front;
    }
  }

  /** There are as many tasks as assets. */
  lemma TaskCount(order: map<Category, seq<Url>>, assets: AssetSet)
    requires Enumerates(order, assets)
    ensures |TaskList(order)| == TotalSize(assets)
  {
    forall c: Category ensures |order[c]| == |assets[c]| {
      DistinctCard(order[c]);
      assert (set u | u in order[c]) == assets[c];
    }
    assert |TaskListUpTo(order, 1)| == |order[Img]|;
    assert |TaskListUpTo(order, 2)| == |order[Img]| + |order[Js]|;
    assert |TaskListUpTo(order, 3)| == |order[Img]| + |order[Js]| + |order[Css]|;
    assert |TaskListUpTo(order, 4)| == |order[Img]| + |order[Js]| + |order[Css]| + |order[Video]|;
    assert |TaskListUpTo(order, 5)| ==
      |order[Img]| + |order[Js]| + |order[Css]| + |order[Video]| + |order[Fonts]|;
  }

  // ---------------------------------------------------------------- lemmas

  /** Progress reports for `url`, each carrying its running byte count,
      that count positive, at most `n`, and rising strictly. */
  predicate Rising(es: seq<AssetEvent>, kind: Category, url: Url, total: Option<int>, n: nat) {
    (forall j :: 0 <= j < |es| ==>
       es[j].Progress? && es[j] == Progress(kind, url, es[j].read, total) && 0 < es[j].read <= n) &&
    (forall j, k :: 0 <= j < k < |es| ==> es[j].read < es[k].read)
  }

  /** Reports that end at the count `n`, and that exist exactly when `n` is
      not zero. */
  predicate EndsAt(es: seq<AssetEvent>, n: nat) {
    (es == [] <==> n == 0) && (es != [] ==> es[|es| - 1].Progress? && es[|es| - 1].read == n)
  }

  /** The progress reports of a stream: one per non-empty chunk, each with
      the running byte count, so the counts rise strictly and the last one is
      the number of bytes received; there is a report exactly when some byte
      arrived. */
  lemma ProgressCounts(kind: Category, url: Url, cs: seq<Chunk>, total: Option<int>)
    ensures Rising(ProgressOf(kind, url, cs, total), kind, url, total, |Received(cs)|)
    ensures EndsAt(ProgressOf(kind, url, cs, total), |Received(cs)|)
  {
    ProgressRising(kind, url, cs, total);
    ProgressLast(kind, url, cs, total);
  }

  lemma {:induction false} ProgressRising(kind: Category, url: Url, cs: seq<Chunk>, total: Option<int>)
    ensures Rising(ProgressOf(kind, url, cs, total), kind, url, total, |Received(cs)|)
  {
    if cs != [] {
      var front := cs[..|cs| - 1];
      ProgressRising(kind, url, front, total);
      var es0 := ProgressOf(kind, url, front, total);
      ReceivedStep(cs);
      if cs[|cs| - 1].data == [] {
        assert ProgressOf(kind, url, cs, total) == es0;
      } else {
        assert ProgressOf(kind, url, cs, total) == es0 + [Progress(kind, url, |Received(cs)|, total)];
        ExtendReports(es0, kind, url, total, |Received(front)|, |Received(cs)|);
      }
    }
  }

  lemma {:induction false} ProgressLast(kind: Category, url: Url, cs: seq<Chunk>, total: Option<int>)
    ensures EndsAt(ProgressOf(kind, url, cs, total), |Received(cs)|)
  {
    if cs != [] {
      ProgressLast(kind, url, cs[..|cs| - 1], total);
      ReceivedStep(cs);
    }
  }

  lemma ReceivedStep(cs: seq<Chunk>)
    requires cs != []
    ensures Received(cs) == Received(cs[..|cs| - 1]) + cs[|cs| - 1].data
  {
  }

  /** Appending a report with a larger count to rising reports keeps them
      rising. */
  lemma ExtendReports(es0: seq<AssetEvent>, kind: Category, url: Url, total: Option<int>, m: nat, n: nat)
    requires Rising(es0, kind, url, total, m) && m < n
    ensures Rising(es0 + [Progress(kind, url, n, total)], kind, url, total, n)
  {
  }

  predicate Terminal(e: AssetEvent) {
    e.Cancelled? || e.Done? || e.Error?
  }

  /** Exactly one event of `es` is terminal, and it is the last. */
  predicate OnlyLastTerminal(es: seq<AssetEvent>) {
    es != [] && Terminal(es[|es| - 1]) && forall j :: 0 <= j < |es| - 1 ==> !Terminal(es[j])
  }

  /** The terminal event `e` is about task `t` and says how it ended. */
  predicate Tells(e: AssetEvent, t: Task, o: Outcome) {
    e.kind == t.kind && e.url == t.url &&
    (e.Done? <==> o.Saved?) && (e.Cancelled? <==> o == Stopped) && (e.Error? <==> o == Failed) &&
    (e.Done? ==> e.rel == o.rel)
  }

  /** Every task that gets past the first cancellation test reports exactly
      one terminal event, last, and it tells how the task ended; a body is
      announced first by a start event. A task cancelled before its request
      reports nothing. */
  lemma TaskTerminal(t: Task, f: Fetch, name: Namer)
    ensures OutcomeOf(t, f, name) == Skipped <==> TaskEvents(t, f, name) == []
    ensures TaskEvents(t, f, name) != [] ==>
      OnlyLastTerminal(TaskEvents(t, f, name)) &&
      Tells(TaskEvents(t, f, name)[|TaskEvents(t, f, name)| - 1], t, OutcomeOf(t, f, name)) &&
      (TaskEvents(t, f, name)[0].Start? <==> f.response.Body?)
  {
    if !f.cancelledBefore && f.response.Body? {
      BodyEvents(t, f, name);
    }
  }

  /** A body: a start event, the progress reports, and one terminal event. */
  lemma BodyEvents(t: Task, f: Fetch, name: Namer)
    requires !f.cancelledBefore && f.response.Body?
    ensures OnlyLastTerminal(TaskEvents(t, f, name)) && TaskEvents(t, f, name)[0].Start?
  {
    var cs := f.response.chunks;
    var k := CancelPoint(cs);
    var len := f.response.contentLength;
    var ps := ProgressOf(t.kind, t.url, cs[..k], len);
    ProgressCounts(t.kind, t.url, cs[..k], len);
    var pre := [Start(t.kind, t.url, len)] + ps;
    var last := if k < |cs| then Cancelled(t.kind, t.url)
      else if f.response.breaksOff then Error(t.kind, t.url, None)
      else Done(t.kind, t.url, PathOf(t, f.response, name));
    var es := TaskEvents(t, f, name);
    assert es == pre + [last];
    forall j | 0 <= j < |es| - 1 ensures !Terminal(es[j]) {
      if j > 0 {
        assert es[j] == ps[j - 1];
      }
    }
  }

  /** A saved body is in the file the mapping names, under the category's
      folder, in full. */
  lemma SavedFile(files: map<string, seq<Byte>>, t: Task, f: Fetch, name: Namer)
    requires OutcomeOf(t, f, name).Saved?
    ensures f.response.Body?
    ensures OutcomeOf(t, f, name).rel == Folder(t.kind) + "/" + name(t.url, f.response.contentType)
    ensures var after := FilesAfter(files, t, f, name);
      OutcomeOf(t, f, name).rel in after && after[OutcomeOf(t, f, name).rel] == Received(f.response.chunks)
  {
  }

  /** A transfer cancelled midway leaves no file at its path and no entry in
      the mapping. */
  lemma StoppedLeavesNothing(m: Mapping, files: map<string, seq<Byte>>, t: Task, f: Fetch, name: Namer)
    requires Total(m)
    requires OutcomeOf(t, f, name) == Stopped
    ensures f.response.Body? && PathOf(t, f.response, name) !in FilesAfter(files, t, f, name)
    ensures MappingAfter(m, t, f, name) == m
  {
  }

  /** A task touches no file but its own. */
  lemma OnlyOwnPath(files: map<string, seq<Byte>>, t: Task, f: Fetch, name: Namer, p: string)
    requires !f.response.Body? || p != PathOf(t, f.response, name)
    ensures p in FilesAfter(files, t, f, name) <==> p in files
    ensures p in files ==> FilesAfter(files, t, f, name)[p] == files[p]
  {
  }

  /** After a run, a URL is mapped exactly when one of its tasks saved its
      body, and it is mapped to the path that body was saved at. */
  lemma {:induction false} RunMappingMembers(tasks: seq<Task>, env: Task -> Fetch, name: Namer, c: Category, u: Url)
    ensures var m := RunMapping(EmptyMapping(), tasks, env, name);
      (u in m[c] <==> Task(c, u) in tasks && OutcomeOf(Task(c, u), env(Task(c, u)), name).Saved?) &&
      (u in m[c] ==> m[c][u] == OutcomeOf(Task(c, u), env(Task(c, u)), name).rel)
  {
    if tasks != [] {
      var front := tasks[..|tasks| - 1];
      var t := tasks[|tasks| - 1];
      RunMappingMembers(front, env, name, c, u);
      MappingAfterMembers(RunMapping(EmptyMapping(), front, env, name), t, env(t), name, c, u);
      assert tasks == front + [t];
      assert Task(c, u) in tasks <==> Task(c, u) in front || Task(c, u) == t;
    }
  }

  /** One task adds its own URL when it saves its body, and nothing else. */
  lemma MappingAfterMembers(m: Mapping, t: Task, f: Fetch, name: Namer, c: Category, u: Url)
    requires Total(m)
    ensures var r := MappingAfter(m, t, f, name);
      (u in r[c] <==> u in m[c] || (t == Task(c, u) && OutcomeOf(t, f, name).Saved?)) &&
      (u in r[c] ==> r[c][u] == if t == Task(c, u) && OutcomeOf(t, f, name).Saved? then OutcomeOf(t, f, name).rel else m[c][u])
  {
  }

  /** No two tasks of a run write to the same path. */
  predicate DistinctPaths(tasks: seq<Task>, env: Task -> Fetch, name: Namer) {
    forall i, j :: 0 <= i < j < |tasks| && env(tasks[i]).response.Body? && env(tasks[j]).response.Body? ==>
      PathOf(tasks[i], env(tasks[i]).response, name) != PathOf(tasks[j], env(tasks[j]).response, name)
  }

  /** When no two tasks share a path, every mapped URL's file exists after the
      run and holds the body that URL's download received. */
  lemma {:induction false} MappedFilesExist(files: map<string, seq<Byte>>, tasks: seq<Task>, env: Task -> Fetch, name: Namer,
                                            c: Category, u: Url)
    requires DistinctPaths(tasks, env, name)
    requires u in RunMapping(EmptyMapping(), tasks, env, name)[c]
    ensures var rel := RunMapping(EmptyMapping(), tasks, env, name)[c][u];
      var after := RunFiles(files, tasks, env, name);
      env(Task(c, u)).response.Body? && rel in after && after[rel] == Received(env(Task(c, u)).response.chunks)
  {
    var n := |tasks| - 1;
    var front := tasks[..n];
    var t := tasks[n];
    RunMappingMembers(tasks, env, name, c, u);
    var mine := Task(c, u);
    var f := env(mine);
    SavedFile(RunFiles(files, front, env, name), mine, f, name);
    if t == mine {
      assert RunFiles(files, tasks, env, name) == FilesAfter(RunFiles(files, front, env, name), t, f, name);
    } else {
      RunMappingMembers(front, env, name, c, u);
      var i :| 0 <= i < |front| && front[i] == mine;
      assert DistinctPaths(front, env, name) by {
        forall a, b | 0 <= a < b < |front| ensures front[a] == tasks[a] && front[b] == tasks[b] { }
      }
      MappedFilesExist(files, front, env, name, c, u);
      assert tasks[i] == mine;
      if env(t).response.Body? {
        assert PathOf(mine, f.response, name) != PathOf(t, env(t).response, name);
      }
      OnlyOwnPath(RunFiles(files, front, env, name), t, env(t), name, OutcomeOf(mine, f, name).rel);
    }
  }

  /** Two URLs that get the same path — the same file name in the same
      folder — can leave a mapped URL without its file: the first is saved,
      the second is cancelled midway and its clean-up unlinks the shared path. */
  lemma SharedPathLosesFile(files: map<string, seq<Byte>>, t1: Task, t2: Task, env: Task -> Fetch, name: Namer)
    requires t1.kind == t2.kind && t1.url != t2.url
    requires OutcomeOf(t1, env(t1), name).Saved? && OutcomeOf(t2, env(t2), name) == Stopped
    requires name(t1.url, env(t1).response.contentType) == name(t2.url, env(t2).response.contentType)
    ensures var m := RunMapping(EmptyMapping(), [t1, t2], env, name);
      t1.url in m[t1.kind] && m[t1.kind][t1.url] !in RunFiles(files, [t1, t2], env, name)
  {
    assert [t1, t2][..1] == [t1];
    assert [t1][..0] == [];
  }

  function CountTerminal(es: seq<AssetEvent>): nat {
    if es == [] then 0 else CountTerminal(es[..|es| - 1]) + (if Terminal(es[|es| - 1]) then 1 else 0)
  }

  lemma {:induction false} CountTerminalAppend(a: seq<AssetEvent>, b: seq<AssetEvent>)
    ensures CountTerminal(a + b) == CountTerminal(a) + CountTerminal(b)
    decreases |b|
  {
    if b == [] {
      assert a + b == a;
    } else {
      CountTerminalAppend(a, b[..|b| - 1]);
      assert (a + b)[..|a + b| - 1] == a + b[..|b| - 1];
      assert (a + b)[|a + b| - 1] == b[|b| - 1];
    }
  }

  /** The tasks that get past the first cancellation test. */
  function Attempted(tasks: seq<Task>, env: Task -> Fetch): nat {
    if tasks == [] then 0
    else Attempted(tasks[..|tasks| - 1], env) + (if env(tasks[|tasks| - 1]).cancelledBefore then 0 else 1)
  }

  /** A run reports one terminal event per attempted task. */
  lemma {:induction false} RunTerminalCount(tasks: seq<Task>, env: Task -> Fetch, name: Namer)
    ensures CountTerminal(RunEvents(tasks, env, name)) == Attempted(tasks, env)
  {
    if tasks != [] {
      var t := tasks[|tasks| - 1];
      RunTerminalCount(tasks[..|tasks| - 1], env, name);
      CountTerminalAppend(RunEvents(tasks[..|tasks| - 1], env, name), TaskEvents(t, env(t), name));
      TaskCountTerminal(t, env(t), name);
    }
  }

  lemma TaskCountTerminal(t: Task, f: Fetch, name: Namer)
    ensures CountTerminal(TaskEvents(t, f, name)) == if f.cancelledBefore then 0 else 1
  {
    var es := TaskEvents(t, f, name);
    TaskTerminal(t, f, name);
    if es != [] {
      NoTerminal(es[..|es| - 1]);
    }
  }

  lemma {:induction false} NoTerminal(es: seq<AssetEvent>)
    requires forall j :: 0 <= j < |es| ==> !Terminal(es[j])
    ensures CountTerminal(es) == 0
  {
    if es != [] {
      NoTerminal(es[..|es| - 1]);
    }
  }
}
