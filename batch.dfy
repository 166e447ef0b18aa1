/** The batch downloader of `main`: the inclusive episode range is collected,
    split into consecutive chunks of `threads` episodes, and each chunk's
    episodes are started as tasks whose handles are all joined before the next
    chunk starts. Tasks are run one after the other here: a task's work is done
    when it is started, and its handle stays in `handles` (the task counts as
    in flight) until the chunk is drained. */
module Batch {
  import opened Urls
  import opened Fallback

  /** The range and width `main` is configured with. */
  const FirstEp: nat := 1
  const LastEp: nat := 100
  const Threads: nat := 4

  function Min(a: nat, b: nat): nat {
    if a < b then a else b
  }

  /** `(first..=last).collect()`: the episode numbers from `first` to `last`
      inclusive, in increasing order; empty when `first > last`. */
  function Range(first: nat, last: nat): (r: seq<nat>) {
    seq(if first <= last then last - first + 1 else 0, i => first + i)
  }

  function Flatten<T>(ss: seq<seq<T>>): seq<T> {
    if ss == [] then [] else ss[0] + Flatten(ss[1..])
  }

  /** `s.chunks(size)`: consecutive pieces of `size` elements, the last one
      possibly shorter (`ChunksShape` states this). */
  function Chunks<T>(s: seq<T>, size: nat): seq<seq<T>>
    requires size > 0
    decreases |s|
  {
    if s == [] then []
    else if |s| <= size then [s]
    else [s[..size]] + Chunks(s[size..], size)
  }

  /** The chunks put back together give `s`. */
  lemma {:induction false} ChunksFlatten<T>(s: seq<T>, size: nat)
    requires size > 0
    ensures Flatten(Chunks(s, size)) == s
    decreases |s|
  {
    var cs := Chunks(s, size);
    if s == [] {
    } else if |s| <= size {
      assert cs == [s] && cs[1..] == [];
      assert Flatten(cs) == s + Flatten(cs[1..]);
    } else {
      ChunksFlatten(s[size..], size);
      assert cs[0] == s[..size] && cs[1..] == Chunks(s[size..], size);
      assert s == s[..size] + s[size..];
    }
  }

  /** None of the chunks is empty, none is longer than `size`, and only the
      last may be shorter. */
  lemma {:induction false} ChunksSizes<T>(s: seq<T>, size: nat)
    requires size > 0
    ensures forall i :: 0 <= i < |Chunks(s, size)| ==> 0 < |Chunks(s, size)[i]| <= size
    ensures forall i :: 0 <= i < |Chunks(s, size)| - 1 ==> |Chunks(s, size)[i]| == size
    decreases |s|
  {
    var cs := Chunks(s, size);
    if s != [] && |s| > size {
      var rest := Chunks(s[size..], size);
      ChunksSizes(s[size..], size);
      assert cs == [s[..size]] + rest;
      forall i | 0 < i < |cs|
        ensures cs[i] == rest[i - 1]
      {
      }
    }
  }

  /** There are `ceil(|s| / size)` chunks: the fewest chunks of `size` that hold `s`. */
  lemma {:induction false} ChunksCount<T>(s: seq<T>, size: nat)
    requires size > 0
    ensures (|Chunks(s, size)| - 1) * size < |s| <= |Chunks(s, size)| * size
    decreases |s|
  {
    if s != [] && |s| > size {
      var rest := Chunks(s[size..], size);
      ChunksCount(s[size..], size);
      assert |Chunks(s, size)| == |rest| + 1;
      assert (|rest| + 1) * size == |rest| * size + size;
    }
  }

  /** `s.chunks(size)` as Rust's slice method defines it: consecutive pieces
      that together give `s`, each `size` long except possibly the last, none
      empty, `ceil(|s| / size)` of them, the first `min(size, |s|)` long. */
  lemma ChunksShape<T>(s: seq<T>, size: nat)
    requires size > 0
    ensures Flatten(Chunks(s, size)) == s
    ensures forall i :: 0 <= i < |Chunks(s, size)| ==> 0 < |Chunks(s, size)[i]| <= size
    ensures forall i :: 0 <= i < |Chunks(s, size)| - 1 ==> |Chunks(s, size)[i]| == size
    ensures (|Chunks(s, size)| - 1) * size < |s| <= |Chunks(s, size)| * size
    ensures |Chunks(s, size)| > 0 ==> |Chunks(s, size)[0]| == Min(size, |s|)
  {
    ChunksFlatten(s, size);
    ChunksSizes(s, size);
    ChunksCount(s, size);
  }

  /** No chunk is larger than the first, which holds `min(size, |s|)` elements. */
  lemma ChunkSize<T>(s: seq<T>, size: nat, k: nat)
    requires size > 0 && k < |Chunks(s, size)|
    ensures |Chunks(s, size)[k]| <= Min(size, |s|)
    ensures k == 0 ==> |Chunks(s, size)[k]| == Min(size, |s|)
  {
    ChunksShape(s, size);
    if k > 0 {
      assert |Chunks(s, size)[0]| == size;
    }
  }

  lemma {:induction false} FlattenAppend<T>(ss: seq<seq<T>>, s: seq<T>)
    ensures Flatten(ss + [s]) == Flatten(ss) + s
  {
    if ss != [] {
      assert (ss + [s])[1..] == ss[1..] + [s];
      FlattenAppend(ss[1..], s);
    }
  }

  /** Every episode of the range occurs in it exactly once, and nothing else does. */
  lemma {:induction false} RangeExactlyOnce(first: nat, last: nat, x: nat)
    ensures multiset(Range(first, last))[x] == if first <= x <= last then 1 else 0
    decreases last - first
  {
    var r := Range(first, last);
    if first <= last {
      var head: seq<nat>, tail: seq<nat> := [first], Range(first + 1, last);
      assert r == head + tail;
      RangeExactlyOnce(first + 1, last, x);
      var whole: multiset<nat>, front: multiset<nat>, back: multiset<nat> := multiset(r), multiset(head), multiset(tail);
      assert whole == front + back;
    } else {
      assert r == [];
    }
  }

  /** Distinct episodes of the range are written to distinct files, so no two
      tasks ever share a destination. */
  lemma FilesDistinct(first: nat, last: nat, i: nat, j: nat)
    requires i < j < |Range(first, last)|
    ensures FileName(Range(first, last)[i]) != FileName(Range(first, last)[j])
  {
    FileNameInjective(Range(first, last)[i], Range(first, last)[j]);
  }

  /** What a finished task has done: created its episode's file and ended its
      fallback chain with an outcome. */
  datatype Report = Report(file: string, outcome: Outcome)

  /** The report of the task for episode `n`: the file `CC<n>.mp3`, and the
      outcome of the episode's own fallback chain, whatever the other tasks do. */
  function Task(n: nat, ok: string -> bool): Report {
    Report(FileName(n), Resolve(n, ok))
  }

  /** `reports` holds, position by position, the report of the task for each
      episode of `eps`. The batch methods take the reports as a ghost function
      `task` (equal to `Task(_, ok)`, as their preconditions say) so that their
      proofs treat each task as a black box. */
  ghost predicate Reported(eps: seq<nat>, reports: seq<Report>, task: nat -> Report) {
    |reports| == |eps| && forall i :: 0 <= i < |eps| ==> reports[i] == task(eps[i])
  }

  /** Reports of consecutive pieces of a range put together report the whole. */
  lemma ReportedAppend(eps: seq<nat>, reports: seq<Report>, eps': seq<nat>, reports': seq<Report>,
                       task: nat -> Report)
    requires Reported(eps, reports, task) && Reported(eps', reports', task)
    ensures Reported(eps + eps', reports + reports', task)
  {
  }

  /** The inner `for ep_no in chunk` loop: spawns one task per episode of the
      chunk, in order, pushing its handle. A task creates the episode's file
      and runs its fallback chain. `peak` is the largest number of handles
      held at once. */
  method SpawnChunk(handles0: seq<nat>, chunk: seq<nat>, ok: string -> bool, ghost task: nat -> Report)
    returns (handles: seq<nat>, reports: seq<Report>, peak: nat)
    // `task` is `Task(_, ok)`; passed as a ghost function so the proof never unfolds `Task`
    requires forall n {:trigger Task(n, ok)} :: task(n) == Task(n, ok)
    ensures handles == handles0 + chunk
    ensures Reported(chunk, reports, task)
    ensures peak == |handles0| + |chunk|
  {
    handles, reports, peak := handles0, [], |handles0|;
    var j := 0;
    while j < |chunk|
      invariant 0 <= j <= |chunk|
      invariant handles == handles0 + chunk[..j]
      invariant Reported(chunk[..j], reports, task)
      invariant peak == |handles|
    {
      var ep := chunk[j];
      var file := FileName(ep);
      var outcome, _ := FetchEpisode(ep, ok);
      assert Task(ep, ok) == Report(file, outcome);
      reports := reports + [Report(file, outcome)];
      handles := handles + [ep];
      assert chunk[..j + 1] == chunk[..j] + [ep];
      if |handles| > peak {
        peak := |handles|;
      }
      j := j + 1;
    }
    assert chunk[..j] == chunk;
  }

  /** `for handle in handles.drain(..) { handle.join() }`: joins every pending
      task in the order spawned and leaves `handles` empty. */
  method Drain(handles0: seq<nat>) returns (handles: seq<nat>, joined: seq<nat>)
    ensures handles == [] && joined == handles0
  {
    handles, joined := handles0, [];
    while handles != []
      invariant joined + handles == handles0
      decreases |handles|
    {
      joined := joined + [handles[0]];
      handles := handles[1..];
    }
  }

  /** Downloads episodes `first..=last`, `threads` at a time. Every episode of
      the range is attempted exactly once, in order, whatever happens to the
      others; each task reports its own file and fallback outcome; every task
      is joined; and at most `threads` tasks are ever in flight: exactly
      `min(threads, number of episodes)` at the peak. */
  method DownloadRange(first: nat, last: nat, threads: nat, ok: string -> bool, ghost task: nat -> Report)
    returns (attempted: seq<nat>, reports: seq<Report>, joined: seq<nat>, peak: nat)
    requires threads > 0
    // `task` is `Task(_, ok)`; passed as a ghost function so the proof never unfolds `Task`
    requires forall n {:trigger Task(n, ok)} :: task(n) == Task(n, ok)
    ensures attempted == Range(first, last)
    ensures Reported(attempted, reports, task)
    ensures joined == attempted
    ensures peak == Min(threads, |attempted|)
  {
    var episodes := Range(first, last);
    var chunks := Chunks(episodes, threads);
    ChunksShape(episodes, threads);
    var handles: seq<nat> := [];
    attempted, reports, joined, peak := [], [], [], 0;
    for k := 0 to |chunks|
      invariant attempted == Flatten(chunks[..k]) && joined == attempted
      invariant handles == []
      invariant Reported(attempted, reports, task)
      invariant peak == if k == 0 then 0 else Min(threads, |episodes|)
    {
      var chunk := chunks[k];
      ChunkSize(episodes, threads, k);
      var chunkReports, chunkPeak, chunkJoined;
      handles, chunkReports, chunkPeak := SpawnChunk(handles, chunk, ok, task);
      ReportedAppend(attempted, reports, chunk, chunkReports, task);
      FlattenAppend(chunks[..k], chunk);
      assert chunks[..k + 1] == chunks[..k] + [chunk];
      attempted, reports := attempted + chunk, reports + chunkReports;
      if chunkPeak > peak {
        peak := chunkPeak;
      }
      handles, chunkJoined := Drain(handles);
      joined := joined + chunkJoined;
    }
    assert chunks[..|chunks|] == chunks;
  }

  /** `main` as configured: episodes 1 to 100, four at a time, so 25 chunks of
      four, and four tasks in flight at the peak. */
  method DownloadConfigured(ok: string -> bool)
    returns (attempted: seq<nat>, reports: seq<Report>, peak: nat)
    ensures |attempted| == 100 && forall i :: 0 <= i < 100 ==> attempted[i] == i + 1
    ensures |reports| == 100
    ensures forall i :: 0 <= i < 100 ==> reports[i].file == FileName(i + 1) && reports[i].outcome == Resolve(i + 1, ok)
    ensures peak == 4
    ensures |Chunks(Range(FirstEp, LastEp), Threads)| == 25
  {
    ChunksShape(Range(FirstEp, LastEp), Threads);
    var joined;
    attempted, reports, joined, peak := DownloadRange(FirstEp, LastEp, Threads, ok, (n: nat) => Task(n, ok));
  }
}
