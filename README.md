# crateandcrowbar-dl, modelled in Dafny

The program downloads the early episodes of The Crate and Crowbar podcast.
Each episode may live at one of three statically known URLs: the AWS archive
with the number zero-padded to three digits, Tom Francis's server with the
same padding, or Tom Francis's server with the plain number. `main` collects
the episode range `1..=100`, splits it into chunks of `threads = 4`, spawns
one task per episode of a chunk and joins all of the chunk's tasks before it
starts the next chunk. Each task creates the file `CC<n>.mp3` and tries the
three URLs in order, stopping at the first download that succeeds, and
reports a failure only when all three fail.

The model has four modules, one per concern of `src/main.rs`:

- `Decimal` (`decimal.dfy`): how `format!` renders an unsigned number,
  `{ep_no}` (`Render`) and `{ep_no:<03}` (`Padded`). For integers the `0` flag
  takes precedence over the `<` alignment, so the zeros go in front of the
  digits, and the padding never truncates. `Value` reads a digit string back,
  which gives the round trip.
- `Urls` (`urls.dfy`): the three URL formatters, the candidate sequence in
  the order it is tried, and the file name of an episode. All pure.
- `Fallback` (`fallback.dfy`): the per-episode fallback chain. `download_ep`
  is replaced by an oracle `ok: string -> bool` that says whether a request
  for a URL succeeds. `SearchFrom`/`Resolve` specify the chain as a linear
  search. `FetchEpisode` is the chain as a loop over the candidates, which is
  how the nested `if` chain of the source behaves. It is proved to return
  `Resolve` and to request exactly the `Tried` prefix of the candidates.
- `Batch` (`batch.dfy`): `main`'s scheduling. `Range` is `(first..=last)
  .collect()`, `Chunks` is `slice::chunks`, `SpawnChunk` is the inner
  `for ep_no in chunk` loop that pushes a handle per episode, `Drain` is
  `handles.drain(..)` with `join`, and `DownloadRange` is the outer loop over
  the chunks. Tasks run one after the other: a task's work happens when it
  is spawned, and its handle stays in `handles` until the chunk is drained,
  so `peak` (the most handles held at once) is the number of tasks in flight.
  Each task's effect is a `Report`: the file it created and the outcome of
  its chain. The batch methods take these reports as a ghost function `task`
  whose precondition fixes it to `Task(_, ok)`. Their proofs therefore treat
  a task as a black box, and `DownloadConfigured` passes `Task(_, ok)` itself.

`usize` is modelled as `nat`: formatting an episode number cannot overflow,
and the range is the constant `1..=100`.

From episode 100 on, when the first two requests fail, the third request
repeats the second URL, because the padded and unpadded Tom Francis URLs
coincide there
(`Urls.PentadactUrlsCoincide`, `Urls.CandidatesDistinct`). Under the per-URL
oracle the repeat never matters: the third request is made only after the
identical second request failed, so it fails too, and the download never
comes from it (`Fallback.ThirdRedundantFrom100`). The candidates carry no
query suffix, and the file is created once per task (src/main.rs:117).
`download_ep`'s doc comment promises a byte count, but it returns
`Option<()>` (src/main.rs:64-65), so an outcome records only which URL
succeeded.

## Model

| member | source | states |
|---|---|---|
| Decimal.Render | src/main.rs:60 | `{ep_no}` is a non-empty digit string whose first digit is '0' exactly for zero |
| Decimal.RenderRoundTrip | src/main.rs:60 | reading the rendering back gives the number |
| Decimal.RenderInjective | src/main.rs:60 | two numbers render alike exactly when they are equal |
| Decimal.RenderLength | src/main.rs:37-38 | the rendering has at most k digits exactly when n < 10^k |
| Decimal.RenderHasThreeDigits | src/main.rs:25-26 | the rendering reaches three digits exactly from 100 on |
| Decimal.ZerosValue | src/main.rs:41 | leading zeros do not change the value of a digit string |
| Decimal.Padded | src/main.rs:41 | `{n:<03}`: a digit string (shape and round trip in `PaddedShape`, `PaddedIsPlain`, `PaddedInjective`) |
| Decimal.PaddedShape | src/main.rs:41 | `{n:<03}` is max(3, digit count) long, ends with the plain digits, has only '0' before them, and reads back as n |
| Decimal.PaddedIsPlain | src/main.rs:37-38 | the padded field equals the plain rendering exactly when n already has three digits (121 stays "121") |
| Decimal.PaddedInjective | src/main.rs:41 | distinct numbers get distinct padded fields |
| Urls.AwsUrl | src/main.rs:35-42 | AWS base, `Padded(n, 3)`, ".mp3"; shape in `AwsUrlShape`, test values in `KnownAwsUrls`, injectivity in `AwsUrlInjective` |
| Urls.PentadactUrlWithZero | src/main.rs:45-52 | Tom Francis's base, `Padded(n, 3)`, ".mp3"; shape in `PentadactUrlWithZeroShape`, test value in `KnownPentadactUrls` |
| Urls.PentadactUrlNoZero | src/main.rs:56-61 | Tom Francis's base, `Render(n)`, ".mp3"; shape in `PentadactUrlNoZeroShape`, test value in `KnownPentadactUrls` |
| Urls.Candidates | src/main.rs:126-134 | exactly three URLs, in the order the chain tries them: AWS, padded Tom Francis, unpadded Tom Francis; distinctness in `CandidatesDistinct` |
| Urls.FileName | src/main.rs:116 | `CC<n>.mp3` with the plain digits of n; injectivity in `FileNameInjective` |
| Urls.UrlField | src/main.rs:41 | a URL is base, field, ".mp3", and the field can be cut back out |
| Urls.AwsUrlShape | src/main.rs:35-42 | the AWS URL starts with the AWS base, ends with ".mp3", and its field has max(3, digit count) digits reading back as n |
| Urls.PentadactUrlWithZeroShape | src/main.rs:45-52 | the same for Tom Francis's base with the padded field |
| Urls.PentadactUrlNoZeroShape | src/main.rs:56-61 | Tom Francis's base, exactly the digits of n with no leading zero from 1 on, then ".mp3" |
| Urls.KnownUrls | src/main.rs:158-185 | the five URLs the unit tests expect, written out verbatim: AWS 1, 21, 121 as "001", "021", "121", padded 85 as "085", unpadded 78 as "78" |
| Urls.AwsBaseLiteral | src/main.rs:36 | the AWS base is exactly the literal `url_base` of `format_aws_url` |
| Urls.PentadactBaseLiteral | src/main.rs:46 | Tom Francis's base is exactly the literal `url_base` of both his formatters |
| Urls.KnownAwsUrls | src/main.rs:158-173 | AWS episodes 1, 21 and 121 are the three URLs the unit tests expect, written out verbatim |
| Urls.KnownPentadactUrls | src/main.rs:175-185 | padded episode 85 and unpadded episode 78 are the two Tom Francis URLs the unit tests expect, written out verbatim |
| Urls.KnownFields | src/main.rs:158-185 | the number fields behind those five URLs |
| Urls.AwsUrlInjective | src/main.rs:35-42 | distinct episodes get distinct AWS URLs |
| Urls.PentadactUrlWithZeroInjective | src/main.rs:45-52 | distinct episodes get distinct padded Tom Francis URLs |
| Urls.PentadactUrlNoZeroInjective | src/main.rs:56-61 | distinct episodes get distinct unpadded Tom Francis URLs |
| Urls.PentadactUrlsCoincide | src/main.rs:25-26 | the padded and unpadded Tom Francis URLs are equal exactly from episode 100 on |
| Urls.AwsNeverPentadact | src/main.rs:35-52 | no AWS URL equals a Tom Francis URL, for any two episodes |
| Urls.CandidatesDistinct | src/main.rs:126-134 | the three candidates are pairwise distinct exactly below episode 100 |
| Urls.FileNameInjective | src/main.rs:116 | distinct episodes are saved to distinct `CC<n>.mp3` files |
| Fallback.SearchFrom | src/main.rs:126-139 | the result is the first candidate the oracle accepts, with every earlier one failing, or exhaustion exactly when every candidate fails |
| Fallback.Resolve | src/main.rs:126-139 | the chain's outcome: `SearchFrom` over the candidates from the first; properties in `AwsFirst`, `ExhaustedIffAllFail`, `DownloadedIsFirstSuccess`, `ThirdRedundantFrom100` |
| Fallback.Tried | src/main.rs:126-139 | the URLs the chain requests, up to the one that succeeded or all three; properties in `TriedIsOrderedPrefix`, `AwsFirst` |
| Fallback.FetchEpisode | src/main.rs:126-139 | the loop returns the chain's outcome and requests exactly the candidates up to the first success, all earlier ones failing |
| Fallback.TriedIsOrderedPrefix | src/main.rs:126-139 | one to three URLs are requested, as a prefix of the fixed order, and fewer than three only after a success |
| Fallback.AwsFirst | src/main.rs:126-132 | AWS is always asked first; Tom Francis's server is asked only after AWS failed, and the unpadded URL only after both others failed |
| Fallback.ExhaustedIffAllFail | src/main.rs:135-137 | failure is reported exactly when all three URLs fail |
| Fallback.DownloadedIsFirstSuccess | src/main.rs:127-135 | if any candidate works the episode is downloaded, from that candidate or an earlier one |
| Fallback.ThirdRedundantFrom100 | src/main.rs:130-135 | under the per-URL oracle, from episode 100 on the download never comes from the third request, which repeats the second |
| Batch.Range | src/main.rs:102 | `(first..=last).collect()`; contents in `RangeExactlyOnce` |
| Batch.Chunks | src/main.rs:107 | `slice::chunks`; shape in `ChunksFlatten`, `ChunksSizes`, `ChunksCount`, `ChunkSize` |
| Batch.ChunksFlatten | src/main.rs:107 | the chunks put back together are the episode list |
| Batch.ChunksSizes | src/main.rs:107 | no chunk is empty or longer than `threads`, and only the last may be shorter |
| Batch.ChunksCount | src/main.rs:107 | there are ceil(episodes / threads) chunks |
| Batch.ChunksShape | src/main.rs:107 | all of the above, and the first chunk holds min(threads, episodes) |
| Batch.ChunkSize | src/main.rs:107-108 | no chunk holds more than min(threads, episodes), so the handles fit the capacity reserved |
| Batch.RangeExactlyOnce | src/main.rs:102 | every episode from first to last occurs in the range exactly once, and nothing else occurs |
| Batch.Task | src/main.rs:115-140 | the spawned closure's effect: the file `CC<n>.mp3` and the outcome `Resolve(n, ok)`; distinct files in `FilesDistinct` |
| Batch.FilesDistinct | src/main.rs:114-117 | two tasks of the range never write to the same file |
| Batch.ReportedAppend | src/main.rs:110-143 | the reports of consecutive pieces of the range together report the whole |
| Batch.SpawnChunk | src/main.rs:114-143 | one handle per episode of the chunk is pushed, in order; each task reports its own file and chain outcome; the handles peak at their final count |
| Batch.Drain | src/main.rs:145-147 | every pending handle is joined in the order spawned and the buffer is left empty |
| Batch.DownloadRange | src/main.rs:102-148 | every episode of `first..=last` is attempted exactly once, in order, with its own file and outcome; every task is joined; at most `threads` tasks are in flight, exactly min(threads, episodes) at the peak |
| Batch.DownloadConfigured | src/main.rs:99-107 | as configured, episodes 1 to 100 are attempted in order in 25 chunks, episode n saving to `CC<n>.mp3` with its own chain outcome, with four tasks in flight at the peak |

## Left out

- `download_ep` (src/main.rs:65-85): the HTTP request, the status check and
  the streaming copy are network I/O. They are the oracle `ok`, which decides
  per URL whether a download succeeds.
- The oracle is per URL, so asking for the same URL twice gets the same
  answer; a server whose answer changes between two requests is not modelled.
- `File::create`, `set_current_dir` and the `dl_dir.exists()` check
  (src/main.rs:91-96, 117): filesystem I/O. A task's file appears only as the
  name in its `Report`. What the file holds after a failed attempt (partial
  content is not truncated between attempts) and that a file is left behind
  when every attempt fails are not modelled.
- `std::thread::spawn` and `join` as real concurrency (src/main.rs:115, 146):
  tasks run one after the other, so interleavings, panics inside a task and
  the `unwrap` of `join` are not modelled.
- `println!` and `eprintln!` progress output (src/main.rs:70, 74-75, 119,
  129, 136, 150): output only.
