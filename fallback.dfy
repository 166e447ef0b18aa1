/** The per-episode fallback chain: try the AWS URL, then Tom Francis's server
    with zero padding, then without, stopping at the first download that
    succeeds. Whether a download succeeds is decided by the network and is
    given here as an oracle `ok` over URLs. */
module Fallback {
  import opened Urls

  /** How an episode ended: downloaded from candidate number `index`, or every
      candidate failed (the ">>> Failed to download episode" report). */
  datatype Outcome = Downloaded(index: nat, url: string) | Exhausted

  /** The first candidate from `from` on that `ok` accepts, as a linear search. */
  function SearchFrom(cands: seq<string>, ok: string -> bool, from: nat): (r: Outcome)
    requires from <= |cands|
    ensures r.Downloaded? ==> from <= r.index < |cands| && r.url == cands[r.index] && ok(r.url)
    ensures r.Downloaded? ==> forall j :: from <= j < r.index ==> !ok(cands[j])
    ensures r.Exhausted? <==> forall j :: from <= j < |cands| ==> !ok(cands[j])
    decreases |cands| - from
  {
    if from == |cands| then Exhausted
    else if ok(cands[from]) then Downloaded(from, cands[from])
    else SearchFrom(cands, ok, from + 1)
  }

  /** The outcome of an episode's fallback chain. */
  function Resolve(n: nat, ok: string -> bool): Outcome {
    SearchFrom(Candidates(n), ok, 0)
  }

  /** The URLs actually requested for an episode: all candidates up to and
      including the one that succeeded, or all three. */
  function Tried(n: nat, ok: string -> bool): seq<string> {
    match Resolve(n, ok)
    case Downloaded(i, _) => Candidates(n)[..i + 1]
    case Exhausted => Candidates(n)
  }

  /** Runs the chain for episode `n`, requesting the candidates one after the
      other; `tried` lists the URLs requested, in order. */
  method FetchEpisode(n: nat, ok: string -> bool) returns (outcome: Outcome, tried: seq<string>)
    ensures outcome == Resolve(n, ok)
    ensures tried == Tried(n, ok)
    ensures forall j :: 0 <= j < |tried| - 1 ==> !ok(tried[j])
    ensures outcome.Downloaded? <==> |tried| > 0 && ok(tried[|tried| - 1])
  {
    var cands := Candidates(n);
    var i := 0;
    tried := [];
    outcome := Exhausted;
    while i < |cands|
      invariant 0 <= i <= |cands|
      invariant tried == cands[..i]
      invariant forall j :: 0 <= j < i ==> !ok(cands[j])
      invariant SearchFrom(cands, ok, i) == SearchFrom(cands, ok, 0)
    {
      var url := cands[i];
      tried := tried + [url];
      if ok(url) {
        outcome := Downloaded(i, url);
        return;
      }
      i := i + 1;
    }
  }

  /** The chain follows the fixed order: a candidate is requested only if every
      earlier one failed, and nothing is requested after a success. */
  lemma TriedIsOrderedPrefix(n: nat, ok: string -> bool)
    ensures 1 <= |Tried(n, ok)| <= 3
    ensures Tried(n, ok) == Candidates(n)[..|Tried(n, ok)|]
    ensures forall j :: 0 <= j < |Tried(n, ok)| - 1 ==> !ok(Tried(n, ok)[j])
    ensures |Tried(n, ok)| < 3 ==> ok(Tried(n, ok)[|Tried(n, ok)| - 1])
  {
  }

  /** The AWS URL is always requested first; Tom Francis's server is asked only
      after AWS failed. */
  lemma AwsFirst(n: nat, ok: string -> bool)
    ensures Tried(n, ok)[0] == AwsUrl(n)
    ensures |Tried(n, ok)| >= 2 <==> !ok(AwsUrl(n))
    ensures |Tried(n, ok)| == 3 <==> !ok(AwsUrl(n)) && !ok(PentadactUrlWithZero(n))
  {
    var cands := Candidates(n);
    assert cands[0] == AwsUrl(n) && cands[1] == PentadactUrlWithZero(n);
  }

  /** An episode is reported as failed exactly when all three candidates fail. */
  lemma ExhaustedIffAllFail(n: nat, ok: string -> bool)
    ensures Resolve(n, ok).Exhausted? <==>
      !ok(AwsUrl(n)) && !ok(PentadactUrlWithZero(n)) && !ok(PentadactUrlNoZero(n))
  {
    var cands := Candidates(n);
    assert cands[0] == AwsUrl(n) && cands[1] == PentadactUrlWithZero(n) && cands[2] == PentadactUrlNoZero(n);
  }

  /** A successful outcome names the first candidate that works. */
  lemma DownloadedIsFirstSuccess(n: nat, ok: string -> bool, k: nat)
    requires k < 3 && ok(Candidates(n)[k])
    ensures Resolve(n, ok).Downloaded? && Resolve(n, ok).index <= k
  {
  }

  /** From episode 100 on the third request repeats the second URL, so it can
      only succeed where the second did not if the server's answer changes:
      with a per-URL oracle the third candidate never yields the episode. */
  lemma ThirdRedundantFrom100(n: nat, ok: string -> bool)
    requires n >= 100
    ensures Resolve(n, ok).Downloaded? ==> Resolve(n, ok).index < 2
  {
    var cands := Candidates(n);
    PentadactUrlsCoincide(n);
    assert cands[1] == cands[2];
  }
}
