/** The URL resolver: the three statically known places an episode may be
    hosted at, tried in a fixed order, and the local file name an episode is
    saved under. Everything here is pure. */
module Urls {
  import opened Decimal

  // The bases are assembled from short pieces so that the verifier can see
  // their characters: https://s3-eu-west-1.amazonaws.com/crateandcrowbar/episodes/CCEp
  // and https://www.pentadact.com/podcast/CCEp.
  const Https: string := "https://"
  const AwsHost: string := "s3-eu-west-1.amazonaws.com"
  const PentadactHost: string := "www.pentadact.com"
  const AwsBase: string := Https + AwsHost + "/crateandcrowbar/episodes/CCEp"
  const PentadactBase: string := Https + PentadactHost + "/podcast/CCEp"
  const Mp3: string := ".mp3"

  /** Every candidate URL is a base, then the episode number field, then ".mp3". */
  function Url(base: string, field: string): string {
    base + field + Mp3
  }

  /** The number field of a URL built on `base`: what lies between the base and ".mp3". */
  function Field(base: string, url: string): string
    requires |base| + |Mp3| <= |url|
  {
    url[|base|..|url| - |Mp3|]
  }

  /** The AWS archive, number zero-padded to three digits: 1 gives "...CCEp001.mp3". */
  function AwsUrl(n: nat): string {
    Url(AwsBase, Padded(n, 3))
  }

  /** Tom Francis's server, number zero-padded to three digits: 85 gives "...CCEp085.mp3". */
  function PentadactUrlWithZero(n: nat): string {
    Url(PentadactBase, Padded(n, 3))
  }

  /** Tom Francis's server, number without leading zeros: 78 gives "...CCEp78.mp3". */
  function PentadactUrlNoZero(n: nat): string {
    Url(PentadactBase, Render(n))
  }

  /** The candidates in the order they are tried. */
  function Candidates(n: nat): (cs: seq<string>)
    ensures |cs| == 3
  {
    [AwsUrl(n), PentadactUrlWithZero(n), PentadactUrlNoZero(n)]
  }

  /** The file an episode is written to, in the download directory. */
  function FileName(n: nat): string {
    "CC" + Render(n) + Mp3
  }

  /** The number field sits between the base and ".mp3" and can be cut back out. */
  lemma UrlField(base: string, field: string)
    ensures |Url(base, field)| == |base| + |field| + |Mp3|
    ensures Url(base, field)[..|base|] == base
    ensures Url(base, field)[|Url(base, field)| - |Mp3|..] == Mp3
    ensures Field(base, Url(base, field)) == field
  {
    var u := Url(base, field);
    assert u == base + (field + Mp3);
    assert u[..|base|] == base;
    assert u[|base|..|base| + |field|] == (field + Mp3)[..|field|];
    assert u[|u| - |Mp3|..] == (field + Mp3)[|field|..];
  }

  lemma UrlFieldInjective(base: string, f: string, g: string)
    ensures Url(base, f) == Url(base, g) <==> f == g
  {
    UrlField(base, f);
    UrlField(base, g);
  }

  /** The AWS URL is the AWS base, a field of at least three digits that reads
      back as the episode number, and ".mp3". */
  lemma AwsUrlShape(n: nat)
    ensures |AwsUrl(n)| == |AwsBase| + Max(3, |Render(n)|) + |Mp3|
    ensures AwsUrl(n)[..|AwsBase|] == AwsBase && AwsUrl(n)[|AwsUrl(n)| - |Mp3|..] == Mp3
    ensures AllDigits(Field(AwsBase, AwsUrl(n))) && Value(Field(AwsBase, AwsUrl(n))) == n
  {
    UrlField(AwsBase, Padded(n, 3));
    PaddedShape(n, 3);
  }

  /** Likewise on Tom Francis's server with the padded field. */
  lemma PentadactUrlWithZeroShape(n: nat)
    ensures |PentadactUrlWithZero(n)| == |PentadactBase| + Max(3, |Render(n)|) + |Mp3|
    ensures PentadactUrlWithZero(n)[..|PentadactBase|] == PentadactBase
    ensures PentadactUrlWithZero(n)[|PentadactUrlWithZero(n)| - |Mp3|..] == Mp3
    ensures AllDigits(Field(PentadactBase, PentadactUrlWithZero(n)))
    ensures Value(Field(PentadactBase, PentadactUrlWithZero(n))) == n
  {
    UrlField(PentadactBase, Padded(n, 3));
    PaddedShape(n, 3);
  }

  /** The unpadded URL's field is exactly as long as the number's digits and,
      from episode 1 on, does not start with '0'. */
  lemma PentadactUrlNoZeroShape(n: nat)
    ensures |PentadactUrlNoZero(n)| == |PentadactBase| + |Render(n)| + |Mp3|
    ensures PentadactUrlNoZero(n)[..|PentadactBase|] == PentadactBase
    ensures PentadactUrlNoZero(n)[|PentadactUrlNoZero(n)| - |Mp3|..] == Mp3
    ensures AllDigits(Field(PentadactBase, PentadactUrlNoZero(n)))
    ensures Value(Field(PentadactBase, PentadactUrlNoZero(n))) == n
    ensures n > 0 ==> PentadactUrlNoZero(n)[|PentadactBase|] != '0'
  {
    UrlField(PentadactBase, Render(n));
    RenderRoundTrip(n);
  }

  /** The AWS base is the literal prefix `format_aws_url` writes. */
  lemma AwsBaseLiteral()
    ensures AwsBase == "https://s3-eu-west-1.amazonaws.com/crateandcrowbar/episodes/CCEp"
  {
    AwsOrigin();
    AwsJoin();
  }

  /** Tom Francis's base is the literal prefix both of his formatters write. */
  lemma PentadactBaseLiteral()
    ensures PentadactBase == "https://www.pentadact.com/podcast/CCEp"
  {
    PentadactOrigin();
  }

  /** The AWS origin followed by the archive path. */
  lemma AwsJoin()
    ensures "https://s3-eu-west-1.amazonaws.com" + "/crateandcrowbar/episodes/CCEp"
         == "https://s3-eu-west-1.amazonaws.com/crateandcrowbar/episodes/CCEp"
  {
  }

  /** Scheme and AWS host spelled out. */
  lemma AwsOrigin()
    ensures Https + AwsHost == "https://s3-eu-west-1.amazonaws.com"
  {
  }

  /** Scheme and Tom Francis's host spelled out. */
  lemma PentadactOrigin()
    ensures Https + PentadactHost == "https://www.pentadact.com"
  {
  }

  /** Episodes 1, 21 and 121 on AWS, 85 padded and 78 unpadded on Tom Francis's
      server, exactly as the unit tests expect them. */
  lemma KnownUrls()
    ensures AwsUrl(1) == "https://s3-eu-west-1.amazonaws.com/crateandcrowbar/episodes/CCEp001.mp3"
    ensures AwsUrl(21) == "https://s3-eu-west-1.amazonaws.com/crateandcrowbar/episodes/CCEp021.mp3"
    ensures AwsUrl(121) == "https://s3-eu-west-1.amazonaws.com/crateandcrowbar/episodes/CCEp121.mp3"
    ensures PentadactUrlWithZero(85) == "https://www.pentadact.com/podcast/CCEp085.mp3"
    ensures PentadactUrlNoZero(78) == "https://www.pentadact.com/podcast/CCEp78.mp3"
  {
    KnownFields();
    KnownAwsUrls();
    KnownPentadactUrls();
  }

  /** The three AWS URLs of the unit tests, given their number fields. */
  lemma KnownAwsUrls()
    requires Padded(1, 3) == "001" && Padded(21, 3) == "021" && Padded(121, 3) == "121"
    ensures AwsUrl(1) == "https://s3-eu-west-1.amazonaws.com/crateandcrowbar/episodes/CCEp001.mp3"
    ensures AwsUrl(21) == "https://s3-eu-west-1.amazonaws.com/crateandcrowbar/episodes/CCEp021.mp3"
    ensures AwsUrl(121) == "https://s3-eu-west-1.amazonaws.com/crateandcrowbar/episodes/CCEp121.mp3"
  {
    AwsBaseLiteral();
  }

  /** The two Tom Francis URLs of the unit tests, given their number fields. */
  lemma KnownPentadactUrls()
    requires Padded(85, 3) == "085" && Render(78) == "78"
    ensures PentadactUrlWithZero(85) == "https://www.pentadact.com/podcast/CCEp085.mp3"
    ensures PentadactUrlNoZero(78) == "https://www.pentadact.com/podcast/CCEp78.mp3"
  {
    PentadactBaseLiteral();
  }

  /** The number fields of the episodes above. */
  lemma KnownFields()
    ensures Padded(1, 3) == "001" && Padded(21, 3) == "021" && Padded(121, 3) == "121"
    ensures Padded(85, 3) == "085" && Render(78) == "78"
  {
    RenderOneDigit(1);
    RenderTwoDigits(21);
    RenderTwoDigits(12);
    assert Render(121) == Render(12) + [DigitChar(1)];
    RenderTwoDigits(85);
    RenderTwoDigits(78);
    assert Zeros(1) == "0" && Zeros(2) == "00";
  }

  /** Each formatter determines the episode: the same URL never names two episodes. */
  lemma AwsUrlInjective(m: nat, n: nat)
    ensures AwsUrl(m) == AwsUrl(n) <==> m == n
  {
    UrlFieldInjective(AwsBase, Padded(m, 3), Padded(n, 3));
    PaddedInjective(m, n, 3);
  }

  lemma PentadactUrlWithZeroInjective(m: nat, n: nat)
    ensures PentadactUrlWithZero(m) == PentadactUrlWithZero(n) <==> m == n
  {
    UrlFieldInjective(PentadactBase, Padded(m, 3), Padded(n, 3));
    PaddedInjective(m, n, 3);
  }

  lemma PentadactUrlNoZeroInjective(m: nat, n: nat)
    ensures PentadactUrlNoZero(m) == PentadactUrlNoZero(n) <==> m == n
  {
    UrlFieldInjective(PentadactBase, Render(m), Render(n));
    RenderInjective(m, n);
  }

  /** The two Tom Francis candidates coincide exactly from episode 100 on:
      "once ep 100 is hit, it stops being a concern". */
  lemma PentadactUrlsCoincide(n: nat)
    ensures PentadactUrlWithZero(n) == PentadactUrlNoZero(n) <==> n >= 100
  {
    UrlFieldInjective(PentadactBase, Padded(n, 3), Render(n));
    PaddedIsPlain(n, 3);
    RenderHasThreeDigits(n);
  }

  /** No AWS URL is ever a Tom Francis URL, whatever the two episode numbers. */
  lemma AwsNeverPentadact(m: nat, n: nat)
    ensures AwsUrl(m) != PentadactUrlWithZero(n)
    ensures AwsUrl(m) != PentadactUrlNoZero(n)
  {
    UrlField(AwsBase, Padded(m, 3));
    UrlField(PentadactBase, Padded(n, 3));
    UrlField(PentadactBase, Render(n));
    assert AwsBase[8] != PentadactBase[8];
  }

  /** The three candidates are pairwise distinct exactly below episode 100;
      from 100 on the third repeats the second. */
  lemma CandidatesDistinct(n: nat)
    ensures (forall i, j :: 0 <= i < j < 3 ==> Candidates(n)[i] != Candidates(n)[j]) <==> n < 100
  {
    AwsNeverPentadact(n, n);
    PentadactUrlsCoincide(n);
    if n >= 100 {
      assert Candidates(n)[1] == Candidates(n)[2];
    }
  }

  /** Distinct episodes are saved to distinct files. */
  lemma FileNameInjective(m: nat, n: nat)
    ensures FileName(m) == FileName(n) <==> m == n
  {
    var fm, fn := FileName(m), FileName(n);
    assert fm == "CC" + (Render(m) + Mp3);
    assert fn == "CC" + (Render(n) + Mp3);
    if fm == fn {
      assert fm[2..|fm| - 4] == Render(m);
      assert fn[2..|fn| - 4] == Render(n);
    }
    RenderInjective(m, n);
  }
}
