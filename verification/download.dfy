/** `download_beatmap` (main.py): two sources tried in a fixed order, each
    given three attempts. A 425 answer is followed by `continue`, which moves
    to the next attempt of the same source, so it uses up one of the three
    like any request error. The first attempt that succeeds ends the whole
    download. Only the control flow is modelled: each HTTP attempt is reduced
    to its outcome, supplied by an oracle. */
module Download {
  import Outcome
  import opened Filename

  /** How one request ends. `RequestError` covers every
      `requests.RequestException`, including the one `raise_for_status`
      raises for an error status; `Success` is a response whose body was
      written out in full. */
  datatype Attempt = Status425 | RequestError | Success

  datatype Request = Request(url: string, outcome: Attempt)

  /** Whether a run of attempts ended in success, and the requests it made. */
  datatype SourceRun = SourceRun(ok: bool, trace: seq<Request>)

  /** The `range(3)` of the attempt loop. */
  const AttemptsPerSource: nat := 3

  const PrimaryBase: string := "https://catboy.best/d/"
  const MirrorBase: string := "https://nerinyan.moe/d/"

  /** `fallback_urls`: the primary source, then the mirror, both naming the
      set by its id at the end of the URL. */
  function SourceUrls(setId: string): (urls: seq<string>)
    ensures |urls| == 2
    ensures |PrimaryBase| <= |urls[0]| && urls[0][..|PrimaryBase|] == PrimaryBase
    ensures |MirrorBase| <= |urls[1]| && urls[1][..|MirrorBase|] == MirrorBase
    ensures forall i :: 0 <= i < |urls| ==> |setId| <= |urls[i]| && urls[i][|urls[i]| - |setId|..] == setId
  {
    var primary := PrimaryBase + setId;
    var mirror := MirrorBase + setId;
    assert primary[..|PrimaryBase|] == PrimaryBase && primary[|PrimaryBase|..] == setId;
    assert mirror[..|MirrorBase|] == MirrorBase && mirror[|MirrorBase|..] == setId;
    [primary, mirror]
  }

  /** `raw_filename`: the set id, a space, the title and ".osz". */
  function RawName(setId: string, title: string): string {
    setId + " " + title + ".osz"
  }

  /** The file the archive is written to: `"{id} {title}.osz"`, sanitised.
      Every such name is free of illegal characters, fits the limit and ends
      in ".osz". The bounded sanitiser agrees here with the one as written
      (see `ArchiveNameAsWritten`). */
  function ArchiveName(setId: string, title: string): (name: string)
    ensures Clean(name)
    ensures |name| <= MaxLength
    ensures |name| >= 4 && name[|name| - 4..] == ".osz"
  {
    ArchiveNameEndsInOsz(setId, title);
    SanitizeBounded(RawName(setId, title))
  }

  lemma ArchiveNameEndsInOsz(setId: string, title: string)
    ensures var name := SanitizeBounded(RawName(setId, title));
      |name| >= 4 && name[|name| - 4..] == ".osz"
  {
    ArchiveExtension(setId, title);
    RawEndsInOsz(setId, title);
    KeepsOsz(RawName(setId, title));
  }

  /** A name that ends in ".osz", and whose extension is that, still ends
      in ".osz" once sanitised. */
  lemma KeepsOsz(raw: string)
    requires var p := ReplaceIllegal(raw); |p| >= 4 && p[|p| - 4..] == ".osz"
    requires SplitExt(ReplaceIllegal(raw)).ext == ".osz"
    ensures var name := SanitizeBounded(raw); |name| >= 4 && name[|name| - 4..] == ".osz"
  {
  }

  /** The attempt loop for one URL with `left` attempts remaining; request
      number `next` of the download receives the answer `net(next)`. */
  function TrySource(url: string, net: nat -> Attempt, next: nat, left: nat): (r: SourceRun)
    ensures |r.trace| <= left
    ensures forall i :: 0 <= i < |r.trace| ==> r.trace[i] == Request(url, net(next + i))
    ensures r.ok <==> exists j :: next <= j < next + left && net(j) == Success
    ensures r.ok ==> |r.trace| > 0 && r.trace[|r.trace| - 1].outcome == Success
    ensures forall i :: 0 <= i < |r.trace| - 1 ==> r.trace[i].outcome != Success
    ensures !r.ok ==> |r.trace| == left
    decreases left
  {
    if left == 0 then SourceRun(false, [])
    else
      var outcome := net(next);
      if outcome == Success then SourceRun(true, [Request(url, outcome)])
      else
        var rest := TrySource(url, net, next + 1, left - 1);
        SourceRun(rest.ok, [Request(url, outcome)] + rest.trace)
  }

  /** The source request `i` of a run goes to: the first three requests go
      to source 0, the next three to source 1, and so on. */
  function SourceIndex(i: nat): (k: nat)
    decreases i
  {
    if i < AttemptsPerSource then 0 else 1 + SourceIndex(i - AttemptsPerSource)
  }

  /** `SourceIndex(i)` is `i / 3`. */
  lemma {:induction false} SourceIndexIsQuotient(i: nat)
    ensures SourceIndex(i) == i / AttemptsPerSource
    decreases i
  {
    if i >= AttemptsPerSource {
      SourceIndexIsQuotient(i - AttemptsPerSource);
    }
  }

  /** What a run over the sources `urls`, starting at answer `next`, does:
      request `i` goes to source `SourceIndex(i)` and receives `net(next + i)`; it
      succeeds exactly when one of the answers within three per source is a
      success, and then stops at the first one; otherwise it makes every
      attempt of every source. */
  predicate Tried(urls: seq<string>, net: nat -> Attempt, next: nat, r: SourceRun) {
    && |r.trace| <= AttemptsPerSource * |urls|
    && (forall i :: 0 <= i < |r.trace| ==>
         SourceIndex(i) < |urls| && r.trace[i] == Request(urls[SourceIndex(i)], net(next + i)))
    && (r.ok <==> exists j :: next <= j < next + AttemptsPerSource * |urls| && net(j) == Success)
    && (r.ok ==> |r.trace| > 0 && r.trace[|r.trace| - 1].outcome == Success)
    && (forall i :: 0 <= i < |r.trace| - 1 ==> r.trace[i].outcome != Success)
    && (!r.ok ==> |r.trace| == AttemptsPerSource * |urls|)
  }

  /** The loop over the sources: each gets its attempts in turn until one
      succeeds. */
  function TrySources(urls: seq<string>, net: nat -> Attempt, next: nat): (r: SourceRun)
    ensures Tried(urls, net, next, r)
    decreases |urls|
  {
    if |urls| == 0 then SourceRun(false, [])
    else
      var first := TrySource(urls[0], net, next, AttemptsPerSource);
      if first.ok then
        FirstSourceServes(urls, net, next);
        first
      else
        var rest := TrySources(urls[1..], net, next + AttemptsPerSource);
        FallBack(urls, net, next, rest);
        SourceRun(rest.ok, first.trace + rest.trace)
  }

  /** A success from the first source is a success of the whole run. */
  lemma FirstSourceServes(urls: seq<string>, net: nat -> Attempt, next: nat)
    requires |urls| > 0
    requires TrySource(urls[0], net, next, AttemptsPerSource).ok
    ensures Tried(urls, net, next, TrySource(urls[0], net, next, AttemptsPerSource))
  {
    var first := TrySource(urls[0], net, next, AttemptsPerSource);
    assert forall i :: 0 <= i < |first.trace| ==> SourceIndex(i) == 0;
  }

  /** When the first source fails all its attempts, the run is those
      attempts followed by the run over the remaining sources. */
  lemma FallBack(urls: seq<string>, net: nat -> Attempt, next: nat, rest: SourceRun)
    requires |urls| > 0
    requires !TrySource(urls[0], net, next, AttemptsPerSource).ok
    requires Tried(urls[1..], net, next + AttemptsPerSource, rest)
    ensures Tried(urls, net, next, SourceRun(rest.ok, TrySource(urls[0], net, next, AttemptsPerSource).trace + rest.trace))
  {
    var first := TrySource(urls[0], net, next, AttemptsPerSource).trace;
    assert forall j :: next <= j < next + AttemptsPerSource ==> net(j) != Success;
    assert forall i :: 0 <= i < |first| ==> first[i].outcome != Success by {
      forall i | 0 <= i < |first| ensures first[i].outcome != Success {
        assert first[i].outcome == net(next + i);
      }
    }
    FallBackTrace(urls, net, next, first, rest);
    NextSourceSpan(urls, net, next);
    FallBackStops(first, rest);
  }

  /** Where each request of a fallen-back run goes. */
  lemma FallBackTrace(urls: seq<string>, net: nat -> Attempt, next: nat, first: seq<Request>, rest: SourceRun)
    requires |urls| > 0 && |first| == AttemptsPerSource
    requires forall i :: 0 <= i < |first| ==> first[i] == Request(urls[0], net(next + i))
    requires Tried(urls[1..], net, next + AttemptsPerSource, rest)
    ensures |first + rest.trace| <= AttemptsPerSource * |urls|
    ensures !rest.ok ==> |first + rest.trace| == AttemptsPerSource * |urls|
    ensures forall i :: 0 <= i < |first + rest.trace| ==>
      SourceIndex(i) < |urls| && (first + rest.trace)[i] == Request(urls[SourceIndex(i)], net(next + i))
  {
    assert AttemptsPerSource * |urls| == AttemptsPerSource + AttemptsPerSource * |urls[1..]|;
    FallbackTrace(urls, net, next, first, rest.trace);
    assert forall i :: 0 <= i < |first| ==> SourceIndex(i) == 0 && (first + rest.trace)[i] == first[i];
  }

  /** A fallen-back run ends in its only success, if it has one. */
  lemma FallBackStops(first: seq<Request>, rest: SourceRun)
    requires forall i :: 0 <= i < |first| ==> first[i].outcome != Success
    requires rest.ok ==> |rest.trace| > 0 && rest.trace[|rest.trace| - 1].outcome == Success
    requires forall i :: 0 <= i < |rest.trace| - 1 ==> rest.trace[i].outcome != Success
    ensures rest.ok ==> |first + rest.trace| > 0 && (first + rest.trace)[|first + rest.trace| - 1].outcome == Success
    ensures forall i :: 0 <= i < |first + rest.trace| - 1 ==> (first + rest.trace)[i].outcome != Success
  {
    var t := first + rest.trace;
    forall i | 0 <= i < |t| - 1 ensures t[i].outcome != Success {
      if i < |first| {
        assert t[i] == first[i];
      } else {
        assert t[i] == rest.trace[i - |first|];
      }
    }
    if rest.ok {
      assert t[|t| - 1] == rest.trace[|rest.trace| - 1];
    }
  }


  /** When the first source fails, a success within the whole span is a
      success within the span of the remaining sources. */
  lemma NextSourceSpan(urls: seq<string>, net: nat -> Attempt, next: nat)
    requires |urls| > 0
    requires forall j :: next <= j < next + AttemptsPerSource ==> net(j) != Success
    ensures (exists j :: next <= j < next + AttemptsPerSource * |urls| && net(j) == Success)
        <==> (exists j :: next + AttemptsPerSource <= j < next + AttemptsPerSource + AttemptsPerSource * |urls[1..]| && net(j) == Success)
  {
    assert AttemptsPerSource * |urls| == AttemptsPerSource + AttemptsPerSource * |urls[1..]|;
  }

  /** Appending the remaining sources' requests after three failed ones
      keeps request `i` at source `SourceIndex(i)`. */
  lemma FallbackTrace(urls: seq<string>, net: nat -> Attempt, next: nat, first: seq<Request>, rest: seq<Request>)
    requires |urls| > 0 && |first| == AttemptsPerSource
    requires |rest| <= AttemptsPerSource * |urls[1..]|
    requires forall i :: 0 <= i < |rest| ==>
      SourceIndex(i) < |urls[1..]| && rest[i] == Request(urls[1..][SourceIndex(i)], net(next + AttemptsPerSource + i))
    ensures forall i :: AttemptsPerSource <= i < |first| + |rest| ==>
      SourceIndex(i) < |urls| && (first + rest)[i] == Request(urls[SourceIndex(i)], net(next + i))
  {
    forall i | AttemptsPerSource <= i < |first| + |rest|
      ensures SourceIndex(i) < |urls| && (first + rest)[i] == Request(urls[SourceIndex(i)], net(next + i))
    {
      assert SourceIndex(i) == 1 + SourceIndex(i - AttemptsPerSource);
      assert (first + rest)[i] == rest[i - AttemptsPerSource];
    }
  }

  /** The outcome of `download_beatmap`: whether it returned `True`, the
      requests it made, and the file it wrote, if any. */
  datatype DownloadResult = DownloadResult(ok: bool, requests: seq<Request>, savedAs: Outcome.Option<string>)

  /** `download_beatmap(set_id, title)` against the answers `net`. */
  function DownloadBeatmap(setId: string, title: string, net: nat -> Attempt): (r: DownloadResult)
    ensures |r.requests| <= 6
    ensures r.ok <==> exists j :: 0 <= j < 6 && net(j) == Success
    ensures forall i :: 0 <= i < |r.requests| ==>
      r.requests[i] == Request(if i < AttemptsPerSource then PrimaryBase + setId else MirrorBase + setId, net(i))
    ensures r.ok ==> |r.requests| > 0 && r.requests[|r.requests| - 1].outcome == Success
    ensures forall i :: 0 <= i < |r.requests| - 1 ==> r.requests[i].outcome != Success
    ensures !r.ok ==> |r.requests| == 6
    ensures r.savedAs == (if r.ok then Outcome.Some(ArchiveName(setId, title)) else Outcome.None)
  {
    var urls := SourceUrls(setId);
    var run := TrySources(urls, net, 0);
    RequestSources(setId);
    DownloadResult(run.ok, run.trace, if run.ok then Outcome.Some(ArchiveName(setId, title)) else Outcome.None)
  }

  /** Requests 0 to 2 go to the primary source and 3 to 5 to the mirror. */
  lemma RequestSources(setId: string)
    ensures forall i: nat :: SourceIndex(i) < |SourceUrls(setId)| ==>
      SourceUrls(setId)[SourceIndex(i)] == (if i < AttemptsPerSource then PrimaryBase + setId else MirrorBase + setId)
  {
    forall i: nat | SourceIndex(i) < |SourceUrls(setId)|
      ensures SourceUrls(setId)[SourceIndex(i)] == (if i < AttemptsPerSource then PrimaryBase + setId else MirrorBase + setId)
    {
      if i >= AttemptsPerSource {
        assert SourceIndex(i) == 1 + SourceIndex(i - AttemptsPerSource);
      }
    }
  }

  /** The answer number at which the first success arrives, searching from
      `from` up to (but not including) `limit`; `limit` when none does. */
  function FirstSuccess(net: nat -> Attempt, from: nat, limit: nat): (k: nat)
    requires from <= limit
    ensures from <= k <= limit
    ensures k < limit ==> net(k) == Success
    ensures forall j :: from <= j < k ==> net(j) != Success
    decreases limit - from
  {
    if from == limit then limit
    else if net(from) == Success then from
    else FirstSuccess(net, from + 1, limit)
  }

  /** The download makes exactly the requests up to and including the first
      successful one, or all six when none succeeds. */
  lemma DownloadStopsAtFirstSuccess(setId: string, title: string, net: nat -> Attempt)
    ensures var k := FirstSuccess(net, 0, 6);
      var r := DownloadBeatmap(setId, title, net);
      && (r.ok <==> k < 6)
      && |r.requests| == (if k < 6 then k + 1 else 6)
  {
  }

  /** The last four characters of the replaced raw name are ".osz". */
  lemma RawEndsInOsz(setId: string, title: string)
    ensures var p := ReplaceIllegal(RawName(setId, title));
      |p| >= 4 && p[|p| - 4..] == ".osz"
  {
    var raw := RawName(setId, title);
    var p := ReplaceIllegal(raw);
    forall i | |p| - 4 <= i < |p| ensures p[i] == raw[i] {
      assert raw[i] in ".osz";
    }
  }

  /** A clean name ending in ".osz" with something other than a dot before
      the extension splits off ".osz". */
  lemma OszSplits(p: string, k: nat)
    requires Clean(p)
    requires |p| >= 4 && p[|p| - 4..] == ".osz"
    requires k < |p| - 4 && p[k] != '.'
    ensures SplitExt(p).ext == ".osz"
  {
    if RFind(p, Separators) >= 0 {
      assert false;
    }
    assert p[|p| - 4] == '.' && p[|p| - 3] == 'o' && p[|p| - 2] == 's' && p[|p| - 1] == 'z';
    assert RFind(p, {'.'}) == |p| - 4;
  }

  /** The raw archive name always ends in ".osz" with a space before the
      title, so the '.' of ".osz" is the one `splitext` picks. */
  lemma ArchiveExtension(setId: string, title: string)
    ensures SplitExt(ReplaceIllegal(RawName(setId, title))).ext == ".osz"
  {
    var raw := RawName(setId, title);
    var p := ReplaceIllegal(raw);
    assert raw[|setId|] == ' ';
    ReplaceIllegalIsClean(raw);
    RawEndsInOsz(setId, title);
    OszSplits(p, |setId|);
  }

  /** A short archive name is the raw name with illegal characters replaced;
      a long one is cut to the limit and keeps the first 246 of them. */
  lemma ArchiveNameCut(setId: string, title: string)
    ensures var raw := RawName(setId, title);
      |raw| <= MaxLength ==> ArchiveName(setId, title) == ReplaceIllegal(raw)
    ensures var raw := RawName(setId, title);
      |raw| > MaxLength ==>
        && |ArchiveName(setId, title)| == MaxLength
        && ArchiveName(setId, title)[..MaxLength - 4] == ReplaceIllegal(raw)[..MaxLength - 4]
  {
    var raw := RawName(setId, title);
    if |raw| > MaxLength {
      LongArchiveName(setId, title);
    }
  }

  lemma LongArchiveName(setId: string, title: string)
    requires |RawName(setId, title)| > MaxLength
    ensures |ArchiveName(setId, title)| == MaxLength
    ensures ArchiveName(setId, title)[..MaxLength - 4] == ReplaceIllegal(RawName(setId, title))[..MaxLength - 4]
  {
    var raw := RawName(setId, title);
    var p := ReplaceIllegal(raw);
    ArchiveNameAsWritten(setId, title);
    ArchiveExtension(setId, title);
    assert Sanitize(raw) == Shorten(SplitExt(p));
    ShortenKeepsFront(p);
  }

  /** Shortening a long name whose extension is ".osz" keeps its first 246
      characters. */
  lemma ShortenKeepsFront(p: string)
    requires |p| > MaxLength && SplitExt(p).ext == ".osz"
    ensures |Shorten(SplitExt(p))| == MaxLength
    ensures Shorten(SplitExt(p))[..MaxLength - 4] == p[..MaxLength - 4]
  {
  }

  /** A 425 answer is retried on the same source: refused once, then served,
      the download makes two requests to the primary source and saves. */
  lemma RefusalRetriesSameSource(setId: string, title: string, net: nat -> Attempt)
    requires net(0) == Status425 && net(1) == Success
    ensures var r := DownloadBeatmap(setId, title, net);
      && r.requests == [Request(PrimaryBase + setId, Status425), Request(PrimaryBase + setId, Success)]
      && r.savedAs == Outcome.Some(ArchiveName(setId, title))
  {
  }

  /** Each 425 uses up an attempt: three of them move the download on to the
      mirror, which gets the fourth request. */
  lemma RefusalsExhaustPrimary(setId: string, title: string, net: nat -> Attempt)
    requires net(0) == Status425 && net(1) == Status425 && net(2) == Status425
    ensures var r := DownloadBeatmap(setId, title, net);
      && |r.requests| >= 4
      && r.requests[3] == Request(MirrorBase + setId, net(3))
  {
  }

  /** The extension of an archive name is ".osz", well within the limit, so
      the sanitiser as written and the bounded one give the same file. */
  lemma ArchiveNameAsWritten(setId: string, title: string)
    ensures ArchiveName(setId, title) == Sanitize(RawName(setId, title))
  {
    ArchiveExtension(setId, title);
  }
}
