/**
  Audio retrieval (`download_audio` and its last resort `_simple_download`).
  The media back end is an input: for a video address and a request (a format
  selector and an output template) it answers with the files the attempt
  leaves behind and whether the attempt raised. The file system is the set
  of paths that exist.
 */
module Retrieval {
  import opened Wrappers

  /** The format selectors tried in order. */
  const Formats: seq<string> := [
    "bestaudio[ext=m4a]/bestaudio[ext=webm]/bestaudio",
    "bestaudio/best",
    "worstaudio/worst",
    "best[height<=720]/best"
  ]

  /** The selector of the last-resort attempt. */
  const LastResortFormat := "best"

  /** The extensions the last resort looks for, in order. */
  const LastResortExtensions: seq<string> := ["mp4", "webm", "m4a", "mp3"]

  /** One request to the media back end. */
  datatype Request = Request(format: string, outtmpl: string)

  /** What an attempt did: the paths it created, and whether it raised. */
  datatype Attempt = Attempt(added: set<string>, raised: bool)

  /** The request of the `k`-th format attempt: the selector, written to `stem.mp3`. */
  function FormatRequest(stem: string, k: nat): Request
    requires k < |Formats|
  {
    Request(Formats[k], stem + ".mp3")
  }

  /** The last-resort request: selector `best`, the extension left to the back end. */
  function LastResortRequest(stem: string): Request {
    Request(LastResortFormat, stem + ".%(ext)s")
  }

  /** The requests of the first `k` format attempts. */
  function FormatRequests(stem: string, k: nat): (rs: seq<Request>)
    requires k <= |Formats|
    ensures |rs| == k
    ensures forall i :: 0 <= i < k ==> rs[i] == FormatRequest(stem, i)
  {
    if k == 0 then [] else FormatRequests(stem, k - 1) + [FormatRequest(stem, k - 1)]
  }

  /** The file system after the first `k` format attempts. */
  function FsAfterFormats(url: string, stem: string, fs0: set<string>,
                          backend: (string, Request) -> Attempt, k: nat): set<string>
    requires k <= |Formats|
  {
    if k == 0 then fs0
    else FsAfterFormats(url, stem, fs0, backend, k - 1) + backend(url, FormatRequest(stem, k - 1)).added
  }

  /** The `k`-th format attempt counts as a success: it did not raise and
      `stem.mp3` exists after it. */
  predicate FormatSucceeds(url: string, stem: string, fs0: set<string>,
                           backend: (string, Request) -> Attempt, k: nat)
    requires k < |Formats|
  {
    !backend(url, FormatRequest(stem, k)).raised
    && stem + ".mp3" in FsAfterFormats(url, stem, fs0, backend, k + 1)
  }

  /** The first format attempt at or after `from` that succeeds. */
  function FirstFormatSuccess(url: string, stem: string, fs0: set<string>,
                              backend: (string, Request) -> Attempt, from: nat): (r: Option<nat>)
    requires from <= |Formats|
    ensures r.Some? ==> from <= r.value < |Formats| && FormatSucceeds(url, stem, fs0, backend, r.value)
    ensures r.Some? ==> forall k :: from <= k < r.value ==> !FormatSucceeds(url, stem, fs0, backend, k)
    ensures r.None? ==> forall k :: from <= k < |Formats| ==> !FormatSucceeds(url, stem, fs0, backend, k)
    decreases |Formats| - from
  {
    if from == |Formats| then None
    else if FormatSucceeds(url, stem, fs0, backend, from) then Some(from)
    else FirstFormatSuccess(url, stem, fs0, backend, from + 1)
  }

  /** One of the files the last resort looks for exists. */
  predicate HasDownload(stem: string, fs: set<string>) {
    exists i :: 0 <= i < |LastResortExtensions| && stem + "." + LastResortExtensions[i] in fs
  }

  /** The outcome of a retrieval: the verdict, the file system afterwards and
      the requests sent, in order. */
  datatype Outcome = Outcome(ok: bool, fs: set<string>, requests: seq<Request>)

  /** What `download_audio` does, stated on the attempts: at the first format
      attempt that succeeds it stops with True; when none does, one
      last-resort attempt follows and decides the verdict. */
  function AudioOutcome(url: string, stem: string, fs0: set<string>,
                        backend: (string, Request) -> Attempt): Outcome
  {
    match FirstFormatSuccess(url, stem, fs0, backend, 0)
    case Some(k) =>
      Outcome(true, FsAfterFormats(url, stem, fs0, backend, k + 1), FormatRequests(stem, k + 1))
    case None =>
      var last := backend(url, LastResortRequest(stem));
      var fs := FsAfterFormats(url, stem, fs0, backend, |Formats|) + last.added;
      Outcome(!last.raised && HasDownload(stem, fs), fs,
              FormatRequests(stem, |Formats|) + [LastResortRequest(stem)])
  }

  /** `_simple_download`: one attempt with selector `best`; True exactly when
      it did not raise and one of `stem.mp4`, `.webm`, `.m4a`, `.mp3` exists. */
  method SimpleDownload(url: string, stem: string, fs0: set<string>,
                        backend: (string, Request) -> Attempt)
    returns (ok: bool, fs: set<string>)
    ensures fs == fs0 + backend(url, LastResortRequest(stem)).added
    ensures ok <==> !backend(url, LastResortRequest(stem)).raised && HasDownload(stem, fs)
  {
    var attempt := backend(url, LastResortRequest(stem));
    fs := fs0 + attempt.added;
    if attempt.raised {
      return false, fs;
    }
    var i := 0;
    while i < |LastResortExtensions|
      invariant i <= |LastResortExtensions|
      invariant forall j :: 0 <= j < i ==> stem + "." + LastResortExtensions[j] !in fs
    {
      if stem + "." + LastResortExtensions[i] in fs {
        return true, fs;
      }
      i := i + 1;
    }
    return false, fs;
  }

  /** `download_audio`: the format attempts in order, checking for `stem.mp3`
      after each one that did not raise, then the last resort. */
  method DownloadAudio(url: string, stem: string, fs0: set<string>,
                       backend: (string, Request) -> Attempt)
    returns (ok: bool, fs: set<string>, requests: seq<Request>)
    ensures Outcome(ok, fs, requests) == AudioOutcome(url, stem, fs0, backend)
  {
    fs, requests := fs0, [];
    var i := 0;
    while i < |Formats|
      invariant i <= |Formats|
      invariant fs == FsAfterFormats(url, stem, fs0, backend, i)
      invariant requests == FormatRequests(stem, i)
      invariant forall k :: 0 <= k < i ==> !FormatSucceeds(url, stem, fs0, backend, k)
    {
      var request := FormatRequest(stem, i);
      requests := requests + [request];
      var attempt := backend(url, request);
      fs := fs + attempt.added;
      if !attempt.raised && stem + ".mp3" in fs {
        return true, fs, requests;
      }
      i := i + 1;
    }
    requests := requests + [LastResortRequest(stem)];
    ok, fs := SimpleDownload(url, stem, fs, backend);
  }

  /** The format attempts only ever add files. */
  lemma {:induction false} FsAfterFormatsGrows(url: string, stem: string, fs0: set<string>,
                                              backend: (string, Request) -> Attempt, k: nat)
    requires k <= |Formats|
    ensures fs0 <= FsAfterFormats(url, stem, fs0, backend, k)
  {
    if k > 0 {
      FsAfterFormatsGrows(url, stem, fs0, backend, k - 1);
    }
  }

  /** A True verdict means one of the files looked for exists afterwards; no
      file disappears; a format run stops at its first success, and the last
      resort is tried only after every format failed. */
  lemma AudioOutcomeSound(url: string, stem: string, fs0: set<string>,
                          backend: (string, Request) -> Attempt)
    ensures var o := AudioOutcome(url, stem, fs0, backend);
      && (o.ok ==> HasDownload(stem, o.fs))
      && fs0 <= o.fs
      && (LastResortRequest(stem) in o.requests ==>
            forall k :: 0 <= k < |Formats| ==> !FormatSucceeds(url, stem, fs0, backend, k))
  {
    var o := AudioOutcome(url, stem, fs0, backend);
    FsAfterFormatsGrows(url, stem, fs0, backend, |Formats|);
    match FirstFormatSuccess(url, stem, fs0, backend, 0)
    case Some(k) =>
      FsAfterFormatsGrows(url, stem, fs0, backend, k + 1);
      assert stem + "." + LastResortExtensions[3] == stem + ".mp3";
      assert LastResortRequest(stem) !in o.requests by {
        forall i | 0 <= i < |o.requests| ensures o.requests[i] != LastResortRequest(stem) {
          assert o.requests[i] == FormatRequest(stem, i);
        }
      }
    case None =>
  }

  /** Exactly the first `k + 1` format attempts are made when attempt `k`
      is the first to succeed. */
  lemma StopsAtFirstSuccess(url: string, stem: string, fs0: set<string>,
                            backend: (string, Request) -> Attempt, k: nat)
    requires k < |Formats|
    requires FormatSucceeds(url, stem, fs0, backend, k)
    requires forall j :: 0 <= j < k ==> !FormatSucceeds(url, stem, fs0, backend, j)
    ensures AudioOutcome(url, stem, fs0, backend).ok
    ensures AudioOutcome(url, stem, fs0, backend).requests == FormatRequests(stem, k + 1)
  {
    var r := FirstFormatSuccess(url, stem, fs0, backend, 0);
    assert r == Some(k);
  }
}
