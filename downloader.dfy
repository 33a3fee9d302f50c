/**
 * `download_file`: one GET, a required content length, a truncating create of
 * the destination, then a loop that appends every received chunk to the file
 * and reports the clamped cumulative byte count to a progress bar.
 *
 * The HTTP exchange is an input (`get`); whether `File::create` and each
 * `write_all` succeed are inputs too (`createOk`, `writeFails`).
 */
module Downloader {
  import opened Results

  const U64Max: int := 0xFFFF_FFFF_FFFF_FFFF

  type u64 = x: int | 0 <= x <= U64Max

  type byte = x: int | 0 <= x < 256

  /** One item the response's byte stream yields. */
  datatype StreamItem = Chunk(bytes: seq<byte>) | ChunkError

  /** A response that was received: its `Content-Length`, if any, and its body stream. */
  datatype Response = Response(contentLength: Option<u64>, body: seq<StreamItem>)

  /** The five ways `download_file` fails; `Message` gives the text the source returns. */
  datatype DownloadError =
    | GetFailed(url: string)
    | LengthUnknown(url: string)
    | CreateFailed(path: string)
    | StreamFailed
    | WriteFailed

  function Message(e: DownloadError): string
  {
    match e
    case GetFailed(url) => "Failed to GET from '" + url + "'"
    case LengthUnknown(url) => "Failed to get content length from '" + url + "'"
    case CreateFailed(path) => "Failed to create file '" + path + "'"
    case StreamFailed => "Error while downloading file"
    case WriteFailed => "Error while writing to file"
  }

  /** What the progress bar is told: its creation, each `set_position`, and the final message. */
  datatype ProgressEvent =
    | Started(total: u64, message: string)
    | Position(pos: u64)
    | Finished(message: string)

  /** The file at the destination path: its bytes, or None when no file is there. */
  class Destination {
    var contents: Option<seq<byte>>

    constructor (initial: Option<seq<byte>>)
      ensures contents == initial
    {
      contents := initial;
    }
  }

  /** Everything the progress bars of the run have been told, in order. */
  class ProgressLog {
    var events: seq<ProgressEvent>

    constructor ()
      ensures events == []
    {
      events := [];
    }
  }

  /** `min(n, total)`. */
  function Clamp(n: nat, total: u64): (r: u64)
    ensures r <= n && r <= total
    ensures r == n || r == total
  {
    if n < total then n else total
  }

  /** The bytes of the items, in stream order (an error item carries none). */
  function Received(items: seq<StreamItem>): seq<byte>
  {
    if items == [] then []
    else Received(items[..|items| - 1]) + ItemBytes(items[|items| - 1])
  }

  function ItemBytes(item: StreamItem): seq<byte>
  {
    if item.Chunk? then item.bytes else []
  }

  /** The `set_position` reports made after each of the items. */
  function Reports(items: seq<StreamItem>, total: u64): (r: seq<ProgressEvent>)
    ensures |r| == |items|
    ensures forall e :: e in r ==> e.Position?
  {
    if items == [] then []
    else Reports(items[..|items| - 1], total) + [Position(Clamp(|Received(items)|, total))]
  }

  /** The item on which the loop stops: the first error item or failed write, or the end. */
  function FirstFailure(body: seq<StreamItem>, writeFails: set<nat>, from: nat := 0): (k: nat)
    requires from <= |body|
    ensures from <= k <= |body|
    decreases |body| - from
  {
    if from == |body| || body[from].ChunkError? || from in writeFails then from
    else FirstFailure(body, writeFails, from + 1)
  }

  /** Every item before the stopping point is a chunk whose write succeeds, and the stopping point is the first that is not. */
  lemma {:induction false} FirstFailureSpec(body: seq<StreamItem>, writeFails: set<nat>, from: nat, k: nat)
    requires from <= k <= |body|
    ensures FirstFailure(body, writeFails, from) == k <==>
      (forall j :: from <= j < k ==> body[j].Chunk? && j !in writeFails) &&
      (k < |body| ==> body[k].ChunkError? || k in writeFails)
    decreases |body| - from
  {
    if from < k && body[from].Chunk? && from !in writeFails {
      FirstFailureSpec(body, writeFails, from + 1, k);
    }
  }

  /** The bytes of two stretches of the stream, one after the other, are the bytes of the first followed by those of the second. */
  lemma {:induction false} ReceivedConcat(a: seq<StreamItem>, b: seq<StreamItem>)
    ensures Received(a + b) == Received(a) + Received(b)
    decreases |b|
  {
    if b == [] {
      assert a + b == a;
    } else {
      var init := b[..|b| - 1];
      assert (a + b)[..|a + b| - 1] == a + init;
      ReceivedConcat(a, init);
    }
  }

  /**
   * The loop succeeds exactly when every item is a chunk whose write succeeds;
   * otherwise it fails with the error of the first item that is not, a stream
   * error naming an item that could not be retrieved.
   */
  lemma StreamResultCases(body: seq<StreamItem>, writeFails: set<nat>)
    ensures StreamResult(body, writeFails).Ok? <==>
      forall i :: 0 <= i < |body| ==> body[i].Chunk? && i !in writeFails
    ensures StreamResult(body, writeFails).Err? ==>
      exists k :: 0 <= k < |body| &&
        (forall j :: 0 <= j < k ==> body[j].Chunk? && j !in writeFails) &&
        (body[k].ChunkError? ==> StreamResult(body, writeFails) == Err(StreamFailed)) &&
        (body[k].Chunk? ==> k in writeFails && StreamResult(body, writeFails) == Err(WriteFailed))
  {
    var k := FirstFailure(body, writeFails);
    FirstFailureSpec(body, writeFails, 0, k);
    FirstFailureSpec(body, writeFails, 0, |body|);
  }

  /** The outcome of a call, the file it leaves and the progress it reports. */
  datatype DownloadRun = DownloadRun(
    result: Result<(), DownloadError>,
    file: Option<seq<byte>>,
    events: seq<ProgressEvent>)

  /** How the chunk loop ends: normally, or on the first error item or failed write. */
  function StreamResult(body: seq<StreamItem>, writeFails: set<nat>): Result<(), DownloadError>
  {
    var k := FirstFailure(body, writeFails);
    if k == |body| then Ok(())
    else if body[k].ChunkError? then Err(StreamFailed)
    else Err(WriteFailed)
  }

  /** The behaviour of `download_file` as a function of its inputs and of the file before the call. */
  function Download(url: string, path: string, get: Option<Response>, createOk: bool,
                    writeFails: set<nat>, before: Option<seq<byte>>): (r: DownloadRun)
    ensures r.result.Ok? <==> r.events != [] && r.events[|r.events| - 1].Finished?
    ensures r.events != [] ==>
      get.Some? && get.value.contentLength.Some? &&
      r.events[0] == Started(get.value.contentLength.value, "Downloading " + url)
    ensures r.file != before ==> get.Some? && get.value.contentLength.Some? && createOk
  {
    if get.None? then DownloadRun(Err(GetFailed(url)), before, [])
    else if get.value.contentLength.None? then DownloadRun(Err(LengthUnknown(url)), before, [])
    else
      var total := get.value.contentLength.value;
      var body := get.value.body;
      var start := [Started(total, "Downloading " + url)];
      if !createOk then DownloadRun(Err(CreateFailed(path)), before, start)
      else
        var written := body[..FirstFailure(body, writeFails)];
        var result := StreamResult(body, writeFails);
        DownloadRun(result, Some(Received(written)),
                    start + Reports(written, total) +
                    if result.Ok? then [Finished("Downloaded " + url + " to " + path)] else [])
  }

  /** `download_file`: the two early checks, the progress bar, the create, then the chunk loop. */
  method DownloadFile(url: string, path: string, get: Option<Response>, createOk: bool,
                      writeFails: set<nat>, dest: Destination, log: ProgressLog)
    returns (r: Result<(), DownloadError>)
    modifies dest, log
    ensures var run := Download(url, path, get, createOk, writeFails, old(dest.contents));
      r == run.result && dest.contents == run.file && log.events == old(log.events) + run.events
  {
    if get.None? {
      return Err(GetFailed(url));
    }
    var response := get.value;
    if response.contentLength.None? {
      return Err(LengthUnknown(url));
    }
    var total := response.contentLength.value;
    log.events := log.events + [Started(total, "Downloading " + url)];
    if !createOk {
      return Err(CreateFailed(path));
    }
    dest.contents := Some([]);
    r := StreamToFile(response.body, total, writeFails, dest, log);
    if r.Ok? {
      log.events := log.events + [Finished("Downloaded " + url + " to " + path)];
    }
  }

  /**
   * The `while let` loop of `download_file`: append each chunk to the freshly
   * created file, advance `downloaded` to `min(downloaded + len, total)` and
   * report it; stop at the first error item or failed write.
   */
  method StreamToFile(body: seq<StreamItem>, total: u64, writeFails: set<nat>, dest: Destination, log: ProgressLog)
    returns (r: Result<(), DownloadError>)
    requires dest.contents == Some([])
    modifies dest, log
    ensures r == StreamResult(body, writeFails)
    ensures dest.contents == Some(Received(body[..FirstFailure(body, writeFails)]))
    ensures log.events == old(log.events) + Reports(body[..FirstFailure(body, writeFails)], total)
  {
    var downloaded: u64 := 0;
    var i := 0;
    while i < |body|
      invariant i <= |body|
      invariant forall j :: 0 <= j < i ==> body[j].Chunk? && j !in writeFails
      invariant downloaded == Clamp(|Received(body[..i])|, total)
      invariant dest.contents == Some(Received(body[..i]))
      invariant log.events == old(log.events) + Reports(body[..i], total)
    {
      var item := body[i];
      if item.ChunkError? || i in writeFails {
        FirstFailureSpec(body, writeFails, 0, i);
        if item.ChunkError? {
          return Err(StreamFailed);
        }
        return Err(WriteFailed);
      }
      assert body[..i + 1][..i] == body[..i];
      dest.contents := Some(dest.contents.value + item.bytes);
      var next := Clamp(downloaded + |item.bytes|, total);
      downloaded := next;
      log.events := log.events + [Position(next)];
      i := i + 1;
    }
    assert body[..i] == body;
    FirstFailureSpec(body, writeFails, 0, i);
    return Ok(());
  }

  // ---- Properties of the received bytes and of the progress reports ----

  /** Every item is a chunk with at least one byte. */
  predicate NonEmptyChunks(items: seq<StreamItem>)
  {
    forall k :: 0 <= k < |items| ==> items[k].Chunk? && |items[k].bytes| > 0
  }

  /** A prefix of the stream has received no more bytes than the whole, and strictly fewer when every chunk is non-empty. */
  lemma {:induction false} ReceivedGrows(items: seq<StreamItem>, i: nat)
    requires i <= |items|
    ensures |Received(items[..i])| <= |Received(items)|
    ensures i < |items| && NonEmptyChunks(items) ==> |Received(items[..i])| < |Received(items)|
  {
    if i < |items| {
      var init := items[..|items| - 1];
      assert items[..i] == init[..i];
      ReceivedGrows(init, i);
    } else {
      assert items[..i] == items;
    }
  }

  /** The i-th report is the clamped count of the bytes received up to and including item i. */
  lemma {:induction false} ReportsAt(items: seq<StreamItem>, total: u64, i: nat)
    requires i < |items|
    ensures Reports(items, total)[i] == Position(Clamp(|Received(items[..i + 1])|, total))
  {
    var init := items[..|items| - 1];
    if i == |items| - 1 {
      assert items[..i + 1] == items;
    } else {
      assert init[..i + 1] == items[..i + 1];
      ReportsAt(init, total, i);
    }
  }

  /** Reported positions never decrease and never exceed the content length. */
  lemma ReportsMonotone(items: seq<StreamItem>, total: u64)
    ensures forall i, j :: 0 <= i <= j < |items| ==>
      Reports(items, total)[i].Position? && Reports(items, total)[j].Position? &&
      Reports(items, total)[i].pos <= Reports(items, total)[j].pos <= total
  {
    forall i, j | 0 <= i <= j < |items|
      ensures Reports(items, total)[i].Position? && Reports(items, total)[j].Position?
      ensures Reports(items, total)[i].pos <= Reports(items, total)[j].pos <= total
    {
      ReportsAt(items, total, i);
      ReportsAt(items, total, j);
      assert items[..j + 1][..i + 1] == items[..i + 1];
      ReceivedGrows(items[..j + 1], i + 1);
    }
  }

  /**
   * With non-empty chunks that do not overrun the content length, every
   * report is strictly larger than the one before, and each is the exact
   * number of bytes received so far.
   */
  lemma ReportsStrictlyIncrease(items: seq<StreamItem>, total: u64)
    requires NonEmptyChunks(items)
    requires |Received(items)| <= total
    ensures forall i, j :: 0 <= i < j < |items| ==>
      Reports(items, total)[i].Position? && Reports(items, total)[j].Position? &&
      Reports(items, total)[i].pos < Reports(items, total)[j].pos
    ensures forall i :: 0 <= i < |items| ==> Reports(items, total)[i].pos == |Received(items[..i + 1])|
  {
    forall i | 0 <= i < |items|
      ensures Reports(items, total)[i].pos == |Received(items[..i + 1])|
    {
      ReportIsExact(items, total, i);
    }
    forall i, j | 0 <= i < j < |items|
      ensures Reports(items, total)[i].Position? && Reports(items, total)[j].Position?
      ensures Reports(items, total)[i].pos < Reports(items, total)[j].pos
    {
      ReportIsExact(items, total, i);
      ReportIsExact(items, total, j);
      ReceivedRises(items, i, j);
    }
  }

  /** Without overrun, report i is the exact byte count after item i. */
  lemma ReportIsExact(items: seq<StreamItem>, total: u64, i: nat)
    requires i < |items| && |Received(items)| <= total
    ensures Reports(items, total)[i].Position? && Reports(items, total)[i].pos == |Received(items[..i + 1])|
  {
    ReportsAt(items, total, i);
    ReceivedGrows(items, i + 1);
  }

  /** With non-empty chunks, more items received means strictly more bytes. */
  lemma ReceivedRises(items: seq<StreamItem>, i: nat, j: nat)
    requires i < j < |items| && NonEmptyChunks(items)
    ensures |Received(items[..i + 1])| < |Received(items[..j + 1])|
  {
    var upTo := items[..j + 1];
    assert upTo[..i + 1] == items[..i + 1];
    assert NonEmptyChunks(upTo) by {
      forall k | 0 <= k < |upTo| ensures upTo[k].Chunk? && |upTo[k].bytes| > 0 {
        assert upTo[k] == items[k];
      }
    }
    ReceivedGrows(upTo, i + 1);
  }

  // ---- Properties of a whole call ----

  /**
   * A failed GET or a missing content length returns at once: the
   * destination is as it was and the progress bar is never told anything.
   * A failed create leaves the destination as it was and reports no position.
   */
  lemma EarlyFailuresTouchNothing(url: string, path: string, get: Option<Response>, createOk: bool,
                                  writeFails: set<nat>, before: Option<seq<byte>>)
    ensures var run := Download(url, path, get, createOk, writeFails, before);
      (get.None? ==>
        run == DownloadRun(Err(GetFailed(url)), before, []) &&
        Message(run.result.error) == "Failed to GET from '" + url + "'") &&
      (get.Some? && get.value.contentLength.None? ==>
        run == DownloadRun(Err(LengthUnknown(url)), before, []) &&
        Message(run.result.error) == "Failed to get content length from '" + url + "'") &&
      (get.Some? && get.value.contentLength.Some? && !createOk ==>
        run.result == Err(CreateFailed(path)) && run.file == before &&
        Message(run.result.error) == "Failed to create file '" + path + "'" &&
        forall e :: e in run.events ==> !e.Position?)
  {
  }

  /**
   * The call succeeds exactly when the GET succeeds, the length is known, the
   * file is created and every item is a chunk that is written; the file then
   * holds exactly the received bytes, in stream order, whatever was there
   * before, and the progress bar ends with the completion message.
   */
  lemma SuccessWritesTheWholeBody(url: string, path: string, get: Option<Response>, createOk: bool,
                                  writeFails: set<nat>, before: Option<seq<byte>>)
    ensures var run := Download(url, path, get, createOk, writeFails, before);
      run.result.Ok? <==>
        get.Some? && get.value.contentLength.Some? && createOk &&
        forall i :: 0 <= i < |get.value.body| ==> get.value.body[i].Chunk? && i !in writeFails
    ensures var run := Download(url, path, get, createOk, writeFails, before);
      run.result.Ok? ==>
        run.file == Some(Received(get.value.body)) &&
        run.events == [Started(get.value.contentLength.value, "Downloading " + url)] +
                      Reports(get.value.body, get.value.contentLength.value) +
                      [Finished("Downloaded " + url + " to " + path)]
  {
    if get.Some? && get.value.contentLength.Some? && createOk {
      var body := get.value.body;
      var k := FirstFailure(body, writeFails);
      FirstFailureSpec(body, writeFails, 0, |body|);
      if k == |body| {
        assert body[..k] == body;
      }
    }
  }

  /**
   * When the stream ends normally the last position reported is
   * `min(bytes received, content length)`, and every reported position is
   * within the content length and no smaller than the one before.
   */
  lemma ProgressIsClampedAndMonotone(url: string, path: string, get: Option<Response>, createOk: bool,
                                     writeFails: set<nat>, before: Option<seq<byte>>)
    ensures var run := Download(url, path, get, createOk, writeFails, before);
      forall i, j :: 0 <= i <= j < |run.events| && run.events[i].Position? && run.events[j].Position? ==>
        run.events[i].pos <= run.events[j].pos
    ensures var run := Download(url, path, get, createOk, writeFails, before);
      forall i :: 0 <= i < |run.events| && run.events[i].Position? ==>
        get.Some? && get.value.contentLength.Some? && run.events[i].pos <= get.value.contentLength.value
    ensures var run := Download(url, path, get, createOk, writeFails, before);
      run.result.Ok? && |get.value.body| > 0 ==>
        run.events[|run.events| - 2] ==
          Position(Clamp(|Received(get.value.body)|, get.value.contentLength.value))
  {
    var run := Download(url, path, get, createOk, writeFails, before);
    if get.Some? && get.value.contentLength.Some? && createOk {
      var total := get.value.contentLength.value;
      var body := get.value.body;
      var k := FirstFailure(body, writeFails);
      var reports := Reports(body[..k], total);
      ReportsMonotone(body[..k], total);
      PositionsAreReports(url, path, get, createOk, writeFails, before);
      if run.result.Ok? && |body| > 0 {
        assert k == |body| && body[..k] == body;
        ReportsAt(body, total, |body| - 1);
        assert body[..|body|] == body;
        assert run.events[|run.events| - 2] == reports[|body| - 1];
      }
    }
  }

  /** Once the file is created, event i (for 1 <= i <= number of written chunks) is report i - 1, and only those are positions. */
  lemma PositionsAreReports(url: string, path: string, get: Option<Response>, createOk: bool,
                            writeFails: set<nat>, before: Option<seq<byte>>)
    requires get.Some? && get.value.contentLength.Some? && createOk
    ensures var run := Download(url, path, get, createOk, writeFails, before);
      var reports := Reports(get.value.body[..FirstFailure(get.value.body, writeFails)], get.value.contentLength.value);
      |run.events| >= |reports| + 1 &&
      (forall i :: 0 <= i < |run.events| && run.events[i].Position? ==> 1 <= i <= |reports|) &&
      (forall i :: 1 <= i <= |reports| ==> run.events[i] == reports[i - 1])
  {
    var run := Download(url, path, get, createOk, writeFails, before);
    var total := get.value.contentLength.value;
    var body := get.value.body;
    var k := FirstFailure(body, writeFails);
    var reports := Reports(body[..k], total);
    var tail := if k == |body| then [Finished("Downloaded " + url + " to " + path)] else [];
    assert run.events == [Started(total, "Downloading " + url)] + reports + tail;
    forall i | 1 <= i <= |reports| ensures run.events[i] == reports[i - 1] {
    }
  }

  /**
   * A chunk that cannot be retrieved, or a write that fails, ends the call at
   * that item: the file holds the bytes of the chunks before it and nothing
   * is removed, one position was reported per written chunk, and the
   * completion message is never shown.
   */
  lemma MidStreamFailureKeepsWrittenPrefix(url: string, path: string, get: Option<Response>, createOk: bool,
                                           writeFails: set<nat>, before: Option<seq<byte>>)
    ensures var run := Download(url, path, get, createOk, writeFails, before);
      run.result == Err(StreamFailed) || run.result == Err(WriteFailed) ==>
        get.Some? && createOk &&
        exists k :: 0 <= k < |get.value.body| &&
          (forall j :: 0 <= j < k ==> get.value.body[j].Chunk? && j !in writeFails) &&
          (run.result == Err(StreamFailed) <==> get.value.body[k].ChunkError?) &&
          (run.result == Err(WriteFailed) ==> k in writeFails) &&
          Message(run.result.error) == (if get.value.body[k].ChunkError? then "Error while downloading file"
                                        else "Error while writing to file") &&
          run.file == Some(Received(get.value.body[..k])) &&
          run.events == [Started(get.value.contentLength.value, "Downloading " + url)] +
                        Reports(get.value.body[..k], get.value.contentLength.value)
  {
    var run := Download(url, path, get, createOk, writeFails, before);
    if run.result == Err(StreamFailed) || run.result == Err(WriteFailed) {
      var body := get.value.body;
      var k := FirstFailure(body, writeFails);
      FirstFailureSpec(body, writeFails, 0, k);
      assert 0 <= k < |body|;
      assert run.file == Some(Received(body[..k]));
      assert run.events == [Started(get.value.contentLength.value, "Downloading " + url)]
                           + Reports(body[..k], get.value.contentLength.value);
    }
  }

  /**
   * Running the same download again over what the first run left gives the
   * same outcome, file and reports: `File::create` truncates, so nothing of
   * an older, longer file survives.
   */
  lemma RerunIsIdempotent(url: string, path: string, get: Option<Response>, createOk: bool,
                          writeFails: set<nat>, before: Option<seq<byte>>)
    ensures var first := Download(url, path, get, createOk, writeFails, before);
      Download(url, path, get, createOk, writeFails, first.file) == first
    ensures forall other: Option<seq<byte>> :: get.Some? && get.value.contentLength.Some? && createOk ==>
      Download(url, path, get, createOk, writeFails, other).file ==
      Download(url, path, get, createOk, writeFails, before).file
  {
  }

  /** Every chunk of a stream of equal chunks of n bytes adds n bytes. */
  lemma {:induction false} ReceivedUniform(items: seq<StreamItem>, n: nat)
    requires forall k :: 0 <= k < |items| ==> items[k].Chunk? && |items[k].bytes| == n
    ensures |Received(items)| == n * |items|
  {
    if items != [] {
      ReceivedUniform(items[..|items| - 1], n);
      assert n * |items| == n * (|items| - 1) + n;
    }
  }

  /** Ten chunks of 100 bytes with a content length of 1000: the reports rise strictly, to exactly 1000. */
  lemma TenChunksOfOneHundred(url: string, path: string, before: Option<seq<byte>>)
    ensures var body := seq(10, _ => Chunk(seq(100, _ => 0)));
      var run := Download(url, path, Some(Response(Some(1000), body)), true, {}, before);
      run.result.Ok? && |run.events| == 12 &&
      (forall i, j :: 1 <= i < j <= 10 ==>
        run.events[i].Position? && run.events[j].Position? && run.events[i].pos < run.events[j].pos) &&
      run.events[10] == Position(1000)
  {
    var body := seq(10, _ => Chunk(seq(100, _ => 0)));
    var get := Some(Response(Some(1000), body));
    ReceivedUniform(body, 100);
    assert NonEmptyChunks(body);
    SuccessWritesTheWholeBody(url, path, get, true, {}, before);
    ProgressIsClampedAndMonotone(url, path, get, true, {}, before);
    ReportsStrictlyIncrease(body, 1000);
    assert FirstFailure(body, {}) == 10;
    assert body[..10] == body;
  }
}
