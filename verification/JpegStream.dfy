/** The capture process's byte stream cut into images (gateway/noob_gateway/video.py,
    `JPEGStreamParser`). */
module JpegStream {
  import opened Options

  type byte = x: int | 0 <= x < 256

  const ESCAPE: byte := 0xFF
  const SOI: byte := 0xD8
  const EOI: byte := 0xD9

  predicate MarkerAt(s: seq<byte>, k: int, marker: byte) {
    0 <= k && k + 1 < |s| && s[k] == ESCAPE && s[k + 1] == marker
  }

  /** `bytearray.find` of an escaped marker: its first position from `from` on, or -1. */
  function Find(s: seq<byte>, marker: byte, from: nat): (r: int)
    ensures r == -1 || (from <= r && MarkerAt(s, r, marker))
    decreases |s| - from
  {
    if from + 1 >= |s| then -1 else if MarkerAt(s, from, marker) then from else Find(s, marker, from + 1)
  }

  lemma {:induction false} FindsFirst(s: seq<byte>, marker: byte, from: nat)
    ensures forall k :: from <= k && MarkerAt(s, k, marker) ==> Find(s, marker, from) != -1 && Find(s, marker, from) <= k
    decreases |s| - from
  {
    if from + 1 < |s| && !MarkerAt(s, from, marker) {
      FindsFirst(s, marker, from + 1);
      forall k | from <= k && MarkerAt(s, k, marker) ensures Find(s, marker, from) != -1 && Find(s, marker, from) <= k {
        assert k != from;
      }
    }
  }

  /** A split marker's first byte is kept; one lone byte is kept whatever it is. */
  function Keep(b: seq<byte>): seq<byte> {
    if |b| <= 1 then b else if b[|b| - 1] == ESCAPE then [ESCAPE] else []
  }

  function LastEscape(b: seq<byte>): seq<byte> {
    if b != [] && b[|b| - 1] == ESCAPE then [ESCAPE] else []
  }

  /** An unfinished image that outgrew the limit is given up, at most once a call. */
  function Resync(c: seq<byte>): seq<byte> {
    var next := Find(c, SOI, 2);
    if next >= 0 then c[next..] else LastEscape(c)
  }

  /** One pass of the loop: an image is cut off, or nothing complete is left. */
  datatype Pass = Image(lo: nat, hi: nat) | Nothing(rest: seq<byte>, dropped: nat)

  function OnePass(b: seq<byte>, limit: nat): (p: Pass)
    ensures p.Image? ==> p.lo + 4 <= p.hi <= |b|
  {
    var start := Find(b, SOI, 0);
    if start < 0 then Nothing(Keep(b), 0)
    else
      var end := Find(b[start..], EOI, 2);
      if end >= 0 then Image(start, start + end + 2)
      else if |b| - start > limit then Nothing(Resync(b[start..]), 1)
      else Nothing(b[start..], 0)
  }

  datatype Fed = Fed(frames: seq<seq<byte>>, rest: seq<byte>, dropped: nat)

  function WithImage(image: seq<byte>, limit: nat, later: Fed): Fed {
    if |image| <= limit then later.(frames := [image] + later.frames) else later.(dropped := later.dropped + 1)
  }

  /** What `feed` makes of its buffer, the new bytes appended. */
  function Feed(b: seq<byte>, limit: nat): Fed
    decreases |b|
  {
    match OnePass(b, limit)
    case Nothing(rest, dropped) => Fed([], rest, dropped)
    case Image(lo, hi) => WithImage(b[lo..hi], limit, Feed(b[hi..], limit))
  }

  lemma FeedFrom(b: seq<byte>, limit: nat, lo: nat, hi: nat, image: seq<byte>, rest: seq<byte>)
    requires OnePass(b, limit) == Image(lo, hi) && image == b[lo..hi] && rest == b[hi..]
    ensures Feed(b, limit) == WithImage(image, limit, Feed(rest, limit))
  {
  }

  lemma ImageFeeds(b: seq<byte>, limit: nat, start: nat, end: nat, image: seq<byte>, rest: seq<byte>)
    requires start == Find(b, SOI, 0) && start <= |b| && end == Find(b[start..], EOI, 2) && end + 2 <= |b| - start
    requires image == b[start..][..end + 2] && rest == b[start..][end + 2..]
    ensures Feed(b, limit) == WithImage(image, limit, Feed(rest, limit))
  {
    assert image == b[start..start + end + 2] && rest == b[start + end + 2..];
    assert OnePass(b, limit) == Image(start, start + end + 2);
    FeedFrom(b, limit, start, start + end + 2, image, rest);
  }

  lemma Regroup(image: seq<byte>, a: seq<seq<byte>>, b: seq<seq<byte>>)
    ensures [image] + (a + b) == ([image] + a) + b
    ensures a + ([image] + b) == (a + [image]) + b
    ensures [] + a == a
  {
  }

  class JPEGStreamParser {
    const maxFrameBytes: nat
    var buffer: seq<byte>
    var dropped: nat

    constructor (maxFrameBytes: nat)
      ensures buffer == [] && dropped == 0 && this.maxFrameBytes == maxFrameBytes
    {
      this.maxFrameBytes := maxFrameBytes;
      buffer, dropped := [], 0;
    }

    method FindMarker(marker: byte, from: nat) returns (at: int)
      ensures at == Find(buffer, marker, from)
    {
      var k := from;
      while k + 1 < |buffer|
        invariant from <= k && Find(buffer, marker, from) == Find(buffer, marker, k)
      {
        if buffer[k] == ESCAPE && buffer[k + 1] == marker {
          return k;
        }
        k := k + 1;
      }
      at := -1;
    }

    /** An unfinished image that outgrew the limit is given up. */
    method GiveUp()
      modifies this
      ensures buffer == (if |old(buffer)| > maxFrameBytes then Resync(old(buffer)) else old(buffer))
      ensures dropped == old(dropped) + if |old(buffer)| > maxFrameBytes then 1 else 0
    {
      if |buffer| > maxFrameBytes {
        dropped := dropped + 1;
        var next := FindMarker(SOI, 2);
        if next >= 0 {
          buffer := buffer[next..];
        } else {
          buffer := if buffer[|buffer| - 1] == ESCAPE then [ESCAPE] else [];
        }
      }
    }

    /** One pass of the loop: junk before the first start marker goes, an image is cut off
        if one is complete, and an unfinished one that outgrew the limit is given up. */
    method CutOne() returns (image: Option<seq<byte>>)
      modifies this
      ensures dropped >= old(dropped)
      ensures image.None? ==> Feed(old(buffer), maxFrameBytes) == Fed([], buffer, dropped - old(dropped))
      ensures image.Some? ==> dropped == old(dropped) && |buffer| < |old(buffer)|
      ensures image.Some? ==>
        Feed(old(buffer), maxFrameBytes) == WithImage(image.value, maxFrameBytes, Feed(buffer, maxFrameBytes))
    {
      image := None;
      var start := FindMarker(SOI, 0);
      if start < 0 {
        if |buffer| > 1 {
          buffer := if buffer[|buffer| - 1] == ESCAPE then [ESCAPE] else [];
        }
        return;
      }
      if start > 0 {
        buffer := buffer[start..];
      }
      assert buffer == old(buffer)[start..];
      var end := FindMarker(EOI, 2);
      if end < 0 {
        GiveUp();
        return;
      }
      image := Some(buffer[..end + 2]);
      buffer := buffer[end + 2..];
      ImageFeeds(old(buffer), maxFrameBytes, start, end, image.value, buffer);
    }

    method FeedBytes(data: seq<byte>) returns (frames: seq<seq<byte>>)
      modifies this
      ensures data == [] ==> frames == [] && buffer == old(buffer) && dropped == old(dropped)
      ensures data != [] ==>
        dropped >= old(dropped) && Feed(old(buffer) + data, maxFrameBytes) == Fed(frames, buffer, dropped - old(dropped))
    {
      frames := [];
      if data == [] {
        return;
      }
      buffer := buffer + data;
      ghost var fed := Feed(buffer, maxFrameBytes);
      while true
        invariant old(dropped) <= dropped
        invariant var later := Feed(buffer, maxFrameBytes);
          fed == Fed(frames + later.frames, later.rest, dropped - old(dropped) + later.dropped)
        decreases |buffer|
      {
        var image := CutOne();
        if image.None? {
          return;
        }
        Regroup(image.value, frames, Feed(buffer, maxFrameBytes).frames);
        if |image.value| <= maxFrameBytes {
          frames := frames + [image.value];
        } else {
          dropped := dropped + 1;
        }
      }
    }
  }

  // ----- Any input -----

  /** The bytes from `lo` to `hi` run from a start marker to the first end marker after it. */
  ghost predicate IsSpan(s: seq<byte>, lo: nat, hi: nat) {
    && lo + 4 <= hi <= |s| && MarkerAt(s, lo, SOI) && MarkerAt(s, hi - 2, EOI)
    && forall k :: lo + 2 <= k < hi - 2 ==> !MarkerAt(s, k, EOI)
  }

  /** Where in the stream the frames of one `feed` lie, its buffer starting at `base`. */
  function Spans(b: seq<byte>, limit: nat, base: nat): seq<(nat, nat)>
    decreases |b|
  {
    match OnePass(b, limit)
    case Nothing(_, _) => []
    case Image(lo, hi) =>
      (if hi - lo <= limit then [(base + lo, base + hi)] else []) + Spans(b[hi..], limit, base + hi)
  }

  /** In order, apart, within the stream before `upTo` and from `from` on. */
  predicate InOrder(spans: seq<(nat, nat)>, from: nat, upTo: nat) {
    if spans == [] then from <= upTo
    else from <= spans[0].0 < spans[0].1 && InOrder(spans[1..], spans[0].1, upTo)
  }

  ghost predicate AreSpans(s: seq<byte>, spans: seq<(nat, nat)>, frames: seq<seq<byte>>, limit: nat) {
    && |spans| == |frames|
    && forall i :: 0 <= i < |spans| ==>
      && IsSpan(s, spans[i].0, spans[i].1) && frames[i] == s[spans[i].0..spans[i].1] && |frames[i]| <= limit
  }

  lemma {:induction false} WidenOrder(spans: seq<(nat, nat)>, from: nat, mid: nat, upTo: nat)
    requires from <= mid && InOrder(spans, mid, upTo)
    ensures InOrder(spans, from, upTo)
  {
  }

  lemma PassFindsSpan(s: seq<byte>, base: nat, limit: nat)
    requires base <= |s| && OnePass(s[base..], limit).Image?
    ensures var p := OnePass(s[base..], limit);
      IsSpan(s, base + p.lo, base + p.hi) && s[base..][p.lo..p.hi] == s[base + p.lo..base + p.hi]
      && s[base..][p.hi..] == s[base + p.hi..]
  {
    var b := s[base..];
    var lo := Find(b, SOI, 0);
    var c := b[lo..];
    var end := Find(c, EOI, 2);
    FindsFirst(c, EOI, 2);
    forall k | base + lo + 2 <= k < base + lo + end ensures !MarkerAt(s, k, EOI) {
      assert MarkerAt(c, k - base - lo, EOI) <==> MarkerAt(s, k, EOI);
    }
    assert MarkerAt(c, end, EOI) && MarkerAt(b, lo, SOI);
  }

  lemma ResyncIsSuffix(c: seq<byte>)
    ensures |Resync(c)| <= |c| && Resync(c) == c[|c| - |Resync(c)|..]
  {
  }

  lemma SuffixOfSuffix(s: seq<byte>, base: nat, c: seq<byte>, rest: seq<byte>)
    requires base <= |s| && |c| <= |s| - base && c == s[|s| - |c|..] && |rest| <= |c| && rest == c[|c| - |rest|..]
    ensures |rest| <= |s| - base && rest == s[|s| - |rest|..]
  {
  }

  lemma RestIsSuffix(s: seq<byte>, base: nat, limit: nat)
    requires base <= |s| && OnePass(s[base..], limit).Nothing?
    ensures var rest := OnePass(s[base..], limit).rest; |rest| <= |s| - base && rest == s[|s| - |rest|..]
  {
    var b := s[base..];
    var start := Find(b, SOI, 0);
    if start >= 0 {
      var c := b[start..];
      ResyncIsSuffix(c);
      SuffixOfSuffix(s, base, c, OnePass(b, limit).rest);
    }
  }

  ghost predicate SpansFit(s: seq<byte>, base: nat, limit: nat, fed: Fed, spans: seq<(nat, nat)>) {
    && |fed.rest| <= |s| && fed.rest == s[|s| - |fed.rest|..]
    && AreSpans(s, spans, fed.frames, limit) && InOrder(spans, base, |s| - |fed.rest|)
  }

  lemma SpansJoin(s: seq<byte>, limit: nat, a: seq<(nat, nat)>, b: seq<(nat, nat)>, f: seq<seq<byte>>, g: seq<seq<byte>>)
    requires AreSpans(s, a, f, limit) && AreSpans(s, b, g, limit)
    ensures AreSpans(s, a + b, f + g, limit)
  {
  }

  lemma LoneSpan(s: seq<byte>, lo: nat, hi: nat, limit: nat)
    requires IsSpan(s, lo, hi) && hi - lo <= limit
    ensures AreSpans(s, [(lo, hi)], [s[lo..hi]], limit)
  {
  }

  lemma OrderMore(base: nat, lo: nat, hi: nat, spans: seq<(nat, nat)>, upTo: nat)
    requires base <= lo < hi && InOrder(spans, hi, upTo)
    ensures InOrder([(lo, hi)] + spans, base, upTo)
  {
    assert ([(lo, hi)] + spans)[1..] == spans;
  }

  lemma OneMoreSpan(s: seq<byte>, base: nat, lo: nat, hi: nat, limit: nat, fed: Fed, spans: seq<(nat, nat)>)
    requires base <= lo && IsSpan(s, lo, hi) && SpansFit(s, hi, limit, fed, spans)
    ensures SpansFit(s, base, limit, WithImage(s[lo..hi], limit, fed), (if hi - lo <= limit then [(lo, hi)] else []) + spans)
  {
    if hi - lo <= limit {
      LoneSpan(s, lo, hi, limit);
      SpansJoin(s, limit, [(lo, hi)], spans, [s[lo..hi]], fed.frames);
      OrderMore(base, lo, hi, spans, |s| - |fed.rest|);
    } else {
      WidenOrder(spans, base, hi, |s| - |fed.rest|);
      assert [] + spans == spans;
    }
  }

  lemma NoMoreSpans(s: seq<byte>, base: nat, b: seq<byte>, limit: nat)
    requires base <= |s| && b == s[base..] && OnePass(b, limit).Nothing?
    ensures SpansFit(s, base, limit, Feed(b, limit), Spans(b, limit, base))
  {
    RestIsSuffix(s, base, limit);
    var fed := Feed(b, limit);
    assert fed.frames == [] && Spans(b, limit, base) == [];
  }

  lemma FirstImage(s: seq<byte>, base: nat, b: seq<byte>, limit: nat) returns (lo: nat, hi: nat, rest: seq<byte>)
    requires base <= |s| && b == s[base..] && OnePass(b, limit).Image?
    ensures base <= lo && IsSpan(s, lo, hi) && rest == s[hi..] && |rest| < |b|
    ensures Feed(b, limit) == WithImage(s[lo..hi], limit, Feed(rest, limit))
    ensures Spans(b, limit, base) == (if hi - lo <= limit then [(lo, hi)] else []) + Spans(rest, limit, hi)
  {
    PassFindsSpan(s, base, limit);
    var p := OnePass(b, limit);
    lo, hi, rest := base + p.lo, base + p.hi, b[p.hi..];
  }

  /** Whatever the bytes: the frames of a call are an in-order list of spans of the
      stream, each from a start marker to its first end marker and within the limit,
      and what is retained is a suffix of the stream, after all of them. */
  lemma {:induction false} FramesAreSpans(s: seq<byte>, base: nat, b: seq<byte>, limit: nat)
    requires base <= |s| && b == s[base..]
    ensures SpansFit(s, base, limit, Feed(b, limit), Spans(b, limit, base))
    decreases |b|
  {
    if OnePass(b, limit).Nothing? {
      NoMoreSpans(s, base, b, limit);
    } else {
      var lo, hi, rest := FirstImage(s, base, b, limit);
      FramesAreSpans(s, hi, rest, limit);
      OneMoreSpan(s, base, lo, hi, limit, Feed(rest, limit), Spans(rest, limit, hi));
    }
  }

  // ----- Any sequence of calls -----

  function Joined(chunks: seq<seq<byte>>): seq<byte> {
    if chunks == [] then [] else Joined(chunks[..|chunks| - 1]) + chunks[|chunks| - 1]
  }

  function Then(before: Fed, fed: Fed): Fed {
    Fed(before.frames + fed.frames, fed.rest, before.dropped + fed.dropped)
  }

  /** The frames so far, what is retained and how many images were dropped. */
  function Run(chunks: seq<seq<byte>>, limit: nat): Fed {
    if chunks == [] then Fed([], [], 0)
    else
      var before := Run(chunks[..|chunks| - 1], limit);
      var data := chunks[|chunks| - 1];
      if data == [] then before else Then(before, Feed(before.rest + data, limit))
  }

  lemma {:induction false} OrdersJoin(a: seq<(nat, nat)>, b: seq<(nat, nat)>, from: nat, mid: nat, upTo: nat)
    requires InOrder(a, from, mid) && InOrder(b, mid, upTo)
    ensures InOrder(a + b, from, upTo)
  {
    if a == [] {
      WidenOrder(b, from, mid, upTo);
      assert a + b == b;
    } else {
      OrdersJoin(a[1..], b, a[0].1, mid, upTo);
      assert (a + b)[1..] == a[1..] + b;
    }
  }

  lemma SpansStay(s: seq<byte>, data: seq<byte>, limit: nat, frames: seq<seq<byte>>, spans: seq<(nat, nat)>)
    requires AreSpans(s, spans, frames, limit)
    ensures AreSpans(s + data, spans, frames, limit)
  {
    var all := s + data;
    forall i | 0 <= i < |spans|
      ensures IsSpan(all, spans[i].0, spans[i].1) && frames[i] == all[spans[i].0..spans[i].1]
    {
      var lo, hi := spans[i].0, spans[i].1;
      assert IsSpan(s, lo, hi);
      assert forall k :: 0 <= k < hi ==> all[k] == s[k];
      forall k | lo + 2 <= k < hi - 2 ensures !MarkerAt(all, k, EOI) { assert !MarkerAt(s, k, EOI); }
    }
  }

  lemma CallsJoin(s: seq<byte>, data: seq<byte>, limit: nat, before: Fed, fed: Fed, spans: seq<(nat, nat)>, more: seq<(nat, nat)>)
    requires SpansFit(s, 0, limit, before, spans)
    requires SpansFit(s + data, |s| - |before.rest|, limit, fed, more)
    ensures SpansFit(s + data, 0, limit, Then(before, fed), spans + more)
  {
    SpansStay(s, data, limit, before.frames, spans);
    SpansJoin(s + data, limit, spans, more, before.frames, fed.frames);
    OrdersJoin(spans, more, 0, |s| - |before.rest|, |s + data| - |fed.rest|);
  }

  lemma BufferSpans(s: seq<byte>, data: seq<byte>, rest: seq<byte>, limit: nat) returns (more: seq<(nat, nat)>)
    requires |rest| <= |s| && rest == s[|s| - |rest|..]
    ensures SpansFit(s + data, |s| - |rest|, limit, Feed(rest + data, limit), more)
  {
    var base, b := |s| - |rest|, rest + data;
    assert b == (s + data)[base..];
    FramesAreSpans(s + data, base, b, limit);
    more := Spans(b, limit, base);
  }

  lemma OneMoreFeed(s: seq<byte>, data: seq<byte>, limit: nat, before: Fed, spans: seq<(nat, nat)>) returns (all: seq<(nat, nat)>)
    requires SpansFit(s, 0, limit, before, spans)
    ensures SpansFit(s + data, 0, limit, Then(before, Feed(before.rest + data, limit)), all)
  {
    var more := BufferSpans(s, data, before.rest, limit);
    CallsJoin(s, data, limit, before, Feed(before.rest + data, limit), spans, more);
    all := spans + more;
  }

  /** Whatever arrives, in whatever pieces: the frames delivered are spans of the whole
      input, in order and apart, and the bytes retained are its end. */
  lemma {:induction false} RunsDeliverSpans(chunks: seq<seq<byte>>, limit: nat) returns (spans: seq<(nat, nat)>)
    ensures SpansFit(Joined(chunks), 0, limit, Run(chunks, limit), spans)
  {
    spans := [];
    if chunks != [] {
      var front, data := chunks[..|chunks| - 1], chunks[|chunks| - 1];
      spans := RunsDeliverSpans(front, limit);
      if data == [] {
        assert Joined(front) + data == Joined(front);
      } else {
        spans := OneMoreFeed(Joined(front), data, limit, Run(front, limit), spans);
      }
    }
  }

  // ----- Chunking does not matter while everything fits -----

  /** The first image of a stream, or what is left over if there is none: an
      unfinished image, or the first half of a marker. */
  function First(s: seq<byte>): (p: Pass)
    ensures p.Image? ==> p.lo + 4 <= p.hi <= |s|
  {
    var lo := Find(s, SOI, 0);
    if lo < 0 then Nothing(LastEscape(s), 0)
    else
      var end := Find(s[lo..], EOI, 2);
      if end < 0 then Nothing(s[lo..], 0) else Image(lo, lo + end + 2)
  }

  /** The images of a whole stream, cut without a limit. */
  function Images(s: seq<byte>): seq<seq<byte>>
    decreases |s|
  {
    match First(s)
    case Nothing(_, _) => []
    case Image(lo, hi) => [s[lo..hi]] + Images(s[hi..])
  }

  function Tail(s: seq<byte>): seq<byte>
    decreases |s|
  {
    match First(s)
    case Nothing(rest, _) => rest
    case Image(_, hi) => Tail(s[hi..])
  }

  ghost predicate Within(images: seq<seq<byte>>, limit: nat) {
    forall i :: 0 <= i < |images| ==> |images[i]| <= limit
  }

  /** Every image of the stream and its unfinished tail fit the limit. */
  ghost predicate Fits(s: seq<byte>, limit: nat) {
    Within(Images(s), limit) && (MarkerAt(Tail(s), 0, SOI) ==> |Tail(s)| <= limit)
  }

  function Clean(b: seq<byte>): seq<byte> {
    if Find(b, SOI, 0) < 0 then LastEscape(b) else b
  }

  lemma {:induction false} FindSkips(p: seq<byte>, x: seq<byte>, marker: byte, from: nat)
    requires forall k :: from <= k < |p| ==> !MarkerAt(p + x, k, marker)
    ensures var f := if from < |p| then 0 else from - |p|;
      Find(p + x, marker, from) == if Find(x, marker, f) < 0 then -1 else |p| + Find(x, marker, f)
  {
    var f := if from < |p| then 0 else from - |p|;
    var r := Find(x, marker, f);
    FindsFirst(x, marker, f);
    FindsFirst(p + x, marker, from);
    assert forall k :: |p| <= k ==> (MarkerAt(p + x, k, marker) <==> MarkerAt(x, k - |p|, marker));
    if r >= 0 { assert MarkerAt(p + x, |p| + r, marker); }
    var q := Find(p + x, marker, from);
    if q >= 0 { assert MarkerAt(x, q - |p|, marker); }
  }

  lemma FirstSkips(p: seq<byte>, x: seq<byte>)
    requires forall k :: 0 <= k < |p| ==> !MarkerAt(p + x, k, SOI)
    requires x == [] ==> LastEscape(p) == []
    ensures First(p + x) == match First(x)
      case Nothing(rest, n) => Nothing(rest, n)
      case Image(lo, hi) => Image(|p| + lo, |p| + hi)
  {
    FindSkips(p, x, SOI, 0);
    var lo := Find(x, SOI, 0);
    if lo >= 0 {
      assert (p + x)[|p| + lo..] == x[lo..];
    } else if x != [] {
      assert (p + x)[|p + x| - 1] == x[|x| - 1];
    } else {
      assert p + x == p;
    }
  }

  lemma ImagesFrom(s: seq<byte>, lo: nat, hi: nat, image: seq<byte>, rest: seq<byte>)
    requires First(s) == Image(lo, hi) && image == s[lo..hi] && rest == s[hi..]
    ensures Images(s) == [image] + Images(rest) && Tail(s) == Tail(rest)
  {
  }

  lemma SameImages(a: seq<byte>, x: seq<byte>, n: nat)
    requires n <= |a| && x == a[n..]
    requires First(a) == match First(x)
      case Nothing(rest, m) => Nothing(rest, m)
      case Image(lo, hi) => Image(n + lo, n + hi)
    ensures Images(a) == Images(x) && Tail(a) == Tail(x)
  {
    var f := First(x);
    if f.Image? {
      var image, rest := x[f.lo..f.hi], x[f.hi..];
      ImagesFrom(x, f.lo, f.hi, image, rest);
      assert a[n + f.lo..n + f.hi] == image && a[n + f.hi..] == rest;
      ImagesFrom(a, n + f.lo, n + f.hi, image, rest);
    }
  }

  /** Bytes before which no start marker begins change nothing. */
  lemma SkipJunk(p: seq<byte>, x: seq<byte>)
    requires forall k :: 0 <= k < |p| ==> !MarkerAt(p + x, k, SOI)
    requires x == [] ==> LastEscape(p) == []
    ensures Images(p + x) == Images(x) && Tail(p + x) == Tail(x)
  {
    FirstSkips(p, x);
    assert (p + x)[|p|..] == x;
    SameImages(p + x, x, |p|);
  }

  lemma CleanSuffices(b: seq<byte>, data: seq<byte>)
    ensures Images(b + data) == Images(Clean(b) + data) && Tail(b + data) == Tail(Clean(b) + data)
  {
    if Find(b, SOI, 0) < 0 {
      var p := b[..|b| - |LastEscape(b)|];
      var x := LastEscape(b) + data;
      FindsFirst(b, SOI, 0);
      assert b + data == p + x;
      forall k | 0 <= k < |p| ensures !MarkerAt(p + x, k, SOI) {
        assert !MarkerAt(b, k, SOI);
      }
      SkipJunk(p, x);
    }
  }

  /** An image once complete stays the first one, whatever follows. */
  lemma FirstStays(s: seq<byte>, data: seq<byte>)
    requires First(s).Image?
    ensures First(s + data) == First(s)
  {
    var all := s + data;
    var lo := Find(s, SOI, 0);
    var c := s[lo..];
    var end := Find(c, EOI, 2);
    FindsFirst(s, SOI, 0);
    FindsFirst(all, SOI, 0);
    FindsFirst(c, EOI, 2);
    FindsFirst(c + data, EOI, 2);
    assert forall k :: 0 <= k < |s| - 1 ==> (MarkerAt(all, k, SOI) <==> MarkerAt(s, k, SOI));
    assert Find(all, SOI, 0) == lo;
    assert all[lo..] == c + data;
    assert forall k :: 0 <= k < |c| - 1 ==> (MarkerAt(c + data, k, EOI) <==> MarkerAt(c, k, EOI));
    assert Find(c + data, EOI, 2) == end;
  }

  lemma UnfinishedGoesOn(s: seq<byte>, data: seq<byte>)
    requires First(s).Nothing? && Find(s, SOI, 0) >= 0
    ensures Images(s + data) == Images(First(s).rest + data) && Tail(s + data) == Tail(First(s).rest + data)
    ensures Clean(First(s).rest) == First(s).rest
  {
    var lo := Find(s, SOI, 0);
    var p, c := s[..lo], s[lo..];
    FindsFirst(s, SOI, 0);
    assert p + (c + data) == s + data;
    forall k | 0 <= k < |p| ensures !MarkerAt(p + (c + data), k, SOI) { assert !MarkerAt(s, k, SOI); }
    SkipJunk(p, c + data);
    assert MarkerAt(c, 0, SOI);
  }

  lemma NoImages(s: seq<byte>, data: seq<byte>)
    requires First(s).Nothing?
    ensures Images(s) == [] && Tail(s) == First(s).rest
    ensures Images(s + data) == Images(Tail(s) + data) && Tail(s + data) == Tail(Tail(s) + data)
    ensures Clean(Tail(s)) == Tail(s)
  {
    if Find(s, SOI, 0) < 0 { CleanSuffices(s, data); } else { UnfinishedGoesOn(s, data); }
  }

  lemma ImageGoesFirst(s: seq<byte>, data: seq<byte>) returns (image: seq<byte>, rest: seq<byte>)
    requires First(s).Image?
    ensures |rest| < |s|
    ensures Images(s) == [image] + Images(rest) && Tail(s) == Tail(rest)
    ensures Images(s + data) == [image] + Images(rest + data) && Tail(s + data) == Tail(rest + data)
  {
    var f := First(s);
    image, rest := s[f.lo..f.hi], s[f.hi..];
    FirstStays(s, data);
    ImagesFrom(s, f.lo, f.hi, image, rest);
    assert (s + data)[f.lo..f.hi] == image && (s + data)[f.hi..] == rest + data;
    ImagesFrom(s + data, f.lo, f.hi, image, rest + data);
  }

  /** A stream may be cut anywhere: the images so far, then those of what is left over
      with the rest behind it. */
  lemma {:induction false} ImagesSplit(s: seq<byte>, data: seq<byte>)
    ensures Images(s + data) == Images(s) + Images(Tail(s) + data)
    ensures Tail(s + data) == Tail(Tail(s) + data) && Clean(Tail(s)) == Tail(s)
    decreases |s|
  {
    if First(s).Nothing? {
      NoImages(s, data);
      Regroup([], Images(Tail(s) + data), []);
    } else {
      var image, rest := ImageGoesFirst(s, data);
      ImagesSplit(rest, data);
      Regroup(image, Images(rest), Images(Tail(rest) + data));
    }
  }

  /** An unfinished image is no longer than the image it becomes. */
  lemma UnfinishedFits(t: seq<byte>, data: seq<byte>, limit: nat)
    requires First(t) == Nothing(t, 0) && MarkerAt(t, 0, SOI) && Fits(t + data, limit)
    ensures |t| <= limit
  {
    var all := t + data;
    assert Find(all, SOI, 0) == 0 by { assert MarkerAt(all, 0, SOI); }
    assert all[0..] == all && t[0..] == t;
    assert Find(t, SOI, 0) == 0;
    var end := Find(all, EOI, 2);
    FindsFirst(t, EOI, 2);
    if end >= 0 {
      assert MarkerAt(t, end, EOI) || end + 1 >= |t|;
      assert Images(all)[0] == all[0..end + 2];
    }
  }

  lemma {:induction false} TailIsOver(s: seq<byte>)
    ensures MarkerAt(Tail(s), 0, SOI) ==> First(Tail(s)) == Nothing(Tail(s), 0)
    decreases |s|
  {
    var f := First(s);
    if f.Image? {
      TailIsOver(s[f.hi..]);
    } else if Find(s, SOI, 0) >= 0 {
      var c := s[Find(s, SOI, 0)..];
      assert MarkerAt(c, 0, SOI);
      assert c[0..] == c;
    }
  }

  lemma WithinSplits(images: seq<seq<byte>>, more: seq<seq<byte>>, limit: nat)
    requires Within(images + more, limit)
    ensures Within(images, limit) && Within(more, limit)
  {
    assert forall i :: 0 <= i < |images| ==> images[i] == (images + more)[i];
    assert forall i :: 0 <= i < |more| ==> more[i] == (images + more)[|images| + i];
  }

  lemma FittingSplits(s: seq<byte>, data: seq<byte>, limit: nat)
    requires Fits(s + data, limit)
    ensures Fits(s, limit) && Fits(Tail(s) + data, limit)
  {
    ImagesSplit(s, data);
    WithinSplits(Images(s), Images(Tail(s) + data), limit);
    if MarkerAt(Tail(s), 0, SOI) {
      TailIsOver(s);
      UnfinishedFits(Tail(s), data, limit);
    }
  }

  /** When everything fits, a call delivers the images of its buffer and drops nothing. */
  lemma {:induction false} FeedDelivers(b: seq<byte>, limit: nat)
    requires Fits(b, limit)
    ensures Feed(b, limit).frames == Images(b) && Feed(b, limit).dropped == 0
    ensures Clean(Feed(b, limit).rest) == Tail(b)
    decreases |b|
  {
    var f := First(b);
    if f.Image? {
      var image, rest := b[f.lo..f.hi], b[f.hi..];
      assert Images(b)[0] == image;
      assert forall i :: 0 <= i < |Images(rest)| ==> Images(rest)[i] == Images(b)[i + 1];
      FeedDelivers(rest, limit);
      assert OnePass(b, limit) == f;
    } else if Find(b, SOI, 0) >= 0 {
      var c := b[Find(b, SOI, 0)..];
      assert MarkerAt(c, 0, SOI);
    }
  }

  /** Chunking does not matter: when every image of the stream and its unfinished tail
      fit the limit, any way of cutting it into calls delivers the images of the whole
      stream, nothing is dropped, and what is retained is the stream's tail. */
  lemma {:induction false} ChunkingDoesNotMatter(chunks: seq<seq<byte>>, limit: nat)
    requires Fits(Joined(chunks), limit)
    ensures Run(chunks, limit).frames == Images(Joined(chunks)) && Run(chunks, limit).dropped == 0
    ensures Clean(Run(chunks, limit).rest) == Tail(Joined(chunks))
  {
    if chunks != [] {
      var front, data := chunks[..|chunks| - 1], chunks[|chunks| - 1];
      var s, rest := Joined(front), Run(front, limit).rest;
      FittingSplits(s, data, limit);
      ChunkingDoesNotMatter(front, limit);
      ImagesSplit(s, data);
      if data == [] {
        assert s + data == s;
      } else {
        CleanSuffices(rest, data);
        FeedDelivers(rest + data, limit);
      }
    }
  }

  const OVERSIZED: seq<byte> := [0xFF, 0xD8, 0, 0, 0, 0]
  const SMALLEST: seq<byte> := [0xFF, 0xD8, 0xFF, 0xD9]

  lemma OversizedAlone()
    ensures Feed(OVERSIZED, 5) == Fed([], [], 1)
  {
    var b := OVERSIZED;
    FindsFirst(b, SOI, 0);
    FindsFirst(b, SOI, 2);
    FindsFirst(b, EOI, 2);
    assert b[0..] == b;
    assert MarkerAt(b, 0, SOI) && forall k :: 2 <= k ==> !MarkerAt(b, k, SOI) && !MarkerAt(b, k, EOI);
    assert Find(b, SOI, 0) == 0 && Find(b, EOI, 2) == -1 && Find(b, SOI, 2) == -1;
  }

  lemma SmallestAlone()
    ensures Feed(SMALLEST, 5).frames == [SMALLEST]
  {
    var b := SMALLEST;
    FindsFirst(b, SOI, 0);
    FindsFirst(b, SOI, 2);
    FindsFirst(b, EOI, 2);
    assert b[0..] == b && b[0..4] == b;
    assert MarkerAt(b, 0, SOI) && MarkerAt(b, 2, EOI);
    assert Find(b, SOI, 0) == 0 && Find(b, EOI, 2) == 2;
  }

  lemma OversizedTogether()
    ensures Feed(OVERSIZED + SMALLEST, 5).frames == []
  {
    var b := OVERSIZED + SMALLEST;
    FindsFirst(b, SOI, 0);
    FindsFirst(b, SOI, 2);
    FindsFirst(b, EOI, 2);
    assert b[0..] == b;
    assert MarkerAt(b, 0, SOI) && MarkerAt(b, 8, EOI) && forall k :: 2 <= k < 8 ==> !MarkerAt(b, k, EOI);
    assert Find(b, SOI, 0) == 0 && Find(b, EOI, 2) == 8;
    assert b[10..] == [];
    assert Find([], SOI, 0) == -1;
  }

  lemma OneCall(a: seq<byte>, limit: nat)
    requires a != []
    ensures Joined([a]) == a && Run([a], limit).frames == Feed(a, limit).frames && Run([a], limit).rest == Feed(a, limit).rest
  {
    var one := [a];
    var none: seq<seq<byte>> := one[..0];
    assert Joined(none) == [] && Run(none, limit) == Fed([], [], 0);
    assert Joined(none) + a == a;
  }

  lemma TwoCalls(a: seq<byte>, b: seq<byte>, limit: nat)
    requires a != [] && b != [] && Feed(a, limit).rest == []
    ensures Joined([a, b]) == a + b && Run([a, b], limit).frames == Feed(a, limit).frames + Feed(b, limit).frames
  {
    OneCall(a, limit);
    var two := [a, b];
    assert two[..1] == [a];
    assert Run([a], limit).rest + b == b;
  }

  /** An input whose cuts decide whether its last image is delivered or swallowed; the
      module JpegChunking says for exactly which inputs they do. */
  lemma ChunkingMattersPastTheLimit()
    ensures Joined([OVERSIZED, SMALLEST]) == Joined([OVERSIZED + SMALLEST])
    ensures Run([OVERSIZED, SMALLEST], 5).frames == [SMALLEST]
    ensures Run([OVERSIZED + SMALLEST], 5).frames == []
  {
    OversizedAlone();
    SmallestAlone();
    OversizedTogether();
    var a, b := OVERSIZED, SMALLEST;
    TwoCalls(a, b, 5);
    OneCall(a + b, 5);
    assert [] + [b] == [b];
  }
}
