/** When the way a stream is cut into calls decides what is delivered
    (gateway/noob_gateway/video.py, `JPEGStreamParser.feed`).

    An unfinished image that outgrew the limit is given up for the next start marker
    inside it, but only when a call ends there: one call that brings the whole image
    never does it, many small calls do it again and again. */
module JpegChunking {
  import opened JpegStream

  // ----- What a call ignores -----

  /** The bytes from the first start marker on, or the first half of one. */
  function Trim(b: seq<byte>): seq<byte> {
    var lo := Find(b, SOI, 0);
    if lo < 0 then LastEscape(b) else b[lo..]
  }

  /** The same frames, and rests that no later call tells apart. */
  predicate Alike(a: Fed, b: Fed) {
    a.frames == b.frames && Trim(a.rest) == Trim(b.rest)
  }

  lemma TrimTwice(b: seq<byte>)
    ensures Trim(Trim(b)) == Trim(b)
  {
    var lo := Find(b, SOI, 0);
    if lo >= 0 {
      var c := b[lo..];
      assert MarkerAt(c, 0, SOI);
      assert c[0..] == c;
    }
  }

  lemma KeepTrims(b: seq<byte>)
    requires Find(b, SOI, 0) < 0
    ensures Trim(Keep(b)) == LastEscape(b)
  {
  }

  lemma NothingSkips(p: seq<byte>, x: seq<byte>)
    requires Find(p + x, SOI, 0) < 0 && Find(x, SOI, 0) < 0
    requires x == [] ==> LastEscape(p) == []
    ensures Trim(Keep(p + x)) == Trim(Keep(x))
  {
    KeepTrims(p + x);
    KeepTrims(x);
    if x == [] {
      assert p + x == p;
    } else {
      assert (p + x)[|p + x| - 1] == x[|x| - 1];
    }
  }

  lemma OnePassSkips(p: seq<byte>, x: seq<byte>, limit: nat, lo: nat)
    requires Find(x, SOI, 0) == lo && Find(p + x, SOI, 0) == |p| + lo
    ensures lo <= |x| && (p + x)[|p| + lo..] == x[lo..]
    ensures OnePass(p + x, limit) == match OnePass(x, limit)
      case Nothing(rest, n) => Nothing(rest, n)
      case Image(from, to) => Image(|p| + from, |p| + to)
  {
    assert (p + x)[|p| + lo..] == x[lo..];
  }

  lemma FeedShifts(b: seq<byte>, x: seq<byte>, n: nat, limit: nat)
    requires n <= |b| && x == b[n..] && OnePass(x, limit).Image?
    requires OnePass(b, limit) == Image(n + OnePass(x, limit).lo, n + OnePass(x, limit).hi)
    ensures Alike(Feed(b, limit), Feed(x, limit))
  {
    var lo, hi := OnePass(x, limit).lo, OnePass(x, limit).hi;
    var image, rest := x[lo..hi], x[hi..];
    assert b[n + lo..n + hi] == image && b[n + hi..] == rest;
    FeedFrom(x, limit, lo, hi, image, rest);
    FeedFrom(b, limit, n + lo, n + hi, image, rest);
  }

  lemma FeedSkipsTo(p: seq<byte>, x: seq<byte>, limit: nat, lo: nat)
    requires Find(x, SOI, 0) == lo && Find(p + x, SOI, 0) == |p| + lo
    ensures Alike(Feed(p + x, limit), Feed(x, limit))
  {
    OnePassSkips(p, x, limit, lo);
    if OnePass(x, limit).Image? {
      assert (p + x)[|p|..] == x;
      FeedShifts(p + x, x, |p|, limit);
    }
  }

  /** Bytes before which no start marker begins change nothing about a call. */
  lemma FeedSkips(p: seq<byte>, x: seq<byte>, limit: nat)
    requires forall k :: 0 <= k < |p| ==> !MarkerAt(p + x, k, SOI)
    requires x == [] ==> LastEscape(p) == []
    ensures Alike(Feed(p + x, limit), Feed(x, limit))
  {
    FindSkips(p, x, SOI, 0);
    var lo := Find(x, SOI, 0);
    if lo < 0 { NothingSkips(p, x); } else { FeedSkipsTo(p, x, limit, lo); }
  }

  lemma FeedTrimmed(b: seq<byte>, data: seq<byte>, limit: nat)
    ensures Alike(Feed(b + data, limit), Feed(Trim(b) + data, limit))
  {
    var p, x := b[..|b| - |Trim(b)|], Trim(b) + data;
    assert b + data == p + x;
    FindsFirst(b, SOI, 0);
    forall k | 0 <= k < |p| ensures !MarkerAt(p + x, k, SOI) {
      assert !MarkerAt(b, k, SOI);
    }
    FeedSkips(p, x, limit);
  }

  lemma FeedsAlike(a: seq<byte>, b: seq<byte>, data: seq<byte>, limit: nat)
    requires Trim(a) == Trim(b)
    ensures Alike(Feed(a + data, limit), Feed(b + data, limit))
  {
    FeedTrimmed(a, data, limit);
    FeedTrimmed(b, data, limit);
  }

  // ----- How far behind the unfinished image the retained bytes are -----

  /** The start markers of the unfinished image `t` before `q` were given up, each when the
      image had outgrown the limit since, and what is retained is the rest of it. */
  ghost predicate Lags(rest: seq<byte>, t: seq<byte>, q: nat, limit: nat) {
    && q <= |t| && Trim(rest) == Trim(t[q..])
    && GivenUp(t, q, limit)
  }

  ghost predicate GivenUp(t: seq<byte>, q: nat, limit: nat) {
    && (q == 0 || MarkerAt(t, q - 2, SOI))
    && forall j :: 0 <= j < q && MarkerAt(t, j, SOI) ==> |t| - j > limit
  }

  /** Every start marker that is overdue was given up, as when the bytes come one by one. */
  ghost predicate Prompt(t: seq<byte>, q: nat, limit: nat) {
    forall j :: 0 <= j && MarkerAt(t, j, SOI) ==> (j < q <==> |t| - j > limit)
  }

  lemma FindFrom(t: seq<byte>, marker: byte, q: nat)
    requires q <= |t|
    ensures Find(t, marker, q) == if Find(t[q..], marker, 0) < 0 then -1 else q + Find(t[q..], marker, 0)
  {
    assert t == t[..q] + t[q..];
    FindSkips(t[..q], t[q..], marker, q);
  }

  lemma NoneBehind(t: seq<byte>, marker: byte, from: nat, n: nat)
    requires n <= |t| && Find(t, marker, from) < 0
    ensures Find(t[n..], marker, from) < 0
  {
    FindsFirst(t, marker, from);
    var r := Find(t[n..], marker, from);
    if r >= 0 { assert MarkerAt(t, n + r, marker); }
  }

  /** What one call gives up: the first start marker left, if it is overdue. */
  function NextStart(t: seq<byte>, q: nat, limit: nat): nat {
    var p := Find(t, SOI, q);
    if p >= 0 && |t| - p > limit then p + 2 else q
  }

  lemma ResyncTrims(c: seq<byte>)
    requires MarkerAt(c, 0, SOI)
    ensures Trim(Resync(c)) == Trim(c[2..])
  {
    FindFrom(c, SOI, 2);
    TrimTwice(c[2..]);
    var next := Find(c, SOI, 2);
    if next >= 0 { assert c[2..][next - 2..] == c[next..]; }
  }

  lemma Overdue(t: seq<byte>, q: nat, limit: nat, c: seq<byte>)
    requires q <= |t| && First(t) == Nothing(t, 0) && MarkerAt(t, 0, SOI)
    requires Find(t, SOI, q) >= 0 && c == t[Find(t, SOI, q)..]
    ensures OnePass(t[q..], limit) == if |c| > limit then Nothing(Resync(c), 1) else Nothing(c, 0)
  {
    FindFrom(t, SOI, q);
    var p := Find(t, SOI, q);
    assert t[q..][p - q..] == c;
    assert t[0..] == t && Find(t, SOI, 0) == 0;
    NoneBehind(t, EOI, 2, p);
  }

  lemma GivesUp(t: seq<byte>, q: nat, limit: nat, p: nat)
    requires q <= p && GivenUp(t, q, limit) && Find(t, SOI, q) == p && |t| - p > limit
    ensures GivenUp(t, p + 2, limit)
  {
    FindsFirst(t, SOI, q);
    forall j | 0 <= j < p + 2 && MarkerAt(t, j, SOI) ensures |t| - j > limit {
      assert j < q || j == p;
    }
  }

  lemma ResyncFrom(t: seq<byte>, p: nat)
    requires MarkerAt(t, p, SOI)
    ensures p + 2 <= |t| && Trim(Resync(t[p..])) == Trim(t[p + 2..])
  {
    assert MarkerAt(t[p..], 0, SOI);
    ResyncTrims(t[p..]);
    assert t[p..][2..] == t[p + 2..];
  }

  /** What is left of the image after a call that does not complete it. */
  lemma Resumes(t: seq<byte>, q: nat, limit: nat, p: nat)
    requires q <= p < |t| && GivenUp(t, q, limit)
    requires Find(t, SOI, q) == p && Trim(t[q..]) == t[p..]
    ensures Lags(if |t| - p > limit then Resync(t[p..]) else t[p..], t, NextStart(t, q, limit), limit)
  {
    if |t| - p > limit {
      GivesUp(t, q, limit, p);
      ResyncFrom(t, p);
    } else {
      TrimTwice(t[q..]);
    }
  }

  /** What `First` leaves starts with its start marker. */
  lemma StartsAtOnce(t: seq<byte>, p: nat)
    requires First(t) == Nothing(t, 0) && MarkerAt(t, p, SOI)
    ensures MarkerAt(t, 0, SOI) && Find(t, SOI, 0) == 0
  {
    FindsFirst(t, SOI, 0);
    var lo := Find(t, SOI, 0);
    assert lo >= 0;
    assert t[lo..] == t;
  }

  /** While the image goes on, a call delivers nothing. */
  lemma GoesOn(t: seq<byte>, q: nat, limit: nat)
    requires First(t) == Nothing(t, 0) && q <= |t| && GivenUp(t, q, limit)
    ensures Feed(t[q..], limit).frames == []
    ensures Lags(Feed(t[q..], limit).rest, t, NextStart(t, q, limit), limit)
  {
    FindFrom(t, SOI, q);
    var p := Find(t, SOI, q);
    if p < 0 {
      KeepTrims(t[q..]);
    } else {
      StartsAtOnce(t, p);
      Overdue(t, q, limit, t[p..]);
      assert t[q..][p - q..] == t[p..];
      Resumes(t, q, limit, p);
    }
  }

  // ----- One image -----

  /** From which start marker on an image is delivered if everything overdue was given up
      just before its end marker arrived: the first one that leaves no more than one byte
      over the limit. */
  function Resumed(image: seq<byte>, limit: nat): int {
    Find(image, SOI, if |image| > limit + 1 then |image| - limit - 1 else 0)
  }

  /** An image within the limit plus one is never resumed; a longer one must have no start
      marker in its last `limit` bytes, or one just before them. */
  predicate Settled(image: seq<byte>, limit: nat) {
    |image| > limit + 1 ==>
      Resumed(image, limit) < 0 || Resumed(image, limit) == |image| - limit - 1
  }

  function KeptOf(image: seq<byte>, limit: nat): seq<seq<byte>> {
    if |image| <= limit then [image] else []
  }

  /** The images within the limit. */
  function Kept(images: seq<seq<byte>>, limit: nat): seq<seq<byte>> {
    if images == [] then [] else KeptOf(images[0], limit) + Kept(images[1..], limit)
  }

  lemma Associate(a: seq<seq<byte>>, b: seq<seq<byte>>, c: seq<seq<byte>>)
    ensures (a + b) + c == a + (b + c) && [] + a == a
  {
  }

  lemma KeptOne(image: seq<byte>, images: seq<seq<byte>>, limit: nat)
    ensures Kept([image] + images, limit) == KeptOf(image, limit) + Kept(images, limit)
  {
    assert ([image] + images)[1..] == images;
  }

  lemma {:induction false} KeptJoins(a: seq<seq<byte>>, b: seq<seq<byte>>, limit: nat)
    ensures Kept(a + b, limit) == Kept(a, limit) + Kept(b, limit)
  {
    if a == [] {
      assert a + b == b;
    } else {
      KeptJoins(a[1..], b, limit);
      KeptOne(a[0], a[1..] + b, limit);
      assert a + b == [a[0]] + (a[1..] + b);
      Associate(KeptOf(a[0], limit), Kept(a[1..], limit), Kept(b, limit));
    }
  }

  /** What of an image that ends at `h` of `v` is delivered when the bytes from `q` on
      were retained. */
  function Ended(v: seq<byte>, q: nat, h: nat, limit: nat): seq<seq<byte>>
    requires h <= |v|
  {
    var p := Find(v, SOI, q);
    if 0 <= p < h && h - p <= limit then [v[p..h]] else []
  }

  lemma WholeImage(v: seq<byte>, h: nat)
    requires First(v) == Image(0, h)
    ensures 4 <= h <= |v| && MarkerAt(v, 0, SOI) && MarkerAt(v, h - 2, EOI)
    ensures forall k :: 2 <= k < h - 2 ==> !MarkerAt(v, k, EOI)
  {
    assert v[0..] == v;
    FindsFirst(v, EOI, 2);
  }

  lemma EndFrom(v: seq<byte>, p: nat, h: nat)
    requires First(v) == Image(0, h) && p < h && MarkerAt(v, p, SOI)
    ensures p + 4 <= h <= |v| && Find(v[p..], EOI, 2) == h - 2 - p
  {
    WholeImage(v, h);
    var c := v[p..];
    FindsFirst(c, EOI, 2);
    assert MarkerAt(c, h - 2 - p, EOI);
    assert MarkerAt(v, p + Find(c, EOI, 2), EOI);
  }

  lemma EndsFound(v: seq<byte>, q: nat, p: nat, h: nat, limit: nat)
    requires First(v) == Image(0, h) && q <= p < h <= |v| && Find(v, SOI, q) == p
    ensures Feed(v[q..], limit) == WithImage(v[p..h], limit, Feed(v[h..], limit))
  {
    FindFrom(v, SOI, q);
    EndFrom(v, p, h);
    assert v[q..][p - q..] == v[p..];
    assert v[p..h] == v[p..][..h - p] && v[h..] == v[p..][h - p..];
    ImageFeeds(v[q..], limit, p - q, h - 2 - p, v[p..h], v[h..]);
  }

  lemma EndsSkipped(v: seq<byte>, q: nat, h: nat, limit: nat)
    requires First(v) == Image(0, h) && q < h <= |v| && !(0 <= Find(v, SOI, q) < h)
    ensures Alike(Feed(v[q..], limit), Feed(v[h..], limit))
  {
    WholeImage(v, h);
    FindsFirst(v, SOI, q);
    var skipped, rest := v[q..h], v[h..];
    assert v[q..] == skipped + rest;
    forall k | 0 <= k < |skipped| ensures !MarkerAt(skipped + rest, k, SOI) {
      assert !MarkerAt(v, q + k, SOI);
    }
    FeedSkips(skipped, rest, limit);
  }

  lemma EndsAlike(v: seq<byte>, q: nat, h: nat, limit: nat)
    requires First(v) == Image(0, h) && q < h <= |v|
    ensures Feed(v[q..], limit).frames == Ended(v, q, h, limit) + Feed(v[h..], limit).frames
    ensures Trim(Feed(v[q..], limit).rest) == Trim(Feed(v[h..], limit).rest)
  {
    var p := Find(v, SOI, q);
    if 0 <= p < h { EndsFound(v, q, p, h, limit); } else { EndsSkipped(v, q, h, limit); }
    assert [] + Feed(v[h..], limit).frames == Feed(v[h..], limit).frames;
  }

  lemma SameStarts(v: seq<byte>, h: nat, image: seq<byte>, k: int)
    requires First(v) == Image(0, h) && h <= |v| && image == v[..h] && k < h
    ensures MarkerAt(image, k, SOI) <==> MarkerAt(v, k, SOI)
  {
    WholeImage(v, h);
  }

  /** Whatever was given up, a settled image is delivered exactly if it fits. */
  lemma SettledEnds(v: seq<byte>, q: nat, h: nat, limit: nat)
    requires First(v) == Image(0, h) && q < h <= |v| && Settled(v[..h], limit)
    requires q == 0 || MarkerAt(v, q - 2, SOI)
    requires forall j :: 0 <= j < q && MarkerAt(v, j, SOI) ==> h - j > limit + 1
    ensures Ended(v, q, h, limit) == KeptOf(v[..h], limit)
  {
    WholeImage(v, h);
    FindsFirst(v, SOI, q);
    var p := Find(v, SOI, q);
    if 0 <= p < h && h - p <= limit && h > limit + 1 {
      var image, from := v[..h], h - limit - 1;
      SameStarts(v, h, image, p);
      FindsFirst(image, SOI, from);
      var f := Resumed(image, limit);
      assert f == from;
      SameStarts(v, h, image, f);
      assert false;
    }
  }

  /** What is delivered of an image that arrives byte by byte. */
  function Reached(image: seq<byte>, limit: nat): seq<seq<byte>> {
    var p := Resumed(image, limit);
    if p >= 0 && |image| - p <= limit then [image[p..]] else []
  }

  // ----- One call -----

  lemma {:induction false} TailStays(s: seq<byte>)
    ensures First(Tail(s)) == Nothing(Tail(s), 0) && Trim(Tail(s)) == Tail(s)
    decreases |s|
  {
    var f := First(s);
    if f.Image? {
      TailStays(s[f.hi..]);
    } else {
      assert Tail(s) == Trim(s);
      TrimTwice(s);
      TailIsOver(s);
    }
  }

  lemma Remains(s: seq<byte>, limit: nat)
    requires First(s).Nothing?
    ensures Alike(Feed(s, limit), Feed(Tail(s), limit)) && Tail(s) == Trim(s)
  {
    FeedTrimmed(s, [], limit);
    assert s + [] == s && Trim(s) + [] == Trim(s);
  }

  lemma ImageFirst(s: seq<byte>, limit: nat) returns (image: seq<byte>, rest: seq<byte>)
    requires First(s).Image?
    ensures |rest| < |s| && Images(s) == [image] + Images(rest) && Tail(s) == Tail(rest)
    ensures Feed(s, limit).frames == KeptOf(image, limit) + Feed(rest, limit).frames
    ensures Feed(s, limit).rest == Feed(rest, limit).rest
  {
    var f := First(s);
    image, rest := s[f.lo..f.hi], s[f.hi..];
    ImagesFrom(s, f.lo, f.hi, image, rest);
    FeedFrom(s, limit, f.lo, f.hi, image, rest);
  }

  /** A call with nothing retained delivers the images that fit and lags behind the tail. */
  lemma {:induction false} FreshCall(s: seq<byte>, limit: nat) returns (q: nat)
    ensures Feed(s, limit).frames == Kept(Images(s), limit)
    ensures Lags(Feed(s, limit).rest, Tail(s), q, limit)
    decreases |s|
  {
    if First(s).Nothing? {
      TailStays(s);
      Remains(s, limit);
      var t := Tail(s);
      assert t[0..] == t;
      GoesOn(t, 0, limit);
      q := NextStart(t, 0, limit);
    } else {
      var image, rest := ImageFirst(s, limit);
      q := FreshCall(rest, limit);
      KeptOne(image, Images(rest), limit);
    }
  }

  lemma SameCall(rest: seq<byte>, t: seq<byte>, q: nat, data: seq<byte>, limit: nat)
    requires Lags(rest, t, q, limit)
    ensures Alike(Feed(rest + data, limit), Feed((t + data)[q..], limit))
  {
    FeedsAlike(rest, t[q..], data, limit);
    assert (t + data)[q..] == t[q..] + data;
  }

  lemma StartsWithMarker(t: seq<byte>, q: nat, data: seq<byte>, limit: nat)
    requires First(t) == Nothing(t, 0) && q > 0 && q <= |t| && GivenUp(t, q, limit)
    ensures Find(t + data, SOI, 0) == 0 && MarkerAt(t + data, q - 2, SOI)
    ensures forall j :: 0 <= j < q && MarkerAt(t + data, j, SOI) ==> MarkerAt(t, j, SOI)
  {
    StartsAtOnce(t, q - 2);
    assert MarkerAt(t + data, 0, SOI);
  }

  lemma StillGoesOn(t: seq<byte>, q: nat, data: seq<byte>, limit: nat)
    requires First(t) == Nothing(t, 0) && q <= |t| && GivenUp(t, q, limit) && First(t + data).Nothing?
    ensures var u := Tail(t + data);
      q <= |u| && GivenUp(u, q, limit) && Alike(Feed((t + data)[q..], limit), Feed(u[q..], limit)) && (q > 0 ==> u == t + data)
  {
    var all := t + data;
    if q == 0 {
      Remains(all, limit);
      assert all[0..] == all && Tail(all)[0..] == Tail(all);
    } else {
      StartsWithMarker(t, q, data, limit);
      assert all[0..] == all;
    }
  }

  lemma UnfinishedCall(rest: seq<byte>, t: seq<byte>, q: nat, data: seq<byte>, limit: nat)
    requires First(t) == Nothing(t, 0) && Lags(rest, t, q, limit) && First(t + data).Nothing?
    ensures Feed(rest + data, limit).frames == []
    ensures Lags(Feed(rest + data, limit).rest, Tail(t + data), NextStart(Tail(t + data), q, limit), limit)
  {
    SameCall(rest, t, q, data, limit);
    StillGoesOn(t, q, data, limit);
    TailStays(t + data);
    GoesOn(Tail(t + data), q, limit);
  }

  lemma EndsPast(t: seq<byte>, data: seq<byte>)
    requires First(t) == Nothing(t, 0) && First(t + data).Image?
    ensures First(t + data).hi > |t|
  {
    var all := t + data;
    var lo, hi := First(all).lo, First(all).hi;
    var end := Find(all[lo..], EOI, 2);
    assert hi == lo + end + 2 && MarkerAt(all, lo, SOI) && MarkerAt(all, hi - 2, EOI);
    if hi <= |t| {
      assert MarkerAt(t, lo, SOI) && MarkerAt(t, hi - 2, EOI);
      StartsAtOnce(t, lo);
      assert t[0..] == t;
      FindsFirst(t, EOI, 2);
      assert false;
    }
  }

  lemma CutAtStart(s: seq<byte>, lo: nat, hi: nat)
    requires First(s) == Image(lo, hi)
    ensures First(s[lo..]) == Image(0, hi - lo)
  {
    var v := s[lo..];
    assert MarkerAt(v, 0, SOI);
    assert v[0..] == v;
  }

  /** Bytes before the first start marker do not matter. */
  lemma FromStart(s: seq<byte>, lo: nat, hi: nat, limit: nat)
    requires First(s) == Image(lo, hi)
    ensures Alike(Feed(s, limit), Feed(s[lo..], limit))
  {
    var p, v := s[..lo], s[lo..];
    assert p + v == s;
    FindsFirst(s, SOI, 0);
    FeedSkips(p, v, limit);
  }

  lemma CompletedCall(t: seq<byte>, q: nat, data: seq<byte>, lo: nat, hi: nat, limit: nat)
    requires First(t) == Nothing(t, 0) && q <= |t| && GivenUp(t, q, limit) && First(t + data) == Image(lo, hi)
    ensures q < hi - lo && (q > 0 ==> lo == 0)
    ensures Alike(Feed((t + data)[q..], limit), Feed((t + data)[lo..][q..], limit))
  {
    var all := t + data;
    EndsPast(t, data);
    if q == 0 {
      FromStart(all, lo, hi, limit);
      assert all[0..] == all && all[lo..][0..] == all[lo..];
    } else {
      StartsWithMarker(t, q, data, limit);
      assert all[0..] == all;
    }
  }

  /** What was given up of an image that a call completes had outgrown the limit before. */
  lemma GivenUpBefore(t: seq<byte>, q: nat, data: seq<byte>, lo: nat, hi: nat, limit: nat)
    requires First(t) == Nothing(t, 0) && q <= |t| && GivenUp(t, q, limit) && First(t + data) == Image(lo, hi)
    ensures q == 0 || MarkerAt((t + data)[lo..], q - 2, SOI)
    ensures forall j :: 0 <= j < q && MarkerAt((t + data)[lo..], j, SOI) ==> hi - lo - j > limit + 1
  {
    if q > 0 {
      CompletedCall(t, q, data, lo, hi, limit);
      EndsPast(t, data);
      StartsWithMarker(t, q, data, limit);
      assert (t + data)[lo..] == t + data;
    }
  }

  lemma LastByte(t: seq<byte>, data: seq<byte>)
    requires First(t) == Nothing(t, 0) && |data| == 1 && First(t + data).Image?
    ensures First(t + data) == Image(0, |t| + 1)
    ensures forall j :: MarkerAt(t + data, j, SOI) <==> MarkerAt(t, j, SOI)
  {
    var all := t + data;
    var lo := First(all).lo;
    EndsPast(t, data);
    assert MarkerAt(all, lo, SOI) && MarkerAt(t, lo, SOI);
    StartsAtOnce(t, lo);
    assert MarkerAt(all, 0, SOI);
    assert all[0..] == all;
    WholeImage(all, |all|);
  }

  /** Byte by byte, an image is delivered from where it was resumed. */
  lemma PromptEnds(t: seq<byte>, q: nat, data: seq<byte>, limit: nat)
    requires First(t) == Nothing(t, 0) && |data| == 1 && First(t + data).Image? && Prompt(t, q, limit)
    ensures First(t + data) == Image(0, |t| + 1)
    ensures Ended(t + data, q, |t| + 1, limit) == Reached(t + data, limit)
  {
    LastByte(t, data);
    var v := t + data;
    var from := if |v| > limit + 1 then |v| - limit - 1 else 0;
    FindsFirst(v, SOI, q);
    FindsFirst(v, SOI, from);
    var p, r := Find(v, SOI, q), Find(v, SOI, from);
    assert p >= 0 ==> MarkerAt(t, p, SOI);
    assert r >= 0 ==> MarkerAt(t, r, SOI);
    assert p == r && (p >= 0 ==> v[p..|v|] == v[p..]);
  }

  /** What is delivered of the image that a call completes. */
  lemma EndedIs(t: seq<byte>, q: nat, data: seq<byte>, v: seq<byte>, lo: nat, hi: nat, limit: nat)
    requires First(t) == Nothing(t, 0) && q <= |t| && GivenUp(t, q, limit)
    requires First(t + data) == Image(lo, hi) && v == (t + data)[lo..] && q < hi - lo
    ensures Settled(v[..hi - lo], limit) ==> Ended(v, q, hi - lo, limit) == KeptOf(v[..hi - lo], limit)
    ensures |data| == 1 && Prompt(t, q, limit) ==> |v| == hi - lo && Ended(v, q, hi - lo, limit) == Reached(v, limit)
  {
    if Settled(v[..hi - lo], limit) {
      CutAtStart(t + data, lo, hi);
      GivenUpBefore(t, q, data, lo, hi, limit);
      SettledEnds(v, q, hi - lo, limit);
    }
    if |data| == 1 && Prompt(t, q, limit) {
      PromptEnds(t, q, data, limit);
      assert v == t + data;
    }
  }

  lemma AlikeThrice(a: Fed, b: Fed, c: Fed)
    requires Alike(a, b) && Alike(b, c)
    ensures Alike(a, c)
  {
  }

  lemma CallAlike(rest: seq<byte>, t: seq<byte>, q: nat, data: seq<byte>, v: seq<byte>, lo: nat, hi: nat, limit: nat)
    requires First(t) == Nothing(t, 0) && Lags(rest, t, q, limit)
    requires First(t + data) == Image(lo, hi) && v == (t + data)[lo..]
    ensures q < hi - lo <= |v| && Alike(Feed(rest + data, limit), Feed(v[q..], limit))
  {
    CompletedCall(t, q, data, lo, hi, limit);
    SameCall(rest, t, q, data, limit);
    AlikeThrice(Feed(rest + data, limit), Feed((t + data)[q..], limit), Feed(v[q..], limit));
  }

  lemma FeedEnds(rest: seq<byte>, t: seq<byte>, q: nat, data: seq<byte>, v: seq<byte>, lo: nat, hi: nat, limit: nat)
      returns (ended: seq<seq<byte>>)
    requires First(t) == Nothing(t, 0) && Lags(rest, t, q, limit)
    requires First(t + data) == Image(lo, hi) && v == (t + data)[lo..]
    ensures q < hi - lo <= |v| && ended == Ended(v, q, hi - lo, limit)
    ensures Feed(rest + data, limit).frames == ended + Feed(v[hi - lo..], limit).frames
    ensures Trim(Feed(rest + data, limit).rest) == Trim(Feed(v[hi - lo..], limit).rest)
  {
    CallAlike(rest, t, q, data, v, lo, hi, limit);
    CutAtStart(t + data, lo, hi);
    EndsAlike(v, q, hi - lo, limit);
    ended := Ended(v, q, hi - lo, limit);
  }

  lemma ImageCut(all: seq<byte>, lo: nat, hi: nat, v: seq<byte>)
    requires First(all) == Image(lo, hi) && v == all[lo..]
    ensures Images(all) == [v[..hi - lo]] + Images(v[hi - lo..]) && Tail(all) == Tail(v[hi - lo..])
  {
    assert v[..hi - lo] == all[lo..hi] && v[hi - lo..] == all[hi..];
    ImagesFrom(all, lo, hi, v[..hi - lo], v[hi - lo..]);
  }

  /** The image that a call completes, what of it is delivered whatever was given up of it,
      and the bytes behind it. */
  lemma EndingCall(rest: seq<byte>, t: seq<byte>, q: nat, data: seq<byte>, limit: nat)
      returns (image: seq<byte>, ended: seq<seq<byte>>, after: seq<byte>)
    requires First(t) == Nothing(t, 0) && Lags(rest, t, q, limit) && First(t + data).Image?
    ensures Images(t + data) == [image] + Images(after) && Tail(t + data) == Tail(after)
    ensures Settled(image, limit) ==> ended == KeptOf(image, limit)
    ensures |data| == 1 && Prompt(t, q, limit) ==> after == [] && ended == Reached(image, limit)
    ensures Feed(rest + data, limit).frames == ended + Feed(after, limit).frames
    ensures Trim(Feed(rest + data, limit).rest) == Trim(Feed(after, limit).rest)
  {
    var lo, hi := First(t + data).lo, First(t + data).hi;
    var v := (t + data)[lo..];
    ended := FeedEnds(rest, t, q, data, v, lo, hi, limit);
    EndedIs(t, q, data, v, lo, hi, limit);
    image, after := v[..hi - lo], v[hi - lo..];
    assert |v| == hi - lo ==> image == v;
    ImageCut(t + data, lo, hi, v);
  }

  ghost predicate AllSettled(images: seq<seq<byte>>, limit: nat) {
    forall i :: 0 <= i < |images| ==> Settled(images[i], limit)
  }

  lemma SettledSplit(a: seq<seq<byte>>, b: seq<seq<byte>>, limit: nat)
    ensures AllSettled(a + b, limit) <==> AllSettled(a, limit) && AllSettled(b, limit)
  {
    assert forall i :: 0 <= i < |a| ==> a[i] == (a + b)[i];
    assert forall i :: 0 <= i < |b| ==> b[i] == (a + b)[|a| + i];
  }

  /** A call that completes settled images only delivers those that fit, whatever was
      given up before. */
  lemma SettledCall(rest: seq<byte>, t: seq<byte>, q: nat, data: seq<byte>, limit: nat) returns (next: nat)
    requires First(t) == Nothing(t, 0) && Lags(rest, t, q, limit) && AllSettled(Images(t + data), limit)
    ensures Feed(rest + data, limit).frames == Kept(Images(t + data), limit)
    ensures Lags(Feed(rest + data, limit).rest, Tail(t + data), next, limit)
  {
    if First(t + data).Nothing? {
      UnfinishedCall(rest, t, q, data, limit);
      next := NextStart(Tail(t + data), q, limit);
    } else {
      var image, ended, after := EndingCall(rest, t, q, data, limit);
      assert Images(t + data)[0] == image;
      next := FreshCall(after, limit);
      KeptOne(image, Images(after), limit);
    }
  }

  /** However the stream is cut, when all of its images are settled those that fit are
      delivered. */
  lemma {:induction false} SettledRuns(chunks: seq<seq<byte>>, limit: nat) returns (q: nat)
    requires AllSettled(Images(Joined(chunks)), limit)
    ensures Run(chunks, limit).frames == Kept(Images(Joined(chunks)), limit)
    ensures Lags(Run(chunks, limit).rest, Tail(Joined(chunks)), q, limit)
  {
    q := 0;
    if chunks != [] {
      var front, data := chunks[..|chunks| - 1], chunks[|chunks| - 1];
      var s, t := Joined(front), Tail(Joined(front));
      ImagesSplit(s, data);
      SettledSplit(Images(s), Images(t + data), limit);
      q := SettledRuns(front, limit);
      if data == [] {
        assert s + data == s;
      } else {
        TailStays(s);
        q := SettledCall(Run(front, limit).rest, t, q, data, limit);
        KeptJoins(Images(s), Images(t + data), limit);
      }
    }
  }

  // ----- Byte by byte -----

  function Bytes(s: seq<byte>): seq<seq<byte>> {
    if s == [] then [] else Bytes(s[..|s| - 1]) + [[s[|s| - 1]]]
  }

  function AllReached(images: seq<seq<byte>>, limit: nat): seq<seq<byte>> {
    if images == [] then []
    else AllReached(images[..|images| - 1], limit) + Reached(images[|images| - 1], limit)
  }

  lemma {:induction false} JoinedBytes(s: seq<byte>)
    ensures Joined(Bytes(s)) == s
  {
    if s != [] {
      var front := Bytes(s[..|s| - 1]);
      JoinedBytes(s[..|s| - 1]);
      assert Bytes(s)[..|Bytes(s)| - 1] == front;
    }
  }

  /** One more byte makes at most one start marker overdue, the first one left. */
  lemma StaysPrompt(t: seq<byte>, q: nat, x: byte, limit: nat)
    requires Prompt(t, q, limit) && q <= |t| && (q == 0 || MarkerAt(t, q - 2, SOI))
    ensures Prompt(t + [x], NextStart(t + [x], q, limit), limit)
  {
    var u := t + [x];
    var p := Find(u, SOI, q);
    FindsFirst(u, SOI, q);
    forall j | 0 <= j && MarkerAt(u, j, SOI)
      ensures j < NextStart(u, q, limit) <==> |u| - j > limit
    {
      assert j + 2 <= |t| ==> MarkerAt(t, j, SOI);
      if j >= q {
        assert q <= p <= j && j != p + 1;
        assert p < j ==> MarkerAt(t, p, SOI);
      }
    }
  }

  lemma PromptAnew(t: seq<byte>, limit: nat)
    requires |t| <= 1
    ensures Prompt(t, 0, limit)
  {
  }

  lemma ByteTail(t: seq<byte>, x: byte)
    requires First(t) == Nothing(t, 0) && First(t + [x]).Nothing?
    ensures Tail(t + [x]) == t + [x] || |Tail(t + [x])| <= 1
  {
    var u := t + [x];
    var lo := Find(u, SOI, 0);
    if lo >= 0 {
      if lo + 2 <= |t| {
        assert MarkerAt(t, lo, SOI);
        StartsAtOnce(t, lo);
        assert MarkerAt(u, 0, SOI);
      }
      assert u[0..] == u;
    }
  }

  lemma PromptCall(t: seq<byte>, q: nat, x: byte, limit: nat)
    requires First(t) == Nothing(t, 0) && q <= |t| && GivenUp(t, q, limit) && Prompt(t, q, limit)
    requires First(t + [x]).Nothing?
    ensures Prompt(Tail(t + [x]), NextStart(Tail(t + [x]), q, limit), limit)
  {
    ByteTail(t, x);
    StillGoesOn(t, q, [x], limit);
    TailStays(t + [x]);
    if Tail(t + [x]) == t + [x] { StaysPrompt(t, q, x, limit); }
  }

  /** What a call of one byte delivers, and that everything overdue was given up again. */
  lemma ByteCall(rest: seq<byte>, t: seq<byte>, q: nat, x: byte, limit: nat) returns (next: nat)
    requires First(t) == Nothing(t, 0) && Lags(rest, t, q, limit) && Prompt(t, q, limit)
    ensures |Images(t + [x])| <= 1
    ensures Feed(rest + [x], limit).frames == AllReached(Images(t + [x]), limit)
    ensures Lags(Feed(rest + [x], limit).rest, Tail(t + [x]), next, limit) && Prompt(Tail(t + [x]), next, limit)
  {
    if First(t + [x]).Nothing? {
      UnfinishedCall(rest, t, q, [x], limit);
      PromptCall(t, q, x, limit);
      next := NextStart(Tail(t + [x]), q, limit);
    } else {
      var image, ended, after := EndingCall(rest, t, q, [x], limit);
      next := FreshCall(after, limit);
      assert Images(after) == [] && Tail(after) == [];
      var one := [image];
      assert Images(t + [x]) == one && one[..0] == [];
      Associate(ended, [], []);
    }
  }

  lemma ReachedJoins(images: seq<seq<byte>>, more: seq<seq<byte>>, limit: nat)
    requires |more| <= 1
    ensures AllReached(images + more, limit) == AllReached(images, limit) + AllReached(more, limit)
  {
    if more == [] {
      assert images + more == images;
    } else {
      assert (images + more)[..|images|] == images && more[..0] == [] && AllReached(more[..0], limit) == [];
      Associate([], Reached(more[0], limit), []);
    }
  }

  lemma OneByteMore(front: seq<byte>, x: byte, limit: nat)
    ensures var before := Run(Bytes(front), limit);
      Run(Bytes(front + [x]), limit) == Then(before, Feed(before.rest + [x], limit))
  {
    var s := front + [x];
    assert s[..|s| - 1] == front;
    var cut := Bytes(s);
    assert cut == Bytes(front) + [[x]];
    assert cut[..|cut| - 1] == Bytes(front);
  }

  lemma NextByte(front: seq<byte>, x: byte, q: nat, limit: nat) returns (next: nat)
    requires Run(Bytes(front), limit).frames == AllReached(Images(front), limit)
    requires Lags(Run(Bytes(front), limit).rest, Tail(front), q, limit) && Prompt(Tail(front), q, limit)
    ensures Run(Bytes(front + [x]), limit).frames == AllReached(Images(front + [x]), limit)
    ensures Lags(Run(Bytes(front + [x]), limit).rest, Tail(front + [x]), next, limit)
    ensures Prompt(Tail(front + [x]), next, limit)
  {
    TailStays(front);
    next := ByteCall(Run(Bytes(front), limit).rest, Tail(front), q, x, limit);
    OneByteMore(front, x, limit);
    ImagesSplit(front, [x]);
    ReachedJoins(Images(front), Images(Tail(front) + [x]), limit);
  }

  /** Byte by byte, the frames are what is left of each image after all resyncs. */
  lemma {:induction false} ByteRuns(s: seq<byte>, limit: nat) returns (q: nat)
    ensures Run(Bytes(s), limit).frames == AllReached(Images(s), limit)
    ensures Lags(Run(Bytes(s), limit).rest, Tail(s), q, limit) && Prompt(Tail(s), q, limit)
  {
    q := 0;
    if s != [] {
      var front, x := s[..|s| - 1], s[|s| - 1];
      assert s == front + [x];
      q := ByteRuns(front, limit);
      q := NextByte(front, x, q, limit);
    }
  }

  // ----- The exact condition -----

  /** Of an image that fits all is reached; of one that does not, something is exactly if
      it is not settled. */
  lemma ReachedOrSettled(image: seq<byte>, limit: nat)
    requires MarkerAt(image, 0, SOI)
    ensures |Reached(image, limit)| >= |KeptOf(image, limit)|
    ensures |Reached(image, limit)| == |KeptOf(image, limit)| <==> Settled(image, limit)
  {
    FindsFirst(image, SOI, 0);
  }

  /** Something of every unsettled image is reached though the image does not fit, so
      there are more frames than images that fit. */
  lemma {:induction false} MoreReached(images: seq<seq<byte>>, limit: nat)
    requires forall i :: 0 <= i < |images| ==> MarkerAt(images[i], 0, SOI)
    ensures |AllReached(images, limit)| >= |Kept(images, limit)|
    ensures |AllReached(images, limit)| == |Kept(images, limit)| <==> AllSettled(images, limit)
  {
    if images != [] {
      var n := |images| - 1;
      var front := images[..n];
      MoreReached(front, limit);
      ReachedOrSettled(images[n], limit);
      assert images == front + [images[n]];
      KeptJoins(front, [images[n]], limit);
      KeptOne(images[n], [], limit);
      SettledSplit(front, [images[n]], limit);
    }
  }

  lemma {:induction false} ImagesStart(s: seq<byte>)
    ensures forall i :: 0 <= i < |Images(s)| ==> MarkerAt(Images(s)[i], 0, SOI)
    decreases |s|
  {
    var f := First(s);
    if f.Image? {
      ImagesStart(s[f.hi..]);
      assert MarkerAt(s[f.lo..f.hi], 0, SOI);
    }
  }

  lemma OneRun(s: seq<byte>, limit: nat)
    ensures Joined([s]) == s && Run([s], limit).frames == Kept(Images(s), limit)
  {
    if s == [] {
      var one := [s];
      var none: seq<seq<byte>> := one[..0];
      assert Joined(none) == [] && Run(none, limit) == Fed([], [], 0);
      assert Joined(none) + s == s;
    } else {
      OneCall(s, limit);
      var q := FreshCall(s, limit);
    }
  }

  /** However the stream is cut, the frames are those of one call that brings all of it. */
  ghost predicate AnyCut(s: seq<byte>, limit: nat) {
    forall chunks :: Joined(chunks) == s ==> Run(chunks, limit).frames == Run([s], limit).frames
  }

  /** For every stream and limit: the frames do not depend on where the stream is cut
      exactly if all of its images are settled. */
  lemma ChunkingMattersExactly(s: seq<byte>, limit: nat)
    ensures AnyCut(s, limit) <==> AllSettled(Images(s), limit)
  {
    OneRun(s, limit);
    if AllSettled(Images(s), limit) {
      forall chunks | Joined(chunks) == s ensures Run(chunks, limit).frames == Run([s], limit).frames {
        var q := SettledRuns(chunks, limit);
      }
    }
    if AnyCut(s, limit) {
      JoinedBytes(s);
      var q := ByteRuns(s, limit);
      ImagesStart(s);
      MoreReached(Images(s), limit);
    }
  }

  /** A call counts each image that it does not deliver, and the unfinished one that it
      gives up. */
  lemma {:induction false} DroppedAreCounted(s: seq<byte>, limit: nat)
    ensures Feed(s, limit).dropped ==
      |Images(s)| - |Feed(s, limit).frames| + if MarkerAt(Tail(s), 0, SOI) && |Tail(s)| > limit then 1 else 0
    decreases |s|
  {
    if First(s).Nothing? {
      var lo := Find(s, SOI, 0);
      if lo >= 0 { assert MarkerAt(s[lo..], 0, SOI); }
    } else {
      var f := First(s);
      var image, rest := s[f.lo..f.hi], s[f.hi..];
      ImagesFrom(s, f.lo, f.hi, image, rest);
      FeedFrom(s, limit, f.lo, f.hi, image, rest);
      DroppedAreCounted(rest, limit);
    }
  }
}
