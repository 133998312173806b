/** The marker walker that reads an image's dimensions (gateway/noob_gateway/video.py,
    `jpeg_dimensions`), against the marker grammar of ITU-T T.81, sections B.1.1 and
    B.2.2. */
module JpegHeader {
  import opened Options
  import opened JpegStream

  const FRAME_MARKERS: set<byte> :=
    {0xC0, 0xC1, 0xC2, 0xC3, 0xC5, 0xC6, 0xC7, 0xC9, 0xCA, 0xCB, 0xCD, 0xCE, 0xCF}

  /** Markers without a length; a stuffed zero counts as one. */
  predicate Bare(marker: byte) {
    marker == 0 || marker == 0xD8 || marker == 0x01 || 0xD0 <= marker <= 0xD7
  }

  predicate Ends(marker: byte) { marker == EOI || marker == 0xDA }

  function U16(data: seq<byte>, at: nat): nat
    requires at + 2 <= |data|
  {
    (data[at] as int) * 256 + data[at + 1] as int
  }

  function FindEscape(data: seq<byte>, from: nat): (r: nat)
    requires from <= |data|
    ensures from <= r <= |data| && (r < |data| ==> data[r] == ESCAPE)
    decreases |data| - from
  {
    if from == |data| || data[from] == ESCAPE then from else FindEscape(data, from + 1)
  }

  function SkipEscapes(data: seq<byte>, from: nat): (r: nat)
    requires from <= |data|
    ensures from <= r <= |data| && (r < |data| ==> data[r] != ESCAPE)
    decreases |data| - from
  {
    if from == |data| || data[from] != ESCAPE then from else SkipEscapes(data, from + 1)
  }

  lemma {:induction false} EscapeIsFirst(data: seq<byte>, from: nat)
    requires from <= |data|
    ensures forall k :: from <= k < FindEscape(data, from) ==> data[k] != ESCAPE
    decreases |data| - from
  {
    if from < |data| && data[from] != ESCAPE {
      EscapeIsFirst(data, from + 1);
    }
  }

  lemma {:induction false} OnlyEscapesSkipped(data: seq<byte>, from: nat)
    requires from <= |data|
    ensures forall k :: from <= k < SkipEscapes(data, from) ==> data[k] == ESCAPE
    decreases |data| - from
  {
    if from < |data| && data[from] == ESCAPE {
      OnlyEscapesSkipped(data, from + 1);
    }
  }

  /** What stands at the next marker from `offset` on. */
  datatype Found = Over | Onward(next: nat) | Size(width: nat, height: nat)

  function AfterMarker(data: seq<byte>, at: nat): (f: Found)
    requires at < |data|
    ensures f.Onward? ==> at < f.next <= |data|
  {
    var marker, offset := data[at], at + 1;
    if marker == 0 then Onward(offset)
    else if Ends(marker) then Over
    else if Bare(marker) then Onward(offset)
    else if offset + 2 > |data| then Over
    else
      var length := U16(data, offset);
      if length < 2 || offset + length > |data| then Over
      else if marker in FRAME_MARKERS then
        if length < 7 then Over
        else
          var height, width := U16(data, offset + 3), U16(data, offset + 5);
          if width <= 0 || height <= 0 then Over else Size(width, height)
      else Onward(offset + length)
  }

  function NextMarker(data: seq<byte>, offset: nat): (f: Found)
    requires offset <= |data|
    ensures f.Onward? ==> offset < f.next <= |data|
  {
    var start := FindEscape(data, offset);
    if start == |data| then Over
    else
      var at := SkipEscapes(data, start + 1);
      if at == |data| then Over else AfterMarker(data, at)
  }

  function Walk(data: seq<byte>, offset: nat): Option<(nat, nat)>
    requires offset <= |data|
    decreases |data| - offset
  {
    if offset + 4 > |data| then None
    else
      match NextMarker(data, offset)
      case Over => None
      case Onward(next) => Walk(data, next)
      case Size(width, height) => Some((width, height))
  }

  function Dimensions(data: seq<byte>): Option<(nat, nat)> {
    if !MarkerAt(data, 0, SOI) then None else Walk(data, 2)
  }

  /** `bytes.find` of an escape. */
  method FindFirstEscape(data: seq<byte>, from: nat) returns (r: nat)
    requires from <= |data|
    ensures r == FindEscape(data, from)
  {
    r := from;
    while r < |data| && data[r] != ESCAPE
      invariant from <= r <= |data| && FindEscape(data, from) == FindEscape(data, r)
    {
      r := r + 1;
    }
  }

  /** Past fill bytes to the marker itself. */
  method SkipFillBytes(data: seq<byte>, from: nat) returns (r: nat)
    requires from <= |data|
    ensures r == SkipEscapes(data, from)
  {
    r := from;
    while r < |data| && data[r] == ESCAPE
      invariant from <= r <= |data| && SkipEscapes(data, from) == SkipEscapes(data, r)
    {
      r := r + 1;
    }
  }

  method ReadMarker(data: seq<byte>, from: nat) returns (found: Found)
    requires from <= |data|
    ensures found == NextMarker(data, from)
  {
    var markerStart := FindFirstEscape(data, from);
    if markerStart == |data| {
      return Over;
    }
    var markerAt := SkipFillBytes(data, markerStart + 1);
    if markerAt >= |data| {
      return Over;
    }
    var marker := data[markerAt];
    var offset := markerAt + 1;
    if marker == 0 {
      return Onward(offset);
    }
    if marker == EOI || marker == 0xDA {
      return Over;
    }
    if marker == 0xD8 || marker == 0x01 || 0xD0 <= marker <= 0xD7 {
      return Onward(offset);
    }
    if offset + 2 > |data| {
      return Over;
    }
    var length := U16(data, offset);
    if length < 2 || offset + length > |data| {
      return Over;
    }
    if marker in FRAME_MARKERS {
      if length < 7 {
        return Over;
      }
      var height, width := U16(data, offset + 3), U16(data, offset + 5);
      return if width <= 0 || height <= 0 then Over else Size(width, height);
    }
    found := Onward(offset + length);
  }

  /** Terminates and stays in bounds on any bytes. */
  method JpegDimensions(data: seq<byte>) returns (r: Option<(nat, nat)>)
    ensures r == Dimensions(data)
  {
    if !(|data| >= 2 && data[0] == ESCAPE && data[1] == SOI) {
      return None;
    }
    var offset := 2;
    while offset + 4 <= |data|
      invariant offset <= |data| && Dimensions(data) == Walk(data, offset)
      decreases |data| - offset
    {
      var found := ReadMarker(data, offset);
      match found {
        case Over => return None;
        case Size(width, height) => return Some((width, height));
        case Onward(next) => offset := next;
      }
    }
    r := None;
  }

  // ----- The grammar -----

  /** Bytes the walker passes over, fill bytes, and a marker with its payload if it has one. */
  datatype Piece = Piece(gap: seq<byte>, fill: nat, marker: byte, payload: seq<byte>)

  /** A frame header: precision, height and width, then the component list. */
  datatype Header = Header(
    gap: seq<byte>, fill: nat, marker: byte, precision: byte, height: nat, width: nat, components: seq<byte>)

  predicate Plain(bytes: seq<byte>) { forall k :: 0 <= k < |bytes| ==> bytes[k] != ESCAPE }

  predicate PieceOk(p: Piece) {
    && Plain(p.gap) && p.marker != ESCAPE && !Ends(p.marker) && p.marker !in FRAME_MARKERS
    && (if Bare(p.marker) then p.payload == [] else |p.payload| + 2 <= 0xFFFF)
  }

  predicate HeaderOk(h: Header) {
    && Plain(h.gap) && h.marker in FRAME_MARKERS && |h.components| + 7 <= 0xFFFF
    && 0 < h.height <= 0xFFFF && 0 < h.width <= 0xFFFF
  }

  function U16Bytes(n: nat): (r: seq<byte>)
    requires n <= 0xFFFF
    ensures |r| == 2 && (r[0] as int) * 256 + r[1] as int == n
  {
    [n / 256, n % 256]
  }

  function Escapes(n: nat): (r: seq<byte>)
    ensures |r| == n && forall k :: 0 <= k < n ==> r[k] == ESCAPE
  {
    seq(n, _ => ESCAPE)
  }

  function Head(gap: seq<byte>, fill: nat, marker: byte): (r: seq<byte>)
    ensures |r| == |gap| + fill + 2
  {
    gap + Escapes(fill + 1) + [marker]
  }

  function PieceBytes(p: Piece): seq<byte>
    requires PieceOk(p)
  {
    Head(p.gap, p.fill, p.marker) + (if Bare(p.marker) then [] else U16Bytes(|p.payload| + 2) + p.payload)
  }

  function SizeBytes(h: Header): (r: seq<byte>)
    requires HeaderOk(h)
    ensures |r| == 7 + |h.components|
  {
    U16Bytes(|h.components| + 7) + ([h.precision] + (U16Bytes(h.height) + (U16Bytes(h.width) + h.components)))
  }

  function HeaderBytes(h: Header): seq<byte>
    requires HeaderOk(h)
  {
    Head(h.gap, h.fill, h.marker) + SizeBytes(h)
  }

  function PiecesBytes(pieces: seq<Piece>): seq<byte>
    requires forall i :: 0 <= i < |pieces| ==> PieceOk(pieces[i])
  {
    if pieces == [] then [] else PieceBytes(pieces[0]) + PiecesBytes(pieces[1..])
  }

  function ImageBytes(pieces: seq<Piece>, h: Header, rest: seq<byte>): seq<byte>
    requires HeaderOk(h) && forall i :: 0 <= i < |pieces| ==> PieceOk(pieces[i])
  {
    [ESCAPE, SOI] + PiecesBytes(pieces) + HeaderBytes(h) + rest
  }

  // ----- Reading back what was written -----

  predicate Stands(data: seq<byte>, at: nat, bytes: seq<byte>) {
    at + |bytes| <= |data| && data[at..at + |bytes|] == bytes
  }

  lemma StandsBoth(data: seq<byte>, at: nat, a: seq<byte>, b: seq<byte>)
    ensures Stands(data, at, a + b) <==> Stands(data, at, a) && Stands(data, at + |a|, b)
  {
    if Stands(data, at, a + b) {
      assert data[at..at + |a|] == (a + b)[..|a|];
      assert data[at + |a|..at + |a| + |b|] == (a + b)[|a|..];
    }
    if Stands(data, at, a) && Stands(data, at + |a|, b) {
      assert data[at..at + |a| + |b|] == data[at..at + |a|] + data[at + |a|..at + |a| + |b|];
    }
  }

  lemma MarkerFound(data: seq<byte>, offset: nat, gap: seq<byte>, fill: nat, marker: byte)
    requires Plain(gap) && marker != ESCAPE && Stands(data, offset, Head(gap, fill, marker))
    ensures var at := offset + |gap| + fill + 1;
      at < |data| && data[at] == marker && NextMarker(data, offset) == AfterMarker(data, at)
  {
    StandsBoth(data, offset, gap + Escapes(fill + 1), [marker]);
    StandsBoth(data, offset, gap, Escapes(fill + 1));
    var start, at := offset + |gap|, offset + |gap| + fill + 1;
    assert forall k :: offset <= k < start ==> data[k] == gap[k - offset] by {
      assert forall k :: offset <= k < start ==> data[k] == data[offset..start][k - offset];
    }
    assert forall k :: start <= k < at ==> data[k] == ESCAPE by {
      assert forall k :: start <= k < at ==> data[k] == data[start..at][k - start];
    }
    assert data[at] == data[at..at + 1][0];
    EscapeIsFirst(data, offset);
    OnlyEscapesSkipped(data, start + 1);
    assert data[start] == ESCAPE;
    assert FindEscape(data, offset) == start;
    assert SkipEscapes(data, start + 1) == at;
  }

  lemma NumberStands(data: seq<byte>, at: nat, n: nat)
    requires n <= 0xFFFF && Stands(data, at, U16Bytes(n))
    ensures U16(data, at) == n
  {
    assert data[at] == data[at..at + 2][0] && data[at + 1] == data[at..at + 2][1];
  }

  lemma PayloadPassed(data: seq<byte>, at: nat, p: Piece)
    requires PieceOk(p) && at < |data| && data[at] == p.marker
    requires !Bare(p.marker) ==> Stands(data, at + 1, U16Bytes(|p.payload| + 2) + p.payload)
    ensures AfterMarker(data, at) == Onward(at + 1 + if Bare(p.marker) then 0 else |p.payload| + 2)
  {
    if !Bare(p.marker) {
      StandsBoth(data, at + 1, U16Bytes(|p.payload| + 2), p.payload);
      NumberStands(data, at + 1, |p.payload| + 2);
    }
  }

  lemma PieceNext(data: seq<byte>, offset: nat, p: Piece)
    requires PieceOk(p) && Stands(data, offset, PieceBytes(p))
    ensures NextMarker(data, offset) == Onward(offset + |PieceBytes(p)|)
  {
    var head := Head(p.gap, p.fill, p.marker);
    var tail := if Bare(p.marker) then [] else U16Bytes(|p.payload| + 2) + p.payload;
    StandsBoth(data, offset, head, tail);
    MarkerFound(data, offset, p.gap, p.fill, p.marker);
    PayloadPassed(data, offset + |head| - 1, p);
  }

  lemma SizeStands(data: seq<byte>, at: nat, h: Header)
    requires HeaderOk(h)
    requires Stands(data, at, SizeBytes(h))
    ensures at + 7 + |h.components| <= |data| && U16(data, at) == |h.components| + 7
    ensures U16(data, at + 3) == h.height && U16(data, at + 5) == h.width
  {
    var fromWidth := U16Bytes(h.width) + h.components;
    var fromHeight := U16Bytes(h.height) + fromWidth;
    StandsBoth(data, at, U16Bytes(|h.components| + 7), [h.precision] + fromHeight);
    StandsBoth(data, at + 2, [h.precision], fromHeight);
    StandsBoth(data, at + 3, U16Bytes(h.height), fromWidth);
    StandsBoth(data, at + 5, U16Bytes(h.width), h.components);
    NumberStands(data, at, |h.components| + 7);
    NumberStands(data, at + 3, h.height);
    NumberStands(data, at + 5, h.width);
  }

  lemma SizeRead(data: seq<byte>, at: nat, h: Header)
    requires HeaderOk(h) && at < |data| && data[at] == h.marker && at + 8 + |h.components| <= |data|
    requires U16(data, at + 1) == |h.components| + 7
    requires U16(data, at + 4) == h.height && U16(data, at + 6) == h.width
    ensures AfterMarker(data, at) == Size(h.width, h.height)
  {
  }

  lemma HeaderStands(data: seq<byte>, offset: nat, h: Header) returns (at: nat)
    requires HeaderOk(h) && Stands(data, offset, HeaderBytes(h))
    ensures at == offset + |h.gap| + h.fill + 1
    ensures Stands(data, offset, Head(h.gap, h.fill, h.marker)) && Stands(data, at + 1, SizeBytes(h))
  {
    StandsBoth(data, offset, Head(h.gap, h.fill, h.marker), SizeBytes(h));
    at := offset + |h.gap| + h.fill + 1;
  }

  lemma HeaderNext(data: seq<byte>, offset: nat, h: Header)
    requires HeaderOk(h) && Stands(data, offset, HeaderBytes(h))
    ensures NextMarker(data, offset) == Size(h.width, h.height)
  {
    var at := HeaderStands(data, offset, h);
    assert AfterMarker(data, at) == Size(h.width, h.height) by {
      MarkerFound(data, offset, h.gap, h.fill, h.marker);
      SizeStands(data, at + 1, h);
      SizeRead(data, at, h);
    }
    MarkerFound(data, offset, h.gap, h.fill, h.marker);
  }

  lemma WalkOn(data: seq<byte>, offset: nat, next: nat)
    requires offset + 4 <= |data| && NextMarker(data, offset) == Onward(next)
    ensures Walk(data, offset) == Walk(data, next)
  {
  }

  lemma WalkEnds(data: seq<byte>, offset: nat, width: nat, height: nat)
    requires offset + 4 <= |data| && NextMarker(data, offset) == Size(width, height)
    ensures Walk(data, offset) == Some((width, height))
  {
  }

  lemma HeaderRead(data: seq<byte>, offset: nat, h: Header)
    requires HeaderOk(h) && Stands(data, offset, HeaderBytes(h))
    ensures Walk(data, offset) == Some((h.width, h.height))
  {
    assert |HeaderBytes(h)| >= 9;
    HeaderNext(data, offset, h);
    WalkEnds(data, offset, h.width, h.height);
  }

  lemma Regroup(a: seq<byte>, b: seq<byte>, c: seq<byte>)
    ensures (a + b) + c == a + (b + c)
  {
  }

  lemma PieceFirst(data: seq<byte>, offset: nat, pieces: seq<Piece>, h: Header)
    requires HeaderOk(h) && pieces != [] && forall i :: 0 <= i < |pieces| ==> PieceOk(pieces[i])
    requires Stands(data, offset, PiecesBytes(pieces) + HeaderBytes(h))
    ensures Stands(data, offset, PieceBytes(pieces[0]))
    ensures Stands(data, offset + |PieceBytes(pieces[0])|, PiecesBytes(pieces[1..]) + HeaderBytes(h))
  {
    Regroup(PieceBytes(pieces[0]), PiecesBytes(pieces[1..]), HeaderBytes(h));
    StandsBoth(data, offset, PieceBytes(pieces[0]), PiecesBytes(pieces[1..]) + HeaderBytes(h));
  }

  lemma RoomForHeader(data: seq<byte>, next: nat, bytes: seq<byte>, h: Header)
    requires HeaderOk(h) && Stands(data, next, bytes + HeaderBytes(h))
    ensures next + 9 <= |data|
  {
    assert |HeaderBytes(h)| >= 9;
  }

  lemma FirstPiecePassed(data: seq<byte>, offset: nat, pieces: seq<Piece>, h: Header) returns (next: nat)
    requires HeaderOk(h) && pieces != [] && forall i :: 0 <= i < |pieces| ==> PieceOk(pieces[i])
    requires Stands(data, offset, PiecesBytes(pieces) + HeaderBytes(h))
    ensures next == offset + |PieceBytes(pieces[0])| <= |data| && NextMarker(data, offset) == Onward(next)
    ensures offset + 4 <= |data| && Stands(data, next, PiecesBytes(pieces[1..]) + HeaderBytes(h))
  {
    next := offset + |PieceBytes(pieces[0])|;
    PieceFirst(data, offset, pieces, h);
    RoomForHeader(data, next, PiecesBytes(pieces[1..]), h);
    PieceNext(data, offset, pieces[0]);
  }

  lemma PiecesStand(data: seq<byte>, offset: nat, pieces: seq<Piece>, h: Header) returns (next: nat)
    requires HeaderOk(h) && pieces != [] && forall i :: 0 <= i < |pieces| ==> PieceOk(pieces[i])
    requires Stands(data, offset, PiecesBytes(pieces) + HeaderBytes(h))
    ensures offset <= next <= |data| && Walk(data, offset) == Walk(data, next)
    ensures Stands(data, next, PiecesBytes(pieces[1..]) + HeaderBytes(h))
  {
    next := FirstPiecePassed(data, offset, pieces, h);
    WalkOn(data, offset, next);
  }

  lemma {:induction false} WrittenIsRead(data: seq<byte>, offset: nat, pieces: seq<Piece>, h: Header)
    requires HeaderOk(h) && forall i :: 0 <= i < |pieces| ==> PieceOk(pieces[i])
    requires Stands(data, offset, PiecesBytes(pieces) + HeaderBytes(h))
    ensures Walk(data, offset) == Some((h.width, h.height))
    decreases |pieces|
  {
    if pieces == [] {
      assert PiecesBytes(pieces) + HeaderBytes(h) == HeaderBytes(h);
      HeaderRead(data, offset, h);
    } else {
      var next := PiecesStand(data, offset, pieces, h);
      WrittenIsRead(data, next, pieces[1..], h);
    }
  }

  /** Any well-formed pieces, with fill bytes, before a frame header of positive size are
      passed over, and exactly that size is read. */
  lemma HeaderRoundTrip(pieces: seq<Piece>, h: Header, rest: seq<byte>)
    requires HeaderOk(h) && forall i :: 0 <= i < |pieces| ==> PieceOk(pieces[i])
    ensures Dimensions(ImageBytes(pieces, h, rest)) == Some((h.width, h.height))
  {
    var data := ImageBytes(pieces, h, rest);
    var body := PiecesBytes(pieces) + HeaderBytes(h);
    assert data == [ESCAPE, SOI] + body + rest;
    assert data[2..2 + |body|] == body;
    WrittenIsRead(data, 2, pieces, h);
  }

  // ----- Whatever was read stands there -----

  lemma NumberWritten(data: seq<byte>, at: nat)
    requires at + 2 <= |data|
    ensures U16(data, at) <= 0xFFFF && U16Bytes(U16(data, at)) == data[at..at + 2]
  {
    var n := U16(data, at);
    assert n / 256 == data[at] && n % 256 == data[at + 1];
  }

  lemma MarkerWritten(data: seq<byte>, offset: nat) returns (at: nat, gap: seq<byte>, fill: nat)
    requires offset <= |data| && !NextMarker(data, offset).Over?
    ensures offset <= at < |data| && data[at] != ESCAPE && NextMarker(data, offset) == AfterMarker(data, at)
    ensures Plain(gap) && data[offset..at + 1] == Head(gap, fill, data[at])
  {
    var start := FindEscape(data, offset);
    at := SkipEscapes(data, start + 1);
    gap, fill := data[offset..start], at - start - 1;
    EscapeIsFirst(data, offset);
    OnlyEscapesSkipped(data, start + 1);
    assert forall k :: start <= k < at ==> data[k] == ESCAPE;
    assert data[start..at] == Escapes(fill + 1);
    assert data[offset..at + 1] == gap + data[start..at] + [data[at]];
  }

  lemma SlicesJoin(data: seq<byte>, lo: nat, mid: nat, hi: nat)
    requires lo <= mid <= hi <= |data|
    ensures data[lo..hi] == data[lo..mid] + data[mid..hi]
  {
  }

  lemma PayloadWritten(data: seq<byte>, at: nat, next: nat)
    requires at < |data| && AfterMarker(data, at) == Onward(next)
    ensures if Bare(data[at]) then next == at + 1 else
      at + 3 <= next <= |data| && next - at - 1 <= 0xFFFF
      && data[at + 1..next] == U16Bytes(next - at - 1) + data[at + 3..next]
    ensures !Ends(data[at]) && data[at] !in FRAME_MARKERS
  {
    if !Bare(data[at]) {
      NumberWritten(data, at + 1);
      SlicesJoin(data, at + 1, at + 3, next);
    }
  }

  lemma PieceWritten(data: seq<byte>, offset: nat, next: nat) returns (p: Piece)
    requires offset <= |data| && NextMarker(data, offset) == Onward(next)
    ensures PieceOk(p) && data[offset..next] == PieceBytes(p)
  {
    var at, gap, fill := MarkerWritten(data, offset);
    PayloadWritten(data, at, next);
    p := PieceFrom(data, offset, at, next, gap, fill);
  }

  lemma PieceFrom(data: seq<byte>, offset: nat, at: nat, next: nat, gap: seq<byte>, fill: nat) returns (p: Piece)
    requires offset <= at < next <= |data| && Plain(gap) && data[at] != ESCAPE
    requires !Ends(data[at]) && data[at] !in FRAME_MARKERS
    requires data[offset..at + 1] == Head(gap, fill, data[at])
    requires if Bare(data[at]) then next == at + 1 else
      at + 3 <= next && next - at - 1 <= 0xFFFF && data[at + 1..next] == U16Bytes(next - at - 1) + data[at + 3..next]
    ensures PieceOk(p) && data[offset..next] == PieceBytes(p)
  {
    p := Piece(gap, fill, data[at], if Bare(data[at]) then [] else data[at + 3..next]);
    SlicesJoin(data, offset, at + 1, next);
  }

  lemma SizeWritten(data: seq<byte>, at: nat, width: nat, height: nat) returns (end: nat)
    requires at < |data| && AfterMarker(data, at) == Size(width, height)
    ensures data[at] in FRAME_MARKERS && at + 8 <= end <= |data| && end - at - 1 <= 0xFFFF
    ensures 0 < width <= 0xFFFF && 0 < height <= 0xFFFF
    ensures U16Bytes(end - at - 1) == data[at + 1..at + 3]
    ensures U16Bytes(height) == data[at + 4..at + 6] && U16Bytes(width) == data[at + 6..at + 8]
  {
    end := at + 1 + U16(data, at + 1);
    NumberWritten(data, at + 1);
    NumberWritten(data, at + 4);
    NumberWritten(data, at + 6);
  }

  lemma HeaderFrom(data: seq<byte>, offset: nat, at: nat, end: nat, h: Header)
    requires offset <= at && at + 8 <= end <= |data| && HeaderOk(h)
    requires data[offset..at + 1] == Head(h.gap, h.fill, h.marker)
    requires h.components == data[at + 8..end] && h.precision == data[at + 3]
    requires U16Bytes(|h.components| + 7) == data[at + 1..at + 3]
    requires U16Bytes(h.height) == data[at + 4..at + 6] && U16Bytes(h.width) == data[at + 6..at + 8]
    ensures data[offset..end] == HeaderBytes(h)
  {
    SlicesJoin(data, offset, at + 1, at + 3);
    SlicesJoin(data, offset, at + 3, at + 4);
    SlicesJoin(data, offset, at + 4, at + 6);
    SlicesJoin(data, offset, at + 6, at + 8);
    SlicesJoin(data, offset, at + 8, end);
    assert data[at + 3..at + 4] == [h.precision];
  }

  lemma HeaderWritten(data: seq<byte>, offset: nat, width: nat, height: nat) returns (h: Header, end: nat)
    requires offset <= |data| && NextMarker(data, offset) == Size(width, height)
    ensures HeaderOk(h) && offset <= end <= |data| && data[offset..end] == HeaderBytes(h)
    ensures h.width == width && h.height == height
  {
    var at, gap, fill := MarkerWritten(data, offset);
    end := SizeWritten(data, at, width, height);
    h := Header(gap, fill, data[at], data[at + 3], height, width, data[at + 8..end]);
    HeaderFrom(data, offset, at, end, h);
  }

  ghost predicate WrittenFrom(data: seq<byte>, offset: nat, pieces: seq<Piece>, h: Header, rest: seq<byte>)
    requires offset <= |data|
  {
    && HeaderOk(h) && (forall i :: 0 <= i < |pieces| ==> PieceOk(pieces[i]))
    && data[offset..] == PiecesBytes(pieces) + HeaderBytes(h) + rest
  }

  lemma OnePieceMore(data: seq<byte>, offset: nat, next: nat, p: Piece, others: seq<Piece>, h: Header, rest: seq<byte>)
    requires offset <= next <= |data| && PieceOk(p) && data[offset..next] == PieceBytes(p)
    requires WrittenFrom(data, next, others, h, rest)
    ensures WrittenFrom(data, offset, [p] + others, h, rest)
  {
    var pieces := [p] + others;
    assert pieces[1..] == others;
    SlicesJoin(data, offset, next, |data|);
    assert data[offset..] == data[offset..|data|] && data[next..] == data[next..|data|];
  }

  lemma {:induction false} ReadWasWritten(data: seq<byte>, offset: nat, width: nat, height: nat)
      returns (pieces: seq<Piece>, h: Header, rest: seq<byte>)
    requires offset <= |data| && Walk(data, offset) == Some((width, height))
    ensures WrittenFrom(data, offset, pieces, h, rest) && h.width == width && h.height == height
    decreases |data| - offset
  {
    var found := NextMarker(data, offset);
    if found.Size? {
      var end;
      h, end := HeaderWritten(data, offset, width, height);
      pieces, rest := [], data[end..];
      SlicesJoin(data, offset, end, |data|);
      assert data[offset..] == data[offset..|data|] && rest == data[end..|data|];
    } else {
      var p := PieceWritten(data, offset, found.next);
      var others;
      others, h, rest := ReadWasWritten(data, found.next, width, height);
      OnePieceMore(data, offset, found.next, p, others, h, rest);
      pieces := [p] + others;
    }
  }

  ghost predicate IsImage(data: seq<byte>, width: nat, height: nat) {
    exists pieces: seq<Piece>, h: Header, rest: seq<byte> ::
      |data| >= 2 && MarkerAt(data, 0, SOI) && WrittenFrom(data, 2, pieces, h, rest)
      && h.width == width && h.height == height
  }

  lemma WrittenIsImage(data: seq<byte>, pieces: seq<Piece>, h: Header, rest: seq<byte>)
    requires |data| >= 2 && MarkerAt(data, 0, SOI) && WrittenFrom(data, 2, pieces, h, rest)
    ensures data == ImageBytes(pieces, h, rest)
  {
    assert data == [ESCAPE, SOI] + data[2..];
  }

  /** A size is reported exactly for data of that shape: a start marker, well-formed
      pieces, a frame header of that size, and anything after it. */
  lemma DimensionsExactly(data: seq<byte>, width: nat, height: nat)
    ensures Dimensions(data) == Some((width, height)) <==> IsImage(data, width, height)
  {
    if Dimensions(data) == Some((width, height)) {
      var pieces, h, rest := ReadWasWritten(data, 2, width, height);
    }
    if IsImage(data, width, height) {
      var pieces: seq<Piece>, h: Header, rest: seq<byte> :|
        WrittenFrom(data, 2, pieces, h, rest) && h.width == width && h.height == height;
      WrittenIsImage(data, pieces, h, rest);
      HeaderRoundTrip(pieces, h, rest);
    }
  }
}
