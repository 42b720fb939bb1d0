/**
 Bodies read from a connection (src/libgrace/http.cpp): the chunked coding of section 3.6.1 of
 RFC 2616, and bodies of a given length.
 */
module Streams {
  import opened Text
  import opened Wrappers

  /** What is still to come, whether the end was noticed, and how much room each read finds in
      the connection's buffer, which decides how large a piece it returns. */
  datatype Stream = Stream(rest: string, eof: bool, rooms: seq<nat>)

  const LINE := 1024

  /** A line and what comes after it: without the newline and one carriage return before it. */
  function CutLine(s: string): (r: (string, string))
    ensures |r.1| <= |s| && (s != "" ==> |r.1| < |s|)
  {
    var p := IndexOf(s, '\n');
    var n := if p < |s| && p > 0 && s[p - 1] == '\r' then p - 1 else p;
    if n >= LINE && (p < |s| || n > LINE) then (s[..LINE], s[LINE..])
    else if p < |s| then (s[..n], s[p + 1..])
    else (s, "")
  }

  /** gets; None when the end was noticed before. */
  function Gets(s: Stream): (r: Option<(string, Stream)>)
    ensures r.Some? ==> |r.value.1.rest| <= |s.rest| && (s.rest != "" ==> |r.value.1.rest| < |s.rest|)
    ensures r.Some? && s.rest == "" ==> r.value.1.eof
  {
    if s.eof then None
    else Some((CutLine(s.rest).0, Stream(CutLine(s.rest).1, IndexOf(s.rest, '\n') == |s.rest|, s.rooms)))
  }

  /** Whatever a line is: it has no newline and no more bytes than the limit; nothing but one
      line end goes between it and what comes after it, and one does unless the line is as long
      as the limit or the last. */
  lemma LinesAreCut(s: string)
    ensures var (line, after) := CutLine(s);
      && '\n' !in line && |line| <= LINE
      && (s == line + after || s == line + "\n" + after || s == line + "\r\n" + after)
      && (s == line + after ==> |line| == LINE || after == "")
      && (s == line + "\n" + after ==> line == "" || line[|line| - 1] != '\r')
  {
    var p := IndexOf(s, '\n');
    var n := if p < |s| && p > 0 && s[p - 1] == '\r' then p - 1 else p;
    assert '\n' !in s[..p] && s[..n] <= s[..p];
    if n >= LINE { assert s[..LINE] <= s[..p] && s == s[..LINE] + s[LINE..]; }
    if p < |s| {
      assert s == s[..p] + "\n" + s[p + 1..];
      if n < p { assert s[..p] == s[..n] + "\r"; }
    }
  }

  /** The room that the next read finds, and what is known of the reads after it. */
  function Room(rooms: seq<nat>): (n: nat)
    ensures n > 0
  {
    if rooms == [] || rooms[0] == 0 then 1 else rooms[0]
  }

  function Later(rooms: seq<nat>): seq<nat> {
    if rooms == [] then [] else rooms[1..]
  }

  /** read (n); None when there is nothing and the end was noticed before. */
  function Read(s: Stream, n: nat): (r: Option<(string, Stream)>)
    ensures r.Some? ==> s.rest == r.value.0 + r.value.1.rest && |r.value.0| <= n
    ensures r.Some? && s.rest != "" && n > 0 ==> r.value.0 != ""
    ensures r.Some? && s.rest == "" && n > 0 ==> r.value.1.eof
  {
    if s.eof && s.rest == "" then None
    else
      var asked := if n < Room(s.rooms) then n else Room(s.rooms);
      var k := if asked <= |s.rest| then asked else |s.rest|;
      Some((s.rest[..k], Stream(s.rest[k..], s.eof || k < asked, Later(s.rooms))))
  }
}

/** What a body comes to, and when that is all of it. */
module Bodies {
  import opened Wrappers
  import opened Streams
  import opened Text
  import opened Numbers

  /** defaults::lim::httpd::chunksize */
  const CHUNK_SIZE := 512 * 1024

  /** The conversion of a long to an int of 32 bits. */
  function Int32(n: int): int {
    var m := n % 0x1_0000_0000;
    if m < 0x8000_0000 then m else m - 0x1_0000_0000
  }

  /** string::toint (16) */
  function ToInt16(s: string): int {
    Int32(StrToL(s, 16))
  }

  /** How reading ends: with everything, with an empty read, with an exception at the end of
      the stream, or with a chunk that is too large. */
  datatype Status = Complete | Broken | HungUp | TooLarge

  /** todo bytes, in reads of at most most. */
  function ReadPieces(s: Stream, todo: nat, most: nat): (r: (string, Stream, Status))
    requires most > 0
    ensures |r.1.rest| <= |s.rest| && (s.eof ==> r.1.eof) && r.2 != TooLarge
    ensures r.2 == Complete ==> |r.1.rest| == |s.rest| - todo
    decreases todo
  {
    if todo == 0 then ("", s, Complete)
    else
      match Read(s, if todo < most then todo else most)
      case None => ("", s, HungUp)
      case Some((piece, t)) =>
        if piece == "" then ("", t, Broken)
        else
          var (data, u, status) := ReadPieces(t, todo - |piece|, most);
          (piece + data, u, status)
  }

  /** The data of one chunk, and a body of a given length. */
  function ReadChunk(s: Stream, n: nat): (string, Stream, Status)
    requires n > 0
  {
    ReadPieces(s, n, n)
  }

  function ReadData(s: Stream, n: nat): (string, Stream, Status) {
    ReadPieces(s, n, 4096)
  }

  /** However the stream is cut: the pieces are complete exactly when the stream has as much,
      and else they are all that it has. */
  lemma {:induction false} PiecesMakeTheBody(s: Stream, todo: nat, most: nat)
    requires most > 0
    ensures var (data, t, status) := ReadPieces(s, todo, most);
      && (status == Complete <==> todo <= |s.rest|)
      && data + t.rest == s.rest
      && if status == Complete then |data| == todo && t.eof == s.eof else t.rest == ""
    decreases todo
  {
    hide Read;
    if todo > 0 {
      var n := if todo < most then todo else most;
      var r := Read(s, n);
      ReadCases(s, n);
      if r.Some? && r.value.0 != "" {
        var (piece, t) := r.value;
        PiecesMakeTheBody(t, todo - |piece|, most);
        JoinPieces(piece, ReadPieces(t, todo - |piece|, most).0, ReadPieces(t, todo - |piece|, most).1.rest, t.rest, s.rest);
      }
    }
  }

  lemma ReadCases(s: Stream, n: nat)
    requires n > 0
    ensures var r := Read(s, n);
      && (r == None || r.value.0 == "" ==> s.rest == "")
      && (r.Some? ==> s.rest == r.value.0 + r.value.1.rest && |s.rest| == |r.value.0| + |r.value.1.rest|)
      && (r.Some? && n <= |s.rest| ==> r.value.1.eof == s.eof)
  {
  }

  lemma JoinPieces(a: string, b: string, c: string, bc: string, abc: string)
    requires b + c == bc && a + bc == abc
    ensures (a + b) + c == abc
  {
  }

  function Measure(s: Stream): nat {
    |s.rest| + if s.eof then 0 else 1
  }

  /** One round of the loop of getChunked: a size, the data, and the line end after it. */
  function ReadRound(s: Stream): (r: (string, Stream, Option<Status>))
    ensures r.2 == None ==> Measure(r.1) < Measure(s)
  {
    match Gets(s)
    case None => ("", s, Some(HungUp))
    case Some((line, t)) =>
      var n := ToInt16(line);
      if n > CHUNK_SIZE then ("", t, Some(TooLarge))
      else if n <= 0 then ("", t, Some(Complete))
      else
        var (data, u, status) := ReadChunk(t, n);
        if status != Complete then (data, u, Some(status))
        else
          match Gets(u)
          case None => (data, u, Some(HungUp))
          case Some((_, v)) => (data, v, None)
  }

  /** The loop of getChunked. */
  function ReadChunks(s: Stream): (r: (string, Stream, Status))
    decreases Measure(s)
  {
    var (data, t, end) := ReadRound(s);
    match end
    case Some(status) => (data, t, status)
    case None =>
      var (more, u, status) := ReadChunks(t);
      (data + more, u, status)
  }

  /** A chunk as it is sent: its size in any spelling, an extension, and the data. */
  datatype Chunk = Chunk(size: string, ext: string, data: string)

  predicate SizeLine(size: string, ext: string, n: nat) {
    && size != "" && AllDigits(size, 16) && Value(size, 16) == n
    && (ext == "" || ext[0] == ';' || ext[0] == ' ') && '\n' !in ext && |size + ext| < LINE
  }

  predicate Sendable(c: Chunk) {
    0 < |c.data| <= CHUNK_SIZE && SizeLine(c.size, c.ext, |c.data|)
  }

  function Wire(c: Chunk): string {
    c.size + c.ext + "\r\n" + c.data + "\r\n"
  }

  function WireAll(chunks: seq<Chunk>): string {
    if chunks == [] then "" else Wire(chunks[0]) + WireAll(chunks[1..])
  }

  function Data(chunks: seq<Chunk>): string {
    if chunks == [] then "" else chunks[0].data + Data(chunks[1..])
  }

  lemma {:induction false} NewlineAfter(x: string, tail: string)
    requires '\n' !in x
    ensures IndexOf(x + "\r\n" + tail, '\n') == |x| + 1
  {
    FirstIndex(x + "\r", '\n', tail);
    assert x + "\r\n" + tail == x + "\r" + ['\n'] + tail;
  }

  lemma LineIsCut(x: string, tail: string, rooms: seq<nat>)
    requires '\n' !in x && |x| < LINE
    ensures Gets(Stream(x + "\r\n" + tail, false, rooms)) == Some((x, Stream(tail, false, rooms)))
  {
    NewlineAfter(x, tail);
    var s := x + "\r\n" + tail;
    assert s[..|x|] == x && s[|x| + 2..] == tail && s[|x|] == '\r';
  }

  lemma {:induction false} HexHasNoNewline(s: string)
    requires AllDigits(s, 16)
    ensures '\n' !in s
  {
    assert Digit('\n') == 16;
  }

  lemma SizeLineIsRead(size: string, ext: string, n: nat, tail: string, rooms: seq<nat>)
    requires SizeLine(size, ext, n) && n <= CHUNK_SIZE
    ensures Gets(Stream(size + ext + "\r\n" + tail, false, rooms)) == Some((size + ext, Stream(tail, false, rooms)))
    ensures ToInt16(size + ext) == n
  {
    HexHasNoNewline(size);
    LineIsCut(size + ext, tail, rooms);
    DigitsAreRead(size, ext, 16);
  }

  /** What is known of later reads once n bytes were read as they come. */
  function RoomsAfter(n: nat, rooms: seq<nat>): seq<nat> {
    if n == 0 then rooms
    else if n <= Room(rooms) then Later(rooms)
    else RoomsAfter(n - Room(rooms), Later(rooms))
  }

  lemma {:induction false} PiecesUseRooms(s: Stream, todo: nat, most: nat)
    requires most > 0 && todo <= |s.rest| && todo <= most
    ensures ReadPieces(s, todo, most).1.rooms == RoomsAfter(todo, s.rooms)
    decreases todo
  {
    hide Read, Room, Later;
    if todo > 0 {
      ReadUsesRoom(s, todo);
      var (piece, t) := Read(s, todo).value;
      PiecesUseRooms(t, todo - |piece|, most);
    }
  }

  lemma ReadUsesRoom(s: Stream, n: nat)
    requires 0 < n <= |s.rest|
    ensures var r, m := Read(s, n), if n < Room(s.rooms) then n else Room(s.rooms);
      r.Some? && |r.value.0| == m && |r.value.1.rest| == |s.rest| - m && r.value.1.rooms == Later(s.rooms)
  {
  }

  lemma {:induction false} ChunkData(data: string, more: string, rooms: seq<nat>)
    requires data != ""
    ensures ReadChunk(Stream(data + more, false, rooms), |data|) == (data, Stream(more, false, RoomsAfter(|data|, rooms)), Complete)
  {
    PiecesMakeTheBody(Stream(data + more, false, rooms), |data|, |data|);
    PiecesUseRooms(Stream(data + more, false, rooms), |data|, |data|);
    var (d, t, _) := ReadChunk(Stream(data + more, false, rooms), |data|);
    assert (d + t.rest)[..|data|] == d && (data + more)[..|data|] == data;
    assert (d + t.rest)[|data|..] == t.rest && (data + more)[|data|..] == more;
  }

  lemma WireInParts(c: Chunk, tail: string)
    ensures Wire(c) + tail == c.size + c.ext + "\r\n" + (c.data + ("" + "\r\n" + tail))
  {
  }

  lemma {:induction false} OneChunk(c: Chunk, tail: string, rooms: seq<nat>)
    requires Sendable(c)
    ensures var (more, end, status) := ReadChunks(Stream(tail, false, RoomsAfter(|c.data|, rooms)));
      ReadChunks(Stream(Wire(c) + tail, false, rooms)) == (c.data + more, end, status)
  {
    WireInParts(c, tail);
    var after := "" + "\r\n" + tail;
    var left := RoomsAfter(|c.data|, rooms);
    SizeLineIsRead(c.size, c.ext, |c.data|, c.data + after, rooms);
    ChunkData(c.data, after, rooms);
    LineIsCut("", tail, left);
    hide Gets, ToInt16, Wire, SizeLine;
    assert ReadRound(Stream(Wire(c) + tail, false, rooms)) == (c.data, Stream(tail, false, left), None);
  }

  function RoomsAfterAll(chunks: seq<Chunk>, rooms: seq<nat>): seq<nat>
    decreases |chunks|
  {
    if chunks == [] then rooms else RoomsAfterAll(chunks[1..], RoomsAfter(|chunks[0].data|, rooms))
  }

  /** Whole chunks are joined, however the stream is cut, and the reading goes on behind them. */
  lemma {:induction false} WholeChunksAreRead(chunks: seq<Chunk>, tail: string, rooms: seq<nat>)
    requires forall c <- chunks :: Sendable(c)
    ensures var (more, end, status) := ReadChunks(Stream(tail, false, RoomsAfterAll(chunks, rooms)));
      ReadChunks(Stream(WireAll(chunks) + tail, false, rooms)) == (Data(chunks) + more, end, status)
    decreases |chunks|
  {
    hide Sendable, Wire;
    if chunks == [] {
      assert WireAll(chunks) + tail == tail;
      assert Data(chunks) + ReadChunks(Stream(tail, false, rooms)).0 == ReadChunks(Stream(tail, false, rooms)).0;
    } else {
      var left := RoomsAfter(|chunks[0].data|, rooms);
      assert WireAll(chunks) + tail == Wire(chunks[0]) + (WireAll(chunks[1..]) + tail);
      OneChunk(chunks[0], WireAll(chunks[1..]) + tail, rooms);
      WholeChunksAreRead(chunks[1..], tail, left);
      var more := ReadChunks(Stream(tail, false, RoomsAfterAll(chunks[1..], left))).0;
      assert chunks[0].data + (Data(chunks[1..]) + more) == Data(chunks) + more;
    }
  }

  /** Chunks of any sizes, cut in any way by the stream, are put together again, and what
      follows the line of the last chunk is left alone. */
  lemma {:induction false} ChunksArePutTogether(chunks: seq<Chunk>, zeros: string, ext: string, tail: string, rooms: seq<nat>)
    requires (forall c <- chunks :: Sendable(c)) && SizeLine(zeros, ext, 0)
    ensures var (data, end, status) := ReadChunks(Stream(WireAll(chunks) + (zeros + ext + "\r\n" + tail), false, rooms));
      data == Data(chunks) && end.rest == tail && !end.eof && status == Complete
  {
    hide Sendable, Gets, ToInt16;
    WholeChunksAreRead(chunks, zeros + ext + "\r\n" + tail, rooms);
    SizeLineIsRead(zeros, ext, 0, tail, RoomsAfterAll(chunks, rooms));
  }

  /** getChunked counts a stream that was hung up as a body. */
  predicate Accepted(status: Status) {
    status == Complete || status == HungUp
  }

  /** The reads to come, of at most most bytes, take left bytes without one being short. */
  predicate EndsOnARead(left: nat, rooms: seq<nat>, most: nat)
    requires most > 0
  {
    var n := if most < Room(rooms) then most else Room(rooms);
    left == 0 || (n <= left && EndsOnARead(left - n, Later(rooms), most))
  }

  /** A stream that ends too early is taken for broken if its end was not noticed by a short
      read, and else for hung up. */
  lemma {:induction false} TruncatedPieces(s: Stream, todo: nat, most: nat)
    requires most > 0 && |s.rest| < todo
    ensures ReadPieces(s, todo, most).2 == if !s.eof && EndsOnARead(|s.rest|, s.rooms, most) then Broken else HungUp
    decreases todo
  {
    hide Read, Room, Later;
    ReadsNearTheEnd(s, todo, most);
    if s.rest != "" {
      var (piece, t) := Read(s, if todo < most then todo else most).value;
      TruncatedPieces(t, todo - |piece|, most);
    }
  }

  lemma ReadsNearTheEnd(s: Stream, todo: nat, most: nat)
    requires most > 0 && |s.rest| < todo
    ensures var m, r := if most < Room(s.rooms) then most else Room(s.rooms), Read(s, if todo < most then todo else most);
      if s.rest == "" then (if s.eof then r == None else r.Some? && r.value.0 == "")
      else if m <= |s.rest| then r == Some((s.rest[..m], Stream(s.rest[m..], s.eof, Later(s.rooms))))
      else r == Some((s.rest, Stream("", true, Later(s.rooms))))
  {
    assert s.rest[..|s.rest|] == s.rest && s.rest[|s.rest|..] == "";
  }

  lemma {:induction false} DigitsOfPart(s: string, k: nat)
    requires k <= |s| && AllDigits(s, 16)
    ensures AllDigits(s[..k], 16) && Value(s[..k], 16) <= Value(s, 16)
    decreases |s|
  {
    if k < |s| {
      var front := s[..|s| - 1];
      assert front[..k] == s[..k] && AllDigits(front, 16);
      DigitsOfPart(front, k);
    } else {
      assert s[..k] == s;
    }
  }

  /** The first part of a size line is read as a size that is not larger. */
  lemma PartOfSizeLine(size: string, ext: string, n: nat, cut: nat)
    requires SizeLine(size, ext, n) && n <= CHUNK_SIZE && cut < |size + ext + "\r\n"|
    ensures 0 <= ToInt16((size + ext + "\r\n")[..cut]) <= n
  {
    hide ToInt16;
    var line := size + ext + "\r\n";
    if cut == 0 {
      assert line[..cut] == "" && ToInt16("") == 0 by { NoDigits(); }
    } else if cut < |size| {
      assert line[..cut] == size[..cut];
      PartOfDigits(size, n, cut);
    } else {
      var after := line[..cut][|size|..];
      assert line[..cut] == size + after && after <= ext + "\r";
      AllOfDigits(size, ext, n, after);
    }
  }

  lemma NoDigits()
    ensures ToInt16("") == 0
  {
  }

  lemma {:induction false} SmallSize(digits: string, after: string)
    requires digits != "" && AllDigits(digits, 16) && Value(digits, 16) <= CHUNK_SIZE
    requires after == "" || (Digit(after[0]) == 16 && after[0] != 'x' && after[0] != 'X')
    ensures ToInt16(digits + after) == Value(digits, 16)
  {
    DigitsAreRead(digits, after, 16);
  }

  lemma {:induction false} PartOfDigits(size: string, n: nat, cut: nat)
    requires AllDigits(size, 16) && Value(size, 16) == n <= CHUNK_SIZE && 0 < cut <= |size|
    ensures 0 <= ToInt16(size[..cut]) <= n
  {
    hide ToInt16, AllDigits;
    var digits := size[..cut];
    DigitsOfPart(size, cut);
    SmallSize(digits, "");
    assert digits + "" == digits;
  }

  lemma AllOfDigits(size: string, ext: string, n: nat, after: string)
    requires SizeLine(size, ext, n) && n <= CHUNK_SIZE && after <= ext + "\r"
    ensures ToInt16(size + after) == n
  {
    hide ToInt16;
    SmallSize(size, after);
  }

  /** A stream that ends before a line end is one line, and then ended. */
  lemma LastLine(x: string, rooms: seq<nat>)
    requires '\n' !in x && |x| <= LINE
    ensures Gets(Stream(x, false, rooms)) == Some((x, Stream("", true, rooms)))
  {
    assert IndexOf(x, '\n') == |x|;
  }

  /** What getChunked reads of a body, and whether it refuses that. */
  ghost predicate ReadsAs(body: string, rooms: seq<nat>, data: string, refused: bool) {
    var (d, _, status) := ReadChunks(Stream(body, false, rooms));
    d == data && status != TooLarge && (Accepted(status) <==> !refused)
  }

  lemma CutInSizeLine(size: string, ext: string, n: nat, cut: nat, rooms: seq<nat>)
    requires SizeLine(size, ext, n) && n <= CHUNK_SIZE && cut < |size + ext + "\r\n"|
    ensures ReadsAs((size + ext + "\r\n")[..cut], rooms, "", false)
  {
    var x := (size + ext + "\r\n")[..cut];
    PartOfSizeLine(size, ext, n, cut);
    HexHasNoNewline(size);
    assert x <= size + ext + "\r" && '\n' !in size + ext + "\r";
    LastLine(x, rooms);
    hide Gets, ToInt16, SizeLine;
    var m := ToInt16(x);
    if m > 0 {
      PiecesMakeTheBody(Stream("", true, rooms), m, m);
      TruncatedPieces(Stream("", true, rooms), m, m);
    }
  }

  lemma {:induction false} CutInData(size: string, ext: string, n: nat, part: string, rooms: seq<nat>)
    requires SizeLine(size, ext, n) && |part| < n <= CHUNK_SIZE
    ensures ReadsAs(size + ext + "\r\n" + part, rooms, part, EndsOnARead(|part|, rooms, n))
  {
    hide Gets, ToInt16, EndsOnARead;
    SizeLineIsRead(size, ext, n, part, rooms);
    PiecesMakeTheBody(Stream(part, false, rooms), n, n);
    TruncatedPieces(Stream(part, false, rooms), n, n);
    var (d, t, _) := ReadChunk(Stream(part, false, rooms), n);
    assert d + t.rest == d;
  }

  lemma CutInLineEnd(c: Chunk, x: string, rooms: seq<nat>)
    requires Sendable(c) && (x == "" || x == "\r")
    ensures ReadsAs(c.size + c.ext + "\r\n" + (c.data + x), rooms, c.data, false)
  {
    var left := RoomsAfter(|c.data|, rooms);
    SizeLineIsRead(c.size, c.ext, |c.data|, c.data + x, rooms);
    ChunkData(c.data, x, rooms);
    LastLine(x, left);
    hide Gets, ToInt16, SizeLine;
    var s := Stream(c.size + c.ext + "\r\n" + (c.data + x), false, rooms);
    assert ReadRound(s) == (c.data, Stream("", true, left), None);
    NothingAfterTheEnd(left);
    assert c.data + "" == c.data;
  }

  lemma NothingAfterTheEnd(rooms: seq<nat>)
    ensures ReadChunks(Stream("", true, rooms)) == ("", Stream("", true, rooms), HungUp)
  {
  }

  /** A body as it is sent. */
  function WireBody(chunks: seq<Chunk>, zeros: string, ext: string): string {
    WireAll(chunks) + (zeros + ext + "\r\n")
  }

  /** The data among the first cut bytes of the body. */
  function Arrived(chunks: seq<Chunk>, cut: nat): string
    decreases |chunks|
  {
    if chunks == [] then ""
    else
      var c := chunks[0];
      var head := |c.size + c.ext| + 2;
      if cut < head then ""
      else if cut < head + |c.data| then c.data[..cut - head]
      else c.data + Arrived(chunks[1..], if cut < |Wire(c)| then 0 else cut - |Wire(c)|)
  }

  lemma {:induction false} ArrivedIsFirstPart(chunks: seq<Chunk>, cut: nat)
    ensures Arrived(chunks, cut) <= Data(chunks)
  {
    if chunks != [] {
      ArrivedIsFirstPart(chunks[1..], if cut < |Wire(chunks[0])| then 0 else cut - |Wire(chunks[0])|);
    }
  }

  /** The body is cut off in the data of a chunk, and the reads of what there is of it find
      no more room than there are bytes left. */
  predicate CutOnARead(chunks: seq<Chunk>, cut: nat, rooms: seq<nat>)
    decreases |chunks|
  {
    chunks != [] &&
    var c := chunks[0];
    var head := |c.size + c.ext| + 2;
    if cut < head + |c.data| then head <= cut && EndsOnARead(cut - head, rooms, |c.data|)
    else |Wire(c)| <= cut && CutOnARead(chunks[1..], cut - |Wire(c)|, RoomsAfter(|c.data|, rooms))
  }

  /** The first cut bytes of a body end in its first chunk. */
  lemma CutInFirst(c: Chunk, tail: string, cut: nat, rooms: seq<nat>)
    requires Sendable(c) && cut < |Wire(c)|
    ensures var head := |c.size + c.ext| + 2;
      ReadsAs((Wire(c) + tail)[..cut], rooms,
              if cut < head then "" else if cut < head + |c.data| then c.data[..cut - head] else c.data,
              head <= cut < head + |c.data| && EndsOnARead(cut - head, rooms, |c.data|))
  {
    hide ReadsAs, Sendable, SizeLine, Wire;
    SendableIs(c);
    WireLength(c);
    SliceOfFirst(c, tail, cut);
    var head := |c.size + c.ext| + 2;
    if cut < head {
      CutInSizeLine(c.size, c.ext, |c.data|, cut, rooms);
    } else if cut < head + |c.data| {
      CutInData(c.size, c.ext, |c.data|, c.data[..cut - head], rooms);
    } else {
      CutInLineEnd(c, "\r"[..cut - head - |c.data|], rooms);
    }
  }

  lemma SliceOfFirst(c: Chunk, tail: string, cut: nat)
    requires cut < |Wire(c)|
    ensures var line, head, s := c.size + c.ext + "\r\n", |c.size + c.ext| + 2, (Wire(c) + tail)[..cut];
      s == if cut < head then line[..cut] else if cut < head + |c.data| then line + c.data[..cut - head]
           else line + (c.data + "\r"[..cut - head - |c.data|])
  {
    WireInParts(c, tail);
  }

  lemma SendableIs(c: Chunk)
    requires Sendable(c)
    ensures SizeLine(c.size, c.ext, |c.data|) && 0 < |c.data| <= CHUNK_SIZE
  {
  }

  lemma {:induction false} PlaceInFirst(chunks: seq<Chunk>, cut: nat, rooms: seq<nat>)
    requires chunks != [] && cut < |Wire(chunks[0])| && chunks[0].data != ""
    ensures var c := chunks[0];
      var head := |c.size + c.ext| + 2;
      && Arrived(chunks, cut) ==
        (if cut < head then "" else if cut < head + |c.data| then c.data[..cut - head] else c.data)
      && (CutOnARead(chunks, cut, rooms) <==>
        head <= cut < head + |c.data| && EndsOnARead(cut - head, rooms, |c.data|))
  {
    NothingArrives(chunks[1..]);
  }

  /** Every first part of every body: it is reported as a whole body with the data that came,
      unless it ends behind a size line or in the data of a chunk, and no read that got any of
      that data found more room than there were bytes left. */
  lemma {:induction false} CutOffBodyPasses(chunks: seq<Chunk>, zeros: string, ext: string, cut: nat, rooms: seq<nat>)
    requires (forall c <- chunks :: Sendable(c)) && SizeLine(zeros, ext, 0) && cut <= |WireBody(chunks, zeros, ext)|
    ensures var (data, _, status) := ReadChunks(Stream(WireBody(chunks, zeros, ext)[..cut], false, rooms));
      && data == Arrived(chunks, cut) && status != TooLarge
      && (Accepted(status) <==> !CutOnARead(chunks, cut, rooms))
    decreases |chunks|
  {
    hide Sendable, SizeLine, Wire, EndsOnARead, Accepted;
    var all := WireBody(chunks, zeros, ext);
    if chunks == [] {
      CutInLastLine(zeros, ext, cut, rooms);
    } else {
      var c, rest := chunks[0], WireBody(chunks[1..], zeros, ext);
      assert all == Wire(c) + rest;
      WireLength(c);
      if cut < |Wire(c)| {
        CutInFirst(c, rest, cut, rooms);
        SendableIs(c);
        PlaceInFirst(chunks, cut, rooms);
      } else {
        var k := cut - |Wire(c)|;
        CutOffBodyPasses(chunks[1..], zeros, ext, k, RoomsAfter(|c.data|, rooms));
        CutBehindFirst(chunks, rest, cut, rooms);
      }
    }
  }

  lemma CutInLastLine(zeros: string, ext: string, cut: nat, rooms: seq<nat>)
    requires SizeLine(zeros, ext, 0) && cut <= |WireBody([], zeros, ext)|
    ensures ReadsAs(WireBody([], zeros, ext)[..cut], rooms, "", false)
  {
    hide SizeLine;
    var line := zeros + ext + "\r\n";
    assert WireBody([], zeros, ext) == line;
    if cut < |line| {
      CutInSizeLine(zeros, ext, 0, cut, rooms);
    } else {
      assert line[..cut] == WireAll([]) + (line + "");
      ChunksArePutTogether([], zeros, ext, "", rooms);
    }
  }

  /** The first cut bytes of a body go beyond its first chunk. */
  lemma CutBehindFirst(chunks: seq<Chunk>, rest: string, cut: nat, rooms: seq<nat>)
    requires chunks != [] && Sendable(chunks[0]) && |Wire(chunks[0])| <= cut <= |Wire(chunks[0]) + rest|
    ensures var c, k, left := chunks[0], cut - |Wire(chunks[0])|, RoomsAfter(|chunks[0].data|, rooms);
      var (more, end, status) := ReadChunks(Stream(rest[..k], false, left));
      && ReadChunks(Stream((Wire(c) + rest)[..cut], false, rooms)) == (c.data + more, end, status)
      && Arrived(chunks, cut) == c.data + Arrived(chunks[1..], k)
      && (CutOnARead(chunks, cut, rooms) <==> CutOnARead(chunks[1..], k, left))
  {
    hide Sendable, Wire;
    var c, k := chunks[0], cut - |Wire(chunks[0])|;
    assert (Wire(c) + rest)[..cut] == Wire(c) + rest[..k];
    OneChunk(c, rest[..k], rooms);
    FirstIsWhole(chunks, cut, rooms);
  }

  lemma FirstIsWhole(chunks: seq<Chunk>, cut: nat, rooms: seq<nat>)
    requires chunks != [] && |Wire(chunks[0])| <= cut
    ensures var c, k := chunks[0], cut - |Wire(chunks[0])|;
      && Arrived(chunks, cut) == c.data + Arrived(chunks[1..], k)
      && (CutOnARead(chunks, cut, rooms) <==> CutOnARead(chunks[1..], k, RoomsAfter(|c.data|, rooms)))
  {
    WireLength(chunks[0]);
    hide Wire;
  }

  lemma WireLength(c: Chunk)
    ensures |Wire(c)| == |c.size + c.ext| + 2 + |c.data| + 2
  {
  }

  lemma {:induction false} NothingArrives(chunks: seq<Chunk>)
    ensures Arrived(chunks, 0) == ""
  {
  }

  /** A chunk of more than the limit is refused, behind any whole chunks; sizes are taken modulo
      32 bits, so that one of more than 31 bits may be taken for the last chunk. */
  lemma {:induction false} LargeChunkIsRefused(chunks: seq<Chunk>, size: string, ext: string, n: nat, tail: string, rooms: seq<nat>)
    requires (forall c <- chunks :: Sendable(c)) && SizeLine(size, ext, n) && CHUNK_SIZE < n <= LONG_MAX
    ensures var (data, end, status) := ReadChunks(Stream(WireAll(chunks) + (size + ext + "\r\n" + tail), false, rooms));
      var m := n % 0x1_0000_0000;
      && (n < 0x8000_0000 ==> m == n)
      && (CHUNK_SIZE < m < 0x8000_0000 ==> status == TooLarge && !Accepted(status) && data == Data(chunks) && end.rest == tail)
      && (m == 0 || m >= 0x8000_0000 ==> status == Complete && data == Data(chunks) && end.rest == tail)
  {
    hide Sendable, Gets, ToInt16, SizeLine;
    var left := RoomsAfterAll(chunks, rooms);
    WholeChunksAreRead(chunks, size + ext + "\r\n" + tail, rooms);
    AnySizeIsRead(size, ext, n, tail, left);
  }

  lemma AnySizeIsRead(size: string, ext: string, n: nat, tail: string, rooms: seq<nat>)
    requires SizeLine(size, ext, n) && n <= LONG_MAX
    ensures Gets(Stream(size + ext + "\r\n" + tail, false, rooms)) == Some((size + ext, Stream(tail, false, rooms)))
    ensures var m := n % 0x1_0000_0000; ToInt16(size + ext) == if m < 0x8000_0000 then m else m - 0x1_0000_0000
  {
    HexHasNoNewline(size);
    LineIsCut(size + ext, tail, rooms);
    DigitsAreRead(size, ext, 16);
  }

  /** A body that ends between two chunks, without the last chunk, counts as complete. */
  lemma {:induction false} BodyWithoutLastChunkPasses(chunks: seq<Chunk>, rooms: seq<nat>)
    requires forall c <- chunks :: Sendable(c)
    ensures var (data, _, status) := ReadChunks(Stream(WireAll(chunks) + "", false, rooms)); data == Data(chunks) && status == Complete
  {
    WholeChunksAreRead(chunks, "", rooms);
    NoDigits();
    LastLine("", RoomsAfterAll(chunks, rooms));
  }

  /** getData without a length: until the exception at the end. */
  function ReadToEnd(s: Stream): (string, Stream)
    decreases Measure(s)
  {
    match Read(s, 4096)
    case None => ("", s)
    case Some((piece, t)) =>
      var (data, u) := ReadToEnd(t);
      (piece + data, u)
  }

  lemma {:induction false} EverythingIsRead(s: Stream)
    ensures ReadToEnd(s).0 == s.rest
    decreases Measure(s)
  {
    var r := Read(s, 4096);
    if r.Some? { EverythingIsRead(r.value.1); }
  }
}

/** The connection object. */
module HttpSockets {
  import opened Wrappers
  import opened Streams
  import opened Bodies

  datatype HttpError = NoError | BrokenPipe | Timeout

  class HttpSocket {
    var sock: Stream
    var connected: bool
    var errorcode: HttpError

    constructor (sock: Stream)
      ensures this.sock == sock && connected && errorcode == NoError
    {
      this.sock, connected, errorcode := sock, true, NoError;
    }

    /** gets and read; None stands for the exception. */
    method GetLine() returns (line: Option<string>)
      modifies this`sock
      ensures match Gets(old(sock)) case None => line == None && sock == old(sock) case Some((l, s)) => line == Some(l) && sock == s
    {
      var r := Gets(sock);
      if r == None { return None; }
      line, sock := Some(r.value.0), r.value.1;
    }

    method ReadSome(n: nat) returns (piece: Option<string>)
      modifies this`sock
      ensures match Read(old(sock), n) case None => piece == None && sock == old(sock) case Some((p, s)) => piece == Some(p) && sock == s
    {
      var r := Read(sock, n);
      if r == None { return None; }
      piece, sock := Some(r.value.0), r.value.1;
    }

    /** The inner loop of getChunked, and the loop of getData. */
    method GetPieces(into: string, n: nat, most: nat) returns (body: string, status: Status)
      requires most > 0
      modifies this`sock
      ensures var (data, s, end) := ReadPieces(old(sock), n, most); body == into + data && sock == s && status == end
    {
      hide Filled;
      body := into;
      var todo: nat := n;
      FilledIs(body, sock, n, most);
      while todo > 0
        invariant Filled(body, sock, todo, most) == Filled(into, old(sock), n, most)
      {
        FilledOnce(body, sock, todo, most);
        var piece := ReadSome(if todo < most then todo else most);
        if piece == None { return body, HungUp; }
        if piece.value == "" { return body, Broken; }
        body := body + piece.value;
        todo := todo - |piece.value|;
      }
      FilledWithNothing(body, sock, most);
      status := Complete;
    }

    /** An exception is taken for the end of the connection, unless there was an error. */
    method Hangup(error: bool)
      modifies this`connected, this`errorcode
      ensures !connected && errorcode == if error then old(errorcode) else BrokenPipe
    {
      connected := false;
      if !error { errorcode := BrokenPipe; }
    }

    /** One round of the loop of getChunked; None to go on. */
    method Round(into: string) returns (body: string, end: Option<Status>)
      modifies this`sock
      ensures var (data, s, last) := ReadRound(old(sock)); body == into + data && sock == s && end == last
    {
      body := into;
      var line := GetLine();
      if line == None { return body, Some(HungUp); }
      var chunksz := ToInt16(line.value);
      if chunksz > CHUNK_SIZE { return body, Some(TooLarge); }
      if chunksz <= 0 { return body, Some(Complete); }
      var status;
      body, status := GetPieces(body, chunksz, chunksz);
      if status != Complete { return body, Some(status); }
      line := GetLine();
      end := if line == None then Some(HungUp) else None;
    }

    /** getChunked, without a timeout. */
    method GetChunked(into: string) returns (body: string, ok: bool)
      modifies this
      ensures if !old(connected) then !ok && body == into && sock == old(sock) && !connected
        else
          var (data, s, status) := ReadChunks(old(sock));
          && body == into + data && sock == s && ok == Accepted(status)
          && connected == (status == Complete || status == Broken)
          && errorcode == (if status == Complete || status == TooLarge then NoError else BrokenPipe)
    {
      hide ReadRound, Measure, Joined;
      body, errorcode := into, NoError;
      if !connected { return body, false; }
      JoinedIs(into, sock);
      var end: Option<Status> := None;
      while end == None
        invariant connected && errorcode == NoError
        invariant Joined(into, old(sock)) == match end case None => Joined(body, sock) case Some(e) => (body, sock, e)
        decreases end == None, Measure(sock)
      {
        JoinedOnce(body, sock);
        body, end := Round(body);
      }
      ok := Accepted(end.value);
      if end.value == Broken { errorcode := BrokenPipe; }
      if end.value == HungUp || end.value == TooLarge { Hangup(end.value == TooLarge); }
    }

    /** getData, without a timeout; a length of 0 means up to the end of the connection. */
    method GetData(into: string, contentLength: nat) returns (body: string, ok: bool)
      modifies this
      ensures if !old(connected) then !ok && body == into && sock == old(sock)
        else if contentLength == 0 then ok && !connected && body == into + ReadToEnd(old(sock)).0 && sock == ReadToEnd(old(sock)).1
        else
          var (data, s, status) := ReadData(old(sock), contentLength);
          && body == into + data && sock == s && ok == (status == Complete) && connected == (status != HungUp)
          && errorcode == (if status == Complete then old(errorcode) else if status == Broken then Timeout else BrokenPipe)
    {
      body := into;
      if !connected { return body, false; }
      if contentLength == 0 {
        body := DrainInto(into);
        connected := false;
        return body, true;
      }
      var status;
      body, status := GetPieces(into, contentLength, 4096);
      if status == Broken { errorcode := Timeout; }
      if status == HungUp { connected, errorcode := false, BrokenPipe; }
      ok := status == Complete;
    }

    method DrainInto(into: string) returns (body: string)
      modifies this`sock
      ensures body == into + ReadToEnd(old(sock)).0 && sock == ReadToEnd(old(sock)).1
    {
      body := into;
      ghost var all := ReadToEnd(sock);
      var more := true;
      while more
        invariant if more then into + all.0 == body + ReadToEnd(sock).0 && ReadToEnd(sock).1 == all.1
          else body == into + all.0 && sock == all.1
        decreases more, Measure(sock)
      {
        var piece := ReadSome(4096);
        more := piece.Some?;
        if more {
          ghost var left := ReadToEnd(sock).0;
          assert body + (piece.value + left) == (body + piece.value) + left;
          body := body + piece.value;
        }
      }
    }
  }

  /** What body becomes with the chunks still to be read. */
  ghost function Joined(body: string, s: Stream): (string, Stream, Status) {
    var (data, t, status) := ReadChunks(s);
    (body + data, t, status)
  }

  lemma {:induction false} JoinedIs(body: string, s: Stream)
    ensures var (data, t, status) := ReadChunks(s); Joined(body, s) == (body + data, t, status)
  {
  }

  lemma JoinedOnce(body: string, s: Stream)
    ensures var (data, t, end) := ReadRound(s);
      Joined(body, s) == match end case Some(e) => (body + data, t, e) case None => Joined(body + data, t)
  {
    hide ReadRound;
    var (data, t, _) := ReadRound(s);
    var more := ReadChunks(t).0;
    assert body + (data + more) == (body + data) + more;
  }

  /** What body becomes with the pieces still to be read. */
  ghost function Filled(body: string, s: Stream, todo: nat, most: nat): (string, Stream, Status)
    requires most > 0
  {
    var (data, t, status) := ReadPieces(s, todo, most);
    (body + data, t, status)
  }

  lemma {:induction false} FilledIs(body: string, s: Stream, todo: nat, most: nat)
    requires most > 0
    ensures var (data, t, status) := ReadPieces(s, todo, most); Filled(body, s, todo, most) == (body + data, t, status)
  {
  }

  lemma FilledWithNothing(body: string, s: Stream, most: nat)
    requires most > 0
    ensures Filled(body, s, 0, most) == (body, s, Complete)
  {
    assert body + "" == body;
  }

  lemma FilledOnce(body: string, s: Stream, todo: nat, most: nat)
    requires most > 0 && todo > 0
    ensures Filled(body, s, todo, most) ==
      match Read(s, if todo < most then todo else most)
      case None => (body, s, HungUp)
      case Some((piece, t)) => if piece == "" then (body, t, Broken) else Filled(body + piece, t, todo - |piece|, most)
  {
    hide Read;
    assert body + "" == body;
    var r := Read(s, if todo < most then todo else most);
    if r.Some? && r.value.0 != "" {
      var left := ReadPieces(r.value.1, todo - |r.value.0|, most).0;
      assert body + (r.value.0 + left) == (body + r.value.0) + left;
    }
  }
}
