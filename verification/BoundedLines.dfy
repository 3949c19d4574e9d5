/** The bounded line splitter of the STDIO server. */
module BoundedLines {
  import opened Options
  import opened Utf8

  const MAX_RAW_LINE_BYTES: nat := 1_048_576
  const NEWLINE: nat := 10

  /** What the splitter yields: a line with its framing-error flag. */
  type Frame = (Text, bool)

  /** `readline` returns nonempty chunks whose only newline, if any, comes last. */
  ghost predicate IsChunk(chunk: Text) {
    chunk != [] && NEWLINE !in chunk[..|chunk| - 1]
  }

  function Join(pieces: seq<Text>): Text {
    if pieces == [] then [] else pieces[0] + Join(pieces[1..])
  }

  lemma {:induction false} JoinSnoc(pieces: seq<Text>, piece: Text)
    ensures Join(pieces + [piece]) == Join(pieces) + piece
  {
    if pieces == [] {
      assert Join([piece]) == piece + Join([]);
    } else {
      JoinSnoc(pieces[1..], piece);
      assert (pieces + [piece])[1..] == pieces[1..] + [piece];
    }
  }

  /** A line that is too long, or cannot be encoded at all, is over the limit. */
  predicate Over(line: Text) {
    var bytes := ByteLength(line);
    bytes.None? || bytes.value > MAX_RAW_LINE_BYTES
  }

  function Framed(line: Text): Frame {
    if Over(line) then ([], true) else (line, false)
  }

  /** A line passes unflagged exactly when it has an encoding within the limit; of every other line only the flag is
      left. */
  lemma FramedExactly(line: Text)
    ensures Framed(line) == (line, false) || Framed(line) == ([], true)
    ensures !Framed(line).1 <==> AllEncodable(line) && |Encode(line)| <= MAX_RAW_LINE_BYTES
  {
    ByteLengthExactly(line);
  }

  /** The newline split: every terminated line, then the rest if it is not empty. */
  ghost function Split(s: Text): seq<Text> {
    SplitFrom([], s)
  }

  /** The split of `line + s`, where `line` is the part of the current line already read. */
  ghost function SplitFrom(line: Text, s: Text): seq<Text>
    decreases |s|
  {
    if s == [] then (if line == [] then [] else [line])
    else if s[0] == NEWLINE then [line] + SplitFrom([], s[1..])
    else SplitFrom(line + [s[0]], s[1..])
  }

  ghost function Frames(lines: seq<Text>): seq<Frame> {
    if lines == [] then [] else [Framed(lines[0])] + Frames(lines[1..])
  }

  /** Put lines back together; when `open`, the last line has no newline after it. */
  ghost function Rejoin(lines: seq<Text>, open: bool): Text {
    if lines == [] then []
    else if |lines| == 1 && open then lines[0]
    else lines[0] + [NEWLINE] + Rejoin(lines[1..], open)
  }

  ghost predicate Open(s: Text) {
    s != [] && s[|s| - 1] != NEWLINE
  }

  lemma RejoinCons(line: Text, rest: seq<Text>, open: bool)
    requires open ==> rest != []
    ensures Rejoin([line] + rest, open) == line + [NEWLINE] + Rejoin(rest, open)
  {
    assert ([line] + rest)[1..] == rest;
  }

  lemma OpenTail(line: Text, s: Text)
    requires s != [] && (s[0] == NEWLINE || line != [])
    ensures s[0] == NEWLINE ==> Open(line + s) == Open(s[1..])
    ensures line + s == line + [s[0]] + s[1..]
  {
  }

  lemma {:induction false} SplitFromInverse(line: Text, s: Text)
    requires NEWLINE !in line
    ensures forall l :: l in SplitFrom(line, s) ==> NEWLINE !in l
    ensures Rejoin(SplitFrom(line, s), Open(line + s)) == line + s
    ensures Open(line + s) ==> SplitFrom(line, s) != []
    decreases |s|
  {
    if s == [] {
      assert line + s == line;
    } else if s[0] == NEWLINE {
      SplitFromInverse([], s[1..]);
      assert [] + s[1..] == s[1..];
      OpenTail(line, s);
      RejoinCons(line, SplitFrom([], s[1..]), Open(s[1..]));
    } else {
      SplitFromInverse(line + [s[0]], s[1..]);
      assert line + s == line + [s[0]] + s[1..];
    }
  }

  /** Joining inverts splitting for every stream, and no line holds a newline. */
  lemma SplitInverse(s: Text)
    ensures Rejoin(Split(s), Open(s)) == s
    ensures forall l :: l in Split(s) ==> NEWLINE !in l
  {
    SplitFromInverse([], s);
    assert [] + s == s;
  }

  lemma {:induction false} SplitFromPiece(line: Text, piece: Text, s: Text)
    requires NEWLINE !in piece
    ensures SplitFrom(line, piece + s) == SplitFrom(line + piece, s)
    decreases |piece|
  {
    if piece == [] {
      assert piece + s == s && line + piece == line;
    } else {
      assert (piece + s)[1..] == piece[1..] + s;
      SplitFromPiece(line + [piece[0]], piece[1..], s);
      assert line + [piece[0]] + piece[1..] == line + piece;
    }
  }

  ghost predicate Complete(chunk: Text)
    requires chunk != []
  {
    chunk[|chunk| - 1] == NEWLINE
  }

  function Body(chunk: Text): Text
    requires chunk != []
  {
    if chunk[|chunk| - 1] == NEWLINE then chunk[..|chunk| - 1] else chunk
  }

  /** Reading one chunk extends the current line, and ends it when the chunk is complete. */
  lemma ReadChunk(line: Text, chunk: Text, rest: Text)
    requires IsChunk(chunk)
    ensures SplitFrom(line, chunk + rest) ==
      if Complete(chunk) then [line + Body(chunk)] + SplitFrom([], rest) else SplitFrom(line + Body(chunk), rest)
  {
    var tail := if Complete(chunk) then [NEWLINE] + rest else rest;
    assert chunk + rest == Body(chunk) + tail;
    SplitFromPiece(line, Body(chunk), tail);
    if Complete(chunk) {
      assert tail[1..] == rest;
    }
  }

  /** The splitter's variables describe the part of the current line read so far. */
  ghost predicate Tracks(line: Text, current: seq<Text>, currentBytes: nat, overLimit: bool) {
    && (overLimit <==> Over(line))
    && currentBytes <= MAX_RAW_LINE_BYTES
    && (if overLimit then current == [] else Join(current) == line && ByteLength(line) == Some(currentBytes))
  }

  /** The running byte count concludes rightly about the line extended by one piece. */
  lemma TrackPiece(line: Text, current: seq<Text>, currentBytes: nat, overLimit: bool, piece: Text)
    requires Tracks(line, current, currentBytes, overLimit)
    ensures
      var encoded := ByteLength(piece);
      var pieceBytes := if encoded.Some? then encoded.value else MAX_RAW_LINE_BYTES + 1;
      if overLimit || currentBytes + pieceBytes > MAX_RAW_LINE_BYTES then
        forall bytes: nat :: bytes <= MAX_RAW_LINE_BYTES ==> Tracks(line + piece, [], bytes, true)
      else Tracks(line + piece, current + [piece], currentBytes + pieceBytes, false)
  {
    ByteLengthConcat(line, piece);
    JoinSnoc(current, piece);
  }

  /** Buffer one more piece of the line, or give the line up when it grows over the limit. */
  method TakePiece(ghost line: Text, current: seq<Text>, currentBytes: nat, overLimit: bool, piece: Text)
    returns (pieces: seq<Text>, bytes: nat, over: bool)
    requires Tracks(line, current, currentBytes, overLimit)
    ensures Tracks(line + piece, pieces, bytes, over) && (over || pieces != [])
  {
    pieces, bytes, over := current, currentBytes, overLimit;
    TrackPiece(line, current, currentBytes, overLimit, piece);
    if !over {
      var encoded := ByteLength(piece);
      var pieceBytes := if encoded.Some? then encoded.value else MAX_RAW_LINE_BYTES + 1;
      if bytes + pieceBytes > MAX_RAW_LINE_BYTES {
        over := true;
        pieces := [];
      } else {
        pieces := pieces + [piece];
        bytes := bytes + pieceBytes;
      }
    }
  }

  lemma TracksFramed(line: Text, current: seq<Text>, currentBytes: nat, overLimit: bool)
    requires Tracks(line, current, currentBytes, overLimit)
    ensures Framed(line) == (Join(current), overLimit)
  {
  }

  lemma {:induction false} FramesSnoc(lines: seq<Text>, line: Text)
    ensures Frames(lines + [line]) == Frames(lines) + [Framed(line)]
  {
    if lines == [] {
      assert Frames([line]) == [Framed(line)] + Frames([]);
    } else {
      assert (lines + [line])[1..] == lines[1..] + [line];
      FramesSnoc(lines[1..], line);
    }
  }

  lemma Regroup(lines: seq<Text>, line: Text, rest: seq<Text>)
    ensures lines + ([line] + rest) == lines + [line] + rest
  {
  }

  /** The splitter yields exactly the framed newline split of the stream, however the stream is cut into chunks, and
      it never buffers more than the limit. */
  method Serve(chunks: seq<Text>) returns (frames: seq<Frame>)
    requires forall c :: c in chunks ==> IsChunk(c)
    ensures frames == Frames(Split(Join(chunks)))
  {
    frames := [];
    var current: seq<Text> := [];
    var currentBytes: nat := 0;
    var overLimit := false;
    ghost var lines: seq<Text>, line: Text := [], [];
    var i := 0;
    while i < |chunks|
      invariant 0 <= i <= |chunks|
      invariant lines + SplitFrom(line, Join(chunks[i..])) == Split(Join(chunks))
      invariant frames == Frames(lines)
      invariant Tracks(line, current, currentBytes, overLimit)
      invariant current != [] || overLimit <==> line != []
    {
      var chunk := chunks[i];
      assert IsChunk(chunk) && chunks[i..] == [chunk] + chunks[i + 1..];
      var complete := chunk[|chunk| - 1] == NEWLINE;
      var piece := Body(chunk);
      ReadChunk(line, chunk, Join(chunks[i + 1..]));
      current, currentBytes, overLimit := TakePiece(line, current, currentBytes, overLimit, piece);
      line := line + piece;
      if complete {
        Regroup(lines, line, SplitFrom([], Join(chunks[i + 1..])));
        TracksFramed(line, current, currentBytes, overLimit);
        FramesSnoc(lines, line);
        frames := frames + [(Join(current), overLimit)];
        current := [];
        currentBytes := 0;
        overLimit := false;
        lines, line := lines + [line], [];
      }
      i := i + 1;
    }
    assert Join(chunks[i..]) == [];
    assert lines + [] == lines;
    if current != [] || overLimit {
      TracksFramed(line, current, currentBytes, overLimit);
      FramesSnoc(lines, line);
      frames := frames + [(Join(current), overLimit)];
    }
  }
}
