/** The length-prefixed byte stream that a package digest is taken over. */
module PackageFraming {
  import opened Options

  newtype byte = x: int | 0 <= x < 256

  type Bytes = seq<byte>

  datatype File = File(path: Bytes, data: Bytes)

  /** `codex-must-work-package-v1` and a zero byte. */
  const DOMAIN: Bytes := [
    99, 111, 100, 101, 120, 45, 109, 117, 115, 116, 45, 119, 111, 114, 107, 45,
    112, 97, 99, 107, 97, 103, 101, 45, 118, 49, 0
  ]

  function Power256(width: nat): (p: nat)
    ensures p > 0
  {
    if width == 0 then 1 else 256 * Power256(width - 1)
  }

  /** Big-endian, `width` bytes; the packing raises when the value does not fit. */
  function BigEndian(value: nat, width: nat): (b: Bytes)
    requires value < Power256(width)
    ensures |b| == width
  {
    if width == 0 then [] else BigEndian(value / 256, width - 1) + [(value % 256) as byte]
  }

  function BigEndianValue(b: Bytes): nat {
    if b == [] then 0 else 256 * BigEndianValue(b[..|b| - 1]) + b[|b| - 1] as nat
  }

  lemma {:induction false} BigEndianRoundTrip(value: nat, width: nat)
    requires value < Power256(width)
    ensures BigEndianValue(BigEndian(value, width)) == value
  {
    if width > 0 {
      BigEndianRoundTrip(value / 256, width - 1);
      var b := BigEndian(value, width);
      assert b[..width - 1] == BigEndian(value / 256, width - 1);
    }
  }

  lemma {:induction false} BigEndianOfValue(b: Bytes)
    ensures BigEndianValue(b) < Power256(|b|)
    ensures BigEndian(BigEndianValue(b), |b|) == b
  {
    if b != [] {
      var init := b[..|b| - 1];
      BigEndianOfValue(init);
      assert BigEndianValue(b) / 256 == BigEndianValue(init);
      assert BigEndianValue(b) % 256 == b[|b| - 1] as nat;
      assert b == init + [b[|b| - 1]];
    }
  }

  predicate FileFits(f: File) {
    |f.path| < Power256(4) && |f.data| < Power256(8)
  }

  predicate Fits(files: seq<File>) {
    |files| < Power256(4) && forall i :: 0 <= i < |files| ==> FileFits(files[i])
  }

  function FrameFile(f: File): Bytes
    requires FileFits(f)
  {
    BigEndian(|f.path|, 4) + f.path + BigEndian(|f.data|, 8) + f.data
  }

  function FrameFiles(files: seq<File>): Bytes
    requires forall i :: 0 <= i < |files| ==> FileFits(files[i])
  {
    if files == [] then [] else FrameFile(files[0]) + FrameFiles(files[1..])
  }

  /** The whole stream given to the digest. */
  function Frame(files: seq<File>): Bytes
    requires Fits(files)
  {
    DOMAIN + BigEndian(|files|, 4) + FrameFiles(files)
  }

  lemma Regroup(fed: Bytes, a: Bytes, b: Bytes, c: Bytes, d: Bytes)
    ensures fed + a + b + c + d == fed + (a + b + c + d)
  {
  }

  lemma Associate(a: Bytes, b: Bytes, c: Bytes)
    ensures a + b + c == a + (b + c)
  {
  }

  /** The stream as the loader builds it: a header, then four updates for each file. */
  method DigestInput(files: seq<File>) returns (stream: Option<Bytes>)
    ensures stream.Some? <==> Fits(files)
    ensures stream.Some? ==> stream.value == Frame(files)
  {
    if |files| >= Power256(4) {
      return None;
    }
    var fed := DOMAIN + BigEndian(|files|, 4);
    var i := 0;
    while i < |files|
      invariant 0 <= i <= |files|
      invariant forall j :: 0 <= j < i ==> FileFits(files[j])
      invariant fed == DOMAIN + BigEndian(|files|, 4) + FrameFiles(files[..i])
    {
      var f := files[i];
      ghost var before := fed;
      if |f.path| >= Power256(4) {
        return None;
      }
      fed := fed + BigEndian(|f.path|, 4);
      fed := fed + f.path;
      if |f.data| >= Power256(8) {
        return None;
      }
      fed := fed + BigEndian(|f.data|, 8);
      fed := fed + f.data;
      Regroup(before, BigEndian(|f.path|, 4), f.path, BigEndian(|f.data|, 8), f.data);
      Associate(DOMAIN + BigEndian(|files|, 4), FrameFiles(files[..i]), FrameFile(f));
      FrameFilesSnoc(files[..i], f);
      assert files[..i + 1] == files[..i] + [f];
      i := i + 1;
    }
    assert files[..i] == files;
    return Some(fed);
  }

  lemma {:induction false} FrameFilesSnoc(files: seq<File>, f: File)
    requires forall i :: 0 <= i < |files| ==> FileFits(files[i])
    requires FileFits(f)
    ensures FrameFiles(files + [f]) == FrameFiles(files) + FrameFile(f)
  {
    if files == [] {
      assert files + [f] == [f];
      assert FrameFiles([f]) == FrameFile(f) + FrameFiles([]);
    } else {
      assert (files + [f])[1..] == files[1..] + [f];
      FrameFilesSnoc(files[1..], f);
    }
  }

  /** Take a length of `width` bytes and then that many bytes. */
  function TakeBlock(b: Bytes, width: nat): (r: Option<(Bytes, Bytes)>)
    ensures r.Some? ==> width <= |b| && b == b[..width] + r.value.0 + r.value.1
    ensures r.Some? ==> BigEndianValue(b[..width]) == |r.value.0|
  {
    if |b| < width then None
    else
      var n := BigEndianValue(b[..width]);
      if |b| - width < n then None else Some((b[width..width + n], b[width + n..]))
  }

  function ParseFiles(b: Bytes, count: nat): Option<seq<File>> {
    if count == 0 then (if b == [] then Some([]) else None)
    else
      match TakeBlock(b, 4)
      case None => None
      case Some((path, afterPath)) =>
        match TakeBlock(afterPath, 8)
        case None => None
        case Some((data, rest)) =>
          match ParseFiles(rest, count - 1)
          case None => None
          case Some(files) => Some([File(path, data)] + files)
  }

  /** A parser for the stream. */
  function Parse(b: Bytes): Option<seq<File>> {
    var header := |DOMAIN| + 4;
    if |b| < header || b[..|DOMAIN|] != DOMAIN then None
    else ParseFiles(b[header..], BigEndianValue(b[|DOMAIN|..header]))
  }

  lemma TakeBlockFramed(block: Bytes, width: nat, rest: Bytes)
    requires |block| < Power256(width)
    ensures TakeBlock(BigEndian(|block|, width) + block + rest, width) == Some((block, rest))
  {
    var b := BigEndian(|block|, width) + block + rest;
    BigEndianRoundTrip(|block|, width);
    assert b[..width] == BigEndian(|block|, width);
  }

  lemma {:induction false} ParseFilesFramed(files: seq<File>)
    requires forall i :: 0 <= i < |files| ==> FileFits(files[i])
    ensures ParseFiles(FrameFiles(files), |files|) == Some(files)
  {
    if files != [] {
      var f, rest := files[0], FrameFiles(files[1..]);
      assert [f] + files[1..] == files;
      FrameFilesCons(f, files[1..]);
      TakeBlockFramed(f.path, 4, BigEndian(|f.data|, 8) + f.data + rest);
      TakeBlockFramed(f.data, 8, rest);
      ParseFilesFramed(files[1..]);
    }
  }

  /** Parsing a framed package recovers exactly its files. */
  lemma ParseFrame(files: seq<File>)
    requires Fits(files)
    ensures Parse(Frame(files)) == Some(files)
  {
    var b, header := Frame(files), |DOMAIN| + 4;
    assert b[..|DOMAIN|] == DOMAIN;
    assert b[|DOMAIN|..header] == BigEndian(|files|, 4);
    assert b[header..] == FrameFiles(files);
    BigEndianRoundTrip(|files|, 4);
    ParseFilesFramed(files);
  }

  /** Packages with equal streams are equal, files, names and order. */
  lemma FrameInjective(a: seq<File>, b: seq<File>)
    requires Fits(a) && Fits(b) && Frame(a) == Frame(b)
    ensures a == b
  {
    ParseFrame(a);
    ParseFrame(b);
  }

  lemma FrameFilesCons(f: File, files: seq<File>)
    requires FileFits(f) && forall i :: 0 <= i < |files| ==> FileFits(files[i])
    ensures FrameFiles([f] + files) ==
      BigEndian(|f.path|, 4) + f.path + (BigEndian(|f.data|, 8) + f.data + FrameFiles(files))
  {
    assert ([f] + files)[1..] == files;
    var path, rest := BigEndian(|f.path|, 4) + f.path, FrameFiles(files);
    Associate(path + BigEndian(|f.data|, 8), f.data, rest);
    Associate(path, BigEndian(|f.data|, 8), f.data + rest);
    Associate(BigEndian(|f.data|, 8), f.data, rest);
  }

  lemma FramedTakeBlock(b: Bytes, width: nat)
    requires TakeBlock(b, width).Some?
    ensures
      var (block, rest) := TakeBlock(b, width).value;
      |block| < Power256(width) && b == BigEndian(|block|, width) + block + rest
  {
    BigEndianOfValue(b[..width]);
  }

  lemma {:induction false} FramedParseFiles(b: Bytes, count: nat)
    requires ParseFiles(b, count).Some?
    ensures
      var files := ParseFiles(b, count).value;
      |files| == count && (forall i :: 0 <= i < |files| ==> FileFits(files[i])) && FrameFiles(files) == b
  {
    if count > 0 {
      var (path, afterPath) := TakeBlock(b, 4).value;
      var (data, rest) := TakeBlock(afterPath, 8).value;
      FramedTakeBlock(b, 4);
      FramedTakeBlock(afterPath, 8);
      FramedParseFiles(rest, count - 1);
      FrameFilesCons(File(path, data), ParseFiles(rest, count - 1).value);
    }
  }

  /** Every stream the parser accepts is the frame of what it returns: the parser accepts nothing else. */
  lemma FrameParse(b: Bytes)
    requires Parse(b).Some?
    ensures Fits(Parse(b).value) && Frame(Parse(b).value) == b
  {
    var header := |DOMAIN| + 4;
    var count := b[|DOMAIN|..header];
    BigEndianOfValue(count);
    FramedParseFiles(b[header..], BigEndianValue(count));
    assert b == DOMAIN + count + b[header..];
  }
}
