/**
 * The byte stream that `_multipart_fingerprint` hashes: a version tag, then for
 * every file its JSON metadata and its content, each behind an 8-byte length.
 */
module Framing {
  import opened Common
  import Decimal

  type Byte = b: int | 0 <= b < 256
  type Bytes = seq<Byte>

  /** A Unicode scalar value; file names and content types are decoded text. */
  type Scalar = c: int | 0 <= c < 0xD800 || 0xE000 <= c < 0x11_0000
  type Text = seq<Scalar>

  function Ascii(s: string): (bs: Bytes)
    requires forall i | 0 <= i < |s| :: s[i] as int < 256
    ensures |bs| == |s|
  {
    seq(|s|, i requires 0 <= i < |s| => s[i] as int)
  }

  // ---------- JSON strings, as json.dumps writes them ----------

  const QUOTE: Byte := 34
  const BACKSLASH: Byte := 92

  function Hex(d: int): Byte
    requires 0 <= d < 16
  {
    if d < 10 then 48 + d else 87 + d
  }

  function Unhex(b: Byte): (d: int)
    ensures 0 <= d < 16
  {
    if 48 <= b < 58 then b - 48 else if 97 <= b < 103 then b - 87 else 0
  }

  function Hex4(n: int): (bs: Bytes)
    requires 0 <= n < 0x1_0000
    ensures |bs| == 4
  {
    [Hex(n / 4096), Hex(n / 256 % 16), Hex(n / 16 % 16), Hex(n % 16)]
  }

  function Unhex4(bs: Bytes): (n: int)
    requires |bs| >= 4
    ensures 0 <= n < 0x1_0000
  {
    Unhex(bs[0]) * 4096 + Unhex(bs[1]) * 256 + Unhex(bs[2]) * 16 + Unhex(bs[3])
  }

  lemma UnhexHex(d: int)
    requires 0 <= d < 16
    ensures Unhex(Hex(d)) == d
  {}

  lemma HexDigits(n: int)
    requires 0 <= n < 0x1_0000
    ensures n / 4096 * 4096 + n / 256 % 16 * 256 + n / 16 % 16 * 16 + n % 16 == n
  {
    assert n / 4096 == n / 256 / 16 && n / 256 == n / 16 / 16;
  }

  lemma Unhex4Hex4(n: int, rest: Bytes)
    requires 0 <= n < 0x1_0000
    ensures Unhex4(Hex4(n) + rest) == n
  {
    var a, b, c, d := n / 4096, n / 256 % 16, n / 16 % 16, n % 16;
    HexDigits(n);
    UnhexHex(a);
    UnhexHex(b);
    UnhexHex(c);
    UnhexHex(d);
    var bs := Hex4(n) + rest;
    assert bs[0] == Hex(a) && bs[1] == Hex(b) && bs[2] == Hex(c) && bs[3] == Hex(d);
  }

  /** The letter of a two-character escape, if the character has one. */
  function ShortEscape(c: Scalar): Option<Byte> {
    if c == 34 then Some(34) else if c == 92 then Some(92) else if c == 8 then Some(98)
    else if c == 12 then Some(102) else if c == 10 then Some(110) else if c == 13 then Some(114)
    else if c == 9 then Some(116) else None
  }

  function Unescape(b: Byte): Scalar {
    if b == 98 then 8 else if b == 102 then 12 else if b == 110 then 10 else if b == 114 then 13
    else if b == 116 then 9 else b
  }

  function UEscape(n: int): Bytes
    requires 0 <= n < 0x1_0000
  {
    [BACKSLASH, 117] + Hex4(n)
  }

  function Escape(c: Scalar): (bs: Bytes)
    ensures |bs| > 0 && bs[0] != QUOTE
  {
    if ShortEscape(c).Some? then [BACKSLASH, ShortEscape(c).value]
    else if 32 <= c < 127 then [c]
    else if c < 0x1_0000 then UEscape(c)
    else UEscape(0xD800 + (c - 0x1_0000) / 1024) + UEscape(0xDC00 + (c - 0x1_0000) % 1024)
  }

  /** Reads one character back from the front of an escaped string. */
  function ReadChar(bs: Bytes): int
    requires |bs| > 0
  {
    if bs[0] != BACKSLASH || |bs| < 2 then bs[0]
    else if bs[1] != 117 || |bs| < 6 then Unescape(bs[1])
    else
      var n := Unhex4(bs[2..]);
      if 0xD800 <= n < 0xDC00 && |bs| >= 12 then
        0x1_0000 + (n - 0xD800) * 1024 + (Unhex4(bs[8..]) - 0xDC00)
      else n
  }

  lemma ReadUEscape(n: int, rest: Bytes)
    requires 0 <= n < 0x1_0000
    ensures Unhex4((UEscape(n) + rest)[2..]) == n
  {
    assert (UEscape(n) + rest)[2..] == Hex4(n) + rest;
    Unhex4Hex4(n, rest);
  }

  lemma ReadSurrogates(high: int, low: int, rest: Bytes)
    requires 0xD800 <= high < 0xDC00 && 0xDC00 <= low < 0xE000
    ensures ReadChar(UEscape(high) + UEscape(low) + rest) == 0x1_0000 + (high - 0xD800) * 1024 + (low - 0xDC00)
  {
    var bs := UEscape(high) + UEscape(low) + rest;
    Associate(UEscape(high), UEscape(low), rest);
    ReadUEscape(high, UEscape(low) + rest);
    assert bs[8..] == (UEscape(low) + rest)[2..];
    ReadUEscape(low, rest);
  }

  lemma ReadEscaped(c: Scalar, rest: Bytes)
    ensures ReadChar(Escape(c) + rest) == c
  {
    if ShortEscape(c).None? && !(32 <= c < 127) {
      if c < 0x1_0000 {
        ReadUEscape(c, rest);
      } else {
        ReadSurrogates(0xD800 + (c - 0x1_0000) / 1024, 0xDC00 + (c - 0x1_0000) % 1024, rest);
      }
    }
  }

  lemma EscapeInjective(c: Scalar, x: Bytes, d: Scalar, y: Bytes)
    requires Escape(c) + x == Escape(d) + y
    ensures c == d && x == y
  {
    ReadEscaped(c, x);
    ReadEscaped(d, y);
    Cancel(Escape(c), x, y);
  }

  function Body(s: Text): Bytes {
    if s == [] then [] else Escape(s[0]) + Body(s[1..])
  }

  function Quoted(s: Text): Bytes {
    [QUOTE] + Body(s) + [QUOTE]
  }

  /** The body of a string, its closing quote and what follows. */
  function Closed(s: Text, x: Bytes): Bytes {
    Body(s) + ([QUOTE] + x)
  }

  lemma ClosedCons(s: Text, x: Bytes)
    requires s != []
    ensures Closed(s, x) == Escape(s[0]) + Closed(s[1..], x)
  {
    Associate(Escape(s[0]), Body(s[1..]), [QUOTE] + x);
  }

  lemma ClosedFirst(s: Text, x: Bytes)
    ensures Closed(s, x) != [] && (Closed(s, x)[0] == QUOTE <==> s == [])
  {
    if s != [] {
      ClosedCons(s, x);
    }
  }

  lemma {:induction false} ClosedInjective(s: Text, x: Bytes, t: Text, y: Bytes)
    requires Closed(s, x) == Closed(t, y)
    ensures s == t && x == y
  {
    ClosedFirst(s, x);
    ClosedFirst(t, y);
    if s == [] {
      assert Closed(s, x) == [QUOTE] + x && Closed(t, y) == [QUOTE] + y;
      Cancel([QUOTE], x, y);
    } else {
      ClosedCons(s, x);
      ClosedCons(t, y);
      EscapeInjective(s[0], Closed(s[1..], x), t[0], Closed(t[1..], y));
      ClosedInjective(s[1..], x, t[1..], y);
    }
  }

  lemma QuotedInjective(s: Text, x: Bytes, t: Text, y: Bytes)
    requires Quoted(s) + x == Quoted(t) + y
    ensures s == t && x == y
  {
    assert Quoted(s) + x == [QUOTE] + Closed(s, x);
    assert Quoted(t) + y == [QUOTE] + Closed(t, y);
    Cancel([QUOTE], Closed(s, x), Closed(t, y));
    ClosedInjective(s, x, t, y);
  }

  // ---------- The stream ----------

  datatype File = File(name: Text, contentType: Text, data: Bytes)

  function Number(n: nat): Bytes {
    Ascii(Decimal.Text(n))
  }

  function MetadataHead(): Bytes {
    Ascii("{\"content_type\":")
  }

  function MetadataMiddle(index: nat): Bytes {
    Ascii(",\"field\":\"files\",\"index\":") + Number(index) + Ascii(",\"name\":")
  }

  function MetadataTail(size: nat): Bytes {
    Ascii(",\"size\":") + Number(size) + Ascii("}")
  }

  /** The metadata object with its keys in sorted order and no spaces. */
  function Metadata(index: nat, file: File): Bytes {
    MetadataHead() + (Quoted(file.contentType)
                      + (MetadataMiddle(index) + (Quoted(file.name) + MetadataTail(|file.data|))))
  }

  const LENGTH_BYTES: nat := 8
  const LENGTH_BOUND: nat := 0x1_0000_0000_0000_0000

  /** `n.to_bytes(k, "big")` */
  function BigEndian(n: nat, k: nat): (bs: Bytes)
    ensures |bs| == k
  {
    if k == 0 then [] else BigEndian(n / 256, k - 1) + [n % 256]
  }

  function FromBigEndian(bs: Bytes): nat {
    if bs == [] then 0 else FromBigEndian(bs[..|bs| - 1]) * 256 + bs[|bs| - 1]
  }

  function Pow256(k: nat): nat {
    if k == 0 then 1 else 256 * Pow256(k - 1)
  }

  lemma {:induction false} BigEndianRoundTrip(n: nat, k: nat)
    requires n < Pow256(k)
    ensures FromBigEndian(BigEndian(n, k)) == n
  {
    if k == 0 {
    } else {
      BigEndianRoundTrip(n / 256, k - 1);
      var bs := BigEndian(n, k);
      assert bs[..|bs| - 1] == BigEndian(n / 256, k - 1);
    }
  }

  lemma LengthRoundTrip(n: nat)
    requires n < LENGTH_BOUND
    ensures FromBigEndian(BigEndian(n, LENGTH_BYTES)) == n
  {
    assert Pow256(4) == 256 * Pow256(3) == 256 * 256 * Pow256(2);
    assert Pow256(8) == 256 * Pow256(7) == 65536 * Pow256(6) == 65536 * 65536 * Pow256(4);
    BigEndianRoundTrip(n, LENGTH_BYTES);
  }

  function Block(payload: Bytes): Bytes {
    BigEndian(|payload|, LENGTH_BYTES) + payload
  }

  /** The two blocks of one file. */
  function Frame(index: nat, file: File): Bytes {
    Block(Metadata(index, file)) + Block(file.data)
  }

  function Frames(files: seq<File>, index: nat): Bytes {
    if files == [] then [] else Frame(index, files[0]) + Frames(files[1..], index + 1)
  }

  function Tag(): Bytes {
    Ascii("image-bulk-upload-v1") + [0]
  }

  function Stream(files: seq<File>): Bytes {
    Tag() + Frames(files, 0)
  }

  /** `to_bytes(8, "big")` does not overflow. */
  predicate Framable(files: seq<File>, index: nat) {
    forall i | 0 <= i < |files| ::
      |files[i].data| < LENGTH_BOUND && |Metadata(index + i, files[i])| < LENGTH_BOUND
  }

  // ---------- Decoding ----------

  /** Splits a stream of length-prefixed blocks; None if a block is cut short. */
  function Blocks(bs: Bytes): Option<seq<Bytes>>
    decreases |bs|
  {
    if bs == [] then Some([])
    else if |bs| < LENGTH_BYTES then None
    else
      var n := FromBigEndian(bs[..LENGTH_BYTES]);
      if |bs| < LENGTH_BYTES + n then None
      else
        match Blocks(bs[LENGTH_BYTES + n..])
        case None => None
        case Some(rest) => Some([bs[LENGTH_BYTES..LENGTH_BYTES + n]] + rest)
  }

  /** The metadata and data blocks of the files, in order. */
  function Payloads(files: seq<File>, index: nat): seq<Bytes> {
    if files == [] then []
    else [Metadata(index, files[0]), files[0].data] + Payloads(files[1..], index + 1)
  }

  lemma BlockDecodes(payload: Bytes, rest: Bytes)
    requires |payload| < LENGTH_BOUND && Blocks(rest).Some?
    ensures Blocks(Block(payload) + rest) == Some([payload] + Blocks(rest).value)
  {
    var bs := Block(payload) + rest;
    LengthRoundTrip(|payload|);
    assert bs[..LENGTH_BYTES] == BigEndian(|payload|, LENGTH_BYTES);
    assert bs[LENGTH_BYTES + |payload|..] == rest;
    assert bs[LENGTH_BYTES..LENGTH_BYTES + |payload|] == payload;
  }

  lemma TwoBlocksDecode(a: Bytes, b: Bytes, rest: Bytes)
    requires |a| < LENGTH_BOUND && |b| < LENGTH_BOUND && Blocks(rest).Some?
    ensures Blocks((Block(a) + Block(b)) + rest) == Some([a, b] + Blocks(rest).value)
  {
    BlockDecodes(b, rest);
    BlockDecodes(a, Block(b) + rest);
    Associate(Block(a), Block(b), rest);
    assert [a] + ([b] + Blocks(rest).value) == [a, b] + Blocks(rest).value;
  }

  /** The decoder recovers the ordered list of metadata and data blocks. */
  lemma {:induction false} FramesDecode(files: seq<File>, index: nat)
    requires Framable(files, index)
    ensures Blocks(Frames(files, index)) == Some(Payloads(files, index))
  {
    if files == [] {
    } else {
      assert index + 0 == index;
      assert Framable(files[1..], index + 1) by {
        forall i | 0 <= i < |files[1..]|
          ensures |files[1..][i].data| < LENGTH_BOUND && |Metadata(index + 1 + i, files[1..][i])| < LENGTH_BOUND
        {
          assert files[1..][i] == files[i + 1] && index + 1 + i == index + (i + 1);
        }
      }
      FramesDecode(files[1..], index + 1);
      TwoBlocksDecode(Metadata(index, files[0]), files[0].data, Frames(files[1..], index + 1));
    }
  }

  /** At one position, the metadata text determines the name and the content type. */
  lemma MetadataInjective(index: nat, f: File, g: File)
    requires Metadata(index, f) == Metadata(index, g)
    ensures f.name == g.name && f.contentType == g.contentType
  {
    var fTail, gTail := MetadataTail(|f.data|), MetadataTail(|g.data|);
    var fRest, gRest := Quoted(f.name) + fTail, Quoted(g.name) + gTail;
    var middle := MetadataMiddle(index);
    Cancel(MetadataHead(), Quoted(f.contentType) + (middle + fRest), Quoted(g.contentType) + (middle + gRest));
    QuotedInjective(f.contentType, middle + fRest, g.contentType, middle + gRest);
    Cancel(middle, fRest, gRest);
    QuotedInjective(f.name, fTail, g.name, gTail);
  }

  lemma NumberEnds(m: nat, x: Bytes, n: nat, y: Bytes)
    requires x != [] && y != [] && !(48 <= x[0] < 58) && !(48 <= y[0] < 58)
    requires Number(m) + x == Number(n) + y
    ensures m == n && x == y
  {
    var s, t := Decimal.Text(m), Decimal.Text(n);
    var bs := Number(m) + x;
    assert forall i | 0 <= i < |s| :: Decimal.IsDigit(s[i]) && bs[i] == s[i] as int;
    assert forall i | 0 <= i < |t| :: Decimal.IsDigit(t[i]) && bs[i] == t[i] as int;
    assert bs[|s|] == x[0] && bs[|t|] == y[0];
    assert |s| == |t|;
    assert forall i | 0 <= i < |s| :: s[i] == t[i];
    assert s == t;
    Decimal.TextInjective(m, n);
    Cancel(Number(m), x, y);
  }

  /** The metadata text determines the position of the file and its size as well. */
  lemma MetadataDetermines(i: nat, f: File, j: nat, g: File)
    requires Metadata(i, f) == Metadata(j, g)
    ensures i == j && f.name == g.name && f.contentType == g.contentType && |f.data| == |g.data|
  {
    var fTail, gTail := MetadataTail(|f.data|), MetadataTail(|g.data|);
    var fRest, gRest := Quoted(f.name) + fTail, Quoted(g.name) + gTail;
    Cancel(MetadataHead(), Quoted(f.contentType) + (MetadataMiddle(i) + fRest),
           Quoted(g.contentType) + (MetadataMiddle(j) + gRest));
    QuotedInjective(f.contentType, MetadataMiddle(i) + fRest, g.contentType, MetadataMiddle(j) + gRest);
    MiddleDetermines(i, fRest, j, gRest);
    QuotedInjective(f.name, fTail, g.name, gTail);
    TailDetermines(|f.data|, |g.data|);
  }

  lemma MiddleSplit(i: nat, x: Bytes)
    ensures MetadataMiddle(i) + x ==
              Ascii(",\"field\":\"files\",\"index\":") + (Number(i) + (Ascii(",\"name\":") + x))
  {}

  lemma MiddleDetermines(i: nat, x: Bytes, j: nat, y: Bytes)
    requires MetadataMiddle(i) + x == MetadataMiddle(j) + y
    ensures i == j && x == y
  {
    var head, tail := Ascii(",\"field\":\"files\",\"index\":"), Ascii(",\"name\":");
    assert tail[0] == 44;
    MiddleSplit(i, x);
    MiddleSplit(j, y);
    Cancel(head, Number(i) + (tail + x), Number(j) + (tail + y));
    NumberEnds(i, tail + x, j, tail + y);
    Cancel(tail, x, y);
  }

  lemma TailDetermines(m: nat, n: nat)
    requires MetadataTail(m) == MetadataTail(n)
    ensures m == n
  {
    var head, tail := Ascii(",\"size\":"), Ascii("}");
    assert tail[0] == 125;
    assert MetadataTail(m) == head + (Number(m) + tail) && MetadataTail(n) == head + (Number(n) + tail);
    Cancel(head, Number(m) + tail, Number(n) + tail);
    NumberEnds(m, tail, n, tail);
  }

  /** The escapes of json.dumps: printable ASCII stays as it is, */
  lemma PlainText(c: char)
    requires 32 <= c as int < 127 && c != '"' && c != '\\'
    ensures Escape(c as int) == Ascii([c])
  {}

  /** seven characters have a letter, */
  lemma ShortEscapes()
    ensures Escape(34) == Ascii("\\\"") && Escape(92) == Ascii("\\\\") && Escape(10) == Ascii("\\n")
    ensures Escape(8) == Ascii("\\b") && Escape(9) == Ascii("\\t") && Escape(12) == Ascii("\\f")
    ensures Escape(13) == Ascii("\\r")
  {}

  const HEX_DIGITS: string := "0123456789abcdef"

  lemma HexDigit(d: int)
    requires 0 <= d < 16
    ensures Hex(d) == HEX_DIGITS[d] as int
  {}

  lemma HexText(n: int, a: int, b: int, c: int, d: int)
    requires 0 <= a < 16 && 0 <= b < 16 && 0 <= c < 16 && 0 <= d < 16 && n == a * 4096 + b * 256 + c * 16 + d
    ensures Hex4(n) == [Hex(a), Hex(b), Hex(c), Hex(d)]
  {
    assert n / 4096 == a && n / 256 == a * 16 + b && n / 16 == a * 256 + b * 16 + c;
  }

  /** and every other one is written in four lower-case digits; */
  lemma LongEscape(n: Scalar, a: int, b: int, c: int, d: int)
    requires 0 <= a < 16 && 0 <= b < 16 && 0 <= c < 16 && 0 <= d < 16 && n == a * 4096 + b * 256 + c * 16 + d
    requires n < 8 || n == 11 || 14 <= n < 32 || 127 <= n
    ensures Escape(n) == [92, 117] + [HEX_DIGITS[a] as int, HEX_DIGITS[b] as int, HEX_DIGITS[c] as int,
                                      HEX_DIGITS[d] as int]
  {
    HexText(n, a, b, c, d);
    HexDigit(a);
    HexDigit(b);
    HexDigit(c);
    HexDigit(d);
  }

  /** beyond 16 bits as the surrogate pair of the scalar. */
  lemma SurrogateEscape(n: Scalar, high: int, low: int)
    requires 0xD800 <= high < 0xDC00 && 0xDC00 <= low < 0xE000
    requires n == 0x1_0000 + (high - 0xD800) * 1024 + (low - 0xDC00)
    ensures Escape(n) == UEscape(high) + UEscape(low)
  {
    assert (n - 0x1_0000) / 1024 == high - 0xD800;
  }

  /** One whole text, with its keys in sorted order and no spaces. */
  lemma MetadataText()
    ensures Metadata(7, File([97], [98], [1, 2])) ==
              Ascii("{\"content_type\":") + (Ascii("\"b\"") + (Ascii(",\"field\":\"files\",\"index\":") + Ascii("7")
              + Ascii(",\"name\":") + (Ascii("\"a\"") + (Ascii(",\"size\":") + Ascii("2") + Ascii("}")))))
  {
    assert Decimal.Text(7) == "7" && Decimal.Text(2) == "2";
    assert Body([97]) == [97] && Body([98]) == [98];
    assert Quoted([97]) == Ascii("\"a\"") && Quoted([98]) == Ascii("\"b\"");
  }

  /** Lengths are big-endian. */
  lemma LengthBytes()
    ensures BigEndian(258, 8) == [0, 0, 0, 0, 0, 0, 1, 2]
    ensures Tag() == Ascii("image-bulk-upload-v1") + [0]
  {
    assert BigEndian(0, 6) == [0, 0, 0, 0, 0, 0] by {
      assert BigEndian(0, 3) == [0, 0, 0];
    }
    assert BigEndian(1, 7) == BigEndian(0, 6) + [1];
  }

  lemma {:induction false} PayloadsInjective(fs: seq<File>, gs: seq<File>, index: nat)
    requires Payloads(fs, index) == Payloads(gs, index)
    ensures fs == gs
  {
    if fs == [] || gs == [] {
    } else {
      var ps := Payloads(fs, index);
      assert ps[0] == Metadata(index, fs[0]) && ps[0] == Metadata(index, gs[0]);
      assert ps[1] == fs[0].data && ps[1] == gs[0].data;
      MetadataInjective(index, fs[0], gs[0]);
      assert ps[2..] == Payloads(fs[1..], index + 1) && ps[2..] == Payloads(gs[1..], index + 1);
      PayloadsInjective(fs[1..], gs[1..], index + 1);
      assert fs == [fs[0]] + fs[1..] && gs == [gs[0]] + gs[1..];
    }
  }

  /** Two requests hash the same stream exactly when they carry the same files, in the same order, byte for byte. */
  lemma StreamInjective(fs: seq<File>, gs: seq<File>)
    requires Framable(fs, 0) && Framable(gs, 0)
    ensures Stream(fs) == Stream(gs) <==> fs == gs
  {
    if Stream(fs) == Stream(gs) {
      assert Frames(fs, 0) == Stream(fs)[|Tag()|..] && Frames(gs, 0) == Stream(gs)[|Tag()|..];
      FramesDecode(fs, 0);
      FramesDecode(gs, 0);
      PayloadsInjective(fs, gs, 0);
    }
  }

  lemma FramesCons(file: File, files: seq<File>, index: nat)
    ensures Frames([file] + files, index) == Frame(index, file) + Frames(files, index + 1)
  {
    assert ([file] + files)[1..] == files;
  }

  lemma {:induction false} FramesSnoc(files: seq<File>, file: File, index: nat)
    ensures Frames(files + [file], index) == Frames(files, index) + Frame(index + |files|, file)
  {
    var last := Frame(index + |files|, file);
    if files == [] {
      FramesCons(file, [], index);
      assert files + [file] == [file] + [];
      assert [] + last == last && last + [] == last;
    } else {
      var head, tail := files[0], files[1..];
      FramesCons(head, tail + [file], index);
      FramesSnoc(tail, file, index + 1);
      Associate(Frame(index, head), Frames(tail, index + 1), last);
      assert files + [file] == [head] + (tail + [file]);
    }
  }

  lemma StreamSnoc(files: seq<File>, index: nat)
    requires index < |files|
    ensures Stream(files[..index + 1]) == Stream(files[..index]) + Frame(index, files[index])
  {
    assert files[..index + 1] == files[..index] + [files[index]];
    FramesSnoc(files[..index], files[index], 0);
    Associate(Tag(), Frames(files[..index], 0), Frame(index, files[index]));
  }

  lemma FrameIsFourUpdates(digest: Bytes, index: nat, file: File)
    ensures digest + BigEndian(|Metadata(index, file)|, 8) + Metadata(index, file)
            + BigEndian(|file.data|, 8) + file.data
            == digest + Frame(index, file)
  {
    var metadata := Metadata(index, file);
    Associate(digest, BigEndian(|metadata|, 8), metadata);
    Associate(digest + Block(metadata), BigEndian(|file.data|, 8), file.data);
    Associate(digest, Block(metadata), Block(file.data));
  }

  /** `_multipart_fingerprint`: the bytes fed to the digest. */
  method MultipartFingerprint(files: seq<File>) returns (digest: Bytes)
    requires Framable(files, 0)
    ensures digest == Stream(files)
  {
    digest := Tag();
    for index := 0 to |files|
      invariant digest == Stream(files[..index])
    {
      var file := files[index];
      var metadata := Metadata(index, file);
      StreamSnoc(files, index);
      FrameIsFourUpdates(digest, index, file);
      digest := digest + BigEndian(|metadata|, 8);
      digest := digest + metadata;
      digest := digest + BigEndian(|file.data|, 8);
      digest := digest + file.data;
    }
    assert files[..|files|] == files;
  }
}
