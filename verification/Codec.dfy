/**
  The wire frame of `protocol.hpp`: start byte, type, big-endian length, payload, end byte.
  `Parse` is the meaning of a received chunk; the encoder and the two separately written decoders
  of the repository are methods proved against it.
*/
module Codec {
  import opened Bytes

  const START: byte := 42
  const END: byte := 13
  const MAX_BUFFERSIZE := 2048
  const MIN_PACKAGE := 7

  datatype Frame = Frame(kind: byte, payload: Text)

  // ---------- the length word ----------

  /** The 32 bits as an unsigned number. */
  function BigEndian(b: Text): nat
    requires |b| == 4
  {
    b[0] as int * 0x100_0000 + b[1] as int * 0x1_0000 + b[2] as int * 0x100 + b[3] as int
  }

  /** The same 32 bits read as the signed `int32_t` of the source. */
  function Int32(b: Text): int
    requires |b| == 4
  {
    if BigEndian(b) < 0x8000_0000 then BigEndian(b) else BigEndian(b) - 0x1_0000_0000
  }

  /** Conversion of an `int32_t` operand to `size_t`, as in a comparison with MAX_BUFFERSIZE. */
  function AsSize(n: int): nat
    requires -0x8000_0000 <= n < 0x8000_0000
  {
    if n < 0 then n + 0x1_0000_0000_0000_0000 else n
  }

  function LengthWord(n: nat): (b: Text)
    requires n < 0x1_0000_0000
    ensures |b| == 4 && BigEndian(b) == n
  {
    DigitsOf(n);
    [(n / 0x100_0000 % 256) as byte, (n / 0x1_0000 % 256) as byte, (n / 0x100 % 256) as byte, (n % 256) as byte]
  }

  lemma DigitsOf(n: nat)
    requires n < 0x1_0000_0000
    ensures n == n / 0x100_0000 % 256 * 0x100_0000 + n / 0x1_0000 % 256 * 0x1_0000 + n / 0x100 % 256 * 0x100 + n % 256
  {
    var a := n / 0x100;
    var b := a / 0x100;
    assert n / 0x1_0000 == b;
    assert n / 0x100_0000 == b / 0x100;
  }

  lemma LengthWordUnique(b: Text, c: Text)
    requires |b| == |c| == 4 && BigEndian(b) == BigEndian(c)
    ensures b == c
  {
    assert b[0] == c[0] && b[1] == c[1] && b[2] == c[2] && b[3] == c[3];
  }

  // ---------- the meaning of a chunk ----------

  /** Position of the first start byte, or |data|. */
  function FirstStart(data: Text): (i: nat)
    ensures i <= |data|
    ensures forall j :: 0 <= j < i ==> data[j] != START
    ensures i < |data| ==> data[i] == START
  {
    if data == [] || data[0] == START then 0
    else
      var i := 1 + FirstStart(data[1..]);
      assert forall j :: 1 <= j < i ==> data[j] == data[1..][j - 1];
      i
  }

  function Parse(data: Text): Option<Frame> {
    var i := FirstStart(data);
    if i + MIN_PACKAGE > |data| then None
    else
      var n := BigEndian(data[i + 2..i + 6]);
      if n > MAX_BUFFERSIZE || i + 6 + n >= |data| || data[i + 6 + n] != END then None
      else Some(Frame(data[i + 1], data[i + 6..i + 6 + n]))
  }

  /** `data` is a start-free prefix, one frame, and anything after it. */
  ghost predicate Splits(data: Text, prefix: Text, f: Frame, suffix: Text) {
    && START !in prefix
    && |f.payload| <= MAX_BUFFERSIZE
    && data == prefix + Encode(f) + suffix
  }

  function Encode(f: Frame): Text
    requires |f.payload| <= MAX_BUFFERSIZE
  {
    [START, f.kind] + LengthWord(|f.payload|) + f.payload + [END]
  }

  // ---------- characterisation ----------

  lemma FirstStartOf(prefix: Text, rest: Text)
    requires START !in prefix && rest != [] && rest[0] == START
    ensures FirstStart(prefix + rest) == |prefix|
  {
    var data := prefix + rest;
    assert data[|prefix|] == START;
    assert forall j :: 0 <= j < |prefix| ==> data[j] == prefix[j];
  }

  /** A text cut at the places where a frame with `n` bytes of payload starts at `i`. */
  lemma CutUp(data: Text, i: nat, n: nat)
    requires i + 7 + n <= |data|
    ensures data == data[..i] + ([data[i], data[i + 1]] + data[i + 2..i + 6] + data[i + 6..i + 6 + n] + [data[i + 6 + n]]) + data[i + 7 + n..]
  {
    assert data[i..i + 6] == [data[i], data[i + 1]] + data[i + 2..i + 6];
    assert data[i..i + 6 + n] == data[i..i + 6] + data[i + 6..i + 6 + n];
    assert data[i..i + 7 + n] == data[i..i + 6 + n] + [data[i + 6 + n]];
    assert data[..i + 7 + n] == data[..i] + data[i..i + 7 + n];
    assert data == data[..i + 7 + n] + data[i + 7 + n..];
  }

  /** A decoded chunk does split, with the decoded frame in the middle. */
  lemma ParsedSplits(data: Text) returns (prefix: Text, suffix: Text)
    requires Parse(data).Some?
    ensures Splits(data, prefix, Parse(data).value, suffix)
  {
    var i := FirstStart(data);
    var n := BigEndian(data[i + 2..i + 6]);
    prefix, suffix := data[..i], data[i + 7 + n..];
    LengthWordUnique(LengthWord(n), data[i + 2..i + 6]);
    CutUp(data, i, n);
  }

  /** Round trip: a frame is found again behind any start-free prefix and before any suffix. */
  lemma SplitParses(data: Text, prefix: Text, f: Frame, suffix: Text)
    requires Splits(data, prefix, f, suffix)
    ensures Parse(data) == Some(f)
    ensures FirstStart(data) == |prefix|
  {
    var i, n := |prefix|, |f.payload|;
    assert data == prefix + (Encode(f) + suffix);
    FirstStartOf(prefix, Encode(f) + suffix);
    assert data[i + 1] == f.kind;
    assert data[i + 2..i + 6] == LengthWord(n);
    assert data[i + 6..i + 6 + n] == f.payload;
    assert data[i + 6 + n] == END;
  }

  /** The decoder accepts a chunk, with a given result, exactly when the chunk splits around that frame. */
  lemma ParseCharacterised(data: Text, f: Frame)
    ensures Parse(data) == Some(f) <==> exists prefix, suffix :: Splits(data, prefix, f, suffix)
  {
    if Parse(data) == Some(f) {
      var prefix, suffix := ParsedSplits(data);
      assert Splits(data, prefix, f, suffix);
    }
    forall prefix, suffix | Splits(data, prefix, f, suffix) ensures Parse(data) == Some(f) {
      SplitParses(data, prefix, f, suffix);
    }
  }

  /** There is at most one way to split a chunk. */
  lemma SplitUnique(data: Text, p1: Text, f1: Frame, s1: Text, p2: Text, f2: Frame, s2: Text)
    requires Splits(data, p1, f1, s1) && Splits(data, p2, f2, s2)
    ensures p1 == p2 && f1 == f2 && s1 == s2
  {
    SplitParses(data, p1, f1, s1);
    SplitParses(data, p2, f2, s2);
    assert p1 == data[..|p1|] == p2;
    assert s1 == data[|p1| + |Encode(f1)|..] == s2;
  }

  /** No encoded frame is a prefix of a different one, so the encoding is also injective. */
  lemma PrefixFree(f: Frame, g: Frame)
    requires |f.payload| <= MAX_BUFFERSIZE && |g.payload| <= MAX_BUFFERSIZE
    requires Encode(f) <= Encode(g)
    ensures f == g
  {
    var data := Encode(g);
    var suffix := data[|Encode(f)|..];
    assert data == [] + Encode(f) + suffix && data == [] + data + [];
    SplitUnique(data, [], f, suffix, [], g, []);
  }

  /**
    A frame cut by a chunk boundary, wherever the cut falls: the part before it is never accepted. The
    part after it yields a frame exactly when a whole encoded frame stands there behind no start byte,
    so it may yield one that was only quoted inside the payload.
  */
  lemma TruncatedFrameRejected(prefix: Text, f: Frame, k: nat)
    requires START !in prefix && |f.payload| <= MAX_BUFFERSIZE && k < |Encode(f)|
    ensures Parse(prefix + Encode(f)[..k]) == None
    ensures forall g :: Parse(Encode(f)[k..]) == Some(g) <==> exists p, s :: Splits(Encode(f)[k..], p, g, s)
  {
    forall g ensures Parse(Encode(f)[k..]) == Some(g) <==> exists p, s :: Splits(Encode(f)[k..], p, g, s) {
      ParseCharacterised(Encode(f)[k..], g);
    }
    var data := prefix + Encode(f)[..k];
    if Parse(data).Some? {
      var p, s := ParsedSplits(data);
      CutSplits(prefix, f, k, p, Parse(data).value, s);
    }
  }

  lemma CutSplits(prefix: Text, f: Frame, k: nat, p: Text, g: Frame, s: Text)
    requires START !in prefix && |f.payload| <= MAX_BUFFERSIZE && k < |Encode(f)|
    ensures !Splits(prefix + Encode(f)[..k], p, g, s)
  {
    var whole, cut, rest := Encode(f), Encode(f)[..k], Encode(f)[k..];
    if Splits(prefix + cut, p, g, s) {
      AppendKeepsSplit(prefix + cut, p, g, s, rest);
      assert prefix + cut + rest == prefix + (cut + rest) && cut + rest == whole;
      assert prefix + whole == prefix + whole + [];
      SplitUnique(prefix + whole, prefix, f, [], p, g, s + rest);
    }
  }

  lemma AppendKeepsSplit(data: Text, p: Text, g: Frame, s: Text, rest: Text)
    requires Splits(data, p, g, s)
    ensures Splits(data + rest, p, g, s + rest)
  {
    var eg := Encode(g);
    assert p + eg + s + rest == p + eg + (s + rest);
  }

  /** A chunk in which two frames arrived together yields the first of them only. */
  lemma CoalescedFramesYieldFirst(f: Frame, more: Text)
    requires |f.payload| <= MAX_BUFFERSIZE
    ensures Parse(Encode(f) + more) == Some(f)
  {
    assert Encode(f) + more == [] + Encode(f) + more;
    SplitParses(Encode(f) + more, [], f, more);
  }

  // ---------- the encoder ----------

  /** `build_package`: appends the frame byte by byte; a payload that does not fit gives the empty string. */
  method BuildPackage(kind: byte, payload: Text) returns (msg: Text)
    ensures msg == [] <==> |payload| > 2041
    ensures |payload| <= 2041 ==>
              && |msg| == |payload| + 7 && msg[0] == 0x2A && msg[1] == kind && msg[6..|payload| + 6] == payload && msg[|payload| + 6] == 0x0D
              && msg[2] as int * 0x100_0000 + msg[3] as int * 0x1_0000 + msg[4] as int * 0x100 + msg[5] as int == |payload|
    ensures |payload| <= MAX_BUFFERSIZE - 7 ==>
              msg == Encode(Frame(kind, payload)) && |msg| <= MAX_BUFFERSIZE
              && forall prefix, suffix :: START !in prefix ==> Parse(prefix + msg + suffix) == Some(Frame(kind, payload))
  {
    var len := |payload|;
    if len > MAX_BUFFERSIZE - 7 {
      return [];
    }
    msg := [];
    msg := msg + [START];
    msg := msg + [kind];
    msg := msg + [(len / 0x100_0000 % 256) as byte];
    msg := msg + [(len / 0x1_0000 % 256) as byte];
    msg := msg + [(len / 0x100 % 256) as byte];
    msg := msg + [(len % 256) as byte];
    msg := msg + payload;
    msg := msg + [END];
    assert msg == Encode(Frame(kind, payload));
    forall prefix, suffix | START !in prefix ensures Parse(prefix + msg + suffix) == Some(Frame(kind, payload)) {
      SplitParses(prefix + msg + suffix, prefix, Frame(kind, payload), suffix);
    }
  }

  // ---------- the two decoders ----------

  /** The scan shared by both decoders: it looks only at positions that leave room for a smallest package. */
  method ScanStart(data: Text) returns (start: Option<nat>)
    requires |data| >= MIN_PACKAGE
    ensures start == if FirstStart(data) + MIN_PACKAGE <= |data| then Some(FirstStart(data)) else None
  {
    var i := 0;
    while i <= |data| - MIN_PACKAGE
      invariant 0 <= i <= |data| - MIN_PACKAGE + 1
      invariant forall j :: 0 <= j < i ==> data[j] != START
    {
      if data[i] == START {
        return Some(i);
      }
      i := i + 1;
    }
    start := None;
  }

  class SocketPackage {
    var cStartByte: byte
    var cType: byte
    var nLen: int
    const pDataBuf: array<byte>
    var cEndByte: byte

    constructor ()
      ensures pDataBuf.Length == MAX_BUFFERSIZE && fresh(pDataBuf)
    {
      pDataBuf := new byte[MAX_BUFFERSIZE];
      cStartByte, cType, nLen, cEndByte := 0, 0, 0, 0;
    }
  }

  /** `parse_sockpackage`: the server's decoder, filling the caller's package in place. */
  method ParseSockPackage(data: Text, pkg: SocketPackage) returns (ok: bool)
    requires pkg.pDataBuf.Length == MAX_BUFFERSIZE
    modifies pkg, pkg.pDataBuf
    ensures ok <==> Parse(data).Some?
    ensures ok ==> 0 <= pkg.nLen <= MAX_BUFFERSIZE && Parse(data) == Some(Frame(pkg.cType, pkg.pDataBuf[..pkg.nLen]))
    ensures ok ==> pkg.cStartByte == START && pkg.cEndByte == END
    ensures ok ==> pkg.pDataBuf[pkg.nLen..] == old(pkg.pDataBuf[..])[pkg.nLen..]
  {
    if |data| < MIN_PACKAGE {
      return false;
    }
    var scanned := ScanStart(data);
    if scanned == None {
      return false;
    }
    var start_pos := scanned.value;
    if start_pos + 1 + 4 >= |data| {
      return false;
    }
    var offset := start_pos;
    pkg.cStartByte, offset := data[offset], offset + 1;
    pkg.cType, offset := data[offset], offset + 1;
    pkg.nLen := Int32(data[offset..offset + 4]);
    offset := offset + 4;
    if AsSize(pkg.nLen) > MAX_BUFFERSIZE {
      return false;
    }
    if offset + AsSize(pkg.nLen) >= |data| {
      return false;
    }
    forall i | 0 <= i < pkg.nLen {
      pkg.pDataBuf[i] := data[offset + i];
    }
    assert pkg.pDataBuf[..pkg.nLen] == data[offset..offset + pkg.nLen];
    offset := offset + pkg.nLen;
    pkg.cEndByte := data[offset];
    if pkg.cEndByte != END {
      return false;
    }
    return true;
  }

  /** `get_start_payload`: the client's decoder, which only locates the payload; None stands for -1. */
  method GetStartPayload(data: Text) returns (pos: Option<nat>)
    ensures pos.Some? <==> Parse(data).Some?
    ensures pos.Some? ==>
              var n := |Parse(data).value.payload|;
              pos.value + n <= |data| && data[pos.value..pos.value + n] == Parse(data).value.payload
    ensures pos.Some? ==> pos.value == FirstStart(data) + 6
  {
    if |data| < MIN_PACKAGE {
      return None;
    }
    var scanned := ScanStart(data);
    if scanned == None {
      return None;
    }
    var start_pos := scanned.value;
    if start_pos + 1 + 4 >= |data| {
      return None;
    }
    var offset := start_pos + 2;
    var nLen := Int32(data[offset..offset + 4]);
    if AsSize(nLen) > MAX_BUFFERSIZE {
      return None;
    }
    var end_pos := start_pos + 1 + 4 + AsSize(nLen) + 1;
    if end_pos >= |data| || data[end_pos] != END {
      return None;
    }
    return Some(start_pos + 1 + 4 + 1);
  }
}
