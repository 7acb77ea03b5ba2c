/** The `#`-separated field layer carried in a payload. */
module Fields {
  import opened Bytes
  import opened Codec
  import opened Folds

  const HASH: byte := 35

  /** Position of the first separator, or |s|. */
  function FirstHash(s: Text): (i: nat)
    ensures i <= |s|
    ensures forall j :: 0 <= j < i ==> s[j] != HASH
    ensures i < |s| ==> s[i] == HASH
  {
    if s == [] || s[0] == HASH then 0
    else
      var i := 1 + FirstHash(s[1..]);
      assert forall j :: 1 <= j < i ==> s[j] == s[1..][j - 1];
      i
  }

  /** The non-empty separator-free pieces of a payload, in order. */
  function Split(s: Text): seq<Text>
    decreases |s|
  {
    var i := FirstHash(s);
    var piece := if i == 0 then [] else [s[..i]];
    if i == |s| then piece else piece + Split(s[i + 1..])
  }

  ghost predicate Proper(field: Text) {
    field != [] && HASH !in field
  }

  /** What the console client sends: every field preceded by a separator. */
  function Message(fields: seq<Text>): Text {
    if fields == [] then [] else [HASH] + fields[0] + Message(fields[1..])
  }

  // ---------- laws of the splitter ----------

  lemma SplitSeparatorFree(s: Text)
    requires HASH !in s
    ensures Split(s) == if s == [] then [] else [s]
  {
    assert forall j :: 0 <= j < |s| ==> s[j] in s;
    assert s[..|s|] == s;
  }

  lemma SplitHead(f: Text, y: Text)
    requires HASH !in f
    ensures Split(f + [HASH] + y) == (if f == [] then [] else [f]) + Split(y)
  {
    var whole := f + [HASH] + y;
    assert forall j :: 0 <= j < |f| ==> whole[j] == f[j];
    assert whole[|f|] == HASH;
    assert whole[..|f|] == f && whole[|f| + 1..] == y;
  }

  /** Splitting off the first piece of a text that has a separator at `i`. */
  lemma SplitCut(x: Text, i: nat, y: Text)
    requires i < |x| && x[i] == HASH && HASH !in x[..i]
    ensures Split(x) == (if i == 0 then [] else [x[..i]]) + Split(x[i + 1..])
    ensures Split(x + [HASH] + y) == (if i == 0 then [] else [x[..i]]) + Split(x[i + 1..] + [HASH] + y)
  {
    var f, rest := x[..i], x[i + 1..];
    assert f + [HASH] + rest == x;
    SplitHead(f, rest);
    assert f + [HASH] + (rest + [HASH] + y) == x + [HASH] + y;
    SplitHead(f, rest + [HASH] + y);
  }

  /** On all inputs, splitting distributes over the separator. */
  lemma {:induction false} SplitDistributes(x: Text, y: Text)
    ensures Split(x + [HASH] + y) == Split(x) + Split(y)
    decreases |x|
  {
    var i := FirstHash(x);
    if i == |x| {
      SplitHead(x, y);
      SplitSeparatorFree(x);
    } else {
      SplitCut(x, i, y);
      SplitDistributes(x[i + 1..], y);
      Regroup(if i == 0 then [] else [x[..i]], Split(x[i + 1..]), Split(y));
    }
  }

  lemma {:induction false} SplitProper(s: Text)
    ensures forall f :: f in Split(s) ==> Proper(f)
    decreases |s|
  {
    var i := FirstHash(s);
    if i < |s| {
      SplitProper(s[i + 1..]);
    }
  }

  /** One proper field before the end of the text or before a separator. */
  lemma SplitField(f: Text, m: Text)
    requires Proper(f)
    requires m == [] || m[0] == HASH
    ensures Split(f + m) == [f] + Split(m)
  {
    if m == [] {
      assert f + m == f;
      SplitSeparatorFree(f);
    } else {
      var y := m[1..];
      assert m == [HASH] + y && f + m == f + [HASH] + y;
      SplitHead(f, y);
      SplitLeading(m);
    }
  }

  lemma SplitLeading(m: Text)
    requires m != [] && m[0] == HASH
    ensures Split(m) == Split(m[1..])
  {
    SplitDistributes([], m[1..]);
    assert [] + [HASH] + m[1..] == m;
    SplitSeparatorFree([]);
  }

  lemma {:induction false} MessageSplits(fields: seq<Text>)
    requires forall f :: f in fields ==> Proper(f)
    ensures Split(Message(fields)) == fields
  {
    if fields == [] {
      SplitSeparatorFree([]);
    } else {
      var m := Message(fields[1..]);
      MessageSplits(fields[1..]);
      SplitField(fields[0], m);
      assert Message(fields) == [HASH] + (fields[0] + m);
      SplitLeading([HASH] + (fields[0] + m));
    }
  }

  /** The field layer gives a list back exactly when every field is non-empty and free of separators. */
  lemma FieldRoundTrip(fields: seq<Text>)
    ensures Split(Message(fields)) == fields <==> forall f :: f in fields ==> Proper(f)
  {
    SplitProper(Message(fields));
    if forall f :: f in fields ==> Proper(f) {
      MessageSplits(fields);
    }
  }

  /** Re-joining and splitting again changes nothing, whatever the payload was. */
  lemma SplitIdempotent(s: Text)
    ensures Split(Message(Split(s))) == Split(s)
  {
    SplitProper(s);
    MessageSplits(Split(s));
  }

  // ---------- the server's loop ----------

  /** What is still to be split from position `pos` on; nothing once the end has been reached. */
  ghost function Remaining(data: Text, pos: nat): seq<Text> {
    if pos < |data| then Split(data[pos..]) else []
  }

  lemma RemainingStep(data: Text, pos: nat)
    requires pos < |data|
    ensures var i := FirstHash(data[pos..]);
            Remaining(data, pos) == (if i == 0 then [] else [data[pos..][..i]]) + Remaining(data, pos + i + 1)
  {
    var rest := data[pos..];
    var i := FirstHash(rest);
    if i < |rest| {
      assert rest[i + 1..] == data[pos + i + 1..];
      SplitSeparatorFree([]);
    }
  }

  lemma RemainingAll(data: Text)
    ensures Remaining(data, 0) == Split(data)
  {
    assert data[0..] == data;
    SplitSeparatorFree([]);
  }

  lemma LineFound(data: Text, from: nat, i: nat)
    requires from <= i <= |data| && (i < |data| ==> data[i] == HASH)
    requires forall j :: from <= j < i ==> data[j] != HASH
    ensures FirstHash(data[from..]) == i - from && data[from..][..i - from] == data[from..i]
  {
    var rest := data[from..];
    assert forall j :: 0 <= j < |rest| ==> rest[j] == data[from + j];
    var k := FirstHash(rest);
    assert k < |rest| ==> rest[k] == data[from + k];
    assert i < |data| ==> rest[i - from] == data[i];
  }

  /** `std::getline` with `#`: the piece starting at `from`, and where the next one starts. */
  method GetLine(data: Text, from: nat) returns (item: Text, next: nat)
    requires from < |data|
    ensures from < next <= |data| + 1
    ensures item == data[from..][..FirstHash(data[from..])]
    ensures next == from + FirstHash(data[from..]) + 1
  {
    var i := from;
    while i < |data| && data[i] != HASH
      invariant from <= i <= |data|
      invariant forall j :: from <= j < i ==> data[j] != HASH
    {
      i := i + 1;
    }
    LineFound(data, from, i);
    return data[from..i], i + 1;
  }

  lemma KeepsTotal(fields: seq<Text>, item: Text, rest: seq<Text>)
    ensures fields + ((if item == [] then [] else [item]) + rest) == (if item == [] then fields else fields + [item]) + rest
  {
  }

  /** `getdata` on a decoded package. */
  method GetData(pkg: SocketPackage) returns (fields: seq<Text>)
    requires 0 <= pkg.nLen <= pkg.pDataBuf.Length
    ensures fields == Split(pkg.pDataBuf[..pkg.nLen])
  {
    var data := pkg.pDataBuf[..pkg.nLen];
    fields := [];
    var pos := 0;
    RemainingAll(data);
    while pos < |data|
      invariant 0 <= pos <= |data| + 1
      invariant fields + Remaining(data, pos) == Split(data)
    {
      var item, next := GetLine(data, pos);
      RemainingStep(data, pos);
      KeepsTotal(fields, item, Remaining(data, next));
      if item != [] {
        fields := fields + [item];
      }
      pos := next;
    }
  }

  // ---------- end to end ----------

  /**
    From the console to a handler: fields joined, framed and received behind any start-free
    prefix come out of the decoder and the splitter unchanged.
  */
  lemma EndToEnd(kind: byte, fields: seq<Text>, prefix: Text, suffix: Text)
    requires |Message(fields)| <= MAX_BUFFERSIZE - 7
    requires START !in prefix
    ensures var got := Parse(prefix + Encode(Frame(kind, Message(fields))) + suffix);
            && got.Some? && got.value.kind == kind
            && (Split(got.value.payload) == fields <==> forall f :: f in fields ==> Proper(f))
  {
    var f := Frame(kind, Message(fields));
    SplitParses(prefix + Encode(f) + suffix, prefix, f, suffix);
    FieldRoundTrip(fields);
  }
}
