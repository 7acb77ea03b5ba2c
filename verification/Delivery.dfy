/**
  From the stream the peer sends to the requests that are handled: a stream of frames arrives cut into
  chunks, wherever the network and the reads happen to cut it.
*/
module Delivery {
  import opened Bytes
  import opened Folds
  import opened Codec
  import opened Connection
  import opened ConnectionSafety
  import opened ConnectionRuns

  // ---------- streams ----------

  ghost predicate Encodable(frames: seq<Frame>) {
    forall f :: f in frames ==> |f.payload| <= MAX_BUFFERSIZE
  }

  function Joined(texts: seq<Text>): Text {
    if texts == [] then [] else texts[0] + Joined(texts[1..])
  }

  function Encoded(frames: seq<Frame>): seq<Text>
    requires Encodable(frames)
  {
    if frames == [] then [] else [Encode(frames[0])] + Encoded(frames[1..])
  }

  /** The frame that the decoder finds in a chunk, if it finds one. */
  function Got(c: Text): seq<Frame> {
    if Codec.Parse(c).Some? then [Codec.Parse(c).value] else []
  }

  lemma JoinedOne(a: Text)
    ensures Joined([a]) == a
  {
    var one: seq<Text> := [a];
    assert one[0] == a && one[1..] == [];
    assert Joined(one) == one[0] + Joined(one[1..]);
  }

  lemma EncodedOne(f: Frame)
    requires Encodable([f])
    ensures Encoded([f]) == [Encode(f)]
  {
    var one: seq<Frame> := [f];
    assert one[0] == f && one[1..] == [];
    assert Encoded(one) == [Encode(one[0])] + Encoded(one[1..]);
  }

  lemma GotOne(c: Text)
    requires c != []
    ensures Encodable(Got(c))
    ensures |Joined(Encoded(Got(c)))| <= |c|
    ensures |Joined(Encoded(Got(c)))| == |c| ==> [c] == Encoded(Got(c))
  {
    if Codec.Parse(c).Some? {
      var f := Codec.Parse(c).value;
      var prefix, suffix := ParsedSplits(c);
      EncodedOne(f);
      JoinedOne(Encode(f));
      if |Encode(f)| == |c| {
        assert c == Encode(f);
      }
    } else {
      assert Joined(Encoded(Got(c))) == [];
    }
  }

  lemma {:induction false} EncodedConcat(fs: seq<Frame>, gs: seq<Frame>)
    requires Encodable(fs) && Encodable(gs)
    ensures Encodable(fs + gs) && Encoded(fs + gs) == Encoded(fs) + Encoded(gs)
  {
    if fs == [] {
      assert fs + gs == gs;
    } else {
      EncodedConcat(fs[1..], gs);
      assert (fs + gs)[0] == fs[0] && (fs + gs)[1..] == fs[1..] + gs;
      Regroup([Encode(fs[0])], Encoded(fs[1..]), Encoded(gs));
    }
  }

  lemma {:induction false} JoinedConcat(xs: seq<Text>, ys: seq<Text>)
    ensures |Joined(xs + ys)| == |Joined(xs)| + |Joined(ys)|
  {
    if xs == [] {
      assert xs + ys == ys;
    } else {
      assert (xs + ys)[0] == xs[0] && (xs + ys)[1..] == xs[1..] + ys;
      JoinedConcat(xs[1..], ys);
    }
  }

  /**
    The frames decoded from non-empty chunks are never longer than the chunks, and just as long only if
    every chunk is one of them and nothing else.
  */
  lemma {:induction false} NothingToSpare(chunks: seq<Text>)
    requires forall k :: 0 <= k < |chunks| ==> chunks[k] != []
    ensures Encodable(FlatMap(chunks, Got))
    ensures |Joined(Encoded(FlatMap(chunks, Got)))| <= |Joined(chunks)|
    ensures |Joined(Encoded(FlatMap(chunks, Got)))| == |Joined(chunks)| ==> chunks == Encoded(FlatMap(chunks, Got))
  {
    if chunks != [] {
      var c, rest := chunks[0], chunks[1..];
      GotOne(c);
      NothingToSpare(rest);
      EncodedConcat(Got(c), FlatMap(rest, Got));
      JoinedConcat(Encoded(Got(c)), Encoded(FlatMap(rest, Got)));
      assert chunks == [c] + rest;
    }
  }

  lemma {:induction false} WholeFrames(frames: seq<Frame>)
    requires Encodable(frames)
    ensures FlatMap(Encoded(frames), Got) == frames
  {
    if frames != [] {
      var f := frames[0];
      WholeFrames(frames[1..]);
      CoalescedFramesYieldFirst(f, []);
      assert Encode(f) + [] == Encode(f) && frames == [f] + frames[1..];
    }
  }

  /**
    However a stream of frames is cut into chunks, the frames decoded from the chunks are the frames of
    the stream exactly when every cut is between two frames and none is missing.
  */
  lemma DecodedIff(chunks: seq<Text>, frames: seq<Frame>)
    requires (forall k :: 0 <= k < |chunks| ==> chunks[k] != []) && Encodable(frames) && Joined(chunks) == Joined(Encoded(frames))
    ensures FlatMap(chunks, Got) == frames <==> chunks == Encoded(frames)
  {
    NothingToSpare(chunks);
    WholeFrames(frames);
  }

  // ---------- runs ----------

  /** A read returns at least one byte and at most a buffer. */
  ghost predicate ChunksReadable(g: Shared) {
    forall k :: 0 <= k < |g.received| ==> Readable(g.received[k])
  }

  lemma LoopReadable(g: Shared, pc: LoopPc, a: LoopAction, h: Shared, next: LoopPc)
    requires ChunksReadable(g) && LoopMove(g, pc, a) == LoopGoes(h, next)
    ensures ChunksReadable(h)
  {
    match a
    case Register =>
    case _ =>
  }

  lemma TaskReadable(g: Shared, me: nat, t: TaskRec, a: TaskAction, inMap: bool, h: Shared, next: TaskPc)
    requires ChunksReadable(g) && TaskMove(g, me, t, a, inMap) == TaskGoes(h, next)
    ensures ChunksReadable(h)
  {
    match a
    case Begin =>
    case _ =>
  }

  lemma ActiveReadable(g: Shared, me: nat, pc: ActivePc, a: ActiveAction, inMap: bool, h: Shared, next: ActivePc)
    requires ChunksReadable(g) && ActiveMove(g, me, pc, a, inMap) == ActiveGoes(h, next)
    ensures ChunksReadable(h)
  {
    match a
    case Begin =>
    case _ =>
  }

  lemma StepReadable(s: State, a: Action)
    requires ChunksReadable(s.g) && Step(s, a).Some?
    ensures ChunksReadable(Step(s, a).value.g)
  {
    match a
    case ByLoop(l) =>
      if !l.BeginDrain? {
        var LoopGoes(g, pc) := LoopMove(s.g, s.loop, l);
        LoopReadable(s.g, s.loop, l, g, pc);
      }
    case ByTask(i, t) =>
      var TaskGoes(g, pc) := TaskMove(s.g, i, s.tasks[i], t, s.loop.InMap());
      TaskReadable(s.g, i, s.tasks[i], t, s.loop.InMap(), g, pc);
    case ByActive(j, t) =>
      var ActiveGoes(g, pc) := ActiveMove(s.g, j, s.actives[j], t, s.loop.InMap());
      ActiveReadable(s.g, j, s.actives[j], t, s.loop.InMap(), g, pc);
  }

  lemma {:induction false} RunReadable(s: State, acts: seq<Action>)
    requires ChunksReadable(s.g) && Run(s, acts).Some?
    ensures ChunksReadable(Run(s, acts).value.g)
    decreases acts
  {
    if acts != [] {
      StepReadable(s, acts[0]);
      RunReadable(Step(s, acts[0]).value, acts[1..]);
    }
  }

  lemma ReachableReadable(s: State)
    requires Reachable(s)
    ensures ChunksReadable(s.g)
  {
    var acts, relockable, release :| Run(Init(relockable, release), acts) == Some(s);
    RunReadable(Init(relockable, release), acts);
  }

  lemma {:induction false} ServedIsGot(done: seq<Done>, chunks: seq<Chunk>)
    requires |done| == |chunks| && forall k :: 0 <= k < |done| ==> done[k] == Verdict(chunks[k])
    ensures Served(done) == FlatMap(chunks, Got)
  {
    if done != [] {
      ServedIsGot(done[1..], chunks[1..]);
    }
  }

  /**
    In every run, once the chunks finished so far make up a stream of whole frames, the requests handled
    are those frames, in order, exactly when each chunk was one frame. This covers a run at its end, with
    nothing outstanding and all that was sent received, and every moment before it.
  */
  lemma RequestsInOrder(s: State, frames: seq<Frame>)
    requires Reachable(s) && Encodable(frames)
    requires |s.g.done| <= |s.g.received| && Joined(s.g.received[..|s.g.done|]) == Joined(Encoded(frames))
    ensures Served(s.g.done) == frames <==> s.g.received[..|s.g.done|] == Encoded(frames)
  {
    var chunks := s.g.received[..|s.g.done|];
    HandledInReadOrder(s);
    ReachableReadable(s);
    ServedIsGot(s.g.done, chunks);
    assert forall k :: 0 <= k < |chunks| ==> Readable(s.g.received[k]) && chunks[k] == s.g.received[k];
    DecodedIff(chunks, frames);
  }

  // ---------- a cut in the wrong place ----------

  /** The two chunks that a stream of two frames arrives in, when it is cut behind `k` bytes of the second. */
  function CutAt(first: Frame, f: Frame, k: nat): seq<Text>
    requires Encodable([first, f]) && k <= |Encode(f)|
  {
    [Encode(first) + Encode(f)[..k], Encode(f)[k..]]
  }

  lemma JoinedTwo(a: Text, b: Text)
    ensures Joined([a, b]) == a + b
  {
    var two, last: seq<Text> := [a, b], [b];
    assert two[0] == a && two[1..] == last;
    JoinedOne(b);
  }

  lemma JoinedCut(a: Text, b: Text, k: nat)
    requires k <= |b|
    ensures Joined([a + b[..k], b[k..]]) == Joined([a, b])
  {
    JoinedTwo(a, b);
    JoinedTwo(a + b[..k], b[k..]);
    assert b == b[..k] + b[k..];
  }

  lemma EncodedTwo(first: Frame, f: Frame)
    requires Encodable([first, f])
    ensures Encoded([first, f]) == [Encode(first), Encode(f)]
  {
    var two, last: seq<Frame> := [first, f], [f];
    assert two[0] == first && two[1..] == last;
    assert f in two;
    EncodedOne(f);
  }

  lemma CutJoins(first: Frame, f: Frame, k: nat)
    requires Encodable([first, f]) && k <= |Encode(f)|
    ensures Joined(CutAt(first, f, k)) == Joined(Encoded([first, f]))
  {
    JoinedCut(Encode(first), Encode(f), k);
    EncodedTwo(first, f);
  }

  /** The bytes of a frame from behind the part `x` of its payload. */
  lemma QuotedPart(f: Frame, x: Text, g: Frame, y: Text)
    requires Encodable([f, g]) && f.payload == x + Encode(g) + y
    ensures 6 + |x| < |Encode(f)| && Encode(f)[6 + |x|..] == Encode(g) + (y + [END])
  {
    assert f in [f, g] && g in [f, g];
    var head := [START, f.kind] + LengthWord(|f.payload|) + x;
    assert |head| == 6 + |x|;
    assert Encode(f) == head + (Encode(g) + (y + [END]));
  }

  /**
    The failing case: two frames are sent, the second one with the bytes of a frame `g` in its payload,
    and the reads cut the stream in front of these. Then some run handles the first frame and `g`, which
    was never sent as a frame, and the second one is lost; nothing is outstanding and the connection is
    not stuck.
  */
  lemma MisdeliveryOccurs(first: Frame, f: Frame, x: Text, g: Frame, y: Text) returns (s: State)
    requires |first.payload| + 13 + |x| <= MAX_BUFFERSIZE && |f.payload| <= MAX_BUFFERSIZE - 7
    requires |g.payload| <= MAX_BUFFERSIZE && f.payload == x + Encode(g) + y
    ensures Reachable(s) && Encodable([first, f]) && s.g.received == CutAt(first, f, 6 + |x|)
    ensures Joined(s.g.received) == Joined(Encoded([first, f]))
    ensures |s.g.done| == 2 && Served(s.g.done) == [first, g] && !Frozen(s) && !Doomed(Project(s))
  {
    var k := 6 + |x|;
    QuotedPart(f, x, g, y);
    CutJoins(first, f, k);
    var c, d := Encode(first) + Encode(f)[..k], Encode(f)[k..];
    CoalescedFramesYieldFirst(first, Encode(f)[..k]);
    CoalescedFramesYieldFirst(g, y + [END]);
    s := TwoChunks(c, d);
    ServedTwo(c, d);
  }

  lemma ServedTwo(c: Chunk, d: Chunk)
    ensures Served([Verdict(c), Verdict(d)]) == Got(c) + Got(d)
  {
    var two, last: seq<Chunk> := [c, d], [d];
    ServedIsGot([Verdict(c), Verdict(d)], two);
    assert two[0] == c && two[1..] == last && last[0] == d && last[1..] == [];
    assert FlatMap(last, Got) == Got(d) + [] && FlatMap(two, Got) == Got(c) + FlatMap(last, Got);
  }

  /** Two parsable chunks, one after the other, each read by the epoll thread and handled by the pool. */
  lemma TwoChunks(c: Chunk, d: Chunk) returns (s: State)
    requires Readable(c) && Readable(d) && Parses(c) && Parses(d)
    ensures Reachable(s) && !Frozen(s) && !Doomed(Project(s))
    ensures s.g.received == [c, d] && s.g.done == [Verdict(c), Verdict(d)]
  {
    s := Start(false);
    s := OneChunk(s, c);
    s := OneChunk(s, d);
    ReachedIff(s);
  }

  lemma OneChunk(s0: State, c: Chunk) returns (s: State)
    requires Reached(s0) && s0.g.life.Registered? && s0.loop.LIdle? && s0.g.mutex.Nobody?
    requires !s0.g.running && !s0.g.inPool && s0.actives == [] && Readable(c) && Parses(c)
    ensures Reached(s)
    ensures s == s0.(g := s0.g.(received := s0.g.received + [c], done := s0.g.done + [Verdict(c)]),
                     tasks := s0.tasks + [TaskRec(c, TDone)])
  {
    s := EventSeen(s0);
    s := ChunkQueued(s, c);
    var i := |s0.tasks|;
    s := TaskRuns(s, i, false);
    assert s.tasks == s0.tasks + [TaskRec(c, TDone)];
  }
}
