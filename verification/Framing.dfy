/** The incremental framer as a state machine over the bytes received: what one `data`
    event does, and the two ways bytes can be read, in pieces or at once. */
module Framing {
  import opened Strings
  import opened Headers

  /** One emitted event: the raw header block it was cut from, and its raw body. */
  datatype Frame = Frame(head: seq<byte>, body: Option<seq<byte>>)

  /** `head` is the block the current `headers` came from, None while they are undefined. */
  datatype State = State(buffer: seq<byte>, bodyLen: int, head: Option<seq<byte>>, frames: seq<Frame>)

  /** How the framer looks into a block: the Content-Length it announces (0 where that is falsy,
      None where `_parseHeaderText` returns nothing), and whether building or delivering the event
      of a frame throws. Nothing here depends on how blocks are read. */
  datatype Reader = Reader(length: seq<byte> -> Option<int>, throws: Frame -> bool)

  datatype Outcome = Outcome(state: State, threw: bool)

  const NEWLINES: seq<byte> := [10, 10]

  const INIT := State([], 0, None, [])

  function HeaderEnd(buffer: seq<byte>): int { Find(buffer, NEWLINES) }

  predicate Empty(reader: Reader, head: seq<byte>) { reader.length(head) == None }

  function ContentLength(reader: Reader, head: seq<byte>): int {
    match reader.length(head)
    case None => 0
    case Some(n) => n
  }

  predicate Throws(reader: Reader, f: Frame) { reader.throws(f) }

  /** `b.slice(0, n)` and `b.slice(n)`; a negative `n` counts from the end. */
  function SliceTo<T>(b: seq<T>, n: int): seq<T> {
    if n < 0 then (if |b| + n < 0 then [] else b[..|b| + n]) else if n > |b| then b else b[..n]
  }

  function SliceFrom<T>(b: seq<T>, n: int): seq<T> {
    if n < 0 then (if |b| + n < 0 then b else b[|b| + n..]) else if n > |b| then [] else b[n..]
  }

  /** The two slices share out the bytes: `n` of them go to the first, and with a negative `n` that many, if they are
      there, to the second. */
  lemma SlicesShare<T>(b: seq<T>, n: int)
    ensures SliceTo(b, n) + SliceFrom(b, n) == b
    ensures n >= 0 ==> |SliceTo(b, n)| == if n <= |b| then n else |b|
    ensures n < 0 ==> |SliceFrom(b, n)| == if -n <= |b| then -n else |b|
  {
  }

  /** `_parseHeaders`. */
  function ParseHeaders(reader: Reader, s: State): Outcome
    decreases |s.buffer|, 0
  {
    var e := HeaderEnd(s.buffer);
    if e < 0 then Outcome(s, false)
    else
      var head, rest := s.buffer[..e], s.buffer[e + 2..];
      var n := ContentLength(reader, head);
      if Empty(reader, head) then Outcome(s.(buffer := rest, head := None), true)
      else if n != 0 then
        var s' := s.(buffer := rest, bodyLen := n, head := Some(head));
        if rest != [] then ParseBody(reader, s') else Outcome(s', false)
      else
        var s' := s.(buffer := rest, head := Some(head));
        if Throws(reader, Frame(head, None)) then Outcome(s', true)
        else if rest != [] then ParseHeaders(reader, s'.(frames := s.frames + [Frame(head, None)]))
        else Outcome(s'.(frames := s.frames + [Frame(head, None)]), false)
  }

  /** `_parseBody`. */
  function ParseBody(reader: Reader, s: State): Outcome
    decreases |s.buffer|, 1
  {
    if |s.buffer| < s.bodyLen then Outcome(s, false)
    else
      var frame := Frame(if s.head.Some? then s.head.value else [], Some(SliceTo(s.buffer, s.bodyLen)));
      var s' := s.(buffer := SliceFrom(s.buffer, s.bodyLen), bodyLen := 0);
      if Throws(reader, frame) then Outcome(s', true)
      else ParseHeaders(reader, s'.(frames := s.frames + [frame]))
  }

  /** `_onData`. */
  function OnData(reader: Reader, s: State, data: seq<byte>): Outcome {
    var s' := s.(buffer := s.buffer + data);
    if s.bodyLen > 0 then ParseBody(reader, s') else ParseHeaders(reader, s')
  }

  /** A run of `data` events; a handler that throws does not stop the socket. */
  function Feed(reader: Reader, s: State, chunks: seq<seq<byte>>): State
    decreases |chunks|
  {
    if chunks == [] then s else Feed(reader, OnData(reader, s, chunks[0]).state, chunks[1..])
  }

  function Flatten<T>(chunks: seq<seq<T>>): seq<T> {
    if chunks == [] then [] else chunks[0] + Flatten(chunks[1..])
  }

  /** The whole stream in one `data` event. */
  function Whole(reader: Reader, stream: seq<byte>): State { OnData(reader, INIT, stream).state }

  /* ---- the stream itself: frames, and what is left over ---- */

  /** A frame a server may send: a block that is its own first terminator, that is not empty, whose
      Content-Length is the length of the body (none for no body), and whose event is built and
      delivered without a throw. */
  predicate WellFormed(r: Reader, f: Frame) {
    && HeaderEnd(f.head + NEWLINES) == |f.head|
    && r.length(f.head) == Some(if f.body.Some? then |f.body.value| else 0)
    && (f.body.Some? ==> f.body.value != [])
    && !r.throws(f)
  }

  function Encode(f: Frame): seq<byte> {
    f.head + NEWLINES + (if f.body.Some? then f.body.value else [])
  }

  function EncodeAll(frames: seq<Frame>): seq<byte> {
    if frames == [] then [] else Encode(frames[0]) + EncodeAll(frames[1..])
  }

  /** The frame made of a block of `e` bytes and a body of `n`; no body when `n` is 0. */
  function FrameAt(b: seq<byte>, e: nat, n: nat): Frame
    requires e + 2 + n <= |b|
  {
    Frame(b[..e], if n == 0 then None else Some(b[e + 2..e + 2 + n]))
  }

  /** What stands at the front of a stream: a frame of `e` block and `n` body bytes, part of a block,
      a block whose body of `n` bytes is not all there, bytes that make the handler throw (`at` is
      where the bytes after them start), or a block with a negative Content-Length. */
  datatype Front = Ordinary(e: nat, n: nat) | Partial | Waiting(e: nat, n: nat) | Throwing(at: nat) | Negative(at: nat)

  function FrontOf(r: Reader, b: seq<byte>): (f: Front)
    ensures f.Ordinary? ==> f.e + 2 + f.n <= |b|
    ensures f.Waiting? ==> f.e + 2 <= |b| < f.e + 2 + f.n
    ensures f.Throwing? || f.Negative? ==> 2 <= f.at <= |b|
  {
    var e := HeaderEnd(b);
    if e < 0 then Partial
    else match r.length(b[..e])
      case None => Throwing(e + 2)
      case Some(n) =>
        if n < 0 then Negative(e + 2)
        else if e + 2 + n > |b| then Waiting(e, n)
        else if r.throws(FrameAt(b, e, n)) then Throwing(e + 2 + n)
        else Ordinary(e, n)
  }

  /** The bytes behind a frame at the front. */
  function Behind(b: seq<byte>, e: nat, n: nat): (rest: seq<byte>)
    requires e + 2 + n <= |b|
    ensures |rest| < |b|
  {
    b[e + 2 + n..]
  }

  /** The ordinary frames a stream starts with, and the bytes after them. */
  function FramesOf(r: Reader, b: seq<byte>): seq<Frame>
    decreases |b|
  {
    match FrontOf(r, b)
    case Ordinary(e, n) => [FrameAt(b, e, n)] + FramesOf(r, Behind(b, e, n))
    case _ => []
  }

  function RestOf(r: Reader, b: seq<byte>): seq<byte>
    decreases |b|
  {
    match FrontOf(r, b)
    case Ordinary(e, n) => RestOf(r, Behind(b, e, n))
    case _ => b
  }

  /** The condition on a stream under which its division into chunks is of no consequence: no
      block ends after the first throw, and nothing follows a negative Content-Length. */
  predicate Steady(r: Reader, stream: seq<byte>) {
    var rest := RestOf(r, stream);
    match FrontOf(r, rest)
    case Throwing(at) => HeaderEnd(rest[at..]) < 0
    case Negative(at) => at == |rest|
    case _ => true
  }

  ghost predicate ChunkInvariant(r: Reader, stream: seq<byte>) {
    forall chunks, chunks' :: Flatten(chunks) == stream && Flatten(chunks') == stream ==>
      Feed(r, INIT, chunks) == Feed(r, INIT, chunks')
  }

  /* ---- frames and their encodings ---- */

  lemma FrontDecoded(r: Reader, b: seq<byte>)
    requires FrontOf(r, b).Ordinary?
    ensures var Ordinary(e, n) := FrontOf(r, b);
            WellFormed(r, FrameAt(b, e, n)) && Encode(FrameAt(b, e, n)) + b[e + 2 + n..] == b
  {
    hide Find;
    var Ordinary(e, n) := FrontOf(r, b);
    HeadDecoded(b);
    PartsDecoded(b, e, n);
  }

  lemma HeadDecoded(b: seq<byte>)
    requires HeaderEnd(b) >= 0
    ensures var e := HeaderEnd(b); b[e..e + 2] == NEWLINES && HeaderEnd(b[..e] + NEWLINES) == e
  {
    hide Find;
    var e := HeaderEnd(b);
    FindAt(b, NEWLINES);
    assert b == (b[..e] + NEWLINES) + b[e + 2..];
    FindInPrefix(b[..e] + NEWLINES, b[e + 2..], NEWLINES);
  }

  lemma PartsDecoded(b: seq<byte>, e: nat, n: nat)
    requires e + 2 + n <= |b| && b[e..e + 2] == NEWLINES
    ensures Encode(FrameAt(b, e, n)) + b[e + 2 + n..] == b
  {
    assert b == b[..e] + b[e..e + 2] + b[e + 2..e + 2 + n] + b[e + 2 + n..];
  }

  lemma FrontEncoded(r: Reader, f: Frame, more: seq<byte>)
    requires WellFormed(r, f)
    ensures var b := Encode(f) + more; var e, n := |f.head|, |Encode(f)| - 2 - |f.head|;
            FrontOf(r, b) == Ordinary(e, n) && FrameAt(b, e, n) == f && b[e + 2 + n..] == more
  {
    var body := if f.body.Some? then f.body.value else [];
    var b := Encode(f) + more;
    assert b == (f.head + NEWLINES) + (body + more);
    FindExtends(f.head + NEWLINES, body + more, NEWLINES);
    assert b[..|f.head|] == f.head;
    assert b[|f.head| + 2..|f.head| + 2 + |body|] == body;
  }

  /** A frame that stands at the front, and what is found behind it. */
  lemma FrontTaken(r: Reader, b: seq<byte>)
    requires FrontOf(r, b).Ordinary?
    ensures var Ordinary(e, n) := FrontOf(r, b);
            && FramesOf(r, b) == [FrameAt(b, e, n)] + FramesOf(r, Behind(b, e, n))
            && RestOf(r, b) == RestOf(r, Behind(b, e, n))
  {
    hide FrontOf, Find, FrameAt, Behind;
  }

  lemma EncodeMore(f: Frame, frames: seq<Frame>)
    ensures EncodeAll([f] + frames) == Encode(f) + EncodeAll(frames)
  {
    hide Encode;
    assert ([f] + frames)[1..] == frames;
  }

  /** A stream is the encoding of its frames, and then the rest, which does not start with a frame. */
  lemma {:induction false} Decoded(r: Reader, b: seq<byte>)
    ensures EncodeAll(FramesOf(r, b)) + RestOf(r, b) == b
    ensures forall f :: f in FramesOf(r, b) ==> WellFormed(r, f)
    ensures !FrontOf(r, RestOf(r, b)).Ordinary?
    decreases |b|
  {
    hide FrontOf, Find, FrameAt, Encode, WellFormed;
    match FrontOf(r, b)
    case Ordinary(e, n) =>
      FrontDecoded(r, b);
      FrontTaken(r, b);
      hide FramesOf, RestOf, EncodeAll;
      var f, more := FrameAt(b, e, n), b[e + 2 + n..];
      Decoded(r, more);
      EncodeMore(f, FramesOf(r, more));
      Joined(Encode(f), EncodeAll(FramesOf(r, more)), RestOf(r, more));
    case _ =>
      assert EncodeAll([]) + b == b;
  }

  lemma Joined<T>(a: seq<T>, b: seq<T>, c: seq<T>)
    ensures a + b + c == a + (b + c)
  {
  }

  /** A well-formed frame at the front of a stream is found there. */
  lemma FrontFound(r: Reader, f: Frame, more: seq<byte>)
    requires WellFormed(r, f)
    ensures FramesOf(r, Encode(f) + more) == [f] + FramesOf(r, more)
    ensures RestOf(r, Encode(f) + more) == RestOf(r, more)
  {
    hide FrontOf, Find, WellFormed, Encode, FrameAt, FramesOf, RestOf;
    FrontEncoded(r, f, more);
    FrontTaken(r, Encode(f) + more);
  }

  /** The frames put at the front of a stream are the frames found there. */
  lemma {:induction false} Encoded(r: Reader, frames: seq<Frame>, more: seq<byte>)
    requires forall f :: f in frames ==> WellFormed(r, f)
    ensures FramesOf(r, EncodeAll(frames) + more) == frames + FramesOf(r, more)
    ensures RestOf(r, EncodeAll(frames) + more) == RestOf(r, more)
    decreases |frames|
  {
    hide FramesOf, RestOf, WellFormed, Encode;
    if frames == [] {
      assert EncodeAll(frames) + more == more;
    } else {
      var f, tail := frames[0], EncodeAll(frames[1..]) + more;
      assert EncodeAll(frames) + more == Encode(f) + tail;
      FrontFound(r, f, tail);
      Encoded(r, frames[1..], more);
      assert frames == [f] + frames[1..];
    }
  }

  /** What was left over after `a`, and `b`, decide how `a + b` goes on. */
  lemma Resumes(r: Reader, a: seq<byte>, b: seq<byte>)
    ensures FramesOf(r, a + b) == FramesOf(r, a) + FramesOf(r, RestOf(r, a) + b)
    ensures RestOf(r, a + b) == RestOf(r, RestOf(r, a) + b)
  {
    hide *;
    Decoded(r, a);
    Encoded(r, FramesOf(r, a), RestOf(r, a) + b);
    assert a + b == EncodeAll(FramesOf(r, a)) + (RestOf(r, a) + b);
  }

  /* ---- the framer cuts exactly those frames ---- */

  function HeadAfter(frames: seq<Frame>, head: Option<seq<byte>>): Option<seq<byte>> {
    if frames == [] then head else Some(frames[|frames| - 1].head)
  }

  /** The state once the frames at the front of the buffer are cut and emitted. */
  function Advance(r: Reader, s: State): State {
    State(RestOf(r, s.buffer), 0, HeadAfter(FramesOf(r, s.buffer), s.head), s.frames + FramesOf(r, s.buffer))
  }

  /** A block with a body to come is read by going on as body. */
  lemma ReadsBody(r: Reader, s: State, e: int, n: int)
    requires e == HeaderEnd(s.buffer) >= 0 && r.length(s.buffer[..e]) == Some(n) && n > 0
    ensures ParseHeaders(r, s) == ParseBody(r, State(s.buffer[e + 2..], n, Some(s.buffer[..e]), s.frames))
  {
  }

  /** A complete frame at the front is cut; unless it throws it is emitted, and reading goes on. */
  lemma CutsFrame(r: Reader, s: State, e: int, n: int)
    requires s.bodyLen == 0 && e == HeaderEnd(s.buffer) >= 0
    requires n >= 0 && e + 2 + n <= |s.buffer| && r.length(s.buffer[..e]) == Some(n)
    ensures var cut := State(s.buffer[e + 2 + n..], 0, Some(s.buffer[..e]), s.frames);
            var f := FrameAt(s.buffer, e, n);
            ParseHeaders(r, s) ==
            if r.throws(f) then Outcome(cut, true) else ParseHeaders(r, cut.(frames := s.frames + [f]))
  {
    var rest := s.buffer[e + 2..];
    if n > 0 {
      ReadsBody(r, s, e, n);
      assert rest[n..] == s.buffer[e + 2 + n..] && rest[..n] == s.buffer[e + 2..e + 2 + n];
    }
  }

  lemma {:induction false} CutsAll(r: Reader, s: State)
    requires s.bodyLen == 0
    ensures ParseHeaders(r, s) == ParseHeaders(r, Advance(r, s))
    decreases |s.buffer|
  {
    hide Find, ParseHeaders, ParseBody;
    match FrontOf(r, s.buffer)
    case Ordinary(e, n) =>
      CutsFrame(r, s, e, n);
      var f := FrameAt(s.buffer, e, n);
      var next := State(s.buffer[e + 2 + n..], 0, Some(f.head), s.frames + [f]);
      CutsAll(r, next);
      assert Advance(r, next) == Advance(r, s) by {
        assert (s.frames + [f]) + FramesOf(r, next.buffer) == s.frames + FramesOf(r, s.buffer);
      }
    case _ =>
      assert Advance(r, s) == s;
  }

  /** Reading, where no ordinary frame stands at the front. */
  lemma Stuck(r: Reader, s: State)
    requires s.bodyLen == 0 && !FrontOf(r, s.buffer).Ordinary? && !FrontOf(r, s.buffer).Negative?
    ensures var s' := ParseHeaders(r, s).state;
            match FrontOf(r, s.buffer)
            case Partial => s' == s
            case Waiting(e, n) => s' == State(s.buffer[e + 2..], n, Some(s.buffer[..e]), s.frames)
            case Throwing(at) => s'.bodyLen == 0 && s'.buffer == s.buffer[at..] && s'.frames == s.frames
            case _ => true
  {
    var e := HeaderEnd(s.buffer);
    if e >= 0 && r.length(s.buffer[..e]).Some? {
      var n := r.length(s.buffer[..e]).value;
      if e + 2 + n <= |s.buffer| {
        CutsFrame(r, s, e, n);
      }
    }
  }

  /* ---- steady streams: division is of no consequence ---- */

  /** From a state about to read a header block, reading `a` and then `b` is reading `a + b`. */
  lemma Appends(r: Reader, s: State, b: seq<byte>)
    requires s.bodyLen == 0 && Steady(r, s.buffer + b)
    ensures OnData(r, ParseHeaders(r, s).state, b).state == ParseHeaders(r, s.(buffer := s.buffer + b)).state
  {
    hide FrontOf, Find, ParseHeaders, ParseBody, FramesOf, RestOf;
    var a := s.buffer;
    var rest, mid := RestOf(r, a), Advance(r, s);
    Resumes(r, a, b);
    CutsAll(r, s);
    CutsAll(r, s.(buffer := a + b));
    CutsAll(r, mid.(buffer := rest + b));
    assert Advance(r, mid.(buffer := rest + b)) == Advance(r, s.(buffer := a + b)) by {
      assert s.frames + (FramesOf(r, a) + FramesOf(r, rest + b)) == (s.frames + FramesOf(r, a)) + FramesOf(r, rest + b);
    }
    Decoded(r, a);
    AppendsStuck(r, mid, b);
  }

  lemma AppendsStuck(r: Reader, s: State, b: seq<byte>)
    requires s.bodyLen == 0 && Steady(r, s.buffer + b) && !FrontOf(r, s.buffer).Ordinary?
    ensures OnData(r, ParseHeaders(r, s).state, b).state == ParseHeaders(r, s.(buffer := s.buffer + b)).state
  {
    hide Find, ParseHeaders, ParseBody;
    var a := s.buffer;
    var both := s.(buffer := a + b);
    match FrontOf(r, a)
    case Partial =>
      PartialReads(r, s);
    case Waiting(e, n) =>
      WaitingAppends(r, s, b);
    case Throwing(at) =>
      FrontKeeps(r, a, b);
      ThrowingReads(r, s);
      ThrowingReads(r, both);
      assert (a + b)[at..] == a[at..] + b;
      PartialReads(r, ParseHeaders(r, s).state.(buffer := a[at..] + b));
    case Negative(at) =>
      FrontKeeps(r, a, b);
      assert b == [] && a + b == a;
      NegativeReads(r, s);
  }

  lemma PartialReads(r: Reader, s: State)
    requires HeaderEnd(s.buffer) < 0
    ensures ParseHeaders(r, s) == Outcome(s, false)
  {
    hide Find;
  }

  /** A block with a negative length and nothing behind it keeps that length pending. */
  lemma NegativeReads(r: Reader, s: State)
    requires s.bodyLen == 0 && FrontOf(r, s.buffer).Negative? && FrontOf(r, s.buffer).at == |s.buffer|
    ensures var s' := ParseHeaders(r, s).state; s'.buffer == [] && s'.bodyLen <= 0 && OnData(r, s', []).state == s'
  {
    hide Find;
    assert HeaderEnd([]) < 0 by { NothingEnds(); }
  }

  lemma NothingEnds()
    ensures HeaderEnd([]) < 0
  {
  }

  lemma WaitingAppends(r: Reader, s: State, b: seq<byte>)
    requires s.bodyLen == 0 && FrontOf(r, s.buffer).Waiting?
    ensures OnData(r, ParseHeaders(r, s).state, b).state == ParseHeaders(r, s.(buffer := s.buffer + b)).state
  {
    hide Find;
    var Waiting(e, n) := FrontOf(r, s.buffer);
    var both := s.buffer + b;
    FindExtends(s.buffer, b, NEWLINES);
    assert both[..e] == s.buffer[..e] && both[e + 2..] == s.buffer[e + 2..] + b;
    ReadsBody(r, s, e, n);
    ReadsBody(r, s.(buffer := both), e, n);
  }

  /** Bytes that follow do not change a throw or a negative length. */
  lemma FrontKeeps(r: Reader, a: seq<byte>, b: seq<byte>)
    requires FrontOf(r, a).Throwing? || FrontOf(r, a).Negative?
    ensures FrontOf(r, a + b) == FrontOf(r, a) && RestOf(r, a + b) == a + b && HeaderEnd(a + b) == HeaderEnd(a)
    ensures (a + b)[..HeaderEnd(a)] == a[..HeaderEnd(a)]
  {
    FindExtends(a, b, NEWLINES);
    var e := HeaderEnd(a);
    assert (a + b)[..e] == a[..e];
    match r.length(a[..e])
    case None =>
    case Some(n) =>
      assert n >= 0 ==> (a + b)[e + 2..e + 2 + n] == a[e + 2..e + 2 + n];
  }

  /** The state in which a throw leaves the framer. */
  lemma ThrowingReads(r: Reader, s: State)
    requires s.bodyLen == 0 && FrontOf(r, s.buffer).Throwing?
    ensures var e := HeaderEnd(s.buffer);
            ParseHeaders(r, s) == Outcome(
              State(s.buffer[FrontOf(r, s.buffer).at..], 0,
                    if r.length(s.buffer[..e]) == None then None else Some(s.buffer[..e]), s.frames),
              true)
  {
    var e := HeaderEnd(s.buffer);
    match r.length(s.buffer[..e])
    case None =>
    case Some(n) => CutsFrame(r, s, e, n);
  }

  lemma SteadyPrefix(r: Reader, a: seq<byte>, b: seq<byte>)
    requires Steady(r, a + b)
    ensures Steady(r, a)
  {
    Resumes(r, a, b);
    Decoded(r, a);
    var rest := RestOf(r, a);
    match FrontOf(r, rest)
    case Throwing(at) =>
      FrontKeeps(r, rest, b);
      assert (rest + b)[at..] == rest[at..] + b;
      if HeaderEnd(rest[at..]) >= 0 {
        FindExtends(rest[at..], b, NEWLINES);
      }
    case Negative(at) => FrontKeeps(r, rest, b);
    case _ =>
  }

  /** However a steady stream is divided, feeding the rest piece by piece ends where one event would. */
  lemma {:induction false} SteadyFeed(r: Reader, a: seq<byte>, chunks: seq<seq<byte>>)
    requires Steady(r, a + Flatten(chunks))
    ensures Feed(r, Whole(r, a), chunks) == Whole(r, a + Flatten(chunks))
    decreases |chunks|
  {
    if chunks == [] {
      assert a + Flatten(chunks) == a;
    } else {
      var c, more := chunks[0], chunks[1..];
      assert a + Flatten(chunks) == (a + c) + Flatten(more);
      SteadyPrefix(r, a + c, Flatten(more));
      Appends(r, INIT.(buffer := a), c);
      assert INIT.buffer + a == a && INIT.buffer + (a + c) == a + c;
      SteadyFeed(r, a + c, more);
    }
  }

  lemma SteadyRun(r: Reader, chunks: seq<seq<byte>>)
    requires Steady(r, Flatten(chunks))
    ensures Feed(r, INIT, chunks) == ParseHeaders(r, INIT.(buffer := Flatten(chunks))).state
  {
    var stream := Flatten(chunks);
    assert [] + stream == stream && INIT.buffer + stream == stream && Whole(r, []) == INIT;
    SteadyFeed(r, [], chunks);
  }

  /* ---- unsteady streams: two divisions that end differently ---- */

  lemma FeedTwo(r: Reader, s: State, a: seq<byte>, b: seq<byte>)
    ensures Feed(r, s, [a]) == OnData(r, s, a).state
    ensures Feed(r, s, [a, b]) == OnData(r, OnData(r, s, a).state, b).state
    ensures Flatten([a, b]) == a + b && Flatten([a]) == a
  {
    assert [a, b][1..] == [b] && [b][1..] == [] && [a][1..] == [];
    assert Flatten([b]) == b + [];
    var mid := OnData(r, s, a).state;
    assert Feed(r, mid, [b]) == Feed(r, OnData(r, mid, b).state, []);
  }

  /** Reading never gives bytes back, and a complete block costs at least its terminator. */
  lemma {:induction false} Shrinks(r: Reader, s: State)
    ensures |ParseHeaders(r, s).state.buffer| <= |s.buffer|
    ensures HeaderEnd(s.buffer) >= 0 ==> |ParseHeaders(r, s).state.buffer| < |s.buffer|
    ensures s.frames <= ParseHeaders(r, s).state.frames
    decreases |s.buffer|, 0
  {
    var e := HeaderEnd(s.buffer);
    if e >= 0 {
      var head, rest := s.buffer[..e], s.buffer[e + 2..];
      var s' := s.(buffer := rest, head := Some(head));
      if r.length(head).Some? {
        ShrinksBody(r, s'.(bodyLen := r.length(head).value));
        Shrinks(r, s'.(frames := s.frames + [Frame(head, None)]));
      }
    }
  }

  lemma {:induction false} ShrinksBody(r: Reader, s: State)
    ensures |ParseBody(r, s).state.buffer| <= |s.buffer|
    ensures s.frames <= ParseBody(r, s).state.frames
    decreases |s.buffer|, 1
  {
    if |s.buffer| >= s.bodyLen {
      var frame := Frame(if s.head.Some? then s.head.value else [], Some(SliceTo(s.buffer, s.bodyLen)));
      Shrinks(r, s.(buffer := SliceFrom(s.buffer, s.bodyLen), bodyLen := 0, frames := s.frames + [frame]));
    }
  }

  /** A throw in the middle of one event leaves the bytes behind it unread; a division after the
      bytes that throw reads on. */
  lemma ThrowSplits(r: Reader, stream: seq<byte>)
    requires FrontOf(r, RestOf(r, stream)).Throwing? && !Steady(r, stream)
    ensures !ChunkInvariant(r, stream)
  {
    hide Find, FrontOf, ParseHeaders, ParseBody, FramesOf, RestOf, EncodeAll, Feed;
    var rest := RestOf(r, stream);
    var at := FrontOf(r, rest).at;
    var left := rest[at..];
    var a := EncodeAll(FramesOf(r, stream)) + rest[..at];
    Decoded(r, stream);
    assert a + left == stream && rest[..at] + left == rest;
    ThrowPrefix(r, rest);
    Encoded(r, FramesOf(r, stream), rest[..at]);
    ThrowLeaves(r, stream);
    ThrowLeaves(r, a);
    FeedTwo(r, INIT, stream, []);
    FeedTwo(r, INIT, a, left);
    var mid := OnData(r, INIT, a).state;
    assert mid.buffer == [] && mid.buffer + left == left;
    Shrinks(r, mid.(buffer := left));
  }

  lemma ThrowLeaves(r: Reader, stream: seq<byte>)
    requires FrontOf(r, RestOf(r, stream)).Throwing?
    ensures var rest := RestOf(r, stream); var s := OnData(r, INIT, stream).state;
            s.buffer == rest[FrontOf(r, rest).at..] && s.bodyLen == 0
  {
    var s := INIT.(buffer := stream);
    assert INIT.buffer + stream == stream;
    CutsAll(r, s);
    ThrowingReads(r, Advance(r, s));
  }

  /** Cut right after the bytes that throw, a stream still throws there. */
  lemma ThrowPrefix(r: Reader, b: seq<byte>)
    requires FrontOf(r, b).Throwing?
    ensures var a := b[..FrontOf(r, b).at]; FrontOf(r, a) == FrontOf(r, b) && RestOf(r, a) == a
  {
    var at := FrontOf(r, b).at;
    var a := b[..at];
    var e := HeaderEnd(b);
    assert a + b[at..] == b;
    FindInPrefix(a, b[at..], NEWLINES);
    assert a[..e] == b[..e];
    match r.length(b[..e])
    case None =>
    case Some(n) => assert a[e + 2..e + 2 + n] == b[e + 2..e + 2 + n];
  }

  /** What one-byte reading keeps, and a negative length read in one piece breaks: no emitted frame
      announces a negative length, and a block that does still has it pending. */
  predicate NegativePending(r: Reader, s: State) {
    && (forall i :: 0 <= i < |s.frames| ==> ContentLength(r, s.frames[i].head) >= 0)
    && (s.head.Some? && ContentLength(r, s.head.value) < 0 ==> s.bodyLen == ContentLength(r, s.head.value))
  }

  /** Nothing more can be cut from the buffer. */
  predicate Drained(r: Reader, s: State) {
    if s.bodyLen > 0 then s.head.Some? && ContentLength(r, s.head.value) == s.bodyLen && |s.buffer| < s.bodyLen
    else HeaderEnd(s.buffer) < 0
  }

  lemma OneByte(r: Reader, s: State, x: byte)
    requires NegativePending(r, s) && Drained(r, s)
    ensures NegativePending(r, OnData(r, s, [x]).state) && Drained(r, OnData(r, s, [x]).state)
  {
    var b := s.buffer + [x];
    if s.bodyLen <= 0 && HeaderEnd(b) >= 0 {
      if HeaderEnd(b) + 2 <= |s.buffer| {
        FindInPrefix(s.buffer, [x], NEWLINES);
      }
      assert b[HeaderEnd(b) + 2..] == [];
    } else if s.bodyLen > 0 && |b| >= s.bodyLen {
      var f := Frame(s.head.value, Some(SliceTo(b, s.bodyLen)));
      var done := State([], 0, s.head, s.frames);
      assert SliceFrom(b, s.bodyLen) == [];
      assert ParseBody(r, s.(buffer := b)) ==
             if r.throws(f) then Outcome(done, true) else ParseHeaders(r, done.(frames := s.frames + [f]));
    }
  }

  function Singles<T>(s: seq<T>): seq<seq<T>> {
    if s == [] then [] else [[s[0]]] + Singles(s[1..])
  }

  lemma {:induction false} ByteByByte(r: Reader, s: State, stream: seq<byte>)
    requires NegativePending(r, s) && Drained(r, s)
    ensures NegativePending(r, Feed(r, s, Singles(stream)))
    ensures Flatten(Singles(stream)) == stream
    decreases |stream|
  {
    if stream != [] {
      OneByte(r, s, stream[0]);
      ByteByByte(r, OnData(r, s, [stream[0]]).state, stream[1..]);
      assert Singles(stream)[1..] == Singles(stream[1..]);
    }
  }

  /** A negative length in one piece: the slices are cut, and the handler throws or reads on. */
  lemma NegativeCut(r: Reader, s: State)
    requires s.bodyLen == 0
    requires FrontOf(r, s.buffer).Negative? && FrontOf(r, s.buffer).at < |s.buffer|
    ensures var e := HeaderEnd(s.buffer);
            var head, rest := s.buffer[..e], s.buffer[e + 2..];
            var n := ContentLength(r, head);
            var frame := Frame(head, Some(SliceTo(rest, n)));
            n < 0 && ParseHeaders(r, s) ==
            if r.throws(frame) then Outcome(State(SliceFrom(rest, n), 0, Some(head), s.frames), true)
            else ParseHeaders(r, State(SliceFrom(rest, n), 0, Some(head), s.frames + [frame]))
  {
    hide Find, SliceTo, SliceFrom;
  }

  lemma NegativeInOnePiece(r: Reader, s: State)
    requires s.bodyLen == 0
    requires FrontOf(r, s.buffer).Negative? && FrontOf(r, s.buffer).at < |s.buffer|
    ensures !NegativePending(r, ParseHeaders(r, s).state)
  {
    hide Find, SliceTo, SliceFrom, ParseHeaders;
    NegativeCut(r, s);
    var e := HeaderEnd(s.buffer);
    var head, rest := s.buffer[..e], s.buffer[e + 2..];
    var n := ContentLength(r, head);
    var frame := Frame(head, Some(SliceTo(rest, n)));
    var next := State(SliceFrom(rest, n), 0, Some(head), s.frames + [frame]);
    Shrinks(r, next);
    if !r.throws(frame) {
      assert next.frames <= ParseHeaders(r, s).state.frames;
      assert next.frames[|s.frames|] == frame;
    }
  }

  lemma NegativeSplits(r: Reader, stream: seq<byte>)
    requires FrontOf(r, RestOf(r, stream)).Negative? && !Steady(r, stream)
    ensures !ChunkInvariant(r, stream)
  {
    hide Find, FrontOf, ParseHeaders, ParseBody, FramesOf, RestOf;
    var s := INIT.(buffer := stream);
    CutsAll(r, s);
    NegativeInOnePiece(r, Advance(r, s));
    assert INIT.buffer + stream == stream;
    ByteByByte(r, INIT, stream);
    FeedTwo(r, INIT, stream, []);
  }

  /** Any two ways of dividing a stream into `data` events emit the same events and end in the
      same buffer, pending length and pending headers exactly when the stream is steady. */
  lemma ChunkInvariance(r: Reader, stream: seq<byte>)
    ensures ChunkInvariant(r, stream) <==> Steady(r, stream)
  {
    if Steady(r, stream) {
      forall chunks, chunks' | Flatten(chunks) == stream && Flatten(chunks') == stream
        ensures Feed(r, INIT, chunks) == Feed(r, INIT, chunks')
      {
        SteadyRun(r, chunks);
        SteadyRun(r, chunks');
      }
    } else if FrontOf(r, RestOf(r, stream)).Throwing? {
      ThrowSplits(r, stream);
    } else {
      NegativeSplits(r, stream);
    }
  }

  /* ---- framing round trip and conservation ---- */

  /** The bytes received that are not yet part of an emitted frame. */
  function Pending(s: State): seq<byte> {
    if s.bodyLen > 0 && s.head.Some? then s.head.value + NEWLINES + s.buffer else s.buffer
  }

  /** Round trip: the encoding of any list of well-formed frames, divided in any way and followed by any
      part of a further frame, emits exactly those frames, in order, and keeps exactly that part. */
  lemma FramingRoundTrip(r: Reader, frames: seq<Frame>, tail: seq<byte>, chunks: seq<seq<byte>>)
    requires forall f :: f in frames ==> WellFormed(r, f)
    requires FrontOf(r, tail).Partial? || FrontOf(r, tail).Waiting?
    requires Flatten(chunks) == EncodeAll(frames) + tail
    ensures var s := Feed(r, INIT, chunks); s.frames == frames && Pending(s) == tail && Drained(r, s)
  {
    hide Find, ParseHeaders, ParseBody;
    Encoded(r, frames, tail);
    Conservation(r, chunks);
    SteadyRun(r, chunks);
    var s := INIT.(buffer := Flatten(chunks));
    CutsAll(r, s);
    Stuck(r, Advance(r, s));
    assert frames + [] == frames && [] + frames == frames;
    var e := Feed(r, INIT, chunks);
    assert EncodeAll(frames) + Pending(e) == EncodeAll(frames) + tail;
    SamePrefix(EncodeAll(frames), Pending(e), tail);
  }

  lemma SamePrefix<T>(a: seq<T>, b: seq<T>, c: seq<T>)
    requires a + b == a + c
    ensures b == c
  {
    assert b == (a + b)[|a|..] && c == (a + c)[|a|..];
  }

  /** Conservation: on a stream without throws and negative lengths, at every point the emitted frames
      are well-formed and, followed by what is pending, are the bytes received; what is pending holds
      no complete frame. */
  lemma Conservation(r: Reader, chunks: seq<seq<byte>>)
    requires var front := FrontOf(r, RestOf(r, Flatten(chunks))); front.Partial? || front.Waiting?
    ensures var s := Feed(r, INIT, chunks);
            && EncodeAll(s.frames) + Pending(s) == Flatten(chunks)
            && Drained(r, s)
            && forall f :: f in s.frames ==> WellFormed(r, f)
  {
    hide Find, ParseHeaders, ParseBody, FramesOf, RestOf, EncodeAll, FrontOf, Flatten, Pending, Drained, WellFormed;
    var stream := Flatten(chunks);
    SteadyRun(r, chunks);
    var s := INIT.(buffer := stream);
    var mid := Advance(r, s);
    CutsAll(r, s);
    Decoded(r, stream);
    StuckPending(r, mid);
    assert [] + FramesOf(r, stream) == FramesOf(r, stream);
  }

  /** What does not begin with a frame stays, as it came. */
  lemma StuckPending(r: Reader, s: State)
    requires s.bodyLen == 0 && (FrontOf(r, s.buffer).Partial? || FrontOf(r, s.buffer).Waiting?)
    ensures var s' := ParseHeaders(r, s).state; Pending(s') == s.buffer && Drained(r, s') && s'.frames == s.frames
  {
    hide Find, ParseHeaders;
    Stuck(r, s);
    FindAt(s.buffer, NEWLINES);
    match FrontOf(r, s.buffer)
    case Waiting(e, n) => assert s.buffer == s.buffer[..e] + NEWLINES + s.buffer[e + 2..];
    case _ =>
  }
}
