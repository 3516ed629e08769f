/** The `Parser` object of the event-socket client: a buffer that grows with every `data` event and
    from which complete frames are cut and emitted. */
module EslParser {
  import opened Strings
  import opened Headers
  import C = EventCodec
  import F = Framing
  import H = HeaderLaws

  /** The arguments of one `esl::event` emission: the header object and the decoded body. */
  datatype Emission = Emission(headers: HeaderMap, body: Option<string>)

  function HeadersOf(host: Host, head: seq<byte>): Option<HeaderMap> {
    ParseHeaderText(host, host.utf8(head))
  }

  function BodyText(host: Host, body: Option<seq<byte>>): Option<string> {
    match body
    case None => None
    case Some(bytes) => Some(host.utf8(bytes))
  }

  function EmissionOf(host: Host, f: F.Frame): Emission {
    Emission(match HeadersOf(host, f.head) case None => map[] case Some(headers) => headers,
             BodyText(host, f.body))
  }

  function EmissionsOf(host: Host, frames: seq<F.Frame>): seq<Emission> {
    seq(|frames|, i requires 0 <= i < |frames| => EmissionOf(host, frames[i]))
  }

  function LengthIn(host: Host, head: seq<byte>): Option<int> {
    match HeadersOf(host, head)
    case None => None
    case Some(headers) => Some(AnnouncedLength(headers))
  }

  predicate ThrowsOn(host: Host, f: F.Frame) {
    host.throws(EmissionOf(host, f).headers, EmissionOf(host, f).body)
  }

  /** How this parser looks into a header block. */
  function ReaderOf(host: Host): F.Reader {
    F.Reader(head => LengthIn(host, head), f => ThrowsOn(host, f))
  }

  class Parser {
    const host: Host
    var buffer: seq<byte>
    var bodyLen: int
    var headers: Option<HeaderMap>
    var emitted: seq<Emission>

    // The raw block the headers were read from, and the raw frames behind the emissions.
    ghost var head: Option<seq<byte>>
    ghost var frames: seq<F.Frame>

    ghost predicate Valid()
      reads this
    {
      && headers == (match head case None => None case Some(block) => HeadersOf(host, block))
      && (head.Some? ==> headers.Some?)
      && (bodyLen > 0 ==> head.Some?)
      && emitted == EmissionsOf(host, frames)
    }

    ghost function State(): F.State
      reads this
    {
      F.State(buffer, bodyLen, head, frames)
    }

    constructor (host: Host)
      ensures Valid() && State() == F.INIT && this.host == host
    {
      this.host := host;
      buffer, bodyLen, headers, emitted := [], 0, None, [];
      head, frames := None, [];
    }

    method OnData(data: seq<byte>) returns (threw: bool)
      requires Valid()
      modifies this
      ensures Valid()
      ensures F.Outcome(State(), threw) == F.OnData(ReaderOf(host), old(State()), data)
    {
      buffer := buffer + data;
      if bodyLen > 0 {
        threw := ParseBody();
      } else {
        threw := ParseHeaders();
      }
    }

    method IndexOfHeaderEnd() returns (r: int)
      ensures r == F.HeaderEnd(buffer)
    {
      var i := 0;
      while i < |buffer| - 1
        invariant 0 <= i <= |buffer|
        invariant forall k :: 0 <= k < i ==> !At(buffer, F.NEWLINES, k)
      {
        if buffer[i] == 0x0a && buffer[i + 1] == 0x0a {
          assert At(buffer, F.NEWLINES, i);
          FindLeast(buffer, F.NEWLINES, i);
          FindAt(buffer, F.NEWLINES);
          return i;
        }
        assert buffer[i..i + 2] == [buffer[i], buffer[i + 1]];
        i := i + 1;
      }
      FindAt(buffer, F.NEWLINES);
      return -1;
    }

    method ParseHeaders() returns (threw: bool)
      requires Valid() && bodyLen <= 0
      modifies this
      ensures Valid()
      ensures F.Outcome(State(), threw) == F.ParseHeaders(ReaderOf(host), old(State()))
      decreases |buffer|, 0
    {
      hide Find, ParseHeaderText, AnnouncedLength, EmissionsOf;
      var headEnd := IndexOfHeaderEnd();
      if headEnd == -1 {
        return false;
      }
      var block := buffer[..headEnd];
      buffer := buffer[headEnd + 2..];
      headers := HeadersOf(host, block);
      if headers == None {
        head := None;
        return true;
      }
      head := Some(block);
      if AnnouncedLength(headers.value) != 0 {
        bodyLen := AnnouncedLength(headers.value);
        if buffer != [] {
          threw := ParseBody();
        } else {
          threw := false;
        }
      } else {
        threw := Emit(None);
        if !threw && buffer != [] {
          threw := ParseHeaders();
        }
      }
    }

    method ParseBody() returns (threw: bool)
      requires Valid() && head.Some?
      modifies this
      ensures Valid()
      ensures F.Outcome(State(), threw) == F.ParseBody(ReaderOf(host), old(State()))
      decreases |buffer|, 1
    {
      if |buffer| < bodyLen {
        return false;
      }
      var body := F.SliceTo(buffer, bodyLen);
      buffer := F.SliceFrom(buffer, bodyLen);
      bodyLen := 0;
      threw := Emit(Some(body));
      if !threw {
        threw := ParseHeaders();
      }
    }

    /** Build the event of the current headers and a body, and emit it. */
    method Emit(body: Option<seq<byte>>) returns (threw: bool)
      requires Valid() && head.Some?
      modifies this`emitted, this`frames
      ensures Valid()
      ensures threw == ReaderOf(host).throws(F.Frame(head.value, body))
      ensures frames == if threw then old(frames) else old(frames) + [F.Frame(head.value, body)]
    {
      var text := BodyText(host, body);
      threw := host.throws(headers.value, text);
      if !threw {
        emitted := emitted + [Emission(headers.value, text)];
        frames := frames + [F.Frame(head.value, body)];
      }
    }
  }

  /** The bytes are the encoding of well-formed frames, and part of a further one. */
  predicate SentBy(host: Host, chunks: seq<seq<byte>>, frames: seq<F.Frame>, tail: seq<byte>) {
    && (forall f :: f in frames ==> F.WellFormed(ReaderOf(host), f))
    && (F.FrontOf(ReaderOf(host), tail).Partial? || F.FrontOf(ReaderOf(host), tail).Waiting?)
    && F.Flatten(chunks) == F.EncodeAll(frames) + tail
  }

  /** The emission says what its frame carries: no body, or the text whose encoding the body is; and the headers of
      a block that is the encoding of entries. */
  ghost predicate Carries(host: Host, f: F.Frame, e: Emission) {
    && (f.body.None? ==> e.body == None)
    && (forall text :: f.body == Some(host.encode(text)) ==> e.body == Some(text))
    && (forall entries :: H.Fit(entries) && f.head == host.encode(H.BlockText(entries)) ==>
          H.HeadersSay(host, entries, e.headers))
  }

  lemma Reencoded(host: Host, text: string)
    requires C.Utf8(host)
    ensures host.utf8(host.encode(text)) == text
  {
    assert host.encode(text) + [] == host.encode(text);
    assert host.utf8(host.encode(text) + []) == text + host.utf8([]);
  }

  lemma EmissionCarries(host: Host, f: F.Frame)
    requires C.Utf8(host)
    ensures Carries(host, f, EmissionOf(host, f))
  {
    hide C.Utf8, H.Fit, H.HeadersSay, H.BlockText, ParseHeaderText;
    forall text | f.body == Some(host.encode(text)) ensures EmissionOf(host, f).body == Some(text) {
      Reencoded(host, text);
    }
    forall entries | H.Fit(entries) && f.head == host.encode(H.BlockText(entries))
      ensures H.HeadersSay(host, entries, EmissionOf(host, f).headers) {
      Reencoded(host, H.BlockText(entries));
      H.BlockSays(host, entries);
    }
  }

  /** Whether an event throws is asked with the headers its block says and the text of its body. */
  lemma ThrowsBy(host: Host, entries: H.Entries, headers: HeaderMap, text: string)
    requires C.Utf8(host) && H.Fit(entries) && H.HeadersSay(host, entries, headers)
    ensures var head := host.encode(H.BlockText(entries));
            && ReaderOf(host).throws(F.Frame(head, None)) == host.throws(headers, None)
            && ReaderOf(host).throws(F.Frame(head, Some(host.encode(text)))) == host.throws(headers, Some(text))
  {
    hide C.Utf8, H.Fit, H.HeadersSay, H.BlockText, EmissionOf;
    var head := host.encode(H.BlockText(entries));
    forall f | f == F.Frame(head, None) || f == F.Frame(head, Some(host.encode(text)))
      ensures EmissionOf(host, f).headers == headers {
      EmissionCarries(host, f);
      H.SayOnce(host, entries, headers, EmissionOf(host, f).headers);
    }
    EmissionCarries(host, F.Frame(head, None));
    EmissionCarries(host, F.Frame(head, Some(host.encode(text))));
  }

  /** The length the framer goes by is the one the block announces, 0 for none or no number. */
  lemma LengthSays(host: Host, entries: H.Entries)
    requires C.Utf8(host) && H.Fit(entries)
    ensures var length := ReaderOf(host).length(host.encode(H.BlockText(entries)));
            && (!H.Names(entries, "Content-Length") ==> length == Some(0))
            && forall i :: 0 <= i < |entries| && entries[i].0 == "Content-Length" && H.Last(entries, i) ==>
                 var decoded := match host.percent(entries[i].1) case Some(t) => t case None => "";
                 length == match ParseInt(decoded) case Some(n) => Some(n) case None => Some(0)
  {
    hide C.Utf8, H.Fit, H.HeadersSay, H.BlockText, ParseHeaderText, ParseInt, AnnouncedLength;
    Reencoded(host, H.BlockText(entries));
    H.BlockSays(host, entries);
    H.AnnouncedBy(host, entries, ParseHeaderText(host, H.BlockText(entries)).value);
  }

  /** A parser object that is given the bytes of a socket, however they are divided, ends as the framer does, with an
      emission for each frame that says what the frame carries. When the bytes are the encoding of a server's frames
      and part of a further one, those are the frames, and just that part is kept. */
  method Receive(host: Host, chunks: seq<seq<byte>>, ghost frames: seq<F.Frame>, ghost tail: seq<byte>)
    returns (p: Parser)
    ensures fresh(p) && p.Valid() && p.host == host && p.State() == F.Feed(ReaderOf(host), F.INIT, chunks)
    ensures |p.emitted| == |p.frames|
    ensures C.Utf8(host) ==> forall i :: 0 <= i < |p.emitted| ==> Carries(host, p.frames[i], p.emitted[i])
    ensures SentBy(host, chunks, frames, tail) ==> p.frames == frames && F.Pending(p.State()) == tail
  {
    hide F.OnData, F.Pending, EmissionOf, Carries;
    p := new Parser(host);
    var i := 0;
    while i < |chunks|
      invariant 0 <= i <= |chunks| && fresh(p) && p.Valid() && p.host == host
      invariant F.Feed(ReaderOf(host), p.State(), chunks[i..]) == F.Feed(ReaderOf(host), F.INIT, chunks)
    {
      assert chunks[i..][1..] == chunks[i + 1..];
      var threw := p.OnData(chunks[i]);
      i := i + 1;
    }
    if SentBy(host, chunks, frames, tail) {
      F.FramingRoundTrip(ReaderOf(host), frames, tail, chunks);
    }
    if C.Utf8(host) {
      forall k | 0 <= k < |p.emitted| ensures Carries(host, p.frames[k], p.emitted[k]) {
        EmissionCarries(host, p.frames[k]);
      }
    }
  }

  /* ---- streams whose division matters ---- */

  /** A block that opens a stream ends at its own end, if it holds no newline. */
  lemma FirstBlock(head: seq<byte>, more: seq<byte>)
    requires 10 !in head
    ensures F.HeaderEnd(head + F.NEWLINES + more) == |head|
  {
    var stream := head + F.NEWLINES + more;
    assert stream[|head|..|head| + 2] == F.NEWLINES;
    FindLeast(stream, F.NEWLINES, |head|);
    FindAt(stream, F.NEWLINES);
    var k := F.HeaderEnd(stream);
    assert stream[k..k + 2][0] == stream[k];
  }

  /** A stream that opens with an empty block, which throws in the real parser: how it is divided is of no
      consequence exactly when no block ends behind. */
  lemma EmptyBlock(host: Host, more: seq<byte>)
    requires host.utf8([]) == ""
    ensures F.ChunkInvariant(ReaderOf(host), F.NEWLINES + more) <==> F.HeaderEnd(more) < 0
  {
    hide Find, F.ChunkInvariant;
    var r, stream := ReaderOf(host), F.NEWLINES + more;
    assert [] + F.NEWLINES + more == stream;
    FirstBlock([], more);
    assert stream[..0] == [] && stream[2..] == more;
    assert F.FrontOf(r, stream) == F.Throwing(2);
    F.ChunkInvariance(r, stream);
  }

  /** A stream that opens with a block of nothing but a negative Content-Length: how it is divided is of no
      consequence exactly when nothing follows. */
  lemma NegativeBlock(host: Host, head: seq<byte>, n: int, more: seq<byte>)
    requires C.PlainPercent(host) && n < 0
    requires 10 !in head && host.utf8(head) == C.Line((CONTENT_LENGTH, Number(n)))
    ensures F.ChunkInvariant(ReaderOf(host), head + F.NEWLINES + more) <==> more == []
  {
    hide Find, F.ChunkInvariant, LengthIn;
    var r, stream := ReaderOf(host), head + F.NEWLINES + more;
    FirstBlock(head, more);
    assert stream[..|head|] == head;
    NegativeLength(host, head, n);
    assert F.FrontOf(r, stream) == F.Negative(|head| + 2);
    F.ChunkInvariance(r, stream);
  }

  lemma NegativeLength(host: Host, head: seq<byte>, n: int)
    requires C.PlainPercent(host) && n < 0 && host.utf8(head) == C.Line((CONTENT_LENGTH, Number(n)))
    ensures LengthIn(host, head) == Some(n)
  {
    hide Find, Decimal, ParseInt, ParseHeaderText, C.Fit;
    var pair := (CONTENT_LENGTH, Number(n));
    C.LengthFits(n);
    C.HeadersBack(host, [pair]);
    ParseIntDecimal(n);
    assert [pair][1..] == [];
    assert C.Lines([pair]) == [C.Line(pair)];
    assert C.FoldPairs([pair], map[]) == map[CONTENT_LENGTH := Number(n)];
  }
}
