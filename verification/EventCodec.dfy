/** The `Event` object, its plain serialization, and the parser's way back. */
module EventCodec {
  import opened Strings
  import opened Headers
  import H = HeaderLaws

  /** The insertion-ordered `Map` of headers. */
  type Pairs = seq<(string, Value)>

  function ValueText(v: Value): string {
    match v
    case Text(text) => text
    case Number(n) => Decimal(n)
    case NaN => "NaN"
  }

  predicate HasKey(pairs: Pairs, key: string) {
    exists i :: 0 <= i < |pairs| && pairs[i].0 == key
  }

  /** `map.set(key, value)`: in its old place if the key is there, else at the end. */
  function SetPair(pairs: Pairs, key: string, value: Value): Pairs {
    if pairs == [] then [(key, value)]
    else if pairs[0].0 == key then [(key, value)] + pairs[1..]
    else [pairs[0]] + SetPair(pairs[1..], key, value)
  }

  lemma {:induction false} SetPairAt(pairs: Pairs, key: string, value: Value, i: nat)
    requires i <= |pairs| && forall k :: 0 <= k < i ==> pairs[k].0 != key
    requires i < |pairs| ==> pairs[i].0 == key
    ensures SetPair(pairs, key, value) == if i < |pairs| then pairs[i := (key, value)] else pairs + [(key, value)]
  {
    if pairs != [] && i > 0 {
      SetPairAt(pairs[1..], key, value, i - 1);
    }
  }

  function Line(pair: (string, Value)): string { pair.0 + ": " + ValueText(pair.1) }

  function Lines(pairs: Pairs): seq<string> {
    if pairs == [] then [] else [Line(pairs[0])] + Lines(pairs[1..])
  }

  /** One line a header, each ended by a newline. */
  function PrintedPairs(pairs: Pairs): string {
    if pairs == [] then "" else Line(pairs[0]) + "\n" + PrintedPairs(pairs[1..])
  }

  lemma PrintedFrom(pairs: Pairs, i: nat)
    requires i < |pairs|
    ensures PrintedPairs(pairs[i..]) == Line(pairs[i]) + "\n" + PrintedPairs(pairs[i + 1..])
  {
    assert pairs[i..][1..] == pairs[i + 1..];
  }

  /** `body.replace('\n', '%0A')`: the first newline only. */
  function ReplaceNewline(body: string): string {
    var k := Find(body, "\n");
    if k < 0 then body else body[..k] + "%0A" + body[k + 1..]
  }

  function PrintedEvent(pairs: Pairs, body: string): string {
    Trim(PrintedPairs(pairs) + BodyPart(body))
  }

  function BodyPart(body: string): string {
    if body != "" then "\n" + ReplaceNewline(body) else ""
  }

  /** The headers an event starts with. */
  function Named(eventName: string, subclass: string): Pairs {
    if subclass == "" then [("Event-Name", Text(eventName))]
    else [("Event-Name", Text(eventName)), ("Event-Subclass", Text(subclass))]
  }

  /** The headers once `more` are added one by one. */
  function SetAll(pairs: Pairs, more: Pairs): Pairs
    decreases |more|
  {
    if more == [] then pairs else SetAll(SetPair(pairs, more[0].0, more[0].1), more[1..])
  }

  class Event {
    const host: Host
    var headers: Pairs
    var body: string

    /** An event of a type and a subclass. */
    constructor (host: Host, eventName: string, subclass: string)
      ensures this.host == host && body == ""
      ensures headers == Named(eventName, subclass)
    {
      this.host := host;
      body := "";
      headers := [];
      new;
      AddHeader("Event-Name", Text(eventName));
      if subclass != "" {
        AddHeader("Event-Subclass", Text(subclass));
      }
    }

    method AddHeader(name: string, value: Value)
      modifies this`headers
      ensures headers == SetPair(old(headers), name, value)
    {
      var i := 0;
      while i < |headers| && headers[i].0 != name
        invariant 0 <= i <= |headers|
        invariant forall k :: 0 <= k < i ==> headers[k].0 != name
      {
        i := i + 1;
      }
      SetPairAt(headers, name, value, i);
      if i < |headers| {
        headers := headers[i := (name, value)];
      } else {
        headers := headers + [(name, value)];
      }
    }

    method AddBody(value: string)
      modifies this`body
      ensures body == old(body) + value
    {
      body := body + value;
    }

    /** `serialize('plain')`; it also records the body's length among the headers. */
    method Serialize() returns (data: string)
      modifies this`headers
      ensures headers == SetPair(old(headers), CONTENT_LENGTH, Number(|host.encode(body)|))
      ensures data == PrintedEvent(headers, body)
    {
      AddHeader(CONTENT_LENGTH, Number(|host.encode(body)|));
      data := PrintHeaders(headers);
      assert data + "" == data;
      if body != "" {
        data := data + ("\n" + ReplaceNewline(body));
      }
      data := Trim(data);
    }
  }

  /** The `forEach` that accumulates the header lines. */
  method PrintHeaders(headers: Pairs) returns (data: string)
    ensures data == PrintedPairs(headers)
  {
    data := "";
    var i := 0;
    while i < |headers|
      invariant 0 <= i <= |headers|
      invariant PrintedPairs(headers) == data + PrintedPairs(headers[i..])
    {
      PrintedFrom(headers, i);
      data := data + (headers[i].0 + ": " + ValueText(headers[i].1) + "\n");
      i := i + 1;
    }
  }

  /* ---- the way back ---- */

  /** What `new Event(data)` keeps of a parsed plain body. */
  datatype Parsed = Parsed(headers: HeaderMap, body: string)

  /** `b.slice(start, end)` for a non-negative `start`. */
  function SliceRange<T>(b: seq<T>, start: nat, end: int): seq<T> {
    var e := if end < 0 then (if |b| + end < 0 then 0 else |b| + end) else if end > |b| then |b| else end;
    if e <= start then [] else b[start..e]
  }

  /** `_parsePlainBody`, and the `Event` made of its result; None where it throws. */
  function ParsePlainBody(host: Host, txt: string): Option<Parsed> {
    var headerEnd := Find(txt, "\n\n");
    match ParseHeaderText(host, if headerEnd < 0 then "" else txt[..headerEnd])
    case None => None
    case Some(headers) =>
      var n := AnnouncedLength(headers);
      var start := if headerEnd < 0 then 1 else headerEnd + 2;
      Some(Parsed(headers - {"_body"},
                  if n != 0 then host.utf8(SliceRange(host.encode(txt), start, start + n))
                  else if "_body" in headers then ValueText(headers["_body"]) else ""))
  }

  /* ---- round trip ---- */

  predicate Ascii(s: string) { forall i :: 0 <= i < |s| ==> s[i] < '\U{80}' }

  /** The encoder and decoder of UTF-8, as far as they are relied on: encoding goes character by
      character, ASCII takes one byte each, and decoding reads whole encoded characters off the front. */
  ghost predicate Utf8(host: Host) {
    && (forall a, b :: host.encode(a + b) == host.encode(a) + host.encode(b))
    && (forall a, x :: host.utf8(host.encode(a) + x) == a + host.utf8(x))
    && host.utf8([]) == ""
    && (forall a :: Ascii(a) ==> |host.encode(a)| == |a|)
  }

  /** Text without '%' is its own percent-decoding. */
  ghost predicate PlainPercent(host: Host) {
    forall t :: '%' !in t ==> host.percent(t) == Some(t)
  }

  /** A header that survives printing and parsing. */
  predicate Fit(pair: (string, Value)) {
    var (key, text) := (pair.0, ValueText(pair.1));
    && Find(key, ": ") < 0
    && key !in SKIPPED && key != "__proto__" && key != "_body"
    && '\n' !in key && '\n' !in text && '%' !in text
    && Ascii(key) && Ascii(text)
  }

  predicate FitAll(pairs: Pairs) {
    && (forall i :: 0 <= i < |pairs| ==> Fit(pairs[i]))
    && (forall i, j :: 0 <= i < j < |pairs| ==> pairs[i].0 != pairs[j].0)
    && (pairs != [] && pairs[0].0 != "" ==> !IsSpace(pairs[0].0[0]))
  }

  /** The body the way back can restore: something, on one line, not ended by white space. */
  predicate FitBody(body: string) {
    body != "" && '\n' !in body && !IsSpace(body[|body| - 1])
  }

  function ReadBack(pair: (string, Value)): Value {
    if pair.0 == CONTENT_LENGTH then
      match ParseInt(ValueText(pair.1)) case Some(n) => Number(n) case None => NaN
    else Text(ValueText(pair.1))
  }

  function FoldPairs(pairs: Pairs, acc: HeaderMap): HeaderMap {
    if pairs == [] then acc else FoldPairs(pairs[1..], acc[pairs[0].0 := ReadBack(pairs[0])])
  }

  /* A line is cut at its first ": ", which is the one that was printed. */
  lemma LineReadBack(host: Host, pair: (string, Value))
    requires PlainPercent(host) && Fit(pair)
    ensures LineKey(Line(pair)) == pair.0 && LineValue(host, Line(pair)) == ReadBack(pair)
  {
    var key, text := pair.0, ValueText(pair.1);
    KeyEnds(key, text);
    SplitAfter(key, ": ", text);
    var parts := Split(Line(pair), ": ");
    assert parts[1..] == Split(text, ": ");
    JoinSplit(text, ": ");
    assert host.percent(text) == Some(text);
  }

  lemma {:induction false} FoldReadBack(host: Host, pairs: Pairs, acc: HeaderMap)
    requires PlainPercent(host) && forall i :: 0 <= i < |pairs| ==> Fit(pairs[i])
    ensures FoldLines(host, Lines(pairs), acc) == FoldPairs(pairs, acc)
    decreases |pairs|
  {
    if pairs != [] {
      LineReadBack(host, pairs[0]);
      FoldReadBack(host, pairs[1..], acc[pairs[0].0 := ReadBack(pairs[0])]);
    }
  }

  /** With distinct keys, folding keeps every header and adds nothing. */
  lemma {:induction false} FoldKeeps(pairs: Pairs, acc: HeaderMap)
    requires forall i, j :: 0 <= i < j < |pairs| ==> pairs[i].0 != pairs[j].0
    ensures forall i :: 0 <= i < |pairs| ==>
              pairs[i].0 in FoldPairs(pairs, acc) && FoldPairs(pairs, acc)[pairs[i].0] == ReadBack(pairs[i])
    ensures forall k :: k in FoldPairs(pairs, acc) ==> k in acc || HasKey(pairs, k)
    ensures forall k :: k in acc && !HasKey(pairs, k) ==>
              k in FoldPairs(pairs, acc) && FoldPairs(pairs, acc)[k] == acc[k]
    decreases |pairs|
  {
    if pairs != [] {
      var rest, next := pairs[1..], acc[pairs[0].0 := ReadBack(pairs[0])];
      FoldKeeps(rest, next);
      assert !HasKey(rest, pairs[0].0);
      forall k | HasKey(rest, k) ensures HasKey(pairs, k) {
        var i :| 0 <= i < |rest| && rest[i].0 == k;
        assert pairs[i + 1].0 == k;
      }
      forall k | k in acc && !HasKey(pairs, k) ensures k in next && !HasKey(rest, k) && next[k] == acc[k] {
        assert k != pairs[0].0;
      }
      assert forall i :: 0 < i < |pairs| ==> pairs[i] == rest[i - 1];
    }
  }

  /* ---- what is printed ---- */

  lemma LineShape(pair: (string, Value))
    requires Fit(pair)
    ensures Line(pair) != "" && '\n' !in Line(pair) && Ascii(Line(pair))
  {
  }

  lemma {:induction false} PrintedShape(pairs: Pairs)
    requires pairs != [] && forall i :: 0 <= i < |pairs| ==> Fit(pairs[i])
    ensures PrintedPairs(pairs) == Join(Lines(pairs), "\n") + "\n"
    ensures Ascii(PrintedPairs(pairs))
    ensures Lines(pairs) != [] && forall l :: l in Lines(pairs) ==> '\n' !in l
    decreases |pairs|
  {
    LineShape(pairs[0]);
    if |pairs| == 1 {
      assert PrintedPairs(pairs[1..]) == "" && Lines(pairs) == [Line(pairs[0])];
    } else {
      PrintedShape(pairs[1..]);
      assert Lines(pairs)[1..] == Lines(pairs[1..]);
    }
  }

  /** The header lines hold no empty line; the first one is where they end. */
  lemma {:induction false} HeaderEndsAfter(pairs: Pairs, more: string)
    requires forall i :: 0 <= i < |pairs| ==> Fit(pairs[i])
    requires more == "" || (pairs != [] && more[0] == '\n') || (pairs == [] && '\n' !in more)
    ensures Find(PrintedPairs(pairs) + more, "\n\n") ==
            if pairs == [] || more == "" then -1 else |PrintedPairs(pairs)| - 1
    decreases |pairs|
  {
    hide Find, Fit, ValueText, Line;
    if pairs == [] {
      assert PrintedPairs(pairs) + more == more;
      NoBlankLine(more);
    } else {
      var line, rest := Line(pairs[0]), PrintedPairs(pairs[1..]) + more;
      LineShape(pairs[0]);
      LineSkipped(line, rest);
      assert PrintedPairs(pairs) + more == line + "\n" + rest;
      if |pairs| == 1 {
        assert rest == more;
        if more != "" {
          assert ("\n" + rest)[0..2] == "\n\n";
          FindLeast("\n" + rest, "\n\n", 0);
        } else {
          NoBlankLine(more);
        }
      } else {
        LineShape(pairs[1]);
        HeaderEndsAfter(pairs[1..], more);
        assert rest[0] == Line(pairs[1])[0];
      }
    }
  }

  lemma NoBlankLine(s: string)
    requires '\n' !in s
    ensures Find(s, "\n\n") < 0
  {
    FindAt(s, "\n\n");
    if At(s, "\n\n", Find(s, "\n\n")) {
      BlankLineAt(s, Find(s, "\n\n"));
    }
  }

  lemma BlankLineAt(s: string, i: nat)
    requires At(s, "\n\n", i)
    ensures 0 <= i && i + 1 < |s| && s[i] == '\n' && s[i + 1] == '\n'
  {
    assert s[i] == s[i..i + 2][0] && s[i + 1] == s[i..i + 2][1];
  }

  /** Searching a newline-free line and its newline adds nothing, unless the next line is empty. */
  lemma LineSkipped(line: string, rest: string)
    requires '\n' !in line
    ensures Find(line + "\n" + rest, "\n\n") ==
            if Find("\n" + rest, "\n\n") < 0 then -1 else |line| + Find("\n" + rest, "\n\n")
    ensures rest == "" || rest[0] != '\n' ==>
              Find("\n" + rest, "\n\n") == if Find(rest, "\n\n") < 0 then -1 else 1 + Find(rest, "\n\n")
  {
    hide Find, At;
    var next := "\n" + rest;
    assert line + "\n" + rest == line + next;
    forall i | 0 <= i < |line| ensures !At(line + next, "\n\n", i) {
      if At(line + next, "\n\n", i) {
        BlankLineAt(line + next, i);
      }
    }
    FindSkips(line, next, "\n\n");
    if rest == "" || rest[0] != '\n' {
      NewlineSkipped(rest);
    }
  }

  lemma NewlineSkipped(rest: string)
    requires rest == "" || rest[0] != '\n'
    ensures Find("\n" + rest, "\n\n") == if Find(rest, "\n\n") < 0 then -1 else 1 + Find(rest, "\n\n")
  {
    hide Find, At;
    if At("\n" + rest, "\n\n", 0) {
      BlankLineAt("\n" + rest, 0);
    }
    FindSkips("\n", rest, "\n\n");
  }

  /* ---- trimming ---- */

  lemma {:induction false} TrimRightPrefix(s: string)
    ensures |TrimRight(s)| <= |s| && TrimRight(s) == s[..|TrimRight(s)|]
    ensures TrimRight(s) == s <==> s == "" || !IsSpace(s[|s| - 1])
  {
    if s != "" && IsSpace(s[|s| - 1]) {
      TrimRightPrefix(s[..|s| - 1]);
    }
  }

  lemma {:induction false} TrimRightAppend(a: string, b: string)
    ensures TrimRight(a + b) == if TrimRight(b) == "" then TrimRight(a) else a + TrimRight(b)
    decreases |b|
  {
    if b == "" {
      assert a + b == a;
    } else if IsSpace(b[|b| - 1]) {
      TrimRightAppend(a, b[..|b| - 1]);
      assert (a + b)[..|a + b| - 1] == a + b[..|b| - 1];
    }
  }

  /** The text that is sent: the header lines, and the body unless all of it is trimmed away. */
  /** What is printed is the lines, and the body behind a blank line, without the white space around. */
  lemma PrintedIs(pairs: Pairs, body: string) returns (a: string, b: string)
    ensures var whole := PrintedPairs(pairs) + (if body == "" then "" else "\n" + ReplaceNewline(body));
            whole == a + PrintedEvent(pairs, body) + b
    ensures forall c :: c in a || c in b ==> IsSpace(c)
    ensures var printed := PrintedEvent(pairs, body);
            printed != "" ==> !IsSpace(printed[0]) && !IsSpace(printed[|printed| - 1])
  {
    hide PrintedPairs, ReplaceNewline;
    a, b := TrimIs(PrintedPairs(pairs) + BodyPart(body));
  }

  lemma PrintedText(pairs: Pairs, body: string)
    requires FitAll(pairs) && pairs != []
    ensures var t := TrimRight(ReplaceNewline(body)); var p := PrintedPairs(pairs);
            PrintedEvent(pairs, body) == if body == "" || t == "" then TrimRight(p) else p + "\n" + t
  {
    hide ReplaceNewline, Fit;
    var p, r := PrintedPairs(pairs), ReplaceNewline(body);
    FirstCharStays(pairs, BodyPart(body));
    if body == "" {
      assert p + "" == p;
    } else {
      assert p + BodyPart(body) == (p + "\n") + r;
      TrimRightAppend(p + "\n", r);
      TrimRightAppend(p, "\n");
      assert TrimRight("\n") == TrimRight("") by { assert "\n"[..0] == ""; }
    }
  }

  lemma FirstCharStays(pairs: Pairs, more: string)
    requires FitAll(pairs) && pairs != []
    ensures TrimLeft(PrintedPairs(pairs) + more) == PrintedPairs(pairs) + more
  {
    hide Fit, ValueText;
    var (key, text) := (pairs[0].0, ValueText(pairs[0].1));
    var s := PrintedPairs(pairs) + more;
    assert s == key + (": " + text + "\n" + PrintedPairs(pairs[1..]) + more);
    assert s[0] == if key == "" then ':' else key[0];
  }

  /* ---- parsing it ---- */

  lemma HeadersBack(host: Host, pairs: Pairs)
    requires PlainPercent(host) && pairs != [] && forall i :: 0 <= i < |pairs| ==> Fit(pairs[i])
    ensures ParseHeaderText(host, Join(Lines(pairs), "\n")) == Some(FoldPairs(pairs, map[]))
  {
    hide Fit, Line, FoldLines, FoldPairs, Split;
    PrintedShape(pairs);
    SplitJoin(Lines(pairs), '\n');
    FoldReadBack(host, pairs, map[]);
    LineShape(pairs[0]);
  }

  /** Without a body behind it, the printed block has no end, and the way back throws. */
  lemma NoBodyThrows(host: Host, pairs: Pairs)
    requires FitAll(pairs) && pairs != []
    ensures ParsePlainBody(host, TrimRight(PrintedPairs(pairs))) == None
  {
    hide Find, TrimRight, PrintedPairs, Fit;
    var p := PrintedPairs(pairs);
    HeaderEndsAfter(pairs, "");
    assert p + "" == p;
    TrimRightPrefix(p);
    var t := TrimRight(p);
    assert t + p[|t|..] == p;
    if Find(t, "\n\n") >= 0 {
      FindExtends(t, p[|t|..], "\n\n");
    }
  }

  /** The bytes the way back takes for the body. */
  function TakenBody(host: Host, t: string, n: nat): string {
    var bytes := host.encode(t);
    host.utf8(if n > |bytes| then bytes else bytes[..n])
  }

  lemma SliceBody(host: Host, p: string, t: string, n: nat)
    requires Utf8(host) && Ascii(p)
    ensures host.utf8(SliceRange(host.encode(p + t), |p|, |p| + n)) == TakenBody(host, t, n)
  {
    var all, front, back := host.encode(p + t), host.encode(p), host.encode(t);
    assert all == front + back && |front| == |p|;
    var taken := SliceRange(all, |p|, |p| + n);
    assert taken == if n > |back| then back else back[..n];
  }

  lemma WithBody(host: Host, pairs: Pairs, t: string, n: nat)
    requires Utf8(host) && PlainPercent(host) && FitAll(pairs) && pairs != []
    requires t != "" && '\n' != t[0] && n != 0
    requires CONTENT_LENGTH in FoldPairs(pairs, map[]) && FoldPairs(pairs, map[])[CONTENT_LENGTH] == Number(n)
    ensures ParsePlainBody(host, PrintedPairs(pairs) + "\n" + t) ==
            Some(Parsed(FoldPairs(pairs, map[]) - {"_body"}, TakenBody(host, t, n)))
  {
    hide Find, PrintedPairs, Fit, FoldPairs, ParseHeaderText, TakenBody, SliceRange, ValueText, Utf8, PlainPercent,
        Lines, Join;
    var p := PrintedPairs(pairs);
    var txt := p + ("\n" + t);
    assert txt == p + "\n" + t;
    HeaderEndsAfter(pairs, "\n" + t);
    PrintedShape(pairs);
    HeadersBack(host, pairs);
    assert txt[..|p| - 1] == Join(Lines(pairs), "\n");
    assert Ascii(p + "\n");
    SliceBody(host, p + "\n", t, n);
  }

  /** What is taken is the body itself exactly for a fitting body. */
  lemma BodyBack(host: Host, body: string)
    requires Utf8(host) && body != ""
    ensures var t := TrimRight(ReplaceNewline(body));
            (t != "" && TakenBody(host, t, |host.encode(body)|) == body) <==> FitBody(body)
  {
    FindCharAbsent(body, '\n');
    if '\n' in body {
      NewlineLost(host, body);
    } else {
      TrimRightPrefix(body);
      var t := TrimRight(body);
      var rest := body[|t|..];
      assert body == t + rest;
      assert host.encode(body) == host.encode(t) + host.encode(rest);
      assert host.utf8(host.encode(t) + []) == t + "";
      assert host.encode(t)[..] == host.encode(t) + [];
    }
  }

  lemma NewlineLost(host: Host, body: string)
    requires Utf8(host) && '\n' in body
    ensures TakenBody(host, TrimRight(ReplaceNewline(body)), |host.encode(body)|) != body
  {
    hide *;
    var k := ReplacedAt(body);
    PercentStays(body[k + 1..]);
    TrimRightAppend(body[..k], "%0A" + body[k + 1..]);
    TakesPercent(host, body[..k], TrimRight("%0A" + body[k + 1..]), body[k + 1..]);
  }

  lemma ReplacedAt(body: string) returns (k: nat)
    requires '\n' in body
    ensures k < |body| && body == body[..k] + "\n" + body[k + 1..]
    ensures ReplaceNewline(body) == body[..k] + ("%0A" + body[k + 1..])
  {
    FindCharAbsent(body, '\n');
    FindAt(body, "\n");
    k := Find(body, "\n");
    assert body[k] == body[k..k + 1][0];
  }

  lemma PercentStays(s: string)
    ensures TrimRight("%0A" + s) != "" && TrimRight("%0A" + s)[0] == '%'
  {
    TrimRightAppend("%0A", s);
    TrimRightPrefix("%0A");
    assert !IsSpace('A') && "%0A"[2] == 'A';
  }

  lemma Front(front: seq<byte>, rest: seq<byte>, n: nat) returns (x: seq<byte>)
    requires n >= |front|
    ensures (if n > |front + rest| then front + rest else (front + rest)[..n]) == front + x
  {
    x := if n > |front + rest| then rest else rest[..n - |front|];
  }

  lemma TakesPercent(host: Host, a: string, tail: string, b: string)
    requires Utf8(host) && tail != "" && tail[0] == '%'
    ensures TakenBody(host, a + tail, |host.encode(a + "\n" + b)|) != a + "\n" + b
  {
    var n := |host.encode(a + "\n" + b)|;
    var front := a + "%";
    var bytes := host.encode(a + tail);
    assert a + "\n" + b == (a + "\n") + b;
    assert host.encode((a + "\n") + b) == host.encode(a) + host.encode("\n") + host.encode(b);
    assert Ascii("\n") && Ascii("%");
    assert host.encode(front) == host.encode(a) + host.encode("%");
    assert a + tail == front + tail[1..];
    assert bytes == host.encode(front) + host.encode(tail[1..]);
    assert n == |host.encode(a)| + |host.encode("\n")| + |host.encode(b)|;
    assert |host.encode("\n")| == 1 && |host.encode("%")| == 1;
    var taken := if n > |bytes| then bytes else bytes[..n];
    var x := Front(host.encode(front), host.encode(tail[1..]), n);
    assert taken == host.encode(front) + x;
    assert host.utf8(taken) == front + host.utf8(x);
    assert (front + host.utf8(x))[|a|] == '%' && (a + "\n" + b)[|a|] == '\n';
  }

  /* ---- a body of any origin ---- */

  lemma {:induction false} LinesEnd(lines: seq<string>, rest: string)
    requires lines != [] && forall i :: 0 <= i < |lines| ==> '\n' !in lines[i] && lines[i] != ""
    ensures Find(Join(lines, "\n") + ("\n\n" + rest), "\n\n") == |Join(lines, "\n")|
    ensures Join(lines, "\n") != "" && Join(lines, "\n")[0] == lines[0][0]
  {
    hide Find;
    var line := lines[0];
    if |lines| == 1 {
      LineSkipped(line, "\n" + rest);
      assert line + "\n" + ("\n" + rest) == line + ("\n\n" + rest);
      assert "\n" + ("\n" + rest) == "\n\n" + rest && At("\n\n" + rest, "\n\n", 0);
      FindLeast("\n\n" + rest, "\n\n", 0);
    } else {
      LinesEnd(lines[1..], rest);
      var more := Join(lines[1..], "\n") + ("\n\n" + rest);
      LineSkipped(line, more);
      assert line + "\n" + more == Join(lines, "\n") + ("\n\n" + rest);
    }
  }

  lemma BlockEnds(entries: H.Entries, rest: string)
    requires H.Fit(entries)
    ensures Find(H.BlockText(entries) + ("\n\n" + rest), "\n\n") == |H.BlockText(entries)|
  {
    hide Find, Join;
    var lines := H.LinesOf(entries);
    assert forall i :: 0 <= i < |lines| ==> H.FitEntry(entries[i]) && |lines[i]| >= 2;
    LinesEnd(lines, rest);
  }

  /** The bytes of a body behind `front` bytes of headers that a length takes, as JavaScript's `slice` does: the first
      `n`, or with a negative length all but the last ones, if it reaches back over the headers. */
  function Taken(body: seq<byte>, front: nat, n: int): seq<byte> {
    if n >= 0 then (if n > |body| then body else body[..n])
    else if front + n >= 0 || |body| + front + n < 0 then []
    else body[..|body| + front + n]
  }

  lemma SliceTaken(host: Host, p: string, t: string, n: int)
    requires Utf8(host) && Ascii(p)
    ensures SliceRange(host.encode(p + t), |p|, |p| + n) == Taken(host.encode(t), |p|, n)
  {
    var all, front, back := host.encode(p + t), host.encode(p), host.encode(t);
    assert all == front + back && |front| == |p|;
  }

  /** Reading a body: the headers are those that its block says, without `_body`; the text is what the announced length
      takes of the bytes behind the blank line, and without a length the text of a header `_body`, if there is one. */
  lemma PlainSays(host: Host, entries: H.Entries, headers: HeaderMap, rest: string)
    requires Utf8(host) && H.Fit(entries) && Ascii(H.BlockText(entries)) && H.HeadersSay(host, entries, headers)
    ensures var block := H.BlockText(entries);
            var n := if "Content-Length" in headers && headers["Content-Length"].Number?
                     then headers["Content-Length"].n else 0;
            ParsePlainBody(host, block + "\n\n" + rest) ==
            Some(Parsed(headers - {"_body"},
                        if n != 0 then host.utf8(Taken(host.encode(rest), |block| + 2, n))
                        else if "_body" in headers && headers["_body"].Text? then headers["_body"].text
                        else ""))
  {
    hide Find, Join, ParseHeaderText, H.HeadersSay, SliceRange, Taken, H.BlockText, Utf8;
    var block := H.BlockText(entries);
    var front := block + "\n\n";
    var txt := block + ("\n\n" + rest);
    assert txt == front + rest && txt[..|block|] == block;
    BlockEnds(entries, rest);
    H.BlockSays(host, entries);
    H.SayOnce(host, entries, headers, ParseHeaderText(host, block).value);
    assert Ascii(front);
    SliceTaken(host, front, rest, AnnouncedLength(headers));
    if "_body" in headers {
      NoNumberBody(host, entries, headers);
    }
  }

  lemma NoNumberBody(host: Host, entries: H.Entries, headers: HeaderMap)
    requires H.HeadersSay(host, entries, headers) && "_body" in headers
    ensures headers["_body"].Text?
  {
    var i :| 0 <= i < |entries| && entries[i].0 == "_body";
    H.HasLast(entries, i);
  }

  /* ---- the theorem ---- */

  lemma {:induction false} SetPairFits(pairs: Pairs, key: string, value: Value)
    requires FitAll(pairs) && Fit((key, value)) && key != "" && !IsSpace(key[0])
    ensures FitAll(SetPair(pairs, key, value)) && HasKey(SetPair(pairs, key, value), key)
    ensures forall i :: 0 <= i < |SetPair(pairs, key, value)| ==>
              var pair := SetPair(pairs, key, value)[i];
              pair == (key, value) || (pair.0 != key && pair in pairs)
  {
    hide Fit;
    var i := FirstWith(pairs, key);
    SetPairAt(pairs, key, value, i);
    var r := SetPair(pairs, key, value);
    assert r[i] == (key, value);
  }

  function FirstWith(pairs: Pairs, key: string): (i: nat)
    ensures i <= |pairs| && (i < |pairs| ==> pairs[i].0 == key) && forall k :: 0 <= k < i ==> pairs[k].0 != key
  {
    if pairs == [] || pairs[0].0 == key then 0 else 1 + FirstWith(pairs[1..], key)
  }

  lemma LengthFits(n: int)
    ensures Fit((CONTENT_LENGTH, Number(n))) && !IsSpace(CONTENT_LENGTH[0])
  {
    hide Find, DecimalNat, Decimal;
    DecimalPlain(n);
    KeyWithoutSpace(CONTENT_LENGTH);
  }

  lemma DecimalPlain(n: int)
    ensures '\n' !in Decimal(n) && '%' !in Decimal(n) && Ascii(Decimal(n))
  {
  }

  lemma KeyWithoutSpace(key: string)
    requires ' ' !in key
    ensures Find(key, ": ") < 0
  {
    FindAt(key, ": ");
    if At(key, ": ", Find(key, ": ")) {
      SpaceAt(key, Find(key, ": "));
    }
  }

  lemma SpaceAt(key: string, k: nat)
    requires At(key, ": ", k)
    ensures key[k + 1] == ' '
  {
    assert key[k..k + 2][1] == key[k + 1];
  }

  lemma LengthReadBack(printed: Pairs, n: nat)
    requires HasKey(printed, CONTENT_LENGTH)
    requires forall i :: 0 <= i < |printed| && printed[i].0 == CONTENT_LENGTH ==>
               printed[i] == (CONTENT_LENGTH, Number(n))
    requires forall i, j :: 0 <= i < j < |printed| ==> printed[i].0 != printed[j].0
    ensures CONTENT_LENGTH in FoldPairs(printed, map[]) && FoldPairs(printed, map[])[CONTENT_LENGTH] == Number(n)
  {
    FoldKeeps(printed, map[]);
    ParseIntDecimal(n);
  }

  lemma BodyStarts(body: string)
    ensures var t := TrimRight(ReplaceNewline(body)); t != "" ==> t[0] != '\n'
  {
    FindCharAbsent(body, '\n');
    TrimRightPrefix(ReplaceNewline(body));
    if '\n' in body {
      FindAt(body, "\n");
      if body[0] == '\n' {
        assert body[0..1] == "\n";
        FindLeast(body, "\n", 0);
      }
    }
  }

  lemma NoBodyHeader(printed: Pairs)
    requires FitAll(printed)
    ensures "_body" !in FoldPairs(printed, map[])
  {
    FoldKeeps(printed, map[]);
  }

  lemma EncodeNonEmpty(host: Host, body: string)
    requires Utf8(host) && body != ""
    ensures host.encode(body) != []
  {
    var bytes := host.encode(body);
    assert host.utf8(bytes + []) == body + "" == body;
    assert bytes + [] == bytes;
  }

  /** Printing an event and parsing it back: for headers that fit, the body comes back exactly when
      it fits, and then so does every header with its text, and nothing else. */
  lemma PrintParse(host: Host, pairs: Pairs, body: string)
    requires Utf8(host) && PlainPercent(host) && FitAll(pairs)
    ensures var printed := SetPair(pairs, CONTENT_LENGTH, Number(|host.encode(body)|));
            var back := ParsePlainBody(host, PrintedEvent(printed, body));
            && ((back.Some? && back.value.body == body) <==> FitBody(body))
            && (FitBody(body) ==>
                  && (forall i :: 0 <= i < |printed| ==>
                        printed[i].0 in back.value.headers && back.value.headers[printed[i].0] == ReadBack(printed[i]))
                  && (forall k :: k in back.value.headers ==> HasKey(printed, k)))
  {
    hide Fit, FoldPairs, ParseHeaderText, TakenBody, PrintedPairs, PrintedEvent, ReplaceNewline, SetPair,
        ParsePlainBody, TrimRight, Find;
    var n := |host.encode(body)|;
    var printed := SetPair(pairs, CONTENT_LENGTH, Number(n));
    LengthFits(n);
    SetPairFits(pairs, CONTENT_LENGTH, Number(n));
    var headers := FoldPairs(printed, map[]);
    FoldKeeps(printed, map[]);
    LengthReadBack(printed, n);
    PrintedText(printed, body);
    NoBodyThrows(host, printed);
    if body != "" {
      BodyBack(host, body);
      var t := TrimRight(ReplaceNewline(body));
      if t != "" {
        BodyStarts(body);
        EncodeNonEmpty(host, body);
        WithBody(host, printed, t, n);
        NoBodyHeader(printed);
        assert headers - {"_body"} == headers;
      }
    }
  }

  /* ---- a new event ---- */

  lemma SetPairHas(pairs: Pairs, key: string, value: Value)
    ensures (key, value) in SetPair(pairs, key, value)
    ensures forall pair :: pair in pairs && pair.0 != key ==> pair in SetPair(pairs, key, value)
    ensures forall pair :: pair in SetPair(pairs, key, value) ==>
              (pair == (key, value) || (pair in pairs && pair.0 != key) || HasTwice(pairs, key))
  {
    var i := FirstWith(pairs, key);
    SetPairAt(pairs, key, value, i);
    var r := SetPair(pairs, key, value);
    assert r[i] == (key, value);
    forall pair | pair in pairs && pair.0 != key ensures pair in r {
      var j :| 0 <= j < |pairs| && pairs[j] == pair;
      assert r[j] == pair;
    }
    forall pair | pair in r && pair != (key, value) && !HasTwice(pairs, key) ensures pair in pairs && pair.0 != key {
      var j :| 0 <= j < |r| && r[j] == pair;
      assert pairs[j] == pair;
    }
  }

  predicate HasTwice(pairs: Pairs, key: string) {
    exists i, j :: 0 <= i < j < |pairs| && pairs[i].0 == key && pairs[j].0 == key
  }

  predicate Distinct(pairs: Pairs) {
    forall i, j :: 0 <= i < j < |pairs| ==> pairs[i].0 != pairs[j].0
  }

  lemma SetPairDistinct(pairs: Pairs, key: string, value: Value)
    requires Distinct(pairs)
    ensures Distinct(SetPair(pairs, key, value)) && !HasTwice(pairs, key)
  {
    SetPairAt(pairs, key, value, FirstWith(pairs, key));
  }

  /** It is set, and not set again. */
  predicate LastSet(more: Pairs, i: nat) {
    i < |more| && forall j :: i < j < |more| ==> more[j].0 != more[i].0
  }

  /** Headers added one by one: the last value of each is there, and of the old ones those whose name was not set. */
  lemma {:induction false} SetAllIs(pairs: Pairs, more: Pairs)
    requires Distinct(pairs)
    ensures var r := SetAll(pairs, more);
            && Distinct(r)
            && (forall i :: 0 <= i < |more| && LastSet(more, i) ==> more[i] in r)
            && (forall pair :: pair in pairs && !HasKey(more, pair.0) ==> pair in r)
            && (forall pair :: pair in r ==> HasKey(more, pair.0) || pair in pairs)
    decreases |more|
  {
    hide SetPair, Distinct, HasTwice;
    if more != [] {
      var key, value, rest := more[0].0, more[0].1, more[1..];
      var pairs1 := SetPair(pairs, key, value);
      SetPairHas(pairs, key, value);
      SetPairDistinct(pairs, key, value);
      SetAllIs(pairs1, rest);
      var r := SetAll(pairs, more);
      assert r == SetAll(pairs1, rest);
      KeysBehind(more);
      forall i | 0 <= i < |more| && LastSet(more, i) ensures more[i] in r {
        if i > 0 {
          assert rest[i - 1] == more[i] && LastSet(rest, i - 1);
        } else {
          assert !HasKey(rest, key);
        }
      }
    }
  }

  lemma KeysBehind(more: Pairs)
    requires more != []
    ensures forall key :: HasKey(more, key) <==> more[0].0 == key || HasKey(more[1..], key)
  {
    forall key | HasKey(more[1..], key) ensures HasKey(more, key) {
      var i :| 0 <= i < |more[1..]| && more[1..][i].0 == key;
      assert more[i + 1].0 == key;
    }
    forall key | HasKey(more, key) && more[0].0 != key ensures HasKey(more[1..], key) {
      var i :| 0 <= i < |more| && more[i].0 == key;
      assert more[1..][i - 1].0 == key;
    }
  }

  /** What is read back of an event made with a name, a subclass or none, more headers and a body: the last text of each
      header set, the name and the subclass where they were not set again, the length, and nothing else. */
  predicate TellsOf(host: Host, eventName: string, subclass: string, more: Pairs, body: string, back: Parsed) {
    var headers := back.headers;
    && back.body == body
    && (forall i :: 0 <= i < |more| && LastSet(more, i) && more[i].0 != "Content-Length" ==>
          more[i].0 in headers && headers[more[i].0] == Text(ValueText(more[i].1)))
    && (!HasKey(more, "Event-Name") ==> "Event-Name" in headers && headers["Event-Name"] == Text(eventName))
    && (!HasKey(more, "Event-Subclass") && subclass != "" ==>
          "Event-Subclass" in headers && headers["Event-Subclass"] == Text(subclass))
    && "Content-Length" in headers && headers["Content-Length"] == Number(|host.encode(body)|)
    && (forall key :: key in headers ==>
          key == "Event-Name" || (key == "Event-Subclass" && subclass != "") || key == "Content-Length"
          || HasKey(more, key))
  }

  lemma NewReadsBack(host: Host, eventName: string, subclass: string, more: Pairs, body: string)
    requires Utf8(host) && PlainPercent(host) && FitBody(body)
    requires FitAll(SetAll(Named(eventName, subclass), more))
    ensures var all := SetAll(Named(eventName, subclass), more);
            var data := PrintedEvent(SetPair(all, CONTENT_LENGTH, Number(|host.encode(body)|)), body);
            var back := ParsePlainBody(host, data);
            back.Some? && TellsOf(host, eventName, subclass, more, body, back.value)
  {
    hide SetAll, SetPair, PrintedEvent, ParsePlainBody, FitAll, FitBody, Utf8, PlainPercent, ReadBack, HasKey, LastSet;
    var named, n := Named(eventName, subclass), |host.encode(body)|;
    assert Distinct(named);
    SetAllIs(named, more);
    var all := SetAll(named, more);
    var printed := SetPair(all, CONTENT_LENGTH, Number(n));
    SetPairHas(all, CONTENT_LENGTH, Number(n));
    SetPairDistinct(all, CONTENT_LENGTH, Number(n));
    PrintParse(host, all, body);
    var back := ParsePlainBody(host, PrintedEvent(printed, body)).value;
    ReadsPairs(printed, back.headers);
    ReadsAs(n);
    forall key | key in back.headers
      ensures key == "Event-Name" || (key == "Event-Subclass" && subclass != "")
              || key == "Content-Length" || HasKey(more, key)
    {
      KeyedPair(printed, key);
    }
  }

  lemma KeyedPair(pairs: Pairs, key: string)
    requires HasKey(pairs, key)
    ensures exists pair :: pair in pairs && pair.0 == key
  {
    var i :| 0 <= i < |pairs| && pairs[i].0 == key;
    assert pairs[i] in pairs;
  }

  lemma ReadsPairs(printed: Pairs, headers: HeaderMap)
    requires forall i :: 0 <= i < |printed| ==>
               printed[i].0 in headers && headers[printed[i].0] == ReadBack(printed[i])
    ensures forall pair :: pair in printed ==> pair.0 in headers && headers[pair.0] == ReadBack(pair)
  {
  }

  lemma ReadsAs(n: nat)
    ensures forall pair: (string, Value) :: pair.0 != "Content-Length" ==> ReadBack(pair) == Text(ValueText(pair.1))
    ensures ReadBack(("Content-Length", Number(n))) == Number(n)
  {
    hide Decimal, ParseInt;
    ParseIntDecimal(n);
  }

  /** An event made, given headers and a body, and printed, as `message` does; parsing what is printed gives the body
      back exactly when it fits. */
  method PrintNew(host: Host, eventName: string, subclass: string, more: Pairs, body: string) returns (data: string)
    ensures data == PrintedEvent(SetPair(SetAll(Named(eventName, subclass), more), CONTENT_LENGTH,
                                         Number(|host.encode(body)|)), body)
    ensures Utf8(host) && PlainPercent(host) && FitAll(SetAll(Named(eventName, subclass), more)) ==>
              var back := ParsePlainBody(host, data);
              && ((back.Some? && back.value.body == body) <==> FitBody(body))
              && (FitBody(body) ==> TellsOf(host, eventName, subclass, more, body, back.value))
  {
    hide PrintedEvent, ParsePlainBody, Utf8, PlainPercent, FitAll, FitBody, SetPair, TellsOf;
    var e := new Event(host, eventName, subclass);
    var i := 0;
    while i < |more|
      invariant 0 <= i <= |more| && e.host == host && e.body == ""
      invariant SetAll(e.headers, more[i..]) == SetAll(Named(eventName, subclass), more)
    {
      assert more[i..][1..] == more[i + 1..];
      e.AddHeader(more[i].0, more[i].1);
      i := i + 1;
    }
    e.AddBody(body);
    ghost var pairs := e.headers;
    data := e.Serialize();
    assert "" + body == body;
    if Utf8(host) && PlainPercent(host) && FitAll(pairs) {
      PrintParse(host, pairs, body);
      if FitBody(body) {
        NewReadsBack(host, eventName, subclass, more, body);
      }
    }
  }
}
