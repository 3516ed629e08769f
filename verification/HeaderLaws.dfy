/** What a header block says: its last line of each name decides, and how. */
module HeaderLaws {
  import opened Strings
  import opened Headers

  /** The names and raw texts of a block, line by line. */
  type Entries = seq<(string, string)>

  predicate Fit(entries: Entries) {
    entries != [] && forall i :: 0 <= i < |entries| ==> FitEntry(entries[i])
  }

  predicate FitEntry(entry: (string, string)) {
    Find(entry.0, ": ") < 0 && '\n' !in entry.0 && '\n' !in entry.1
  }

  function LineOf(entry: (string, string)): string { entry.0 + ": " + entry.1 }

  function LinesOf(entries: Entries): seq<string> {
    seq(|entries|, i requires 0 <= i < |entries| => LineOf(entries[i]))
  }

  /** The text of the block. */
  function BlockText(entries: Entries): string { Join(LinesOf(entries), "\n") }

  /** The value of a header whose line has this text: percent-decoded, empty where that throws or the name is one
      of the two skipped ones, and a number for the length. */
  predicate Says(host: Host, key: string, text: string, value: Value) {
    var decoded :=
      if key == "variable_sip_invite_record_route" || key == "variable_sip_recover_via" then ""
      else match host.percent(text) case Some(t) => t case None => "";
    if key != "Content-Length" then value == Text(decoded)
    else match ParseInt(decoded) case Some(n) => value == Number(n) case None => value == NaN
  }

  /** The entry is the last one of its name. */
  predicate Last(entries: Entries, i: nat) {
    i < |entries| && forall j :: i < j < |entries| ==> entries[j].0 != entries[i].0
  }

  /** The headers are those of the block: each name has what its last line says, and no other name is there. */
  predicate HeadersSay(host: Host, entries: Entries, headers: HeaderMap) {
    && (forall i :: 0 <= i < |entries| && Last(entries, i) && entries[i].0 != "__proto__" ==>
          entries[i].0 in headers && Says(host, entries[i].0, entries[i].1, headers[entries[i].0]))
    && (forall key :: key in headers ==> key != "__proto__" && Names(entries, key))
  }

  predicate Names(entries: Entries, key: string) {
    exists i :: 0 <= i < |entries| && entries[i].0 == key
  }

  /** A line is cut at its first ": ". */
  lemma LineSays(host: Host, entry: (string, string))
    requires FitEntry(entry)
    ensures LineKey(LineOf(entry)) == entry.0 && Says(host, entry.0, entry.1, LineValue(host, LineOf(entry)))
  {
    hide Find, Split, ParseInt;
    LineParts(entry);
    JoinSplit(entry.1, ": ");
  }

  lemma LineParts(entry: (string, string))
    requires FitEntry(entry)
    ensures Split(LineOf(entry), ": ")[0] == entry.0 && Split(LineOf(entry), ": ")[1..] == Split(entry.1, ": ")
  {
    hide Find, Split;
    KeyEnds(entry.0, entry.1);
    SplitAfter(entry.0, ": ", entry.1);
  }

  /** A line without ": " is a name without text. */
  lemma BareLine(host: Host, line: string)
    requires Find(line, ": ") < 0
    ensures LineKey(line) == line && Says(host, line, "", LineValue(host, line))
  {
    hide Find, ParseInt;
    assert Split(line, ": ") == [line];
    assert Join([line][1..], ": ") == "";
  }

  /** The last line of a name decides. */
  lemma {:induction false} FoldAt(host: Host, lines: seq<string>, acc: HeaderMap, i: nat)
    requires i < |lines| && LineKey(lines[i]) != "__proto__"
    requires forall j :: i < j < |lines| ==> LineKey(lines[j]) != LineKey(lines[i])
    ensures LineKey(lines[i]) in FoldLines(host, lines, acc)
    ensures FoldLines(host, lines, acc)[LineKey(lines[i])] == LineValue(host, lines[i])
    decreases |lines|
  {
    hide LineKey, LineValue;
    var key := LineKey(lines[0]);
    var acc' := if key == "__proto__" then acc else acc[key := LineValue(host, lines[0])];
    if i == 0 {
      FoldKeeps(host, lines[1..], acc', key);
    } else {
      FoldAt(host, lines[1..], acc', i - 1);
    }
  }

  /** A name that no line has stays as it was. */
  lemma {:induction false} FoldKeeps(host: Host, lines: seq<string>, acc: HeaderMap, key: string)
    requires forall j :: 0 <= j < |lines| ==> LineKey(lines[j]) != key
    ensures key in FoldLines(host, lines, acc) <==> key in acc
    ensures key in acc ==> FoldLines(host, lines, acc)[key] == acc[key]
    decreases |lines|
  {
    hide LineKey, LineValue;
    if lines != [] {
      var first := LineKey(lines[0]);
      FoldKeeps(host, lines[1..], if first == "__proto__" then acc else acc[first := LineValue(host, lines[0])], key);
    }
  }

  lemma {:induction false} NeverProto(host: Host, lines: seq<string>, acc: HeaderMap)
    requires "__proto__" !in acc
    ensures "__proto__" !in FoldLines(host, lines, acc)
    decreases |lines|
  {
    hide LineKey, LineValue;
    if lines != [] {
      var key := LineKey(lines[0]);
      NeverProto(host, lines[1..], if key == "__proto__" then acc else acc[key := LineValue(host, lines[0])]);
    }
  }

  /** Reading a block: the text of any entries that fit gives just the headers they say. */
  lemma BlockSays(host: Host, entries: Entries)
    requires Fit(entries)
    ensures var headers := ParseHeaderText(host, BlockText(entries));
            headers.Some? && HeadersSay(host, entries, headers.value)
  {
    hide FoldLines, LineKey, LineValue, Split, FitEntry, Says;
    var lines := LinesOf(entries);
    BlockLines(entries);
    var headers := FoldLines(host, lines, map[]);
    NeverProto(host, lines, map[]);
    forall i | 0 <= i < |entries| ensures LineKey(lines[i]) == entries[i].0
                                          && Says(host, entries[i].0, entries[i].1, LineValue(host, lines[i])) {
      LineSays(host, entries[i]);
    }
    forall i | 0 <= i < |entries| && Last(entries, i) && entries[i].0 != "__proto__"
      ensures entries[i].0 in headers && Says(host, entries[i].0, entries[i].1, headers[entries[i].0]) {
      FoldAt(host, lines, map[], i);
    }
    forall key | key in headers ensures Names(entries, key) {
      if !Names(entries, key) {
        FoldKeeps(host, lines, map[], key);
      }
    }
  }

  lemma BlockLines(entries: Entries)
    requires Fit(entries)
    ensures BlockText(entries) != "" && Split(BlockText(entries), "\n") == LinesOf(entries)
  {
    hide Find, Split;
    var lines := LinesOf(entries);
    forall line | line in lines ensures '\n' !in line {
      var i :| 0 <= i < |lines| && lines[i] == line;
      assert FitEntry(entries[i]);
    }
    SplitJoin(lines, '\n');
    assert |lines[0]| >= 2;
  }

  /** The Content-Length a block announces: that of its last such line, and 0 if there is none or it is no number. */
  lemma AnnouncedBy(host: Host, entries: Entries, headers: HeaderMap)
    requires HeadersSay(host, entries, headers)
    ensures !Names(entries, "Content-Length") ==> AnnouncedLength(headers) == 0
    ensures forall i :: 0 <= i < |entries| && entries[i].0 == "Content-Length" && Last(entries, i) ==>
              var decoded := match host.percent(entries[i].1) case Some(t) => t case None => "";
              AnnouncedLength(headers) == match ParseInt(decoded) case Some(n) => n case None => 0
  {
    hide ParseInt;
  }

  lemma {:induction false} HasLast(entries: Entries, i: nat)
    requires i < |entries|
    ensures exists k: nat :: Last(entries, k) && entries[k].0 == entries[i].0
    decreases |entries| - i
  {
    if !Last(entries, i) {
      var j :| i < j < |entries| && entries[j].0 == entries[i].0;
      HasLast(entries, j);
    }
  }

  /** A block says one thing. */
  lemma SayOnce(host: Host, entries: Entries, headers: HeaderMap, headers': HeaderMap)
    requires HeadersSay(host, entries, headers) && HeadersSay(host, entries, headers')
    ensures headers == headers'
  {
    forall key | Names(entries, key) && key != "__proto__"
      ensures key in headers && key in headers' && headers[key] == headers'[key] {
      var i :| 0 <= i < |entries| && entries[i].0 == key;
      HasLast(entries, i);
    }
  }
}
