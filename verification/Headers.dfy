/** Header blocks: lines of `name: value`, as `_parseHeaderText` reads them. */
module Headers {
  import opened Strings

  newtype byte = x: int | 0 <= x < 256

  datatype Value = Text(text: string) | Number(n: int) | NaN

  type HeaderMap = map<string, Value>

  /** What the sources take from their surroundings: the UTF-8 decoder and encoder,
      `decodeURIComponent` (None where it throws), and whether building or delivering an event throws. */
  datatype Host = Host(
    utf8: seq<byte> -> string,
    encode: string -> seq<byte>,
    percent: string -> Option<string>,
    throws: (HeaderMap, Option<string>) -> bool)

  const CONTENT_LENGTH := "Content-Length"
  const SKIPPED := {"variable_sip_invite_record_route", "variable_sip_recover_via"}

  function LineKey(line: string): string { Split(line, ": ")[0] }

  function LineText(host: Host, line: string): string {
    if LineKey(line) in SKIPPED then ""
    else match host.percent(Join(Split(line, ": ")[1..], ": "))
      case Some(text) => text
      case None => ""
  }

  function LineValue(host: Host, line: string): Value {
    if LineKey(line) == CONTENT_LENGTH then
      match ParseInt(LineText(host, line))
      case Some(n) => Number(n)
      case None => NaN
    else Text(LineText(host, line))
  }

  /** The `reduce` over the lines. Storing a string under `__proto__` leaves an object as it was. */
  function FoldLines(host: Host, lines: seq<string>, acc: HeaderMap): HeaderMap {
    if lines == [] then acc
    else
      var key := LineKey(lines[0]);
      FoldLines(host, lines[1..],
                if key == "__proto__" then acc else acc[key := LineValue(host, lines[0])])
  }

  /** None stands for `undefined`, the result for an empty text. */
  function ParseHeaderText(host: Host, txt: string): Option<HeaderMap> {
    if txt == "" then None else Some(FoldLines(host, Split(txt, "\n"), map[]))
  }

  /** The Content-Length a header object announces; 0 where JavaScript finds it falsy. */
  function AnnouncedLength(headers: HeaderMap): int {
    if CONTENT_LENGTH in headers && headers[CONTENT_LENGTH].Number? then headers[CONTENT_LENGTH].n else 0
  }
}
