/** The text the stream relay writes: one server-sent-event frame per relay
    event, `data: <json>` followed by a blank line (HTML Living Standard,
    section 9.2 "Server-sent events"). The JSON is what Python's
    `json.dumps` produces with its default settings (`ensure_ascii=True`,
    separators `", "` and `": "`) for the three one-key objects the relay
    emits. A reference decoder and the standard's event-stream
    interpretation are the partners that the encoder is proved against. */
module EventStream {
  import opened Wrappers

  /** The three events of the relay: `{content}`, `{done: true}`, `{error}`. */
  datatype Event = ContentEvent(text: string) | DoneEvent | ErrorEvent(message: string)

  // ---------------------------------------------------------------------
  // JSON string escaping (ensure_ascii) and its inverse

  function HexDigit(d: nat): (c: char)
    requires d < 16
    ensures ' ' <= c <= '~'
  {
    "0123456789abcdef"[d]
  }

  function HexValue(c: char): (r: Option<nat>)
    ensures r.Some? ==> r.value < 16
  {
    if '0' <= c <= '9' then Some(c as int - '0' as int)
    else if 'a' <= c <= 'f' then Some(c as int - 'a' as int + 10)
    else if 'A' <= c <= 'F' then Some(c as int - 'A' as int + 10)
    else None
  }

  lemma HexDigitValue(d: nat)
    requires d < 16
    ensures HexValue(HexDigit(d)) == Some(d)
  {
    var digits := "0123456789abcdef";
    assert digits[d] == HexDigit(d);
    if d < 10 {
      assert digits[d] as int == '0' as int + d;
    } else {
      assert digits[d] as int == 'a' as int + d - 10;
    }
  }

  /** Four lower-case hexadecimal digits, as in `"\\u%04x"`. */
  function Hex4(n: nat): (r: string)
    requires n < 0x10000
    ensures |r| == 4
  {
    var r3 := n % 0x1000;
    var r2 := r3 % 0x100;
    [HexDigit(n / 0x1000), HexDigit(r3 / 0x100), HexDigit(r2 / 0x10), HexDigit(r2 % 0x10)]
  }

  function Hex4Value(s: string): (r: Option<nat>)
    requires |s| == 4
    ensures r.Some? ==> r.value < 0x10000
  {
    if HexValue(s[0]).Some? && HexValue(s[1]).Some? && HexValue(s[2]).Some? && HexValue(s[3]).Some?
    then Some(HexValue(s[0]).value * 0x1000 + HexValue(s[1]).value * 0x100
              + HexValue(s[2]).value * 0x10 + HexValue(s[3]).value)
    else None
  }

  /** The positional digits of a four-digit hexadecimal number. */
  lemma Hex4Digits(n: nat)
    requires n < 0x10000
    ensures var r3 := n % 0x1000; var r2 := r3 % 0x100;
            n / 0x1000 < 16 && r3 / 0x100 < 16 && r2 / 0x10 < 16 && r2 % 0x10 < 16
            && n == (n / 0x1000) * 0x1000 + (r3 / 0x100) * 0x100 + (r2 / 0x10) * 0x10 + r2 % 0x10
  {
  }

  lemma Hex4RoundTrip(n: nat)
    requires n < 0x10000
    ensures Hex4Value(Hex4(n)) == Some(n)
  {
    var r3 := n % 0x1000;
    var r2 := r3 % 0x100;
    var a, b, c, d := n / 0x1000, r3 / 0x100, r2 / 0x10, r2 % 0x10;
    Hex4Digits(n);
    HexDigitValue(a); HexDigitValue(b); HexDigitValue(c); HexDigitValue(d);
    var h := Hex4(n);
    assert h == [HexDigit(a), HexDigit(b), HexDigit(c), HexDigit(d)];
  }

  /** The letter of the two-character escape Python's `json.dumps` uses
      for `"`, `\`, newline, carriage return, tab, backspace and form feed. */
  function ShortEscape(c: char): (r: Option<char>)
    ensures r.Some? ==> ' ' <= r.value <= '~'
  {
    if c == '"' then Some('"')
    else if c == '\\' then Some('\\')
    else if c == '\n' then Some('n')
    else if c == '\r' then Some('r')
    else if c == '\t' then Some('t')
    else if c == '\U{8}' then Some('b')
    else if c == '\U{C}' then Some('f')
    else None
  }

  /** `\uXXXX` for one UTF-16 code unit. */
  function UEscape(n: nat): (r: string)
    requires n < 0x10000
    ensures |r| == 6
  {
    "\\u" + Hex4(n)
  }

  /** The escape Python's `json.dumps` writes for one character: a
      two-character escape where there is one; the character itself when it
      is printable ASCII; a `\uXXXX` escape otherwise, as a UTF-16 surrogate
      pair above U+FFFF. */
  function EscapeChar(c: char): (r: string)
    ensures |r| > 0
  {
    match ShortEscape(c)
    case Some(letter) => ['\\', letter]
    case None =>
      if ' ' <= c <= '~' then [c]
      else if (c as int) < 0x10000 then UEscape(c as int)
      else SurrogateEscape(c as int - 0x10000)
  }

  /** The UTF-16 surrogate pair for code point `0x10000 + v`, as two escapes. */
  function SurrogateEscape(v: nat): (r: string)
    requires v < 0x100000
    ensures |r| == 12
  {
    UEscape(0xD800 + v / 0x400) + UEscape(0xDC00 + v % 0x400)
  }

  /** The body of a JSON string literal for `s`. */
  function Escape(s: string): string
    decreases |s|
  {
    if s == [] then [] else EscapeChar(s[0]) + Escape(s[1..])
  }

  /** Printable ASCII only: in particular no line break can end an event's data line early. */
  predicate Printable(s: string) {
    forall i :: 0 <= i < |s| ==> ' ' <= s[i] <= '~'
  }

  lemma PrintableConcat(a: string, b: string)
    requires Printable(a) && Printable(b)
    ensures Printable(a + b)
  {
    forall i | 0 <= i < |a + b| ensures ' ' <= (a + b)[i] <= '~' {
      if i >= |a| { assert (a + b)[i] == b[i - |a|]; }
    }
  }

  lemma Hex4Printable(n: nat)
    requires n < 0x10000
    ensures Printable(Hex4(n))
  {
  }

  lemma UEscapePrintable(n: nat)
    requires n < 0x10000
    ensures Printable(UEscape(n))
  {
    Hex4Printable(n);
    PrintableConcat("\\u", Hex4(n));
  }

  lemma ShortEscapePrintable(c: char)
    requires ShortEscape(c).Some?
    ensures Printable(EscapeChar(c))
  {
    var letter := ShortEscape(c).value;
    var r := ['\\', letter];
    assert EscapeChar(c) == r;
    assert forall i :: 0 <= i < 2 ==> r[i] == '\\' || r[i] == letter;
  }

  lemma BmpEscapePrintable(c: char)
    requires ShortEscape(c).None? && !(' ' <= c <= '~') && (c as int) < 0x10000
    ensures Printable(EscapeChar(c))
  {
    assert EscapeChar(c) == UEscape(c as int);
    UEscapePrintable(c as int);
  }

  lemma AstralEscapePrintable(c: char)
    requires ShortEscape(c).None? && 0x10000 <= (c as int)
    ensures Printable(EscapeChar(c))
  {
    var v := c as int - 0x10000;
    assert EscapeChar(c) == SurrogateEscape(v);
    UEscapePrintable(0xD800 + v / 0x400);
    UEscapePrintable(0xDC00 + v % 0x400);
    PrintableConcat(UEscape(0xD800 + v / 0x400), UEscape(0xDC00 + v % 0x400));
  }

  /** Every escape is printable ASCII (the effect of `ensure_ascii`). */
  lemma EscapeCharPrintable(c: char)
    ensures Printable(EscapeChar(c))
  {
    if ShortEscape(c).Some? {
      ShortEscapePrintable(c);
    } else if ' ' <= c <= '~' {
      assert EscapeChar(c) == [c];
    } else if (c as int) < 0x10000 {
      BmpEscapePrintable(c);
    } else {
      AstralEscapePrintable(c);
    }
  }

  lemma {:induction false} EscapePrintable(s: string)
    ensures Printable(Escape(s))
    decreases |s|
  {
    if s != [] {
      EscapeCharPrintable(s[0]);
      EscapePrintable(s[1..]);
      PrintableConcat(EscapeChar(s[0]), Escape(s[1..]));
    }
  }

  function Prepend(c: char, r: Option<string>): Option<string> {
    match r
    case Some(t) => Some([c] + t)
    case None => None
  }

  /** Reads the body of a JSON string literal back into characters (what
      `JSON.parse` does with it); `None` for text that is not a valid body. */
  function Unescape(s: string): Option<string>
    decreases |s|, 1
  {
    if s == [] then Some([])
    else if s[0] != '\\' then
      if s[0] == '"' || s[0] < ' ' then None else Prepend(s[0], Unescape(s[1..]))
    else UnescapeAfterBackslash(s)
  }

  function UnescapeAfterBackslash(s: string): Option<string>
    requires |s| > 0 && s[0] == '\\'
    decreases |s|, 0
  {
    if |s| < 2 then None
    else if s[1] == '"' then Prepend('"', Unescape(s[2..]))
    else if s[1] == '\\' then Prepend('\\', Unescape(s[2..]))
    else if s[1] == '/' then Prepend('/', Unescape(s[2..]))
    else if s[1] == 'b' then Prepend('\U{8}', Unescape(s[2..]))
    else if s[1] == 'f' then Prepend('\U{C}', Unescape(s[2..]))
    else if s[1] == 'n' then Prepend('\n', Unescape(s[2..]))
    else if s[1] == 'r' then Prepend('\r', Unescape(s[2..]))
    else if s[1] == 't' then Prepend('\t', Unescape(s[2..]))
    else if s[1] == 'u' && |s| >= 6 && Hex4Value(s[2..6]).Some? then UnescapeCode(Hex4Value(s[2..6]).value, s[6..])
    else None
  }

  /** After `\uXXXX` with value `n`: a character, or the high half of a pair. */
  function UnescapeCode(n: nat, s: string): Option<string>
    requires n < 0x10000
    decreases |s| + 1, 0
  {
    if n < 0xD800 || 0xE000 <= n then Prepend(n as char, Unescape(s))
    else if n < 0xDC00 && |s| >= 6 && s[0] == '\\' && s[1] == 'u' && Hex4Value(s[2..6]).Some?
         && 0xDC00 <= Hex4Value(s[2..6]).value < 0xE000
    then Prepend(CombineSurrogates(n, Hex4Value(s[2..6]).value), Unescape(s[6..]))
    else None
  }

  function CombineSurrogates(hi: nat, lo: nat): (c: char)
    requires 0xD800 <= hi < 0xDC00 <= lo < 0xE000
    ensures 0x10000 <= c as int
  {
    (0x10000 + (hi - 0xD800) * 0x400 + (lo - 0xDC00)) as char
  }

  lemma UnescapeShortEscape(c: char, t: string)
    requires ShortEscape(c).Some?
    ensures Unescape(EscapeChar(c) + t) == Prepend(c, Unescape(t))
  {
    var s := EscapeChar(c) + t;
    assert EscapeChar(c) == ['\\', ShortEscape(c).value];
    assert s[0] == '\\' && s[1] == ShortEscape(c).value;
    assert s[2..] == t;
  }

  lemma UnescapePlain(c: char, t: string)
    requires ShortEscape(c).None? && ' ' <= c <= '~'
    ensures Unescape(EscapeChar(c) + t) == Prepend(c, Unescape(t))
  {
    var s := EscapeChar(c) + t;
    assert EscapeChar(c) == [c];
    assert s[0] == c && s[1..] == t;
  }

  lemma UnescapeUEscape(n: nat, rest: string)
    requires n < 0x10000
    ensures Unescape(UEscape(n) + rest) == UnescapeCode(n, rest)
  {
    var s := UEscape(n) + rest;
    assert s[0] == '\\' && s[1] == 'u';
    assert s[2..6] == Hex4(n);
    assert s[6..] == rest;
    Hex4RoundTrip(n);
  }

  lemma UnescapeBmp(c: char, t: string)
    requires ShortEscape(c).None? && !(' ' <= c <= '~') && (c as int) < 0x10000
    ensures Unescape(EscapeChar(c) + t) == Prepend(c, Unescape(t))
  {
    assert EscapeChar(c) == UEscape(c as int);
    UnescapeUEscape(c as int, t);
    assert (c as int) as char == c;
  }

  lemma UnescapeLowHalf(hi: nat, lo: nat, t: string)
    requires 0xD800 <= hi < 0xDC00 <= lo < 0xE000
    ensures UnescapeCode(hi, UEscape(lo) + t) == Prepend(CombineSurrogates(hi, lo), Unescape(t))
  {
    var u := UEscape(lo) + t;
    assert u[0] == '\\' && u[1] == 'u';
    assert u[2..6] == Hex4(lo);
    assert u[6..] == t;
    Hex4RoundTrip(lo);
  }

  lemma UnescapeSurrogatePair(v: nat, t: string)
    requires v < 0x100000
    ensures Unescape(SurrogateEscape(v) + t) == Prepend((0x10000 + v) as char, Unescape(t))
  {
    var hi, lo := 0xD800 + v / 0x400, 0xDC00 + v % 0x400;
    var u := UEscape(lo) + t;
    assert SurrogateEscape(v) + t == UEscape(hi) + u;
    UnescapeUEscape(hi, u);
    UnescapeLowHalf(hi, lo, t);
    assert v == (v / 0x400) * 0x400 + v % 0x400;
    assert CombineSurrogates(hi, lo) == (0x10000 + v) as char;
  }

  lemma UnescapeAstral(c: char, t: string)
    requires ShortEscape(c).None? && 0x10000 <= c as int
    ensures Unescape(EscapeChar(c) + t) == Prepend(c, Unescape(t))
  {
    assert EscapeChar(c) == SurrogateEscape(c as int - 0x10000);
    UnescapeSurrogatePair(c as int - 0x10000, t);
  }

  lemma UnescapeEscapeChar(c: char, t: string)
    ensures Unescape(EscapeChar(c) + t) == Prepend(c, Unescape(t))
  {
    if ShortEscape(c).Some? {
      UnescapeShortEscape(c, t);
    } else if ' ' <= c <= '~' {
      UnescapePlain(c, t);
    } else if (c as int) < 0x10000 {
      UnescapeBmp(c, t);
    } else {
      UnescapeAstral(c, t);
    }
  }

  /** Decoding inverts the encoder on every string. */
  lemma {:induction false} UnescapeEscape(s: string)
    ensures Unescape(Escape(s)) == Some(s)
    decreases |s|
  {
    if s != [] {
      UnescapeEscapeChar(s[0], Escape(s[1..]));
      UnescapeEscape(s[1..]);
      assert [s[0]] + s[1..] == s;
    }
  }

  // ---------------------------------------------------------------------
  // The three JSON payloads and their frames

  const ContentPrefix := "{\"content\": \""
  const ErrorPrefix := "{\"error\": \""
  const DoneJson := "{\"done\": true}"
  const Closing := "\"}"

  /** `json.dumps` of the event's one-key object. */
  function EventJson(e: Event): string {
    match e
    case ContentEvent(t) => ContentPrefix + Escape(t) + Closing
    case DoneEvent => DoneJson
    case ErrorEvent(m) => ErrorPrefix + Escape(m) + Closing
  }

  lemma EventJsonPrintable(e: Event)
    ensures Printable(EventJson(e))
  {
    match e
    case ContentEvent(t) =>
      EscapePrintable(t);
      PrintableConcat(ContentPrefix, Escape(t));
      PrintableConcat(ContentPrefix + Escape(t), Closing);
    case DoneEvent =>
    case ErrorEvent(m) =>
      EscapePrintable(m);
      PrintableConcat(ErrorPrefix, Escape(m));
      PrintableConcat(ErrorPrefix + Escape(m), Closing);
  }

  /** `f"data: {json}\n\n"`: one data line then the blank line that ends the event. */
  function Frame(e: Event): string {
    "data: " + EventJson(e) + "\n\n"
  }

  /** The response body: the frames in order. */
  function Stream(events: seq<Event>): string
    decreases |events|
  {
    if events == [] then [] else Frame(events[0]) + Stream(events[1..])
  }

  /** Reads one payload back into an event. */
  function ParseEventJson(p: string): Option<Event> {
    if p == DoneJson then Some(DoneEvent)
    else if |p| >= |ContentPrefix| + |Closing| && p[..|ContentPrefix|] == ContentPrefix && p[|p| - 2..] == Closing then
      match Unescape(p[|ContentPrefix|..|p| - 2])
      case Some(t) => Some(ContentEvent(t))
      case None => None
    else if |p| >= |ErrorPrefix| + |Closing| && p[..|ErrorPrefix|] == ErrorPrefix && p[|p| - 2..] == Closing then
      match Unescape(p[|ErrorPrefix|..|p| - 2])
      case Some(m) => Some(ErrorEvent(m))
      case None => None
    else None
  }

  /** Every payload decodes to the event it was written from. */
  lemma EventJsonRoundTrip(e: Event)
    ensures ParseEventJson(EventJson(e)) == Some(e)
  {
    var p := EventJson(e);
    match e
    case DoneEvent =>
    case ContentEvent(t) =>
      assert p[0..2] == "{\"" && p[2] == 'c';
      assert p != DoneJson by { assert DoneJson[2] == 'd'; }
      assert p[..|ContentPrefix|] == ContentPrefix;
      assert p[|p| - 2..] == Closing;
      assert p[|ContentPrefix|..|p| - 2] == Escape(t);
      UnescapeEscape(t);
    case ErrorEvent(m) =>
      assert p[2] == 'e';
      assert p != DoneJson by { assert DoneJson[2] == 'd'; }
      assert p[..|ContentPrefix|] != ContentPrefix by { assert ContentPrefix[2] == 'c'; }
      assert p[..|ErrorPrefix|] == ErrorPrefix;
      assert p[|p| - 2..] == Closing;
      assert p[|ErrorPrefix|..|p| - 2] == Escape(m);
      UnescapeEscape(m);
  }

  // ---------------------------------------------------------------------
  // Interpreting an event stream (section 9.2.6 of the HTML Living Standard)

  /** Position of the first `:` in a line, or its length when there is none. */
  function ColonAt(line: string): (k: nat)
    ensures k <= |line| && (k < |line| ==> line[k] == ':')
    ensures forall i :: 0 <= i < k ==> line[i] != ':'
    decreases |line|
  {
    if line == [] then 0 else if line[0] == ':' then 0 else 1 + ColonAt(line[1..])
  }

  /** What one complete line does to the data buffer, and the data of the
      event it dispatches, if any. Only the `data` field contributes to an
      event's data; comments and other fields leave the buffer alone. */
  function ProcessLine(line: string, data: string): (seq<string>, string) {
    if line == [] then
      if data == [] then ([], []) else ([data[..|data| - 1]], [])
    else if line[0] == ':' then ([], data)
    else
      var k := ColonAt(line);
      var name := line[..k];
      var raw := if k < |line| then line[k + 1..] else [];
      var value := if |raw| > 0 && raw[0] == ' ' then raw[1..] else raw;
      if name == "data" then ([], data + value + "\n") else ([], data)
  }

  /** Splits at CR, LF or CRLF and dispatches; a line that is not terminated
      before the end of the stream is discarded. */
  function Interpret(s: string, line: string, data: string): seq<string>
    decreases |s|
  {
    if s == [] then []
    else if s[0] == '\n' || s[0] == '\r' then
      var rest := if s[0] == '\r' && |s| > 1 && s[1] == '\n' then s[2..] else s[1..];
      var (fired, data') := ProcessLine(line, data);
      fired + Interpret(rest, [], data')
    else Interpret(s[1..], line + [s[0]], data)
  }

  /** The data of every event a browser's `EventSource` dispatches for `body`. */
  function Dispatched(body: string): seq<string> {
    if |body| > 0 && body[0] == '\U{FEFF}' then Interpret(body[1..], [], []) else Interpret(body, [], [])
  }

  lemma {:induction false} InterpretNoBreak(s: string, rest: string, line: string, data: string)
    requires Printable(s)
    ensures Interpret(s + rest, line, data) == Interpret(rest, line + s, data)
    decreases |s|
  {
    if s == [] {
      assert s + rest == rest && line + s == line;
    } else {
      var u := s + rest;
      assert u[0] == s[0] && u[0] != '\n' && u[0] != '\r';
      assert Interpret(u, line, data) == Interpret(u[1..], line + [s[0]], data);
      assert u[1..] == s[1..] + rest;
      InterpretNoBreak(s[1..], rest, line + [s[0]], data);
      assert line + [s[0]] + s[1..] == line + s;
    }
  }

  lemma DataLine(p: string)
    ensures ProcessLine("data: " + p, []) == ([], p + "\n")
  {
    var line := "data: " + p;
    assert line[0] == 'd';
    ColonAtData(p);
    assert line[..4] == "data";
    assert line[5..] == " " + p;
    assert (" " + p)[1..] == p;
    assert [] + p + "\n" == p + "\n";
  }

  lemma ColonAtData(p: string)
    ensures ColonAt("data: " + p) == 4
  {
    var l0 := "data: " + p;
    var l1, l2, l3, l4 := l0[1..], l0[2..], l0[3..], l0[4..];
    assert l1 == l0[1..] && l2 == l1[1..] && l3 == l2[1..] && l4 == l3[1..];
    assert l0[0] == 'd' && l1[0] == 'a' && l2[0] == 't' && l3[0] == 'a' && l4[0] == ':';
    assert ColonAt(l4) == 0;
    assert ColonAt(l3) == 1;
    assert ColonAt(l2) == 2;
    assert ColonAt(l1) == 3;
  }

  /** The two line ends after a data line dispatch its payload. */
  lemma InterpretFrameEnd(p: string, rest: string)
    ensures Interpret("\n\n" + rest, "data: " + p, []) == [p] + Interpret(rest, [], [])
  {
    var s1 := "\n\n" + rest;
    var s2 := "\n" + rest;
    DataLine(p);
    assert s1[0] == '\n' && s1[1..] == s2;
    assert Interpret(s1, "data: " + p, []) == Interpret(s2, [], p + "\n");
    assert s2[0] == '\n' && s2[1..] == rest;
    assert (p + "\n")[..|p + "\n"| - 1] == p;
  }

  lemma InterpretFrame(e: Event, rest: string)
    ensures Interpret(Frame(e) + rest, [], []) == [EventJson(e)] + Interpret(rest, [], [])
  {
    var p := EventJson(e);
    var head := "data: " + p;
    var s1 := "\n\n" + rest;
    assert Frame(e) + rest == head + s1;
    EventJsonPrintable(e);
    PrintableConcat("data: ", p);
    InterpretNoBreak(head, s1, [], []);
    assert [] + head == head;
    InterpretFrameEnd(p, rest);
  }

  /** The JSON payload of every event, in order. */
  function Payloads(events: seq<Event>): (r: seq<string>)
    ensures |r| == |events|
    ensures forall i :: 0 <= i < |events| ==> r[i] == EventJson(events[i])
  {
    seq(|events|, i requires 0 <= i < |events| => EventJson(events[i]))
  }

  lemma PayloadsCons(events: seq<Event>)
    requires events != []
    ensures Payloads(events) == [EventJson(events[0])] + Payloads(events[1..])
  {
  }

  lemma {:induction false} InterpretStream(events: seq<Event>)
    ensures Interpret(Stream(events), [], []) == Payloads(events)
    decreases |events|
  {
    if events != [] {
      assert Stream(events) == Frame(events[0]) + Stream(events[1..]);
      InterpretFrame(events[0], Stream(events[1..]));
      InterpretStream(events[1..]);
      PayloadsCons(events);
    }
  }

  /** A browser reading the response body dispatches exactly one event per
      relay event, in order, each carrying that event's JSON. */
  lemma DispatchedStream(events: seq<Event>)
    ensures Dispatched(Stream(events)) == Payloads(events)
  {
    InterpretStream(events);
    if events != [] {
      assert Stream(events)[0] == Frame(events[0])[0] == 'd';
    }
  }

  /** Decoding what the browser receives gives back the relay's events. */
  lemma ReceivedEvents(events: seq<Event>, i: nat)
    requires i < |events|
    ensures i < |Dispatched(Stream(events))|
    ensures ParseEventJson(Dispatched(Stream(events))[i]) == Some(events[i])
  {
    DispatchedStream(events);
    EventJsonRoundTrip(events[i]);
  }
}
