/**
 How a browser's EventSource interprets the bytes of an event stream, after
 the WHATWG HTML Living Standard, section 9.2.6 ("Interpreting an event
 stream"). This is the reading side of the reload frame: it gives the
 frame a meaning against which the broker's output is checked.

 Covered: the three line terminators (CRLF, LF, CR), comment lines, the
 field/value split at the first colon with one leading space dropped, the
 `event` and `data` fields, dispatch on a blank line (nothing is dispatched
 while the data buffer is empty, the last line feed of the data is removed,
 the type defaults to "message"), and the discarding of an unfinished event
 at the end of the stream. Not covered: the byte order mark, the `id` and
 `retry` fields (ignored here like unknown fields).
 */
module EventStream {
  import opened Text

  /** A dispatched event: its type and its data. */
  datatype Event = Event(kind: string, data: string)

  /** The interpreter's buffers and the events dispatched so far. */
  datatype Parser = Parser(line: string, afterCR: bool, data: string, kind: string, events: seq<Event>)

  const Start := Parser([], false, [], [], [])

  const DefaultKind := "message"

  /** Between events: no partial line, no pending field and no pending CR. */
  predicate Idle(st: Parser)
  {
    st.line == [] && !st.afterCR && st.data == [] && st.kind == []
  }

  /** Dispatch the buffered event (a blank line was read). */
  function Dispatch(st: Parser): (r: Parser)
    ensures r.data == [] && r.kind == [] && r.line == st.line && r.afterCR == st.afterCR
    ensures st.data == [] ==> r.events == st.events
    ensures st.data != [] ==> |r.events| == |st.events| + 1 && r.events[..|st.events|] == st.events
  {
    if st.data == [] then st.(kind := [])
    else
      var data := if st.data[|st.data| - 1] == '\n' then st.data[..|st.data| - 1] else st.data;
      var kind := if st.kind == [] then DefaultKind else st.kind;
      st.(data := [], kind := [], events := st.events + [Event(kind, data)])
  }

  /** Process one field with its value. */
  function Field(st: Parser, name: string, value: string): Parser
  {
    if name == "event" then st.(kind := value)
    else if name == "data" then st.(data := st.data + value + "\n")
    else st
  }

  /** Process one complete line (its terminator already removed). */
  function ProcessLine(st: Parser, l: string): Parser
  {
    if l == [] then Dispatch(st)
    else if l[0] == ':' then st
    else match FindFirst(l, ":")
      case None => Field(st, l, [])
      case Some(i) =>
        var v := l[i + 1..];
        Field(st, l[..i], if v != [] && v[0] == ' ' then v[1..] else v)
  }

  /** Read one character. A CR ends a line; an LF ends one too unless it completes a CRLF. */
  function Feed(st: Parser, c: char): Parser
  {
    if c == '\n' && st.afterCR then st.(afterCR := false)
    else if c == '\n' || c == '\r' then ProcessLine(st.(line := [], afterCR := c == '\r'), st.line)
    else st.(line := st.line + [c], afterCR := false)
  }

  /** Read a whole stream, left to right. */
  function Run(st: Parser, s: string): (r: Parser)
    ensures |st.events| <= |r.events| && r.events[..|st.events|] == st.events
    decreases |s|
  {
    if s == [] then st else Run(Feed(st, s[0]), s[1..])
  }

  /** The events a client receives from the stream `s`. */
  function Events(s: string): seq<Event>
  {
    Run(Start, s).events
  }

  /** Reading `a + b` is reading `a`, then `b`: the client may receive the stream in any chunks. */
  lemma {:induction false} RunAppend(st: Parser, a: string, b: string)
    ensures Run(st, a + b) == Run(Run(st, a), b)
    decreases |a|
  {
    if a != [] {
      assert (a + b)[0] == a[0];
      assert (a + b)[1..] == a[1..] + b;
      RunAppend(Feed(st, a[0]), a[1..], b);
    } else {
      assert a + b == b;
    }
  }

  /** Text without line terminators only extends the current line. */
  lemma {:induction false} RunWithinLine(st: Parser, s: string)
    requires !st.afterCR
    requires forall i :: 0 <= i < |s| ==> s[i] != '\n' && s[i] != '\r'
    ensures Run(st, s) == st.(line := st.line + s)
    decreases |s|
  {
    if s != [] {
      RunWithinLine(Feed(st, s[0]), s[1..]);
      assert st.line + [s[0]] + s[1..] == st.line + s;
    }
  }

  /** Reading a single character is feeding it to the interpreter. */
  lemma RunOne(st: Parser, c: char)
    ensures Run(st, [c]) == Feed(st, c)
  {
    assert [c][1..] == [];
  }

  /** A line without terminators followed by two line feeds is read as that line, then a blank line. */
  lemma LineThenBlank(st: Parser, text: string, frame: string)
    requires Idle(st)
    requires frame == text + ['\n'] + ['\n']
    requires forall i :: 0 <= i < |text| ==> text[i] != '\n' && text[i] != '\r'
    ensures Run(st, frame) == Feed(Feed(st.(line := text), '\n'), '\n')
  {
    RunAppend(st, text + ['\n'], ['\n']);
    RunAppend(st, text, ['\n']);
    RunWithinLine(st, text);
    assert st.line + text == text;
    RunOne(st.(line := text), '\n');
    RunOne(Feed(st.(line := text), '\n'), '\n');
  }
}
