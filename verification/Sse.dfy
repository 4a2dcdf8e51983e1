/**
 Server-sent events on the wire: how frames and comments are printed, how a client reads
 them back (WHATWG HTML Living Standard, sections 9.2.5 and 9.2.6), and that the second
 undoes the first.
 */
module Sse {
  import opened Wrappers

  const LF := '\n'
  const CR := '\r'
  const NUL := '\0'

  // ----- printing ---------------------------------------------------------------

  /** `text.split("\n")`: never empty. */
  function Split(text: string): (lines: seq<string>)
    ensures lines != []
    ensures forall l :: l in lines ==> LF !in l
  {
    if text == "" then [""]
    else
      var rest := Split(text[1..]);
      assert rest == [rest[0]] + rest[1..];
      if text[0] == LF then [""] + rest else [[text[0]] + rest[0]] + rest[1..]
  }

  /** `"\n".join(lines)`. */
  function Join(lines: seq<string>): string {
    if lines == [] then "" else if |lines| == 1 then lines[0] else lines[0] + [LF] + Join(lines[1..])
  }

  function DataLines(lines: seq<string>): seq<string> {
    if lines == [] then [] else ["data: " + lines[0]] + DataLines(lines[1..])
  }

  function Optional(prefix: string, value: Option<string>): seq<string> {
    if value.Some? then [prefix + value.value] else []
  }

  function FrameLines(data: string, event: Option<string>, id: Option<string>, retry: Option<string>): seq<string> {
    Optional("event: ", event) + Optional("id: ", id) + Optional("retry: ", retry) + DataLines(Split(data))
  }

  /** Render one frame. */
  function Frame(data: string, event: Option<string>, id: Option<string>, retry: Option<string>): string {
    Join(FrameLines(data, event, id, retry)) + [LF, LF]
  }

  /** A frame clients ignore. */
  function Comment(text: string): string {
    ": " + text + [LF, LF]
  }

  // ----- parsing ----------------------------------------------------------------

  /** What a client's page is told. */
  datatype Message = Message(eventType: string, data: string, lastEventId: string)

  /** The buffers of section 9.2.6, and what has been dispatched so far. */
  datatype Parser = Parser(data: string, eventType: string, lastId: string, retry: string, sent: seq<Message>)

  function Dispatch(p: Parser): Parser {
    if p.data == "" then p.(eventType := "")
    else
      var data := if p.data[|p.data| - 1] == LF then p.data[..|p.data| - 1] else p.data;
      p.(data := "", eventType := "",
         sent := p.sent + [Message(if p.eventType == "" then "message" else p.eventType, data, p.lastId)])
  }

  predicate AllDigits(s: string) {
    s != "" && forall c :: c in s ==> '0' <= c <= '9'
  }

  function Field(p: Parser, name: string, value: string): Parser {
    if name == "event" then p.(eventType := value)
    else if name == "data" then p.(data := p.data + value + [LF])
    else if name == "id" then (if NUL in value then p else p.(lastId := value))
    else if name == "retry" then (if AllDigits(value) then p.(retry := value) else p)
    else p
  }

  function ColonAt(line: string): (i: nat)
    ensures i <= |line|
    ensures i < |line| ==> line[i] == ':'
    ensures forall k :: 0 <= k < i ==> line[k] != ':'
  {
    if line == "" || line[0] == ':' then 0 else 1 + ColonAt(line[1..])
  }

  function WithoutSpace(s: string): string {
    if s != "" && s[0] == ' ' then s[1..] else s
  }

  function Line(p: Parser, line: string): Parser {
    if line == "" then Dispatch(p)
    else
      var i := ColonAt(line);
      if i == 0 then p
      else if i < |line| then Field(p, line[..i], WithoutSpace(line[i + 1..]))
      else Field(p, line, "")
  }

  function BreakAt(text: string): (i: nat)
    ensures i <= |text|
    ensures i < |text| ==> text[i] == LF || text[i] == CR
    ensures forall k :: 0 <= k < i ==> text[k] != LF && text[k] != CR
  {
    if text == "" || text[0] == LF || text[0] == CR then 0 else 1 + BreakAt(text[1..])
  }

  /** Lines end in LF, CR or the pair; what follows the last of them is discarded. */
  function Feed(p: Parser, text: string): Parser
    decreases |text|
  {
    var i := BreakAt(text);
    if i == |text| then p
    else
      var next := if text[i] == CR && i + 1 < |text| && text[i + 1] == LF then i + 2 else i + 1;
      Feed(Line(p, text[..i]), text[next..])
  }

  const BOM := '\U{FEFF}'

  /** A client's view of a whole stream: one leading byte order mark is skipped. */
  function Receive(lastId: string, text: string): seq<Message> {
    Feed(Parser("", "", lastId, "", []), if text != "" && text[0] == BOM then text[1..] else text).sent
  }

  // ----- lines ------------------------------------------------------------------

  predicate OneLine(s: string) {
    LF !in s && CR !in s
  }

  lemma {:induction false} BreakIs(line: string, rest: string)
    requires OneLine(line)
    ensures BreakAt(line + [LF] + rest) == |line|
  {
    if line != "" {
      assert (line + [LF] + rest)[1..] == line[1..] + [LF] + rest;
      assert forall c :: c in line[1..] ==> c in line;
      BreakIs(line[1..], rest);
    }
  }

  lemma FeedLine(p: Parser, line: string, rest: string)
    requires OneLine(line)
    ensures Feed(p, line + [LF] + rest) == Feed(Line(p, line), rest)
  {
    var text := line + [LF] + rest;
    BreakIs(line, rest);
    assert text[..|line|] == line && text[|line| + 1..] == rest;
  }

  /** Every line followed by its LF. */
  function Terminated(lines: seq<string>): string {
    if lines == [] then "" else lines[0] + [LF] + Terminated(lines[1..])
  }

  function Lines(p: Parser, lines: seq<string>): Parser
    decreases |lines|
  {
    if lines == [] then p else Lines(Line(p, lines[0]), lines[1..])
  }

  lemma {:induction false} JoinTerminated(lines: seq<string>)
    requires lines != []
    ensures Join(lines) + [LF] == Terminated(lines)
  {
    if |lines| > 1 {
      JoinTerminated(lines[1..]);
      assert Join(lines) + [LF] == lines[0] + [LF] + (Join(lines[1..]) + [LF]);
    } else {
      assert Terminated(lines[1..]) == "";
    }
  }

  lemma {:induction false} FeedLines(p: Parser, lines: seq<string>, rest: string)
    requires forall l :: l in lines ==> OneLine(l)
    ensures Feed(p, Terminated(lines) + rest) == Feed(Lines(p, lines), rest)
    decreases |lines|
  {
    if lines == [] {
      assert Terminated(lines) + rest == rest;
    } else {
      assert Terminated(lines) + rest == lines[0] + [LF] + (Terminated(lines[1..]) + rest);
      FeedLine(p, lines[0], Terminated(lines[1..]) + rest);
      FeedLines(Line(p, lines[0]), lines[1..], rest);
    }
  }

  lemma {:induction false} LinesConcat(p: Parser, a: seq<string>, b: seq<string>)
    ensures Lines(p, a + b) == Lines(Lines(p, a), b)
    decreases |a|
  {
    if a == [] {
      assert a + b == b;
    } else {
      assert (a + b)[0] == a[0] && (a + b)[1..] == a[1..] + b;
      LinesConcat(Line(p, a[0]), a[1..], b);
    }
  }

  // ----- one frame ----------------------------------------------------------------

  lemma ColonIs(name: string, value: string)
    requires forall c :: c in name ==> c != ':'
    ensures ColonAt(name + ": " + value) == |name|
  {
    var line := name + ": " + value;
    assert line[|name|] == ':';
    assert forall k :: 0 <= k < |name| ==> line[k] == name[k] && name[k] in name;
  }

  /** A printed field is read back as that field with that value. */
  lemma FieldLine(p: Parser, name: string, value: string)
    requires name != "" && forall c :: c in name ==> c != ':'
    ensures Line(p, name + ": " + value) == Field(p, name, value)
  {
    var line := name + ": " + value;
    ColonIs(name, value);
    assert line[..|name|] == name;
    assert line[|name| + 1..] == " " + value;
    assert (" " + value)[1..] == value;
  }

  lemma Fields(p: Parser, value: string)
    ensures Field(p, "event", value) == p.(eventType := value)
    ensures Field(p, "data", value) == p.(data := p.data + value + [LF])
    ensures Field(p, "id", value) == if NUL in value then p else p.(lastId := value)
    ensures Field(p, "retry", value) == if AllDigits(value) then p.(retry := value) else p
  {
    assert "data"[0] == 'd' && "id"[0] == 'i' && "retry"[0] == 'r' && "event"[0] == 'e';
  }

  lemma DataLine(p: Parser, line: string)
    ensures Line(p, "data: " + line) == p.(data := p.data + line + [LF])
  {
    hide Line, Field;
    FieldLine(p, "data", line);
    Fields(p, line);
    assert "data" + ": " + line == "data: " + line;
  }

  lemma {:induction false} DataLinesAccumulate(p: Parser, lines: seq<string>)
    ensures Lines(p, DataLines(lines)) == p.(data := p.data + Terminated(lines))
    decreases |lines|
  {
    if lines == [] {
      assert p.data + "" == p.data;
    } else {
      hide Line, Lines, Terminated, DataLines;
      var q := Line(p, "data: " + lines[0]);
      DataLine(p, lines[0]);
      DataLinesAccumulate(q, lines[1..]);
      LinesHead(p, "data: " + lines[0], DataLines(lines[1..]));
      DataHead(lines);
      TerminatedHead(lines);
      FourParts(p.data, lines[0], [LF], Terminated(lines[1..]));
    }
  }

  lemma FourParts(a: string, b: string, c: string, d: string)
    ensures (a + b + c) + d == a + (b + c + d)
  {
  }

  lemma LinesHead(p: Parser, first: string, rest: seq<string>)
    ensures Lines(p, [first] + rest) == Lines(Line(p, first), rest)
  {
    assert ([first] + rest)[1..] == rest;
  }

  lemma DataHead(lines: seq<string>)
    requires lines != []
    ensures DataLines(lines) == ["data: " + lines[0]] + DataLines(lines[1..])
  {
  }

  lemma TerminatedHead(lines: seq<string>)
    requires lines != []
    ensures Terminated(lines) == lines[0] + [LF] + Terminated(lines[1..])
  {
  }

  lemma {:induction false} SplitTerminated(text: string)
    ensures Terminated(Split(text)) == text + [LF]
  {
    if text == "" {
      assert Terminated([""][1..]) == "";
    } else {
      var rest := Split(text[1..]);
      SplitTerminated(text[1..]);
      assert text == [text[0]] + text[1..];
      if text[0] == LF {
        assert ([""] + rest)[1..] == rest;
      } else {
        var lines := [[text[0]] + rest[0]] + rest[1..];
        assert lines[1..] == rest[1..];
        assert Terminated(lines) == [text[0]] + (rest[0] + [LF] + Terminated(rest[1..]));
      }
    }
  }

  /** The conditions under which a frame is legible. */
  predicate Legible(data: string, event: Option<string>, id: Option<string>) {
    && CR !in data
    && (event.Some? ==> OneLine(event.value))
    && (id.Some? ==> OneLine(id.value) && NUL !in id.value)
  }

  /** What a frame should come out as, given the last id seen before it. */
  function Intended(lastId: string, data: string, event: Option<string>, id: Option<string>): Message {
    Message(if event.None? || event.value == "" then "message" else event.value, data, id.GetOr(lastId))
  }

  lemma OptionalLine(p: Parser, name: string, value: Option<string>)
    requires name != "" && forall c :: c in name ==> c != ':'
    ensures Lines(p, Optional(name + ": ", value)) == if value.Some? then Field(p, name, value.value) else p
  {
    if value.Some? {
      FieldLine(p, name, value.value);
      assert Optional(name + ": ", value)[1..] == [];
    }
  }

  function RetryAfter(before: string, retry: Option<string>): string {
    if retry.Some? && AllDigits(retry.value) then retry.value else before
  }

  lemma Dispatched(p: Parser, data: string)
    requires p.data == ""
    ensures Line(p.(data := p.data + (data + [LF])), "")
         == p.(eventType := "",
               sent := p.sent + [Message(if p.eventType == "" then "message" else p.eventType, data, p.lastId)])
  {
    assert p.data + (data + [LF]) == data + [LF];
    assert (data + [LF])[..|data|] == data;
  }

  lemma FrameLinesRead(p: Parser, data: string, event: Option<string>, id: Option<string>, retry: Option<string>)
    requires p.data == "" && p.eventType == "" && Legible(data, event, id)
    ensures Line(Lines(p, FrameLines(data, event, id, retry)), "")
         == p.(lastId := id.GetOr(p.lastId), retry := RetryAfter(p.retry, retry),
               sent := p.sent + [Intended(p.lastId, data, event, id)])
  {
    hide Line, Field, Split;
    var a, b, c := Optional("event: ", event), Optional("id: ", id), Optional("retry: ", retry);
    var d := DataLines(Split(data));
    LinesConcat(p, a + b + c, d);
    LinesConcat(p, a + b, c);
    LinesConcat(p, a, b);
    assert "event" + ": " == "event: " && "id" + ": " == "id: " && "retry" + ": " == "retry: ";
    OptionalLine(p, "event", event);
    OptionalLine(Lines(p, a), "id", id);
    OptionalLine(Lines(p, a + b), "retry", retry);
    Fields(p, event.GetOr(""));
    Fields(Lines(p, a), id.GetOr(""));
    Fields(Lines(p, a + b), retry.GetOr(""));
    var q := Lines(p, a + b + c);
    DataLinesAccumulate(q, Split(data));
    SplitTerminated(data);
    Dispatched(q, data);
  }

  lemma Prefixed(prefix: string, value: string)
    requires OneLine(prefix) && OneLine(value)
    ensures OneLine(prefix + value)
  {
  }

  lemma {:induction false} SplitOneLine(text: string)
    requires CR !in text
    ensures forall l :: l in Split(text) ==> OneLine(l)
  {
    if text != "" {
      assert text == [text[0]] + text[1..];
      var rest := Split(text[1..]);
      SplitOneLine(text[1..]);
      assert rest == [rest[0]] + rest[1..] && OneLine(rest[0]);
      if text[0] != LF { Prefixed([text[0]], rest[0]); }
    }
  }

  lemma {:induction false} DataLinesOneLine(lines: seq<string>)
    requires forall l :: l in lines ==> OneLine(l)
    ensures forall l :: l in DataLines(lines) ==> OneLine(l)
  {
    if lines != [] {
      DataLinesOneLine(lines[1..]);
      assert lines == [lines[0]] + lines[1..];
      Prefixed("data: ", lines[0]);
    }
  }

  lemma FrameLinesOneLine(data: string, event: Option<string>, id: Option<string>, retry: Option<string>)
    requires Legible(data, event, id) && (retry.Some? ==> OneLine(retry.value))
    ensures FrameLines(data, event, id, retry) != []
    ensures forall l :: l in FrameLines(data, event, id, retry) ==> OneLine(l)
  {
    SplitOneLine(data);
    DataLinesOneLine(Split(data));
    assert DataLines(Split(data)) != [];
    if event.Some? { Prefixed("event: ", event.value); }
    if id.Some? { Prefixed("id: ", id.value); }
    if retry.Some? { Prefixed("retry: ", retry.value); }
  }

  /** A legible frame is read as exactly one message: the data with its line breaks, the name, the id. */
  lemma FrameRead(p: Parser, data: string, event: Option<string>, id: Option<string>, retry: Option<string>,
                  rest: string)
    requires p.data == "" && p.eventType == ""
    requires Legible(data, event, id) && (retry.Some? ==> OneLine(retry.value))
    ensures Feed(p, Frame(data, event, id, retry) + rest)
         == Feed(p.(lastId := id.GetOr(p.lastId), retry := RetryAfter(p.retry, retry),
                    sent := p.sent + [Intended(p.lastId, data, event, id)]), rest)
  {
    hide Feed, Line, Lines, FrameLines, Join, Terminated, Legible, Intended, RetryAfter;
    var lines := FrameLines(data, event, id, retry);
    FrameLinesOneLine(data, event, id, retry);
    JoinTerminated(lines);
    assert Frame(data, event, id, retry) + rest == Terminated(lines) + ("" + [LF] + rest);
    FeedLines(p, lines, "" + [LF] + rest);
    FeedLine(Lines(p, lines), "", rest);
    FrameLinesRead(p, data, event, id, retry);
  }

  /** A comment is read as nothing, though its text is there on the wire. */
  lemma CommentRead(p: Parser, text: string, rest: string)
    requires p.data == "" && p.eventType == "" && OneLine(text)
    ensures Feed(p, Comment(text) + rest) == Feed(p, rest)
    ensures |Comment(text)| > |text| + 2 && Comment(text)[0] == ':' && Comment(text)[2..2 + |text|] == text
  {
    assert Comment(text)[2..2 + |text|] == text;
    var line := ": " + text;
    assert Comment(text) + rest == line + [LF] + ("" + [LF] + rest);
    assert OneLine(": ");
    FeedLine(p, line, "" + [LF] + rest);
    assert Line(p, line) == p by { assert line[0] == ':'; }
    FeedLine(p, "", rest);
  }

  // ----- streams --------------------------------------------------------------------

  /** What a stream is made of. */
  datatype Chunk =
    | Data(data: string, event: Option<string>, id: Option<string>, retry: Option<string>)
    | Remark(text: string)

  function Print(chunks: seq<Chunk>): string {
    if chunks == [] then ""
    else
      (match chunks[0]
       case Data(data, event, id, retry) => Frame(data, event, id, retry)
       case Remark(text) => Comment(text))
      + Print(chunks[1..])
  }

  function IntendedAll(lastId: string, chunks: seq<Chunk>): seq<Message>
    decreases |chunks|
  {
    if chunks == [] then []
    else match chunks[0]
      case Data(data, event, id, retry) =>
        [Intended(lastId, data, event, id)] + IntendedAll(id.GetOr(lastId), chunks[1..])
      case Remark(text) => IntendedAll(lastId, chunks[1..])
  }

  /** Comments and retry hints that stay on their line. */
  predicate Tidy(chunks: seq<Chunk>) {
    forall c :: c in chunks ==>
      match c
      case Data(data, event, id, retry) => retry.Some? ==> OneLine(retry.value)
      case Remark(text) => OneLine(text)
  }

  predicate AllLegible(chunks: seq<Chunk>) {
    forall c :: c in chunks && c.Data? ==> Legible(c.data, c.event, c.id)
  }

  lemma FeedNothing(p: Parser)
    ensures Feed(p, "") == p
  {
  }

  lemma {:induction false} StreamRead(p: Parser, chunks: seq<Chunk>)
    requires p.data == "" && p.eventType == "" && Tidy(chunks) && AllLegible(chunks)
    ensures Feed(p, Print(chunks)).sent == p.sent + IntendedAll(p.lastId, chunks)
    decreases |chunks|
  {
    hide Feed, Frame, Comment, AllDigits;
    if chunks == [] {
      FeedNothing(p);
    } else {
      assert chunks == [chunks[0]] + chunks[1..];
      assert chunks[0] in chunks;
      forall c | c in chunks[1..] ensures c in chunks {
      }
      assert Tidy(chunks[1..]) && AllLegible(chunks[1..]);
      match chunks[0] {
        case Data(data, event, id, retry) =>
          FrameRead(p, data, event, id, retry, Print(chunks[1..]));
          var q := p.(lastId := id.GetOr(p.lastId), retry := RetryAfter(p.retry, retry),
                      sent := p.sent + [Intended(p.lastId, data, event, id)]);
          StreamRead(q, chunks[1..]);
        case Remark(text) =>
          CommentRead(p, text, Print(chunks[1..]));
          StreamRead(p, chunks[1..]);
      }
    }
  }

  // ----- what no stream can say --------------------------------------------------------

  /** What a parser can hold: no CR anywhere, names and ids on one line, no NUL in an id. */
  predicate Sayable(m: Message) {
    CR !in m.data && OneLine(m.eventType) && OneLine(m.lastEventId) && NUL !in m.lastEventId
  }

  predicate Clean(p: Parser) {
    && CR !in p.data && OneLine(p.eventType) && OneLine(p.lastId) && NUL !in p.lastId
    && (forall m :: m in p.sent ==> Sayable(m))
  }

  lemma LineClean(p: Parser, line: string)
    requires Clean(p) && OneLine(line)
    ensures Clean(Line(p, line))
  {
    hide Dispatch, Field, Clean, ColonAt;
    if line == "" {
      DispatchClean(p);
    } else {
      var i := ColonAt(line);
      var value := if i < |line| then WithoutSpace(line[i + 1..]) else "";
      assert forall c :: c in value ==> c in line;
      FieldClean(p, line[..i], value);
      assert line[..|line|] == line;
    }
  }

  lemma DispatchClean(p: Parser)
    requires Clean(p)
    ensures Clean(Dispatch(p))
  {
    assert OneLine("message");
    if p.data != "" {
      assert forall c :: c in p.data[..|p.data| - 1] ==> c in p.data;
    }
  }

  lemma FieldClean(p: Parser, name: string, value: string)
    requires Clean(p) && OneLine(value)
    ensures Clean(Field(p, name, value))
  {
  }

  lemma {:induction false} FeedClean(p: Parser, text: string)
    requires Clean(p)
    ensures Clean(Feed(p, text))
    decreases |text|
  {
    hide Line, Clean, BreakAt;
    var i := BreakAt(text);
    if i < |text| {
      LineClean(p, text[..i]);
      var next := if text[i] == CR && i + 1 < |text| && text[i + 1] == LF then i + 2 else i + 1;
      FeedClean(Line(p, text[..i]), text[next..]);
    }
  }

  lemma {:induction false} IllegibleIntended(lastId: string, chunks: seq<Chunk>)
    requires !AllLegible(chunks)
    ensures exists m :: m in IntendedAll(lastId, chunks) && !Sayable(m)
    decreases |chunks|
  {
    var c :| c in chunks && c.Data? && !Legible(c.data, c.event, c.id);
    assert chunks == [chunks[0]] + chunks[1..];
    match chunks[0] {
      case Data(data, event, id, retry) =>
        var all := IntendedAll(lastId, chunks);
        if !Legible(data, event, id) {
          assert all[0] in all && all[0] == Intended(lastId, data, event, id);
        } else {
          assert c in chunks[1..];
          IllegibleIntended(id.GetOr(lastId), chunks[1..]);
          var m :| m in IntendedAll(id.GetOr(lastId), chunks[1..]) && !Sayable(m);
          assert m in all;
        }
      case Remark(text) =>
        assert c in chunks[1..];
        IllegibleIntended(lastId, chunks[1..]);
    }
  }

  lemma {:induction false} NoByteOrderMark(chunks: seq<Chunk>)
    ensures Print(chunks) != "" ==> Print(chunks)[0] != BOM
  {
    if chunks != [] && chunks[0].Data? {
      var c := chunks[0];
      var lines := FrameLines(c.data, c.event, c.id, c.retry);
      assert DataLines(Split(c.data)) != [];
      assert lines != [] && lines[0] != "" && lines[0][0] != BOM;
      assert Join(lines)[0] == lines[0][0];
    }
  }

  /**
   Reading back any sequence of frames and comments gives one message per frame, with its
   data, name and id, exactly when no data holds a CR, no name a line break, and no id a
   line break or NUL.
   */
  lemma PrintThenParse(lastId: string, chunks: seq<Chunk>)
    requires Tidy(chunks) && OneLine(lastId) && NUL !in lastId
    ensures Receive(lastId, Print(chunks)) == IntendedAll(lastId, chunks) <==> AllLegible(chunks)
  {
    var p := Parser("", "", lastId, "", []);
    NoByteOrderMark(chunks);
    FeedClean(p, Print(chunks));
    if AllLegible(chunks) {
      StreamRead(p, chunks);
    } else {
      IllegibleIntended(lastId, chunks);
    }
  }
}
