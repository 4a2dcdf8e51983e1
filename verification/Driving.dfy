/**
 The loop that turns a cursor into a response: an opening, whatever each poll has to say, and
 keep-alive comments while it says nothing. What a client reads of all that is what the polls said.
 */
module Driving {
  import opened Wrappers
  import opened Sse
  import opened Streaming
  import opened Resuming
  import Decimal

  /** What one poll of the cursor returned, and whether it was the last. */
  datatype Polled = Polled(frames: seq<StreamFrame>, complete: bool)

  const DEFAULT_RETRY_MS := 3000

  const OPENING: seq<Chunk> :=
    [Data("", None, None, Some(Decimal.Render(DEFAULT_RETRY_MS))), Remark("stream open")]

  const KEEP_ALIVE := Remark("keep-alive")

  /** What is yielded over these polls, `quiet` being how long nothing has been. */
  function Yielded(polls: seq<Polled>, quiet: real, interval: real, heartbeat: real, json: StreamFrame -> string)
    : seq<Chunk>
    decreases |polls|
  {
    if polls == [] then []
    else
      var here := ChunksOf(polls[0].frames, json);
      var waited := if polls[0].frames != [] then 0.0 else quiet + interval;
      if polls[0].complete then here
      else if waited >= heartbeat then here + [KEEP_ALIVE] + Yielded(polls[1..], 0.0, interval, heartbeat, json)
      else here + Yielded(polls[1..], waited, interval, heartbeat, json)
  }

  /** The driving loop, until the cursor is complete or the client has gone after the last of these polls. */
  method IterFrames(polls: seq<Polled>, interval: real, heartbeat: real, json: StreamFrame -> string)
    returns (out: seq<Chunk>)
    ensures out == OPENING + Yielded(polls, 0.0, interval, heartbeat, json)
  {
    var quiet := 0.0;
    out := OPENING;
    var i := 0;
    while i < |polls|
      invariant 0 <= i <= |polls|
      invariant OPENING + Yielded(polls, 0.0, interval, heartbeat, json)
             == out + Yielded(polls[i..], quiet, interval, heartbeat, json)
    {
      var poll := polls[i];
      assert polls[i..][1..] == polls[i + 1..];
      out := out + ChunksOf(poll.frames, json);
      if poll.complete { return; }
      quiet := if poll.frames != [] then 0.0 else quiet + interval;
      if quiet >= heartbeat {
        out := out + [KEEP_ALIVE];
        quiet := 0.0;
      }
      i := i + 1;
    }
  }

  /** The frames a client is owed: those of every poll through the one that completed. */
  function Served(polls: seq<Polled>): seq<StreamFrame> {
    if polls == [] then []
    else if polls[0].complete then polls[0].frames
    else polls[0].frames + Served(polls[1..])
  }

  function IdAfter(lastId: string, chunks: seq<Chunk>): string
    decreases |chunks|
  {
    if chunks == [] then lastId
    else IdAfter(if chunks[0].Data? then chunks[0].id.GetOr(lastId) else lastId, chunks[1..])
  }

  lemma {:induction false} IntendedConcat(lastId: string, a: seq<Chunk>, b: seq<Chunk>)
    ensures IntendedAll(lastId, a + b) == IntendedAll(lastId, a) + IntendedAll(IdAfter(lastId, a), b)
    decreases |a|
  {
    if a == [] {
      assert a + b == b;
    } else {
      assert (a + b)[0] == a[0] && (a + b)[1..] == a[1..] + b;
      IntendedConcat(if a[0].Data? then a[0].id.GetOr(lastId) else lastId, a[1..], b);
    }
  }

  lemma {:induction false} ChunksConcat(a: seq<StreamFrame>, b: seq<StreamFrame>, json: StreamFrame -> string)
    ensures ChunksOf(a + b, json) == ChunksOf(a, json) + ChunksOf(b, json)
  {
    if a == [] {
      assert a + b == b;
    } else {
      assert (a + b)[0] == a[0] && (a + b)[1..] == a[1..] + b;
      ChunksConcat(a[1..], b, json);
    }
  }

  lemma RemarkIntendsNothing(lastId: string, text: string, rest: seq<Chunk>)
    ensures IntendedAll(lastId, [Remark(text)] + rest) == IntendedAll(lastId, rest)
  {
    assert ([Remark(text)] + rest)[1..] == rest;
  }

  /** However the keep-alives fall, what is meant is what the polls said. */
  lemma {:induction false} YieldedIntends(lastId: string, polls: seq<Polled>, quiet: real, interval: real,
                                          heartbeat: real, json: StreamFrame -> string)
    ensures IntendedAll(lastId, Yielded(polls, quiet, interval, heartbeat, json))
         == IntendedAll(lastId, ChunksOf(Served(polls), json))
    decreases |polls|
  {
    hide IntendedAll, ChunksOf;
    if polls != [] && !polls[0].complete {
      var here, id := ChunksOf(polls[0].frames, json), IdAfter(lastId, ChunksOf(polls[0].frames, json));
      var waited := if polls[0].frames != [] then 0.0 else quiet + interval;
      var left := if waited >= heartbeat then 0.0 else waited;
      var rest := Yielded(polls[1..], left, interval, heartbeat, json);
      YieldedIntends(id, polls[1..], left, interval, heartbeat, json);
      ChunksConcat(polls[0].frames, Served(polls[1..]), json);
      IntendedConcat(lastId, here, ChunksOf(Served(polls[1..]), json));
      IntendedConcat(lastId, here, rest);
      IntendedConcat(lastId, here, [KEEP_ALIVE] + rest);
      RemarkIntendsNothing(id, "keep-alive", rest);
      assert here + [KEEP_ALIVE] + rest == here + ([KEEP_ALIVE] + rest);
    } else {
      hide Yielded;
      YieldedAtEnd(polls, quiet, interval, heartbeat, json);
    }
  }

  lemma YieldedAtEnd(polls: seq<Polled>, quiet: real, interval: real, heartbeat: real, json: StreamFrame -> string)
    requires polls == [] || polls[0].complete
    ensures Yielded(polls, quiet, interval, heartbeat, json) == ChunksOf(Served(polls), json)
  {
  }

  lemma {:induction false} YieldedReadable(polls: seq<Polled>, quiet: real, interval: real, heartbeat: real,
                                           json: StreamFrame -> string)
    requires forall f :: CR !in json(f)
    ensures var chunks := Yielded(polls, quiet, interval, heartbeat, json); Tidy(chunks) && AllLegible(chunks)
    decreases |polls|
  {
    if polls != [] {
      ChunksLegible(polls[0].frames, json);
      assert OneLine("keep-alive");
      var waited := if polls[0].frames != [] then 0.0 else quiet + interval;
      YieldedReadable(polls[1..], if waited >= heartbeat then 0.0 else waited, interval, heartbeat, json);
    }
  }

  lemma OpeningReadable()
    ensures Tidy(OPENING) && AllLegible(OPENING)
  {
    Decimal.RenderParse(DEFAULT_RETRY_MS);
    assert OneLine("stream open");
  }

  lemma OpeningIntends(lastId: string, rest: seq<Chunk>)
    ensures IntendedAll(lastId, OPENING + rest) == [Message("message", "", lastId)] + IntendedAll(lastId, rest)
  {
    assert (OPENING + rest)[1..] == [Remark("stream open")] + rest;
    RemarkIntendsNothing(lastId, "stream open", rest);
  }

  /**
   A whole response, byte for byte, as a browser reads it: first one empty message, because the
   opening's retry hint is printed as a frame with an empty data line; then exactly one message for
   each frame of the polls, in order, up to and with the completing one. Keep-alives leave no trace.
   */
  lemma ResponseAsRead(lastId: string, polls: seq<Polled>, interval: real, heartbeat: real, json: StreamFrame -> string)
    requires forall f :: CR !in json(f)
    requires OneLine(lastId) && NUL !in lastId
    ensures Receive(lastId, Print(OPENING + Yielded(polls, 0.0, interval, heartbeat, json)))
         == [Message("message", "", lastId)] + IntendedAll(lastId, ChunksOf(Served(polls), json))
  {
    hide Receive, Print, IntendedAll, Yielded;
    var chunks := Yielded(polls, 0.0, interval, heartbeat, json);
    OpeningReadable();
    YieldedReadable(polls, 0.0, interval, heartbeat, json);
    PrintThenParse(lastId, OPENING + chunks);
    OpeningIntends(lastId, chunks);
    YieldedIntends(lastId, polls, 0.0, interval, heartbeat, json);
  }

  /** Nothing is yielded after the poll that completed, keep-alives included. */
  lemma {:induction false} NothingAfterTheEnd(polls: seq<Polled>, i: nat, quiet: real, interval: real, heartbeat: real,
                                              json: StreamFrame -> string)
    requires i < |polls| && polls[i].complete
    ensures Yielded(polls, quiet, interval, heartbeat, json)
         == Yielded(polls[..i + 1], quiet, interval, heartbeat, json)
    decreases i
  {
    hide ChunksOf;
    if i > 0 && !polls[0].complete {
      assert polls[..i + 1][1..] == polls[1..][..i];
      var waited := if polls[0].frames != [] then 0.0 else quiet + interval;
      NothingAfterTheEnd(polls[1..], i - 1, if waited >= heartbeat then 0.0 else waited, interval, heartbeat, json);
    }
  }

  // ----- when keep-alives fall --------------------------------------------------------

  /** That many polls in a row without a frame are as long as the heartbeat, and one fewer are not. */
  ghost predicate Patience(m: nat, interval: real, heartbeat: real) {
    m >= 1 && m as real * interval >= heartbeat && (m > 1 ==> (m - 1) as real * interval < heartbeat)
  }

  ghost predicate Frameless(polls: seq<Polled>) {
    forall p :: p in polls ==> p.frames == [] && !p.complete
  }

  function Beats(n: nat): seq<Chunk> {
    seq(n, i => KEEP_ALIVE)
  }

  /** How long nothing has been said after `j` polls without a frame. */
  function QuietFor(j: nat, interval: real): real {
    j as real * interval
  }

  lemma LongerWait(a: nat, b: nat, interval: real)
    requires a <= b && interval >= 0.0
    ensures a as real * interval <= b as real * interval
  {
    assert (b - a) as real * interval >= 0.0;
    assert b as real == a as real + (b - a) as real;
  }

  lemma Waiting(j: nat, m: nat, interval: real, heartbeat: real)
    requires Patience(m, interval, heartbeat) && j < m && interval >= 0.0
    ensures QuietFor(0, interval) == 0.0 && QuietFor(j, interval) + interval == QuietFor(j + 1, interval)
    ensures QuietFor(j + 1, interval) >= heartbeat <==> j + 1 == m
  {
    if j + 1 < m { LongerWait(j + 1, m - 1, interval); }
  }

  /** One poll of the loop, `j` without a frame before it: what is yielded and how many there are after it. */
  lemma YieldedStep(polls: seq<Polled>, j: nat, m: nat, interval: real, heartbeat: real, json: StreamFrame -> string)
    requires polls != [] && !polls[0].complete && Patience(m, interval, heartbeat) && j < m && interval >= 0.0
    ensures var beat := if polls[0].frames != [] then 0.0 >= heartbeat else j + 1 == m;
            Yielded(polls, QuietFor(j, interval), interval, heartbeat, json)
            == ChunksOf(polls[0].frames, json) + (if beat then [KEEP_ALIVE] else [])
               + Yielded(polls[1..], QuietFor(After(polls[0], j, m), interval), interval, heartbeat, json)
  {
    hide ChunksOf, Patience, QuietFor;
    Waiting(j, m, interval, heartbeat);
  }

  function After(p: Polled, j: nat, m: nat): nat {
    if p.frames != [] || j + 1 == m then 0 else j + 1
  }

  lemma Division(j: nat, n: nat, m: nat)
    requires j < m
    ensures j / m == 0
    ensures n >= m ==> (j + n) / m >= 1
    ensures j + n < m ==> (j + n) / m == 0
    ensures j + 1 == m && n >= 1 ==> (j + n) / m == 1 + (n - 1) / m
  {
    BelowOne(j, m);
    if j + n < m { BelowOne(j + n, m); } else { OneMore(j + n - m, m); }
    if j + 1 == m && n >= 1 { OneMore(n - 1, m); }
  }

  lemma BelowOne(n: nat, m: nat)
    requires n < m
    ensures n / m == 0
  {
    Quotient(n, m, 0, n);
  }

  lemma OneMore(n: nat, m: nat)
    requires m >= 1
    ensures (n + m) / m == 1 + n / m
  {
    var q := n / m;
    assert (q + 1) * m == q * m + m;
    Quotient(n + m, m, q + 1, n % m);
  }

  lemma Quotient(x: nat, m: nat, q: nat, r: nat)
    requires m >= 1 && x == q * m + r && r < m
    ensures x / m == q
  {
    var k := x / m;
    assert (k - q) * m == k * m - q * m;
    assert 0 - m < (k - q) * m < m;
    if k - q >= 1 { AtLeast(k - q, m); }
    if q - k >= 1 { AtLeast(q - k, m); }
  }

  lemma AtLeast(a: nat, m: nat)
    requires a >= 1
    ensures a * m >= m
  {
    assert a * m == m + (a - 1) * m;
  }

  lemma {:induction false} QuietBeats(polls: seq<Polled>, j: nat, m: nat, interval: real, heartbeat: real,
                                      json: StreamFrame -> string)
    requires Frameless(polls) && Patience(m, interval, heartbeat) && j < m && interval >= 0.0
    ensures Yielded(polls, QuietFor(j, interval), interval, heartbeat, json) == Beats((j + |polls|) / m)
    decreases |polls|
  {
    hide Patience, QuietFor, Yielded;
    Division(j, |polls|, m);
    if polls != [] {
      assert polls == [polls[0]] + polls[1..];
      assert polls[0] in polls;
      YieldedStep(polls, j, m, interval, heartbeat, json);
      assert ChunksOf([], json) == [];
      QuietBeats(polls[1..], After(polls[0], j, m), m, interval, heartbeat, json);
      if j + 1 == m { MoreBeats((|polls| - 1) / m); }
    } else {
      NothingYielded(QuietFor(j, interval), interval, heartbeat, json);
    }
  }

  lemma MoreBeats(n: nat)
    ensures Beats(1 + n) == [] + [KEEP_ALIVE] + Beats(n)
  {
  }

  lemma NothingYielded(quiet: real, interval: real, heartbeat: real, json: StreamFrame -> string)
    ensures Yielded([], quiet, interval, heartbeat, json) == [] == Beats(0)
  {
  }

  /**
   Keep-alives over any stretch of polls without a frame, whatever came before it: one for every `m`
   polls, `m` being how many are as long as the heartbeat, and nothing else. `j` counts the polls
   without a frame since the last frame or keep-alive before the stretch; so the stretch has one if it
   is `m` polls long, and after a frame none sooner.
   */
  lemma {:induction false} KeepAlivesFall(before: seq<Polled>, quiet: seq<Polled>, start: nat, m: nat, interval: real,
                                          heartbeat: real, json: StreamFrame -> string)
    returns (j: nat)
    requires (forall p :: p in before ==> !p.complete) && Frameless(quiet)
    requires Patience(m, interval, heartbeat) && start < m && interval >= 0.0
    ensures Yielded(before + quiet, start as real * interval, interval, heartbeat, json)
         == Yielded(before, start as real * interval, interval, heartbeat, json) + Beats((j + |quiet|) / m)
    ensures j < m && (before != [] && before[|before| - 1].frames != [] ==> j == 0) && (before == [] ==> j == start)
    ensures |quiet| >= m ==> (j + |quiet|) / m >= 1
    ensures j + |quiet| < m ==> (j + |quiet|) / m == 0
  {
    hide Patience, Yielded, Frameless, Beats;
    j := BeatsFollow(before, quiet, start, m, interval, heartbeat, json);
    Division(j, |quiet|, m);
  }

  lemma {:induction false} BeatsFollow(before: seq<Polled>, quiet: seq<Polled>, start: nat, m: nat, interval: real,
                                       heartbeat: real, json: StreamFrame -> string)
    returns (j: nat)
    requires (forall p :: p in before ==> !p.complete) && Frameless(quiet)
    requires Patience(m, interval, heartbeat) && start < m && interval >= 0.0
    ensures Yielded(before + quiet, QuietFor(start, interval), interval, heartbeat, json)
         == Yielded(before, QuietFor(start, interval), interval, heartbeat, json) + Beats((j + |quiet|) / m)
    ensures j < m && (before != [] && before[|before| - 1].frames != [] ==> j == 0) && (before == [] ==> j == start)
    decreases |before|
  {
    hide Patience, ChunksOf, Yielded, Frameless, Beats, QuietFor;
    if before == [] {
      j := start;
      assert before + quiet == quiet;
      QuietBeats(quiet, start, m, interval, heartbeat, json);
      NothingYielded(QuietFor(start, interval), interval, heartbeat, json);
    } else {
      var rest := before[1..];
      assert before == [before[0]] + rest && (before + quiet)[0] == before[0] && (before + quiet)[1..] == rest + quiet;
      YieldedStep(before, start, m, interval, heartbeat, json);
      YieldedStep(before + quiet, start, m, interval, heartbeat, json);
      j := BeatsFollow(rest, quiet, After(before[0], start, m), m, interval, heartbeat, json);
      assert rest != [] ==> rest[|rest| - 1] == before[|before| - 1];
    }
  }

  /** What the opening tells a browser besides its empty message: how long to wait before reconnecting. */
  lemma OpeningSetsRetry(lastId: string)
    requires OneLine(lastId)
    ensures Feed(Parser("", "", lastId, "", []), Print(OPENING)).retry == "3000"
  {
    hide Feed, Frame, Comment, FrameLines, Intended, Decimal.Digits;
    var p := Parser("", "", lastId, "", []);
    Thousands();
    Decimal.DigitsRoundTrip(3000);
    FrameRead(p, "", None, None, Some(Decimal.Render(3000)), Print([Remark("stream open")]));
    var q := p.(retry := Decimal.Render(3000), sent := p.sent + [Intended(lastId, "", None, None)]);
    assert OPENING[1..] == [Remark("stream open")];
    assert OneLine("stream open");
    CommentRead(q, "stream open", "");
    assert Print([Remark("stream open")]) == Comment("stream open") + "";
    FeedNothing(q);
  }

  /** The first bytes of every response, and those of a keep-alive. */
  lemma OpeningBytes()
    ensures Print(OPENING) == "retry: 3000\ndata: \n\n: stream open\n\n"
    ensures Print([KEEP_ALIVE]) == ": keep-alive\n\n"
  {
    hide Frame, Comment;
    Thousands();
    RetryBytes();
    RemarkBytes("stream open");
    RemarkBytes("keep-alive");
    assert ": " + "stream open" + "\n\n" == ": stream open\n\n" && ": " + "keep-alive" + "\n\n" == ": keep-alive\n\n";
    assert OPENING[0] == Data("", None, None, Some("3000")) && OPENING[1..] == [Remark("stream open")];
  }

  lemma RemarkBytes(text: string)
    ensures Print([Remark(text)]) == ": " + text + "\n\n"
  {
    assert [Remark(text)][1..] == [];
    assert [Sse.LF, Sse.LF] == "\n\n";
    assert Comment(text) + "" == Comment(text);
  }

  lemma RetryBytes()
    ensures Frame("", None, None, Some("3000")) == "retry: 3000\ndata: \n\n"
  {
    assert Split("") == [""] && [""][1..] == [];
    var lines := FrameLines("", None, None, Some("3000"));
    assert "data: " + "" == "data: " && DataLines([]) == [];
    assert DataLines([""]) == ["data: " + ""] + DataLines([""][1..]);
    assert lines == [] + [] + ["retry: 3000"] + ["data: "] by {
      assert "retry: " + "3000" == "retry: 3000";
    }
    JoinTwo("retry: 3000", "data: ");
    assert lines == ["retry: 3000", "data: "];
  }

  lemma JoinTwo(a: string, b: string)
    ensures Join([a, b]) == a + "\n" + b
  {
    assert [a, b][1..] == [b];
  }

  lemma Thousands()
    ensures Decimal.Render(3000) == "3000"
  {
    assert Decimal.Digits(3) == "3";
    assert Decimal.Digits(30) == "30";
    assert Decimal.Digits(300) == "300";
    assert Decimal.Digits(3000) == "3000";
  }
}
