/**
 * Cutting the bytes an SMTP server sends into replies (packages/db/src/mail/smtp.ts).
 * A chunk may end anywhere, so the client keeps the unfinished line in `buffer`
 * and the lines of an unfinished reply in `partial`.
 */
module SmtpReplies {
  import opened Wrappers
  import opened Strings
  import opened Utf8
  import opened Base64

  datatype Reply = Reply(code: nat, lines: seq<string>)

  /** What the client makes of one line: another line of a reply, or its last. */
  datatype Line = Continued(text: string) | Final(code: nat, text: string)

  datatype Parser = Parser(buffer: string, partial: seq<string>)

  datatype Event = Arrived(reply: Reply) | Unreadable(line: string)

  /** The parser after some input, and what that input brought. */
  datatype Fed = Fed(parser: Parser, events: seq<Event>)

  const START := Parser("", [])

  // ---- One line ----

  predicate IsDigit(c: char) {
    '0' <= c <= '9'
  }

  /** The characters `.` does not match in a JavaScript pattern. */
  predicate EndsLine(c: char) {
    c == '\n' || c == '\r' || c == '\U{2028}' || c == '\U{2029}'
  }

  predicate Legible(text: string) {
    forall i :: 0 <= i < |text| ==> !EndsLine(text[i])
  }

  function DigitValue(c: char): nat
    requires IsDigit(c)
  {
    c as int - '0' as int
  }

  /** A line without the carriage return that may close it. */
  function Stripped(line: string): string {
    if |line| > 0 && line[|line| - 1] == '\r' then line[..|line| - 1] else line
  }

  /** Three digits, then an optional space or hyphen, then the text. */
  function ReadLine(line: string): Option<Line> {
    if |line| < 3 || !IsDigit(line[0]) || !IsDigit(line[1]) || !IsDigit(line[2]) || !Legible(line[3..]) then
      None
    else
      var code := 100 * DigitValue(line[0]) + 10 * DigitValue(line[1]) + DigitValue(line[2]);
      if |line| > 3 && line[3] == '-' then Some(Continued(line[4..]))
      else if |line| > 3 && line[3] == ' ' then Some(Final(code, line[4..]))
      else Some(Final(code, line[3..]))
  }

  // ---- A stream of lines ----

  /** Where the first line ends: the index of its line feed, or the length if it is unfinished. */
  function Break(s: string): (at: nat)
    ensures at <= |s|
    ensures at < |s| ==> s[at] == '\n'
    ensures forall i :: 0 <= i < at ==> s[i] != '\n'
  {
    if s == "" || s[0] == '\n' then 0 else 1 + Break(s[1..])
  }

  predicate Unfinished(s: string) {
    Break(s) == |s|
  }

  /** The first line of `s`, as the client reads it. */
  function FirstLine(s: string): Option<Line>
    requires !Unfinished(s)
  {
    ReadLine(Stripped(s[..Break(s)]))
  }

  function AfterFirst(s: string): (rest: string)
    requires !Unfinished(s)
    ensures |rest| < |s|
  {
    s[Break(s) + 1..]
  }

  /** One complete line taken off the buffer. */
  function TakeLine(p: Parser): (f: Fed)
    requires !Unfinished(p.buffer)
    ensures f.parser.buffer == AfterFirst(p.buffer)
  {
    var rest := AfterFirst(p.buffer);
    match FirstLine(p.buffer)
    case None => Fed(Parser(rest, p.partial), [Unreadable(Stripped(p.buffer[..Break(p.buffer)]))])
    case Some(Continued(text)) => Fed(Parser(rest, p.partial + [text]), [])
    case Some(Final(code, text)) => Fed(Parser(rest, []), [Arrived(Reply(code, p.partial + [text]))])
  }

  /** Take lines while they are complete; an unreadable one ends the pass, whatever follows it. */
  function Drain(p: Parser): Fed
    decreases |p.buffer|
  {
    if Unfinished(p.buffer) then Fed(p, [])
    else if FirstLine(p.buffer).None? then TakeLine(p)
    else Then(TakeLine(p).events, Drain(TakeLine(p).parser))
  }

  function Then(events: seq<Event>, f: Fed): Fed {
    Fed(f.parser, events + f.events)
  }

  function With(p: Parser, chunk: string): Parser {
    Parser(p.buffer + chunk, p.partial)
  }

  function Feed(p: Parser, chunk: string): Fed {
    Drain(With(p, chunk))
  }

  function FeedAll(p: Parser, chunks: seq<string>): Fed
    decreases |chunks|
  {
    if chunks == [] then Fed(p, [])
    else
      var f := Feed(p, chunks[0]);
      Then(f.events, FeedAll(f.parser, chunks[1..]))
  }

  /** No complete line follows an unreadable one. */
  predicate Tame(s: string)
    decreases |s|
  {
    Unfinished(s) || (if FirstLine(s).None? then Unfinished(AfterFirst(s)) else Tame(AfterFirst(s)))
  }

  // ---- Chunk boundaries do not matter ----

  lemma {:induction false} BreakIsFirst(s: string, at: nat)
    requires at < |s| && s[at] == '\n'
    requires forall i :: 0 <= i < at ==> s[i] != '\n'
    ensures Break(s) == at
  {
  }

  lemma UnfinishedPrefix(a: string, b: string)
    ensures Unfinished(a + b) ==> Unfinished(a) && Unfinished(b)
    ensures Unfinished(a) && Unfinished(b) ==> Unfinished(a + b)
  {
    var s := a + b;
    assert forall i :: 0 <= i < |a| ==> s[i] == a[i];
    assert forall i :: 0 <= i < |b| ==> s[|a| + i] == b[i];
    var at := Break(s);
    if at < |a| {
      assert a[at] == s[at];
    } else if at < |s| {
      assert b[at - |a|] == s[at];
    }
  }

  lemma FirstLineKept(a: string, b: string)
    requires !Unfinished(a)
    ensures !Unfinished(a + b)
    ensures Break(a + b) == Break(a)
    ensures FirstLine(a + b) == FirstLine(a)
    ensures AfterFirst(a + b) == AfterFirst(a) + b
  {
    var s := a + b;
    assert forall i :: 0 <= i < |a| ==> s[i] == a[i];
    BreakIsFirst(s, Break(a));
    assert s[..Break(a)] == a[..Break(a)];
  }

  lemma TakeLineKept(p: Parser, b: string)
    requires !Unfinished(p.buffer)
    ensures !Unfinished(With(p, b).buffer)
    ensures TakeLine(With(p, b)) == Fed(With(TakeLine(p).parser, b), TakeLine(p).events)
  {
    FirstLineKept(p.buffer, b);
    assert With(p, b).buffer[..Break(p.buffer)] == p.buffer[..Break(p.buffer)];
  }

  /** Draining early and feeding the rest later changes nothing, if the whole is tame. */
  lemma {:induction false} DrainEarly(p: Parser, b: string)
    requires Tame(p.buffer + b)
    ensures Feed(p, b) == Then(Drain(p).events, Feed(Drain(p).parser, b))
    ensures Unfinished(Drain(p).parser.buffer)
    ensures Tame(Drain(p).parser.buffer + b)
    decreases |p.buffer|
  {
    if Unfinished(p.buffer) {
      assert Then([], Feed(p, b)) == Feed(p, b);
    } else {
      FirstLineKept(p.buffer, b);
      TakeLineKept(p, b);
      var t := TakeLine(p);
      if FirstLine(p.buffer).None? {
        UnfinishedPrefix(t.parser.buffer, b);
        assert Drain(With(t.parser, b)) == Fed(With(t.parser, b), []);
      } else {
        DrainEarly(t.parser, b);
        assert Feed(p, b) == Then(t.events, Feed(t.parser, b));
        ThenThen(t.events, Drain(t.parser).events, Feed(Drain(t.parser).parser, b));
      }
    }
  }

  lemma ThenThen(a: seq<Event>, b: seq<Event>, f: Fed)
    ensures Then(a, Then(b, f)) == Then(a + b, f)
  {
    assert a + (b + f.events) == a + b + f.events;
  }

  /** A tame text gives the same replies and the same leftover however it is cut. */
  lemma {:induction false} TextCutsDoNotMatter(p: Parser, chunks: seq<string>)
    requires Unfinished(p.buffer)
    requires Tame(p.buffer + Joined(chunks))
    ensures FeedAll(p, chunks) == Feed(p, Joined(chunks))
    decreases |chunks|
  {
    if chunks == [] {
      assert p.buffer + "" == p.buffer;
    } else {
      var rest := Joined(chunks[1..]);
      var q := With(p, chunks[0]);
      assert p.buffer + Joined(chunks) == q.buffer + rest;
      DrainEarly(q, rest);
      assert With(p, Joined(chunks)) == With(q, rest);
      TextCutsDoNotMatter(Drain(q).parser, chunks[1..]);
    }
  }

  // ---- and only then ----

  /** How much of an untamed stream there is up to the end of its first unreadable line. */
  function UpToUnreadable(s: string): (n: nat)
    requires !Tame(s)
    ensures Break(s) < n < |s|
    decreases |s|
  {
    if FirstLine(s).None? then Break(s) + 1
    else Break(s) + 1 + UpToUnreadable(AfterFirst(s))
  }

  lemma {:induction false} DrainStops(p: Parser)
    requires !Tame(p.buffer)
    ensures var n := UpToUnreadable(p.buffer);
            Drain(p).parser.buffer == p.buffer[n..] && !Unfinished(p.buffer[n..])
    ensures Drain(Parser(p.buffer[..UpToUnreadable(p.buffer)], p.partial)).parser.buffer == ""
    decreases |p.buffer|
  {
    var s := p.buffer;
    var n := UpToUnreadable(s);
    var head := s[..n];
    assert s == head + s[n..];
    assert head[Break(s)] == '\n';
    BreakIsFirst(head, Break(s));
    FirstLineKept(head, s[n..]);
    if FirstLine(s).None? {
      assert AfterFirst(head) == "";
    } else {
      var t := TakeLine(p).parser;
      DrainStops(t);
      var m := UpToUnreadable(t.buffer);
      assert t.buffer[m..] == s[n..];
      var h := Parser(head, p.partial);
      assert TakeLine(h) == Fed(Parser(AfterFirst(head), t.partial), TakeLine(p).events) by {
        TakeLineKept(h, s[n..]);
        assert With(h, s[n..]) == p;
      }
      assert AfterFirst(head) == t.buffer[..m];
    }
  }

  lemma {:induction false} DrainShortens(p: Parser)
    ensures |Drain(p).parser.buffer| <= |p.buffer|
    ensures !Unfinished(p.buffer) ==> |Drain(p).parser.buffer| < |p.buffer|
    decreases |p.buffer|
  {
    if !Unfinished(p.buffer) && FirstLine(p.buffer).Some? {
      DrainShortens(TakeLine(p).parser);
    }
  }

  lemma TwoChunks(p: Parser, a: string, b: string)
    ensures Joined([a, b]) == a + b
    ensures FeedAll(p, [a, b]).parser == Feed(Feed(p, a).parser, b).parser
  {
    var chunks := [a, b];
    assert chunks[1..] == [b] && [b][1..] == [];
    assert Joined([b]) == b + "" == b;
    assert FeedAll(Feed(p, a).parser, [b]).parser == Feed(Feed(p, a).parser, b).parser;
  }

  /** Cut after the unreadable line, the client goes on; fed whole, it stops there. */
  lemma UntamedDependsOnChunks(p: Parser, text: string) returns (cut: nat)
    requires Unfinished(p.buffer)
    requires !Tame(p.buffer + text)
    ensures cut <= |text|
    ensures FeedAll(p, [text[..cut], text[cut..]]) != Feed(p, text)
  {
    hide Drain, FeedAll, Tame, Break, Joined;
    var whole := With(p, text);
    var n := UpToUnreadable(whole.buffer);
    BreakAfter(p.buffer, text);
    cut := n - |p.buffer|;
    var head, tail := text[..cut], text[cut..];
    assert whole.buffer[..n] == p.buffer + head && whole.buffer[n..] == tail;
    DrainStops(whole);
    var first := Feed(p, head).parser;
    assert "" + tail == tail;
    DrainShortens(With(first, tail));
    TwoChunks(p, head, tail);
  }

  lemma BreakAfter(a: string, b: string)
    requires Unfinished(a)
    ensures |a| <= Break(a + b)
  {
    assert forall i :: 0 <= i < |a| ==> (a + b)[i] == a[i];
  }

  // ---- Chunks are bytes, decoded one by one ----

  function Concat(chunks: seq<seq<Byte>>): seq<Byte> {
    if |chunks| == 0 then [] else chunks[0] + Concat(chunks[1..])
  }

  function Decoded(chunks: seq<seq<Byte>>): (texts: seq<string>)
    ensures |texts| == |chunks|
  {
    if |chunks| == 0 then [] else [Lossy(chunks[0])] + Decoded(chunks[1..])
  }

  function FeedBytes(p: Parser, chunks: seq<seq<Byte>>): Fed {
    FeedAll(p, Decoded(chunks))
  }

  lemma {:induction false} DecodedJoins(chunks: seq<seq<Byte>>)
    requires Singles(Concat(chunks))
    ensures Joined(Decoded(chunks)) == Lossy(Concat(chunks))
    decreases |chunks|
  {
    if |chunks| > 0 {
      var data, k := Concat(chunks), |chunks[0]|;
      assert data[..k] == chunks[0] && data[k..] == Concat(chunks[1..]);
      SinglesCut(data, k);
      DecodedJoins(chunks[1..]);
      assert Decoded(chunks)[1..] == Decoded(chunks[1..]);
      assert Lossy(data) == Lossy(data)[..k] + Lossy(data)[k..];
    }
  }

  /** A stream of single-byte characters that is tame gives the same replies and leftover however it is cut. */
  lemma ChunksDoNotMatter(p: Parser, chunks: seq<seq<Byte>>)
    requires Unfinished(p.buffer) && Singles(Concat(chunks)) && Tame(p.buffer + Lossy(Concat(chunks)))
    ensures FeedBytes(p, chunks) == Feed(p, Lossy(Concat(chunks)))
  {
    hide Feed, FeedAll, Tame, Unfinished, Singles, Lossy;
    DecodedJoins(chunks);
    TextCutsDoNotMatter(p, Decoded(chunks));
  }

  // ---- Replacements are never lost on the way ----

  function LineMarks(lines: seq<string>): nat
    decreases |lines|
  {
    if |lines| == 0 then 0 else LineMarks(lines[..|lines| - 1]) + Marks(lines[|lines| - 1])
  }

  function EventMarks(events: seq<Event>): nat
    decreases |events|
  {
    if |events| == 0 then 0
    else
      (if events[0].Arrived? then LineMarks(events[0].reply.lines) else Marks(events[0].line))
      + EventMarks(events[1..])
  }

  /** Replacements in what the client has not yet made a reply of. */
  function Held(p: Parser): nat {
    Marks(p.buffer) + LineMarks(p.partial)
  }

  lemma LineMarksGrow(lines: seq<string>, text: string)
    ensures LineMarks(lines + [text]) == LineMarks(lines) + Marks(text)
  {
    assert (lines + [text])[..|lines|] == lines;
  }

  lemma {:induction false} EventMarksThen(a: seq<Event>, b: seq<Event>)
    ensures EventMarks(a + b) == EventMarks(a) + EventMarks(b)
    decreases |a|
  {
    if a == [] {
      assert a + b == b;
    } else {
      assert (a + b)[0] == a[0] && (a + b)[1..] == a[1..] + b;
      EventMarksThen(a[1..], b);
    }
  }

  lemma {:induction false} Unmarked(text: string)
    requires forall i :: 0 <= i < |text| ==> text[i] != REPLACEMENT
    ensures Marks(text) == 0
    decreases |text|
  {
    if text != "" {
      Unmarked(text[1..]);
    }
  }

  lemma StrippedMarks(line: string)
    ensures Marks(Stripped(line)) == Marks(line)
  {
    if Stripped(line) != line {
      assert line == line[..|line| - 1] + "\r";
      MarksJoin(line[..|line| - 1], "\r");
      Unmarked("\r");
    }
  }

  lemma ReadLineMarks(line: string)
    requires ReadLine(line).Some?
    ensures Marks(ReadLine(line).value.text) == Marks(line)
  {
    var k := if |line| > 3 && (line[3] == '-' || line[3] == ' ') then 4 else 3;
    assert line == line[..k] + line[k..];
    MarksJoin(line[..k], line[k..]);
    Unmarked(line[..k]);
  }

  lemma TakeLineMarks(p: Parser)
    requires !Unfinished(p.buffer)
    ensures var f := TakeLine(p); Held(f.parser) + EventMarks(f.events) == Held(p)
  {
    hide ReadLine, Stripped, Break, Unfinished, Marks, LineMarks;
    var line, rest := p.buffer[..Break(p.buffer)], AfterFirst(p.buffer);
    BufferMarks(p.buffer);
    StrippedMarks(line);
    NoMarks();
    if FirstLine(p.buffer).Some? {
      ReadLineMarks(Stripped(line));
      LineMarksGrow(p.partial, FirstLine(p.buffer).value.text);
    }
    var events := TakeLine(p).events;
    if events != [] {
      assert events[1..] == [];
    }
  }

  lemma NoMarks()
    ensures LineMarks([]) == 0
  {
  }

  lemma BufferMarks(s: string)
    requires !Unfinished(s)
    ensures Marks(s) == Marks(s[..Break(s)]) + Marks(AfterFirst(s))
  {
    var line, rest := s[..Break(s)], AfterFirst(s);
    assert s == line + "\n" + rest;
    MarksJoin(line + "\n", rest);
    MarksJoin(line, "\n");
    Unmarked("\n");
  }

  lemma {:induction false} DrainMarks(p: Parser)
    ensures Held(Drain(p).parser) + EventMarks(Drain(p).events) == Held(p)
    decreases |p.buffer|
  {
    hide TakeLine, FirstLine, Unfinished, Held;
    if !Unfinished(p.buffer) {
      TakeLineMarks(p);
      if FirstLine(p.buffer).Some? {
        var f := TakeLine(p);
        DrainMarks(f.parser);
        EventMarksThen(f.events, Drain(f.parser).events);
      }
    }
  }

  /** However a text is cut, its replacements are in the replies, in an unreadable line or still held. */
  lemma {:induction false} FeedAllMarks(p: Parser, texts: seq<string>)
    ensures var f := FeedAll(p, texts); Held(f.parser) + EventMarks(f.events) == Held(p) + Marks(Joined(texts))
    decreases |texts|
  {
    hide Drain, Marks, LineMarks, EventMarks;
    if texts == [] {
      assert Marks("") == 0 && EventMarks([]) == 0 by {
        EmptyMarks();
      }
    } else {
      var f, rest := Feed(p, texts[0]), texts[1..];
      DrainMarks(With(p, texts[0]));
      MarksJoin(p.buffer, texts[0]);
      FeedAllMarks(f.parser, rest);
      MarksJoin(texts[0], Joined(rest));
      EventMarksThen(f.events, FeedAll(f.parser, rest).events);
    }
  }

  lemma EmptyMarks()
    ensures Marks("") == 0 && EventMarks([]) == 0
  {
  }

  // ---- Exactly when the cutting does not matter ----

  lemma DecodedTwo(a: seq<Byte>, b: seq<Byte>)
    ensures Concat([a, b]) == a + b && Decoded([a, b]) == [Lossy(a), Lossy(b)]
  {
    assert [a, b][1..] == [b] && [b][1..] == [];
    assert Concat([b]) == b + Concat([]) == b && Decoded([b]) == [Lossy(b)] + Decoded([]) == [Lossy(b)];
  }

  lemma DecodedOne(a: seq<Byte>)
    ensures Concat([a]) == a && Decoded([a]) == [Lossy(a)]
  {
    assert [a][1..] == [];
  }

  lemma JoinedTwo(a: string, b: string)
    ensures Joined([a, b]) == a + b && Joined([a]) == a
  {
    assert [a, b][1..] == [b] && [b][1..] == [] && [a][1..] == [];
    assert Joined([b]) == b + "" == b && Joined([a]) == a + "" == a;
  }

  lemma FedWhole(p: Parser, data: seq<Byte>)
    ensures FeedBytes(p, [data]) == Feed(p, Lossy(data))
  {
    hide Lossy, Feed;
    DecodedOne(data);
    var f, texts := Feed(p, Lossy(data)), [Lossy(data)];
    assert texts[1..] == [] && FeedAll(f.parser, []) == Fed(f.parser, []);
    assert FeedAll(p, texts) == Then(f.events, FeedAll(f.parser, texts[1..]));
    assert f.events + [] == f.events;
  }

  /** A cut inside a character puts more replacements into what is read. */
  lemma BrokenCharacterShows(p: Parser, data: seq<Byte>) returns (cut: nat)
    requires !Singles(data)
    ensures cut <= |data| && FeedBytes(p, [data[..cut], data[cut..]]) != Feed(p, Lossy(data))
  {
    hide FeedAll, Marks, LineMarks, EventMarks, Held, Joined, Singles, Feed;
    cut := SomeCutMarks(data);
    var a, b := data[..cut], data[cut..];
    DecodedTwo(a, b);
    DecodedOne(data);
    JoinedTwo(Lossy(a), Lossy(b));
    JoinedTwo(Lossy(data), "");
    MarksJoin(Lossy(a), Lossy(b));
    FeedAllMarks(p, [Lossy(a), Lossy(b)]);
    FeedAllMarks(p, [Lossy(data)]);
    FedWhole(p, data);
  }

  lemma UntamedDependsOnCut(p: Parser, data: seq<Byte>) returns (cut: nat)
    requires Unfinished(p.buffer) && Singles(data) && !Tame(p.buffer + Lossy(data))
    ensures cut <= |data| && FeedBytes(p, [data[..cut], data[cut..]]) != Feed(p, Lossy(data))
  {
    hide FeedAll, Singles, Feed, Tame;
    SinglesCut(data, 0);
    cut := UntamedDependsOnChunks(p, Lossy(data));
    SinglesCut(data, cut);
    DecodedTwo(data[..cut], data[cut..]);
  }

  /** Every cutting of a stream gives the same replies, unreadable lines and leftover exactly when each of its bytes
      is read by itself and no complete line follows an unreadable one. */
  lemma ChunkIndependentIff(p: Parser, data: seq<Byte>)
    requires Unfinished(p.buffer)
    ensures Singles(data) && Tame(p.buffer + Lossy(data))
       <==> forall chunks | Concat(chunks) == data :: FeedBytes(p, chunks) == Feed(p, Lossy(data))
  {
    hide FeedBytes, Tame, Feed, Singles, Lossy, Concat;
    if Singles(data) && Tame(p.buffer + Lossy(data)) {
      forall chunks | Concat(chunks) == data
        ensures FeedBytes(p, chunks) == Feed(p, Lossy(data))
      {
        ChunksDoNotMatter(p, chunks);
      }
    } else {
      var cut: nat;
      if !Singles(data) {
        cut := BrokenCharacterShows(p, data);
      } else {
        cut := UntamedDependsOnCut(p, data);
      }
      DecodedTwo(data[..cut], data[cut..]);
      assert data[..cut] + data[cut..] == data;
    }
  }

  /** Of well-formed text, exactly the ASCII that is tame can be cut anywhere. */
  lemma TextChunksIff(p: Parser, text: string)
    requires Unfinished(p.buffer)
    ensures Ascii(text) && Tame(p.buffer + text)
       <==> forall chunks | Concat(chunks) == EncodeText(text) :: FeedBytes(p, chunks) == Feed(p, text)
  {
    LossyEncode(text);
    ChunkIndependentIff(p, EncodeText(text));
  }

  // ---- Printing and reading back ----

  /** `textstring` of section 4.2 of RFC 5321: tabs and printable ASCII. */
  predicate TextString(text: string) {
    forall i :: 0 <= i < |text| ==> text[i] == '\t' || ' ' <= text[i] <= '~'
  }

  predicate Printable(reply: Reply) {
    reply.code < 1000 && reply.lines != [] && forall i :: 0 <= i < |reply.lines| ==> TextString(reply.lines[i])
  }

  predicate AllPrintable(replies: seq<Reply>) {
    forall i :: 0 <= i < |replies| ==> Printable(replies[i])
  }

  function Digit(n: nat): char
    requires n < 10
  {
    ('0' as int + n) as char
  }

  function CodeText(code: nat): string
    requires code < 1000
  {
    [Digit(code / 100), Digit(code / 10 % 10), Digit(code % 10)]
  }

  /** A reply as section 4.2.1 of RFC 5321 has a server send it. */
  function Printed(code: nat, lines: seq<string>): string
    requires code < 1000 && lines != []
  {
    if |lines| == 1 then CodeText(code) + " " + lines[0] + "\r\n"
    else CodeText(code) + "-" + lines[0] + "\r\n" + Printed(code, lines[1..])
  }

  function PrintedAll(replies: seq<Reply>): string
    requires AllPrintable(replies)
  {
    if |replies| == 0 then "" else Printed(replies[0].code, replies[0].lines) + PrintedAll(replies[1..])
  }

  function Arrivals(replies: seq<Reply>): seq<Event> {
    seq(|replies|, i requires 0 <= i < |replies| => Arrived(replies[i]))
  }

  lemma DigitReads(n: nat)
    requires n < 10
    ensures IsDigit(Digit(n)) && DigitValue(Digit(n)) == n
  {
  }

  lemma CodeReads(code: nat, line: string)
    requires code < 1000 && |line| >= 3 && line[..3] == CodeText(code)
    ensures IsDigit(line[0]) && IsDigit(line[1]) && IsDigit(line[2])
    ensures 100 * DigitValue(line[0]) + 10 * DigitValue(line[1]) + DigitValue(line[2]) == code
  {
    hide Digit, DigitValue, IsDigit;
    assert line[0] == line[..3][0] && line[1] == line[..3][1] && line[2] == line[..3][2];
    DigitReads(code / 100);
    DigitReads(code / 10 % 10);
    DigitReads(code % 10);
  }

  /** What the client makes of a line a server prints. */
  lemma PrintedLineReads(code: nat, sep: char, text: string)
    requires code < 1000 && Legible(text) && (sep == ' ' || sep == '-')
    ensures ReadLine(CodeText(code) + [sep] + text)
         == Some(if sep == '-' then Continued(text) else Final(code, text))
  {
    hide DigitValue, IsDigit;
    var line := CodeText(code) + [sep] + text;
    assert line[..3] == CodeText(code);
    CodeReads(code, line);
    assert line[4..] == text;
    assert line[3] == sep && line[3..] == [sep] + text;
  }

  lemma CodeUnbroken(code: nat)
    requires code < 1000
    ensures Unfinished(CodeText(code))
  {
    DigitReads(code / 100);
    DigitReads(code / 10 % 10);
    DigitReads(code % 10);
  }

  lemma LegibleUnbroken(text: string)
    requires Legible(text)
    ensures Unfinished(text)
  {
  }

  /** The first line of a stream that begins with one. */
  lemma FirstOf(line: string, rest: string)
    requires Unfinished(line)
    ensures var s := line + "\r\n" + rest;
            !Unfinished(s) && AfterFirst(s) == rest && FirstLine(s) == ReadLine(line)
  {
    hide ReadLine;
    var s := line + "\r\n" + rest;
    var at := |line| + 1;
    assert forall i :: 0 <= i < |line| ==> s[i] == line[i];
    assert s[at - 1] == '\r' && s[at] == '\n';
    BreakIsFirst(s, at);
    assert Stripped(s[..at]) == line by {
      assert s[..at][..|line|] == line;
    }
    assert s[at + 1..] == rest;
  }

  /** What the client makes of one printed line, with anything after it. */
  lemma PrintedLine(code: nat, sep: char, text: string, rest: string)
    requires code < 1000 && Legible(text) && (sep == ' ' || sep == '-')
    ensures var s := CodeText(code) + [sep] + text + "\r\n" + rest;
            && !Unfinished(s) && AfterFirst(s) == rest
            && FirstLine(s) == Some(if sep == '-' then Continued(text) else Final(code, text))
  {
    hide CodeText, ReadLine, Break, FirstLine, AfterFirst, Unfinished, Legible;
    PrintedLineReads(code, sep, text);
    CodeUnbroken(code);
    LegibleUnbroken(text);
    CharUnbroken(sep);
    UnfinishedPrefix(CodeText(code), [sep]);
    UnfinishedPrefix(CodeText(code) + [sep], text);
    FirstOf(CodeText(code) + [sep] + text, rest);
  }

  lemma CharUnbroken(c: char)
    requires c != '\n'
    ensures Unfinished([c])
  {
  }

  lemma {:induction false} PrintedReads(code: nat, lines: seq<string>, partial: seq<string>, rest: string)
    requires code < 1000 && lines != [] && forall i :: 0 <= i < |lines| ==> Legible(lines[i])
    ensures Drain(Parser(Printed(code, lines) + rest, partial))
         == Then([Arrived(Reply(code, partial + lines))], Drain(Parser(rest, [])))
    ensures Tame(rest) ==> Tame(Printed(code, lines) + rest)
    decreases |lines|
  {
    hide Break, FirstLine, AfterFirst, CodeText, Legible;
    var s := Printed(code, lines) + rest;
    var sep := if |lines| == 1 then ' ' else '-';
    var tail := if |lines| == 1 then rest else Printed(code, lines[1..]) + rest;
    assert s == CodeText(code) + [sep] + lines[0] + "\r\n" + tail;
    PrintedLine(code, sep, lines[0], tail);
    if |lines| == 1 {
      assert lines == [lines[0]];
    } else {
      PrintedReads(code, lines[1..], partial + [lines[0]], rest);
      assert partial + [lines[0]] + lines[1..] == partial + lines;
      var f := Drain(Parser(tail, partial + [lines[0]]));
      assert Then([], f) == f;
    }
  }

  lemma DrainNothing(partial: seq<string>)
    ensures Drain(Parser("", partial)) == Fed(Parser("", partial), []) && Tame("")
  {
  }

  lemma ArrivalsFirst(replies: seq<Reply>)
    requires |replies| > 0
    ensures Arrivals(replies) == [Arrived(replies[0])] + Arrivals(replies[1..])
  {
  }

  lemma TextStringsLegible(lines: seq<string>)
    requires forall i :: 0 <= i < |lines| ==> TextString(lines[i])
    ensures forall i :: 0 <= i < |lines| ==> Legible(lines[i])
  {
  }

  lemma {:induction false} PrintedAllReads(replies: seq<Reply>)
    requires AllPrintable(replies)
    ensures Drain(Parser(PrintedAll(replies), [])) == Fed(START, Arrivals(replies))
    ensures Tame(PrintedAll(replies))
    decreases |replies|
  {
    hide Drain, Tame, Break, Printed, Legible;
    if |replies| == 0 {
      DrainNothing([]);
    } else {
      hide Arrivals;
      var r := replies[0];
      assert Printable(r);
      PrintedAllReads(replies[1..]);
      TextStringsLegible(r.lines);
      PrintedReads(r.code, r.lines, [], PrintedAll(replies[1..]));
      assert Reply(r.code, [] + r.lines) == r;
      ArrivalsFirst(replies);
    }
  }

  lemma {:induction false} PrintedAscii(code: nat, lines: seq<string>)
    requires code < 1000 && lines != [] && forall i :: 0 <= i < |lines| ==> TextString(lines[i])
    ensures Ascii(Printed(code, lines))
    decreases |lines|
  {
    assert TextString(lines[0]);
    if |lines| > 1 {
      PrintedAscii(code, lines[1..]);
    }
  }

  lemma {:induction false} PrintedAllAscii(replies: seq<Reply>)
    requires AllPrintable(replies)
    ensures Ascii(PrintedAll(replies))
    decreases |replies|
  {
    hide Printed;
    if |replies| > 0 {
      assert Printable(replies[0]);
      PrintedAscii(replies[0].code, replies[0].lines);
      PrintedAllAscii(replies[1..]);
    }
  }

  /** Replies printed by a server are read back, in order and whole, however their bytes are cut. */
  lemma ReadsWhatIsPrinted(replies: seq<Reply>, chunks: seq<seq<Byte>>)
    requires AllPrintable(replies)
    ensures Concat(chunks) == EncodeText(PrintedAll(replies)) ==>
              FeedBytes(START, chunks) == Fed(START, Arrivals(replies))
  {
    if Concat(chunks) == EncodeText(PrintedAll(replies)) {
      hide FeedBytes, Tame, Singles, Printed, Drain;
      PrintedAllReads(replies);
      PrintedAllAscii(replies);
      LossyEncode(PrintedAll(replies));
      assert "" + PrintedAll(replies) == PrintedAll(replies);
      ChunksDoNotMatter(START, chunks);
    }
  }
}
