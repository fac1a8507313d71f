/**
 * One SMTP conversation: replies that arrive before anyone reads are queued, a
 * read that comes first waits (packages/db/src/mail/smtp.ts). A promise is a
 * numbered read; settling it is recorded in `settled`.
 */
module SmtpConnection {
  import opened Wrappers
  import opened Sequences
  import opened Strings
  import opened Utf8
  import opened Base64
  import opened SmtpReplies

  datatype Failure = UnreadableReply(line: string) | SocketError | ServerClosed | TimedOut

  datatype Outcome = Resolved(reply: Reply) | Rejected(failure: Failure)

  datatype Settlement = Settlement(read: nat, outcome: Outcome)

  datatype Conn = Conn(
    parser: Parser,
    replies: seq<Reply>,
    failure: Option<Failure>,
    waiting: Option<nat>,
    issued: nat,
    settled: seq<Settlement>)

  datatype Action = Data(chunk: seq<Byte>) | Broken(failure: Failure) | Read

  const IDLE := Conn(START, [], None, None, 0, [])

  // ---- Steps ----

  function Settle(c: Conn, outcome: Outcome): Conn
    requires c.waiting.Some?
  {
    c.(waiting := None, settled := c.settled + [Settlement(c.waiting.value, outcome)])
  }

  function Deliver(c: Conn, reply: Reply): Conn {
    if c.waiting.Some? then Settle(c, Resolved(reply)) else c.(replies := c.replies + [reply])
  }

  /** Only the first failure is kept, and only it can reject a waiting read. */
  function FailWith(c: Conn, failure: Failure): Conn {
    if c.failure.Some? then c
    else
      var failed := c.(failure := Some(failure));
      if c.waiting.Some? then Settle(failed, Rejected(failure)) else failed
  }

  function Handle(c: Conn, event: Event): Conn {
    match event
    case Arrived(reply) => Deliver(c, reply)
    case Unreadable(line) => FailWith(c, UnreadableReply(line))
  }

  function HandleAll(c: Conn, events: seq<Event>): Conn
    decreases |events|
  {
    if events == [] then c else HandleAll(Handle(c, events[0]), events[1..])
  }

  /** Take every line the buffer holds, up to an unreadable one. */
  function Pump(c: Conn): Conn {
    HandleAll(c, Drain(c.parser).events).(parser := Drain(c.parser).parser)
  }

  /** Every chunk is decoded by itself. */
  function AfterData(c: Conn, chunk: seq<Byte>): Conn {
    Pump(c.(parser := With(c.parser, Lossy(chunk))))
  }

  /** A queued reply first, then the failure; otherwise the read waits, replacing any that waited. */
  function AfterRead(c: Conn): Conn {
    var next := c.(issued := c.issued + 1);
    if c.replies != [] then
      next.(replies := c.replies[1..], settled := c.settled + [Settlement(c.issued, Resolved(c.replies[0]))])
    else if c.failure.Some? then
      next.(settled := c.settled + [Settlement(c.issued, Rejected(c.failure.value))])
    else
      next.(waiting := Some(c.issued))
  }

  function Act(c: Conn, a: Action): Conn {
    match a
    case Data(chunk) => AfterData(c, chunk)
    case Broken(failure) => FailWith(c, failure)
    case Read => AfterRead(c)
  }

  /** What one action feeds the parser. */
  function Brought(p: Parser, a: Action): Fed {
    if a.Data? then Feed(p, Lossy(a.chunk)) else Fed(p, [])
  }

  function Run(c: Conn, actions: seq<Action>): Conn
    decreases |actions|
  {
    if actions == [] then c else Run(Act(c, actions[0]), actions[1..])
  }

  // ---- What the runs say ----

  /** The replies reads were given, in the order they were settled. */
  function Given(settled: seq<Settlement>): seq<Reply>
    decreases |settled|
  {
    if settled == [] then []
    else
      var last := settled[|settled| - 1].outcome;
      Given(settled[..|settled| - 1]) + if last.Resolved? then [last.reply] else []
  }

  function RepliesOf(events: seq<Event>): seq<Reply>
    decreases |events|
  {
    if events == [] then []
    else (if events[0].Arrived? then [events[0].reply] else []) + RepliesOf(events[1..])
  }

  function Chunks(actions: seq<Action>): seq<seq<Byte>>
    decreases |actions|
  {
    if actions == [] then []
    else (if actions[0].Data? then [actions[0].chunk] else []) + Chunks(actions[1..])
  }

  function Reads(actions: seq<Action>): nat
    decreases |actions|
  {
    if actions == [] then 0 else (if actions[0].Read? then 1 else 0) + Reads(actions[1..])
  }

  /** Every read is made when none is waiting, as an `await` on each makes sure. */
  predicate OneAtATime(c: Conn, actions: seq<Action>)
    decreases |actions|
  {
    actions == []
    || ((actions[0].Read? ==> c.waiting.None?) && OneAtATime(Act(c, actions[0]), actions[1..]))
  }

  /** A read waits only while there is nothing to give it; every rejection names the first failure. */
  predicate Sound(c: Conn) {
    && (c.waiting.Some? ==> c.replies == [] && c.failure.None?)
    && (forall i :: 0 <= i < |c.settled| && c.settled[i].outcome.Rejected? ==>
          c.failure == Some(c.settled[i].outcome.failure))
  }

  /** Reads made and neither settled nor waiting: nobody will answer them. */
  function Abandoned(c: Conn): int {
    c.issued - |c.settled| - if c.waiting.Some? then 1 else 0
  }

  /** The k-th read is the k-th to be settled. */
  predicate InTurn(c: Conn) {
    && Abandoned(c) == 0
    && (forall k :: 0 <= k < |c.settled| ==> c.settled[k].read == k)
    && (c.waiting.Some? ==> c.waiting.value == |c.settled|)
  }

  // ---- What one step keeps ----

  /** Nothing about the queue but the replies it has been handed. */
  function Account(c: Conn): seq<Reply> {
    Given(c.settled) + c.replies
  }

  lemma GivenGrows(settled: seq<Settlement>, s: Settlement)
    ensures Given(settled + [s]) == Given(settled) + if s.outcome.Resolved? then [s.outcome.reply] else []
  {
    assert (settled + [s])[..|settled|] == settled;
  }

  lemma HandleKeeps(c: Conn, e: Event)
    requires Sound(c)
    ensures Sound(Handle(c, e))
    ensures Account(Handle(c, e)) == Account(c) + if e.Arrived? then [e.reply] else []
    ensures Abandoned(Handle(c, e)) == Abandoned(c)
    ensures InTurn(c) ==> InTurn(Handle(c, e))
    ensures Handle(c, e).parser == c.parser && Handle(c, e).issued == c.issued
    ensures Handle(c, e).failure == if c.failure.Some? || e.Arrived? then c.failure else Some(UnreadableReply(e.line))
  {
    if c.waiting.Some? {
      var outcome := if e.Arrived? then Resolved(e.reply) else Rejected(UnreadableReply(e.line));
      GivenGrows(c.settled, Settlement(c.waiting.value, outcome));
    }
  }

  lemma {:induction false} HandleAllKeeps(c: Conn, events: seq<Event>)
    requires Sound(c)
    ensures var d := HandleAll(c, events);
            Sound(d) && Abandoned(d) == Abandoned(c) && (InTurn(c) ==> InTurn(d))
    ensures Account(HandleAll(c, events)) == Account(c) + RepliesOf(events)
    ensures var d := HandleAll(c, events); d.parser == c.parser && d.issued == c.issued
    ensures c.failure.Some? || (forall e :: e in events ==> e.Arrived?) ==> HandleAll(c, events).failure == c.failure
    decreases |events|
  {
    hide Sound, Account, Abandoned, InTurn, Handle;
    if events != [] {
      HandleKeeps(c, events[0]);
      HandleAllKeeps(Handle(c, events[0]), events[1..]);
      assert events[0] in events;
    }
  }

  lemma FailKeeps(c: Conn, failure: Failure)
    requires Sound(c)
    ensures Sound(FailWith(c, failure))
    ensures Account(FailWith(c, failure)) == Account(c)
    ensures Abandoned(FailWith(c, failure)) == Abandoned(c)
    ensures InTurn(c) ==> InTurn(FailWith(c, failure))
  {
    if c.waiting.Some? {
      GivenGrows(c.settled, Settlement(c.waiting.value, Rejected(failure)));
    }
  }

  lemma ReadKeeps(c: Conn)
    requires Sound(c)
    ensures Sound(AfterRead(c))
    ensures Account(AfterRead(c)) == Account(c)
    ensures Abandoned(AfterRead(c)) == Abandoned(c) + if c.waiting.Some? then 1 else 0
    ensures InTurn(c) && c.waiting.None? ==> InTurn(AfterRead(c))
  {
    if c.replies != [] {
      GivenGrows(c.settled, Settlement(c.issued, Resolved(c.replies[0])));
    } else if c.failure.Some? {
      GivenGrows(c.settled, Settlement(c.issued, Rejected(c.failure.value)));
    }
  }

  /** One action: what it adds to the account, and how it can abandon a read. */
  lemma ActKeeps(c: Conn, a: Action)
    requires Sound(c)
    ensures var d := Act(c, a);
            && Sound(d)
            && Account(d) == Account(c) + RepliesOf(Brought(c.parser, a).events)
            && d.parser == Brought(c.parser, a).parser
            && d.issued == c.issued + (if a.Read? then 1 else 0)
            && (c.failure.Some? ==> d.failure == c.failure)
    ensures Abandoned(Act(c, a)) == Abandoned(c) + if a.Read? && c.waiting.Some? then 1 else 0
    ensures InTurn(c) && (a.Read? ==> c.waiting.None?) ==> InTurn(Act(c, a))
  {
    match a
    case Data(chunk) =>
      var start := c.(parser := With(c.parser, Lossy(chunk)));
      HandleAllKeeps(start, Feed(c.parser, Lossy(chunk)).events);
    case Broken(failure) => FailKeeps(c, failure);
    case Read => ReadKeeps(c);
  }

  // ---- What whole runs keep ----

  lemma {:induction false} RepliesOfThen(a: seq<Event>, b: seq<Event>)
    ensures RepliesOf(a + b) == RepliesOf(a) + RepliesOf(b)
    decreases |a|
  {
    if a == [] {
      assert a + b == b;
    } else {
      assert (a + b)[0] == a[0] && (a + b)[1..] == a[1..] + b;
      RepliesOfThen(a[1..], b);
    }
  }

  /** What the first of some actions brings, and what is left for the others. */
  lemma FeedFirst(p: Parser, actions: seq<Action>)
    requires actions != []
    ensures var f := Brought(p, actions[0]);
            FeedBytes(p, Chunks(actions)) == Then(f.events, FeedBytes(f.parser, Chunks(actions[1..])))
  {
    hide Feed;
    var a, rest := actions[0], Chunks(actions[1..]);
    if a.Data? {
      assert Chunks(actions) == [a.chunk] + rest;
      assert ([a.chunk] + rest)[1..] == rest;
      var texts := Decoded([a.chunk] + rest);
      assert texts == [Lossy(a.chunk)] + Decoded(rest) && texts[1..] == Decoded(rest);
    } else {
      assert Chunks(actions) == rest;
      assert Then([], FeedBytes(p, rest)) == FeedBytes(p, rest);
    }
  }

  /** No reply is lost, repeated or reordered: those given out, then those queued, are those that arrived. */
  lemma {:induction false} RepliesConserved(c: Conn, actions: seq<Action>)
    requires Sound(c)
    ensures var d := Run(c, actions);
            && Sound(d)
            && Account(d) == Account(c) + RepliesOf(FeedBytes(c.parser, Chunks(actions)).events)
            && d.parser == FeedBytes(c.parser, Chunks(actions)).parser
            && d.issued == c.issued + Reads(actions)
            && (c.failure.Some? ==> d.failure == c.failure)
    decreases |actions|
  {
    hide Sound, Account, Act, Brought;
    if actions != [] {
      hide FeedBytes, Chunks, RepliesOf;
      var a, rest := actions[0], actions[1..];
      ActKeeps(c, a);
      FeedFirst(c.parser, actions);
      RepliesConserved(Act(c, a), rest);
      var f := Brought(c.parser, a);
      var g := FeedBytes(f.parser, Chunks(rest));
      RepliesOfThen(f.events, g.events);
      Associative(Account(c), RepliesOf(f.events), RepliesOf(g.events));
    }
  }

  lemma {:induction false} AbandonedGrows(c: Conn, actions: seq<Action>)
    requires Sound(c)
    ensures Abandoned(Run(c, actions)) >= Abandoned(c)
    ensures Abandoned(Run(c, actions)) == Abandoned(c) <==> OneAtATime(c, actions)
    ensures InTurn(c) && OneAtATime(c, actions) ==> InTurn(Run(c, actions))
    decreases |actions|
  {
    hide Sound, Abandoned, Act, InTurn;
    if actions != [] {
      ActKeeps(c, actions[0]);
      AbandonedGrows(Act(c, actions[0]), actions[1..]);
    }
  }

  /** Every read is answered or still waiting exactly when reads are made one at a time. */
  lemma NoReadAbandonedIff(actions: seq<Action>)
    ensures Abandoned(Run(IDLE, actions)) == 0 <==> OneAtATime(IDLE, actions)
  {
    AbandonedGrows(IDLE, actions);
  }

  lemma {:induction false} GivenAll(settled: seq<Settlement>)
    requires forall k :: 0 <= k < |settled| ==> settled[k].outcome.Resolved?
    ensures |Given(settled)| == |settled|
    ensures forall k :: 0 <= k < |settled| ==> settled[k].outcome.reply == Given(settled)[k]
    decreases |settled|
  {
    if settled != [] {
      GivenAll(settled[..|settled| - 1]);
    }
  }

  /** While nothing has failed, the k-th read gets the k-th reply, whichever came first. */
  lemma KthReadGetsKthReply(actions: seq<Action>)
    ensures var d := Run(IDLE, actions);
            var came := RepliesOf(FeedBytes(START, Chunks(actions)).events);
            OneAtATime(IDLE, actions) && d.failure.None? ==>
              && |d.settled| <= |came|
              && (forall k :: 0 <= k < |d.settled| ==> d.settled[k] == Settlement(k, Resolved(came[k])))
              && d.replies == came[|d.settled|..]
              && |d.settled| == (if Reads(actions) < |came| then Reads(actions) else |came|)
              && (d.waiting.Some? <==> Reads(actions) > |came|)
  {
    hide Run, Chunks, Reads, FeedBytes, RepliesOf, OneAtATime;
    var d := Run(IDLE, actions);
    var came := RepliesOf(FeedBytes(START, Chunks(actions)).events);
    RepliesConserved(IDLE, actions);
    AbandonedGrows(IDLE, actions);
    if OneAtATime(IDLE, actions) && d.failure.None? {
      GivenAll(d.settled);
      assert Given(d.settled) + d.replies == came;
      assert came[|d.settled|..] == d.replies;
      forall k | 0 <= k < |d.settled|
        ensures d.settled[k] == Settlement(k, Resolved(came[k]))
      {
        assert Given(d.settled)[k] == came[k];
      }
    }
  }

  /** A read takes the first reply that has arrived and was not given out, also after a failure; with none left it is
      rejected for the first failure, or else waits. */
  lemma NextReadGets(actions: seq<Action>)
    ensures var d := Run(IDLE, actions);
            var came, given := RepliesOf(FeedBytes(START, Chunks(actions)).events), |Given(d.settled)|;
            var next := Act(d, Read);
            && given <= |came|
            && (given < |came| ==> next.settled == d.settled + [Settlement(d.issued, Resolved(came[given]))])
            && (given == |came| && d.failure.Some? ==>
                  next.settled == d.settled + [Settlement(d.issued, Rejected(d.failure.value))])
            && (given == |came| && d.failure.None? ==>
                  next.settled == d.settled && next.waiting == Some(d.issued))
  {
    hide Run, Chunks, FeedBytes, RepliesOf;
    RepliesConserved(IDLE, actions);
    var d := Run(IDLE, actions);
    assert Account(IDLE) == [];
    var came := RepliesOf(FeedBytes(START, Chunks(actions)).events);
    assert came == Given(d.settled) + d.replies;
    if d.replies != [] {
      assert came[|Given(d.settled)|] == d.replies[0];
    }
  }

  lemma {:induction false} OnlyArrivals(replies: seq<Reply>)
    ensures RepliesOf(Arrivals(replies)) == replies
    decreases |replies|
  {
    if replies != [] {
      OnlyArrivals(replies[1..]);
      assert Arrivals(replies)[1..] == Arrivals(replies[1..]);
    }
  }

  lemma ActNeverFails(c: Conn, a: Action)
    requires Sound(c) && c.failure.None? && !a.Broken?
    requires forall e :: e in Brought(c.parser, a).events ==> e.Arrived?
    ensures Act(c, a).failure.None?
  {
    hide Drain;
    if a.Data? {
      HandleAllKeeps(c.(parser := With(c.parser, Lossy(a.chunk))), Feed(c.parser, Lossy(a.chunk)).events);
    }
  }

  lemma {:induction false} NeverFails(c: Conn, actions: seq<Action>)
    requires Sound(c) && c.failure.None?
    requires forall a :: a in actions ==> !a.Broken?
    requires forall e :: e in FeedBytes(c.parser, Chunks(actions)).events ==> e.Arrived?
    ensures Run(c, actions).failure.None?
    decreases |actions|
  {
    hide Sound, Account, Abandoned, InTurn, Brought, Act, FeedBytes, Chunks;
    if actions != [] {
      var a := actions[0];
      assert a in actions;
      FeedFirst(c.parser, actions);
      ActNeverFails(c, a);
      ActKeeps(c, a);
      NeverFails(Act(c, a), actions[1..]);
    }
  }

  /** Replies the server prints reach the reads one for one, however their bytes are cut and whenever they come. */
  lemma ReplyPerRead(replies: seq<Reply>, actions: seq<Action>)
    requires AllPrintable(replies)
    ensures var d := Run(IDLE, actions);
            && Concat(Chunks(actions)) == EncodeText(PrintedAll(replies))
            && OneAtATime(IDLE, actions)
            && (forall a :: a in actions ==> !a.Broken?)
            ==>
              && d.failure.None?
              && (forall k :: 0 <= k < |d.settled| && k < |replies| ==>
                    d.settled[k] == Settlement(k, Resolved(replies[k])))
              && |d.settled| == (if Reads(actions) < |replies| then Reads(actions) else |replies|)
              && d.replies == replies[|d.settled|..]
              && d.parser == START
  {
    hide Run, Reads, FeedBytes, RepliesOf, OneAtATime, Concat, EncodeText, PrintedAll, Arrivals;
    if Concat(Chunks(actions)) == EncodeText(PrintedAll(replies)) && OneAtATime(IDLE, actions)
       && forall a :: a in actions ==> !a.Broken? {
      ReadsWhatIsPrinted(replies, Chunks(actions));
      OnlyArrivals(replies);
      AllArrive(replies);
      NeverFails(IDLE, actions);
      RepliesConserved(IDLE, actions);
      KthReadGetsKthReply(actions);
    }
  }

  lemma AllArrive(replies: seq<Reply>)
    ensures forall e :: e in Arrivals(replies) ==> e.Arrived?
  {
  }

  // ---- Pumping line by line ----

  lemma {:induction false} ParserAside(c: Conn, q: Parser, events: seq<Event>)
    ensures HandleAll(c.(parser := q), events) == HandleAll(c, events).(parser := q)
    decreases |events|
  {
    if events != [] {
      ParserAside(Handle(c, events[0]), q, events[1..]);
    }
  }

  lemma {:induction false} HandleAllThen(c: Conn, a: seq<Event>, b: seq<Event>)
    ensures HandleAll(c, a + b) == HandleAll(HandleAll(c, a), b)
    decreases |a|
  {
    if a == [] {
      assert a + b == b;
    } else {
      assert (a + b)[0] == a[0] && (a + b)[1..] == a[1..] + b;
      HandleAllThen(Handle(c, a[0]), a[1..], b);
    }
  }

  /** The effect of the first complete line. */
  function AfterLine(c: Conn): Conn
    requires !Unfinished(c.parser.buffer)
  {
    var t := TakeLine(c.parser);
    HandleAll(c.(parser := t.parser), t.events)
  }

  lemma PumpLine(c: Conn)
    requires !Unfinished(c.parser.buffer)
    ensures Pump(c) == if FirstLine(c.parser.buffer).None? then AfterLine(c) else Pump(AfterLine(c))
  {
    hide HandleAll, TakeLine, Unfinished, FirstLine;
    var t := TakeLine(c.parser);
    ParserAside(c, t.parser, t.events);
    if FirstLine(c.parser.buffer).Some? {
      var rest := Drain(t.parser);
      HandleAllThen(c, t.events, rest.events);
      ParserAside(HandleAll(c, t.events), t.parser, rest.events);
    }
  }

  // ---- The connection object ----

  class Connection {
    var buffer: string
    var partial: seq<string>
    var replies: seq<Reply>
    var waiting: Option<nat>
    var failure: Option<Failure>
    /** The promises handed out by `Read`, and how they were settled. */
    var issued: nat
    var settled: seq<Settlement>

    ghost function State(): Conn
      reads this
    {
      Conn(Parser(buffer, partial), replies, failure, waiting, issued, settled)
    }

    constructor ()
      ensures State() == IDLE
    {
      buffer, partial, replies, waiting, failure := "", [], [], None, None;
      issued, settled := 0, [];
    }

    method Resolve(reply: Reply)
      modifies `replies, `waiting, `settled
      ensures State() == Deliver(old(State()), reply)
    {
      var reader := waiting;
      waiting := None;
      match reader
      case Some(read) => settled := settled + [Settlement(read, Resolved(reply))];
      case None => replies := replies + [reply];
    }

    method Fail(error: Failure)
      modifies `failure, `waiting, `settled
      ensures State() == FailWith(old(State()), error)
    {
      if failure.Some? {
        return;
      }
      failure := Some(error);
      var reader := waiting;
      waiting := None;
      match reader
      case Some(read) => settled := settled + [Settlement(read, Rejected(error))];
      case None =>
    }

    method Receive(chunk: seq<Byte>)
      modifies this
      ensures State() == AfterData(old(State()), chunk)
    {
      buffer := buffer + Lossy(chunk);
      assert State() == old(State()).(parser := With(old(State()).parser, Lossy(chunk)));
      var at := Break(buffer);
      while at < |buffer|
        invariant at == Break(buffer)
        invariant Pump(State()) == AfterData(old(State()), chunk)
        decreases |buffer|
      {
        hide HandleAll, Drain;
        ghost var before := State();
        PumpLine(before);
        var line := Stripped(buffer[..at]);
        buffer := buffer[at + 1..];
        var read := ReadLine(line);
        match read {
          case None =>
            Fail(UnreadableReply(line));
            LineFails(before);
            return;
          case Some(Continued(text)) =>
            partial := partial + [text];
            LineContinues(before);
          case Some(Final(code, text)) =>
            var reply := Reply(code, partial + [text]);
            partial := [];
            Resolve(reply);
            LineEnds(before);
        }
        at := Break(buffer);
      }
      PumpNothing(State());
    }

    method Read() returns (read: nat)
      modifies `replies, `waiting, `issued, `settled
      ensures State() == AfterRead(old(State()))
      ensures read == old(issued)
    {
      read := issued;
      issued := issued + 1;
      if |replies| > 0 {
        settled := settled + [Settlement(read, Resolved(replies[0]))];
        replies := replies[1..];
      } else if failure.Some? {
        settled := settled + [Settlement(read, Rejected(failure.value))];
      } else {
        waiting := Some(read);
      }
    }
  }

  lemma PumpNothing(c: Conn)
    requires Unfinished(c.parser.buffer)
    ensures Pump(c) == c
  {
  }

  lemma LineFails(c: Conn)
    requires !Unfinished(c.parser.buffer) && FirstLine(c.parser.buffer).None?
    ensures AfterLine(c) == FailWith(c.(parser := Parser(AfterFirst(c.parser.buffer), c.parser.partial)),
                                     UnreadableReply(Stripped(c.parser.buffer[..Break(c.parser.buffer)])))
  {
    HandleOne(c.(parser := TakeLine(c.parser).parser), TakeLine(c.parser).events[0]);
  }

  lemma LineContinues(c: Conn)
    requires !Unfinished(c.parser.buffer) && FirstLine(c.parser.buffer).Some?
    requires FirstLine(c.parser.buffer).value.Continued?
    ensures AfterLine(c) == c.(parser := TakeLine(c.parser).parser)
  {
  }

  lemma LineEnds(c: Conn)
    requires !Unfinished(c.parser.buffer) && FirstLine(c.parser.buffer).Some?
    requires FirstLine(c.parser.buffer).value.Final?
    ensures var l := FirstLine(c.parser.buffer).value;
            AfterLine(c) == Deliver(c.(parser := Parser(AfterFirst(c.parser.buffer), [])),
                                    Reply(l.code, c.parser.partial + [l.text]))
  {
    HandleOne(c.(parser := TakeLine(c.parser).parser), TakeLine(c.parser).events[0]);
  }

  lemma HandleOne(c: Conn, e: Event)
    ensures HandleAll(c, [e]) == Handle(c, e)
  {
    assert [e][1..] == [];
  }
}
