/**
 * The message after DATA (packages/db/src/mail/smtp.ts): a period that starts a
 * line is doubled, and a line with a single period ends the message.
 */
module DotStuffing {
  import opened Wrappers

  /** The global replacement of `(^|\r\n)\.`: `^` matches at the start of the message only. */
  function Stuffed(data: string, atStart: bool): string
    decreases |data|
  {
    if data == "" then ""
    else if atStart && data[0] == '.' then ".." + Stuffed(data[1..], false)
    else if |data| >= 3 && data[..3] == "\r\n." then "\r\n.." + Stuffed(data[3..], false)
    else [data[0]] + Stuffed(data[1..], false)
  }

  /** What the client writes: the stuffed message and the line that ends it. */
  function Sent(data: string): string {
    Stuffed(data, true) + "\r\n.\r\n"
  }

  // ---- The receiver of section 4.5.2 of RFC 5321 ----

  /** Where the first line ends, or the length if no line ends. */
  function LineEnd(s: string): (at: nat)
    ensures at <= |s|
    ensures at < |s| ==> at + 1 < |s| && s[at] == '\r' && s[at + 1] == '\n'
    ensures forall i :: 0 <= i < at && i + 1 < |s| ==> !(s[i] == '\r' && s[i + 1] == '\n')
    decreases |s|
  {
    if |s| < 2 then |s|
    else if s[0] == '\r' && s[1] == '\n' then 0
    else 1 + LineEnd(s[1..])
  }

  predicate OneLine(s: string) {
    LineEnd(s) == |s|
  }

  /** A line that starts with a period loses it, unless the period is the whole line. */
  function Unstuffed(line: string): string {
    if |line| > 1 && line[0] == '.' then line[1..] else line
  }

  /** The message up to the end mark, and what follows the mark; none while the mark has not come. */
  function Accepted(s: string): Option<(string, string)>
    decreases |s|
  {
    var at := LineEnd(s);
    if at == |s| then None
    else if s[..at] == "." then Some(("", s[at + 2..]))
    else
      match Accepted(s[at + 2..])
      case None => None
      case Some((text, after)) => Some((Unstuffed(s[..at]) + "\r\n" + text, after))
  }

  // ---- Line by line ----

  function StuffedLine(line: string): string {
    if |line| > 0 && line[0] == '.' then "." + line else line
  }

  lemma {:induction false} LineEndIsFirst(s: string, at: nat)
    requires at + 1 < |s| && s[at] == '\r' && s[at + 1] == '\n'
    requires forall i :: 0 <= i < at ==> !(s[i] == '\r' && s[i + 1] == '\n')
    ensures LineEnd(s) == at
  {
  }

  /** The first line of a stream, with the line break after it. */
  lemma FirstLine(line: string, rest: string)
    requires OneLine(line)
    ensures LineEnd(line + "\r\n" + rest) == |line|
    ensures (line + "\r\n" + rest)[..|line|] == line
    ensures (line + "\r\n" + rest)[|line| + 2..] == rest
  {
    var s := line + "\r\n" + rest;
    assert forall i :: 0 <= i < |line| ==> s[i] == line[i];
    assert s[|line|] == '\r' && s[|line| + 1] == '\n';
    LineEndIsFirst(s, |line|);
  }

  lemma StuffedLineIsOneLine(line: string)
    requires OneLine(line)
    ensures OneLine(StuffedLine(line))
    ensures StuffedLine(line) != "."
    ensures Unstuffed(StuffedLine(line)) == line
  {
    if |line| > 0 && line[0] == '.' {
      var s := StuffedLine(line);
      assert s[1..] == line;
    }
  }

  /** Inside a line nothing is replaced. */
  lemma {:induction false} StuffedInside(line: string, rest: string)
    requires OneLine(line)
    ensures Stuffed(line, false) == line
    ensures Stuffed(line + "\r\n" + rest, false) == line + "\r\n" + Stuffed(rest, true)
    decreases |line|
  {
    var s := line + "\r\n" + rest;
    if line == "" {
      StuffedBreak(rest);
      assert s == "\r\n" + rest;
    } else {
      hide Stuffed, LineEnd, OneLine;
      TailIsOneLine(line);
      Regroup(line, rest);
      StuffedInside(line[1..], rest);
      StuffedInner(line, rest);
      Regroup(line, Stuffed(rest, true));
    }
  }

  lemma Regroup(line: string, rest: string)
    requires line != ""
    ensures var s := line + "\r\n" + rest;
            && s[0] == line[0] && s[1..] == line[1..] + "\r\n" + rest
            && [line[0]] + (line[1..] + "\r\n" + rest) == s
    ensures [line[0]] + line[1..] == line
  {
  }

  lemma TailIsOneLine(line: string)
    requires OneLine(line) && line != ""
    ensures OneLine(line[1..])
  {
  }

  lemma StuffedInner(line: string, rest: string)
    requires OneLine(line) && line != ""
    ensures Stuffed(line, false) == [line[0]] + Stuffed(line[1..], false)
    ensures var s := line + "\r\n" + rest; Stuffed(s, false) == [s[0]] + Stuffed(s[1..], false)
  {
    hide Stuffed;
    var s := line + "\r\n" + rest;
    StuffedPlain(line);
    StuffedPlain(s) by {
      if |line| == 1 {
        assert s[1] == '\r';
      } else {
        assert s[0] == line[0] && s[1] == line[1];
      }
    }
  }

  lemma StuffedPlain(s: string)
    requires |s| > 0
    requires |s| > 1 ==> !(s[0] == '\r' && s[1] == '\n')
    ensures Stuffed(s, false) == [s[0]] + Stuffed(s[1..], false)
  {
    if |s| >= 3 {
      assert s[..3][0] == s[0] && s[..3][1] == s[1];
    }
  }

  /** A line break, and the period after it. */
  lemma StuffedBreak(rest: string)
    ensures Stuffed("\r\n" + rest, false) == "\r\n" + Stuffed(rest, true)
  {
    var s := "\r\n" + rest;
    if |rest| > 0 && rest[0] == '.' {
      assert s[..3] == "\r\n.";
      assert s[3..] == rest[1..];
      assert "\r\n" + (".." + Stuffed(rest[1..], false)) == "\r\n.." + Stuffed(rest[1..], false);
    } else {
      if |s| >= 3 {
        assert s[..3][2] == rest[0];
      }
      assert s[1..] == "\n" + rest;
      StuffedPlain(s[1..]);
      assert s[1..][1..] == rest;
      NotFirst(rest);
      assert ['\r'] + (['\n'] + Stuffed(rest, false)) == "\r\n" + Stuffed(rest, false);
    }
  }

  lemma NotFirst(rest: string)
    requires |rest| == 0 || rest[0] != '.'
    ensures Stuffed(rest, true) == Stuffed(rest, false)
  {
  }

  /** The start of a line is where a period is doubled. */
  lemma StuffedStart(line: string, rest: string)
    requires OneLine(line)
    ensures Stuffed(line, true) == StuffedLine(line)
    ensures Stuffed(line + "\r\n" + rest, true) == StuffedLine(line) + "\r\n" + Stuffed(rest, true)
  {
    hide LineEnd, OneLine, Stuffed;
    var s := line + "\r\n" + rest;
    if |line| > 0 && line[0] == '.' {
      TailIsOneLine(line);
      StuffedInside(line[1..], rest);
      StuffedDot(line);
      StuffedDot(s);
      assert s[1..] == line[1..] + "\r\n" + rest;
    } else {
      StuffedInside(line, rest);
      NotFirst(line);
      NotFirst(s);
    }
  }

  lemma StuffedDot(s: string)
    requires |s| > 0 && s[0] == '.'
    ensures Stuffed(s, true) == ".." + Stuffed(s[1..], false)
  {
  }

  /** The receiver gets the message back, ended by a line break, and finds the end mark where it was put. */
  lemma {:induction false} ReceivedAsSent(data: string, after: string)
    ensures Accepted(Sent(data) + after) == Some((data + "\r\n", after))
    decreases |data|
  {
    hide Stuffed, StuffedLine, Accepted, Sent;
    var at := LineEnd(data);
    FirstPart(data);
    if at == |data| {
      LastLine(data, after);
    } else {
      ReceivedAsSent(data[at + 2..], after);
      OneMoreLine(data[..at], data[at + 2..], after);
      assert data == data[..at] + "\r\n" + data[at + 2..];
    }
  }

  lemma LastLine(line: string, after: string)
    requires OneLine(line)
    ensures Accepted(Sent(line) + after) == Some((line + "\r\n", after))
  {
    hide Stuffed, StuffedLine, OneLine, Accepted;
    StuffedStart(line, "");
    AcceptedMark(after);
    AcceptedLine(line, ".\r\n" + after);
    assert Sent(line) + after == StuffedLine(line) + "\r\n" + (".\r\n" + after);
    assert line + "\r\n" + "" == line + "\r\n";
  }

  lemma OneMoreLine(line: string, rest: string, after: string)
    requires OneLine(line)
    requires Accepted(Sent(rest) + after) == Some((rest + "\r\n", after))
    ensures Accepted(Sent(line + "\r\n" + rest) + after) == Some((line + "\r\n" + rest + "\r\n", after))
  {
    hide Stuffed, StuffedLine, OneLine, Accepted;
    StuffedStart(line, rest);
    AcceptedLine(line, Sent(rest) + after);
    assert Sent(line + "\r\n" + rest) + after == StuffedLine(line) + "\r\n" + (Sent(rest) + after);
    assert line + "\r\n" + (rest + "\r\n") == line + "\r\n" + rest + "\r\n";
  }

  lemma FirstPart(s: string)
    ensures OneLine(s[..LineEnd(s)])
  {
  }

  lemma AcceptedMark(after: string)
    ensures Accepted(".\r\n" + after) == Some(("", after))
  {
    FirstLine(".", after);
    assert "." + "\r\n" + after == ".\r\n" + after;
  }

  /** A stuffed line never looks like the end mark, and loses the added period. */
  lemma AcceptedLine(line: string, rest: string)
    requires OneLine(line)
    requires Accepted(rest).Some?
    ensures var (text, after) := Accepted(rest).value;
            Accepted(StuffedLine(line) + "\r\n" + rest) == Some((line + "\r\n" + text, after))
  {
    StuffedLineIsOneLine(line);
    FirstLine(StuffedLine(line), rest);
  }

  // ---- The mark is nowhere before the end ----

  /** Line break, period, line break at `i`: the end mark of section 4.1.1.4 of RFC 5321. */
  predicate MarkAt(s: string, i: int) {
    0 <= i && i + 4 < |s| && s[i] == '\r' && s[i + 1] == '\n' && s[i + 2] == '.' && s[i + 3] == '\r' && s[i + 4] == '\n'
  }

  predicate DotLineAt(s: string, i: int) {
    0 <= i && i + 2 < |s| && s[i] == '\r' && s[i + 1] == '\n' && s[i + 2] == '.'
  }

  /** A period that starts a line is followed by another. */
  predicate Doubled(s: string) {
    forall i | 0 <= i < |s| :: DotLineAt(s, i) ==> i + 3 < |s| && s[i + 3] == '.'
  }

  lemma FirstKept(data: string)
    requires data != ""
    ensures Stuffed(data, false) != "" && Stuffed(data, false)[0] == data[0]
  {
  }

  lemma DoubledAfter(front: string, t: string)
    requires Doubled(t)
    requires forall i :: 0 <= i < |front| && DotLineAt(front + t, i) ==>
               i + 3 < |front + t| && (front + t)[i + 3] == '.'
    ensures Doubled(front + t)
  {
    var s := front + t;
    forall i | |front| <= i < |s| && DotLineAt(s, i)
      ensures i + 3 < |s| && s[i + 3] == '.'
    {
      assert DotLineAt(t, i - |front|);
    }
  }

  lemma {:induction false} StuffedDoubles(data: string, atStart: bool)
    ensures Doubled(Stuffed(data, atStart))
    decreases |data|
  {
    if data == "" {
    } else if atStart && data[0] == '.' {
      StuffedDoubles(data[1..], false);
      DoubledAfter("..", Stuffed(data[1..], false));
    } else if |data| >= 3 && data[..3] == "\r\n." {
      StuffedDoubles(data[3..], false);
      DoubledAfter("\r\n..", Stuffed(data[3..], false));
    } else {
      StuffedDoubles(data[1..], false);
      NoDotAfter(data);
      DoubledAfter([data[0]], Stuffed(data[1..], false));
    }
  }

  /** A character copied by itself does not start a line break before a period. */
  lemma NoDotAfter(data: string)
    requires data != "" && !(|data| >= 3 && data[..3] == "\r\n.")
    ensures !DotLineAt([data[0]] + Stuffed(data[1..], false), 0)
  {
    if |data| > 2 {
      assert data[..3] == [data[0], data[1], data[2]];
      assert data[1..][1..] == data[2..];
      FirstKept(data[1..]);
      FirstKept(data[2..]);
      if data[1] == '\n' {
        StuffedPlain(data[1..]);
      }
    }
  }

  /** The end mark is where the client put it and nowhere before. */
  lemma MarkOnlyAtEnd(data: string, i: int)
    ensures MarkAt(Sent(data), i) <==> i == |Stuffed(data, true)|
  {
    hide Stuffed;
    var r := Stuffed(data, true);
    StuffedDoubles(data, true);
    assert forall k :: 0 <= k < |r| ==> Sent(data)[k] == r[k];
    assert DotLineAt(Sent(data), i) && i + 2 < |r| ==> DotLineAt(r, i);
  }
}
