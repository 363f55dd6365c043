/**
 * The SMTP conversation of packages/email/src/smtp.ts: reading replies however the
 * stream is cut up, and writing text the other side reads back unchanged.
 */
module Smtp {
  import opened Text

  const CRLF := "\r\n"

  /** A reply's code, as the three characters sent, and its text. */
  datatype Reply = Reply(code: string, text: string)

  // --- lines ---

  datatype Cut = Cut(line: string, rest: string)

  /** The first line and what follows its CR LF. */
  function FirstLine(s: string): (r: Option<Cut>)
    ensures r.Some? ==> |r.value.rest| < |s|
  {
    match IndexOf(s, CRLF)
    case None => None
    case Some(i) =>
      IndexOfFirst(s, CRLF);
      Some(Cut(s[..i], s[i + 2..]))
  }

  lemma FirstLineLocal(s: string, t: string)
    requires FirstLine(s).Some?
    ensures FirstLine(s + t) == Some(Cut(FirstLine(s).value.line, FirstLine(s).value.rest + t))
  {
    IndexOfFirst(s, CRLF);
    IndexOfLocal(s, t, CRLF);
    var i := IndexOf(s, CRLF).value;
    assert (s + t)[..i] == s[..i] && (s + t)[i + 2..] == s[i + 2..] + t;
  }

  /** A text with no line end in it, ended: it is the first line. */
  lemma LineEnds(l: string, t: string)
    requires IndexOf(l, CRLF).None?
    ensures FirstLine(l + (CRLF + t)) == Some(Cut(l, t))
  {
    var s := l + (CRLF + t);
    IndexOfFirst(l, CRLF);
    IndexOfFirst(s, CRLF);
    assert s[|l|..] == CRLF + t;
    assert OccursAt(s, CRLF, |l|);
    var i := IndexOf(s, CRLF).value;
    if i < |l| {
      EarlyOccurrence(l, CRLF + t, i);
    }
    assert s[..|l|] == l && s[|l| + 2..] == t;
  }

  /** An occurrence that starts inside `l` lies inside `l` when what follows starts with a CR. */
  lemma EarlyOccurrence(l: string, b: string, i: nat)
    requires i < |l| && b != "" && b[0] == '\r' && OccursAt(l + b, CRLF, i)
    ensures OccursAt(l, CRLF, i)
  {
    var s := l + b;
    assert s[i..][0] == s[i] && s[i..][1] == s[i + 1];
    assert CRLF <= l[i..] by {
      if i + 1 < |l| {
        assert l[i..][..2] == [s[i], s[i + 1]];
      }
    }
  }

  // --- replies ---

  /** A hyphen in the fourth position says that more follows. */
  predicate Continues(line: string) {
    |line| >= 4 && line[3] == '-'
  }

  datatype Lines = Lines(lines: seq<string>, rest: string)

  function TakeLines(s: string): (r: Option<Lines>)
    ensures r.Some? ==> |r.value.rest| < |s| && r.value.lines != []
    decreases |s|
  {
    match FirstLine(s)
    case None => None
    case Some(c) =>
      if !Continues(c.line) then Some(Lines([c.line], c.rest))
      else
        match TakeLines(c.rest)
        case None => None
        case Some(more) => Some(Lines([c.line] + more.lines, more.rest))
  }

  function After(s: string, n: nat): string {
    if n <= |s| then s[n..] else ""
  }

  function Bodies(lines: seq<string>): (r: seq<string>)
    ensures |r| == |lines|
  {
    seq(|lines|, i requires 0 <= i < |lines| => After(lines[i], 4))
  }

  function ReplyOf(lines: seq<string>): Reply
    requires lines != []
  {
    Reply(Take(lines[0], 3), Join(Bodies(lines), "\n"))
  }

  datatype Taken = Taken(reply: Reply, rest: string)

  /** The reply at the front, once all of it has come, and what follows it. */
  function TakeReply(s: string): (r: Option<Taken>)
    ensures r.Some? ==> |r.value.rest| < |s|
  {
    match TakeLines(s)
    case None => None
    case Some(t) => Some(Taken(ReplyOf(t.lines), t.rest))
  }

  datatype Drained = Drained(replies: seq<Reply>, rest: string)

  /** Every complete reply, and the leftover. */
  function Drain(s: string): Drained
    decreases |s|
  {
    match TakeReply(s)
    case None => Drained([], s)
    case Some(t) =>
      var more := Drain(t.rest);
      Drained([t.reply] + more.replies, more.rest)
  }

  lemma {:induction false} TakeLinesLocal(s: string, t: string)
    requires TakeLines(s).Some?
    ensures TakeLines(s + t) == Some(Lines(TakeLines(s).value.lines, TakeLines(s).value.rest + t))
    decreases |s|
  {
    hide FirstLine;
    FirstLineLocal(s, t);
    var c := FirstLine(s).value;
    if Continues(c.line) {
      TakeLinesLocal(c.rest, t);
    }
  }

  /** What has been read stays read: later input only lengthens the leftover. */
  lemma {:induction false} DrainAppend(s: string, t: string)
    ensures Drain(s + t)
         == Drained(Drain(s).replies + Drain(Drain(s).rest + t).replies, Drain(Drain(s).rest + t).rest)
    decreases |s|
  {
    hide TakeLines, ReplyOf;
    if TakeLines(s).Some? {
      TakeLinesLocal(s, t);
      DrainAppend(TakeReply(s).value.rest, t);
    }
  }

  // --- what the data handler does with them ---

  type Waiter = nat

  datatype Resolved = Resolved(waiter: Waiter, reply: Reply)

  /** `dropped`: replies that arrived while no one waited. */
  datatype Session = Session(
    buffer: string, waiters: seq<Waiter>, resolved: seq<Resolved>, dropped: seq<Reply>, failed: bool, rejected: seq<Waiter>)

  const FRESH := Session("", [], [], [], false, [])

  function Deliver(s: Session, r: Reply): Session {
    if s.waiters == [] then s.(dropped := s.dropped + [r])
    else s.(waiters := s.waiters[1..], resolved := s.resolved + [Resolved(s.waiters[0], r)])
  }

  function DeliverAll(s: Session, rs: seq<Reply>): Session {
    if rs == [] then s else Deliver(DeliverAll(s, rs[..|rs| - 1]), rs[|rs| - 1])
  }

  function OnData(s: Session, chunk: string): Session {
    var d := Drain(s.buffer + chunk);
    DeliverAll(s, d.replies).(buffer := d.rest)
  }

  function OnChunks(s: Session, chunks: seq<string>): Session {
    if chunks == [] then s else OnData(OnChunks(s, chunks[..|chunks| - 1]), chunks[|chunks| - 1])
  }

  /** One more caller waits, or is turned away at once. */
  function Awaited(s: Session, w: Waiter): Session {
    if s.failed then s.(rejected := s.rejected + [w]) else s.(waiters := s.waiters + [w])
  }

  function Broken(s: Session): Session {
    s.(failed := true, waiters := [], rejected := s.rejected + s.waiters)
  }

  function Concat(chunks: seq<string>): string {
    if chunks == [] then "" else Concat(chunks[..|chunks| - 1]) + chunks[|chunks| - 1]
  }

  lemma {:induction false} DeliverAppend(s: Session, x: seq<Reply>, y: seq<Reply>)
    ensures DeliverAll(s, x + y) == DeliverAll(DeliverAll(s, x), y)
  {
    hide Deliver;
    if y == [] {
      assert x + y == x;
    } else {
      assert (x + y)[..|x + y| - 1] == x + y[..|y| - 1];
      DeliverAppend(s, x, y[..|y| - 1]);
    }
  }

  lemma {:induction false} DeliverBuffer(s: Session, rs: seq<Reply>, buffer: string)
    ensures DeliverAll(s.(buffer := buffer), rs) == DeliverAll(s, rs).(buffer := buffer)
    ensures DeliverAll(s, rs).buffer == s.buffer
  {
    if rs != [] {
      DeliverBuffer(s, rs[..|rs| - 1], buffer);
    }
  }

  /** Two pieces of input do what their concatenation does. */
  lemma DataAppend(s: Session, a: string, b: string)
    ensures OnData(OnData(s, a), b) == OnData(s, a + b)
  {
    hide Drain, DeliverAll;
    var d := Drain(s.buffer + a);
    assert s.buffer + a + b == s.buffer + (a + b);
    DrainAppend(s.buffer + a, b);
    var more := Drain(d.rest + b);
    DeliverBuffer(DeliverAll(s, d.replies), more.replies, d.rest);
    DeliverAppend(s, d.replies, more.replies);
  }

  lemma NothingMore(s: Session)
    requires Drain(s.buffer) == Drained([], s.buffer)
    ensures OnData(s, "") == s
  {
    assert s.buffer + "" == s.buffer;
  }

  /** However the stream is cut up, one piece of it all does the same. */
  lemma {:induction false} ChunksAreTheirConcat(s: Session, chunks: seq<string>)
    requires Drain(s.buffer) == Drained([], s.buffer)
    ensures OnChunks(s, chunks) == OnData(s, Concat(chunks))
  {
    hide OnData;
    if chunks == [] {
      NothingMore(s);
    } else {
      ChunksAreTheirConcat(s, chunks[..|chunks| - 1]);
      DataAppend(s, Concat(chunks[..|chunks| - 1]), chunks[|chunks| - 1]);
    }
  }

  /**
   * Chunking does not matter: two ways of cutting the same stream leave the same
   * replies with the same waiters, the same drops and the same leftover.
   */
  lemma ChunkingIndependent(s: Session, xs: seq<string>, ys: seq<string>)
    requires Drain(s.buffer) == Drained([], s.buffer) && Concat(xs) == Concat(ys)
    ensures OnChunks(s, xs) == OnChunks(s, ys)
  {
    hide OnData, OnChunks;
    ChunksAreTheirConcat(s, xs);
    ChunksAreTheirConcat(s, ys);
  }

  /** After any input the leftover holds no complete reply, so the handler never falls behind. */
  lemma {:induction false} DrainedIsDry(s: string)
    ensures Drain(Drain(s).rest) == Drained([], Drain(s).rest)
    decreases |s|
  {
    if TakeReply(s).Some? {
      DrainedIsDry(TakeReply(s).value.rest);
    }
  }

  lemma {:induction false} DeliverCounts(s: Session, rs: seq<Reply>)
    ensures var t, n := DeliverAll(s, rs), if |rs| <= |s.waiters| then |rs| else |s.waiters|;
            && t.waiters == s.waiters[n..]
            && |t.resolved| == |s.resolved| + n && |t.dropped| == |s.dropped| + |rs| - n
  {
    if rs != [] {
      DeliverCounts(s, rs[..|rs| - 1]);
    }
  }

  /** A reply is lost exactly when more replies arrive than callers are waiting. */
  lemma DroppedIff(s: Session, chunk: string)
    ensures OnData(s, chunk).dropped == s.dropped <==> |Drain(s.buffer + chunk).replies| <= |s.waiters|
  {
    var rs := Drain(s.buffer + chunk).replies;
    DeliverCounts(s, rs);
    if |rs| <= |s.waiters| {
      NoDrops(s, rs);
    }
  }

  /** The replies with the first of the waiters, in order. */
  function Pairs(ws: seq<Waiter>, rs: seq<Reply>): seq<Resolved>
    requires |rs| <= |ws|
  {
    seq(|rs|, i requires 0 <= i < |rs| => Resolved(ws[i], rs[i]))
  }

  lemma {:induction false} NoDrops(s: Session, rs: seq<Reply>)
    requires |rs| <= |s.waiters|
    ensures DeliverAll(s, rs).dropped == s.dropped
    ensures DeliverAll(s, rs).resolved == s.resolved + Pairs(s.waiters, rs)
  {
    if rs != [] {
      var n := |rs| - 1;
      NoDrops(s, rs[..n]);
      DeliverCounts(s, rs[..n]);
    }
  }

  // --- replies as a server writes them ---

  /** Section 4.2.1 of RFC 5321: every line but the last has a hyphen after the code. */
  function Serialise(code: string, lines: seq<string>): string
    requires lines != []
  {
    if |lines| == 1 then code + " " + lines[0] + CRLF
    else code + "-" + lines[0] + CRLF + Serialise(code, lines[1..])
  }

  predicate OneLine(s: string) {
    '\n' !in s
  }

  predicate WellFormed(code: string, lines: seq<string>) {
    |code| == 3 && OneLine(code) && lines != [] && forall i | 0 <= i < |lines| :: OneLine(lines[i])
  }

  lemma LineEndHasLf(s: string)
    ensures IndexOf(s, CRLF).Some? ==> '\n' in s
  {
    IndexOfFirst(s, CRLF);
    if IndexOf(s, CRLF).Some? {
      var i := IndexOf(s, CRLF).value;
      assert s[i..][1] == CRLF[1] && s[i..][1] == s[i + 1];
    }
  }

  lemma OneLineHasNoEnd(s: string)
    requires OneLine(s)
    ensures IndexOf(s, CRLF).None?
  {
    LineEndHasLf(s);
  }

  function Coded(code: string, separator: char, lines: seq<string>): (r: seq<string>)
    ensures |r| == |lines|
  {
    seq(|lines|, i requires 0 <= i < |lines| =>
      code + [if i < |lines| - 1 then '-' else separator] + lines[i])
  }

  lemma LineParses(code: string, separator: char, text: string, rest: string)
    requires |code| == 3 && OneLine(code) && OneLine(text) && separator != '\n'
    ensures var l := code + [separator] + text;
            FirstLine(l + (CRLF + rest)) == Some(Cut(l, rest)) && Continues(l) == (separator == '-')
  {
    var l := code + [separator] + text;
    OneLineHasNoEnd(l);
    LineEnds(l, rest);
  }

  lemma {:induction false} SerialisedLines(code: string, lines: seq<string>, rest: string)
    requires WellFormed(code, lines)
    ensures TakeLines(Serialise(code, lines) + rest) == Some(Lines(Coded(code, ' ', lines), rest))
    decreases |lines|
  {
    hide FirstLine, Continues;
    if |lines| == 1 {
      var l := code + " " + lines[0];
      assert Serialise(code, lines) + rest == l + (CRLF + rest);
      LineParses(code, ' ', lines[0], rest);
      assert Coded(code, ' ', lines) == [l];
    } else {
      var l, more := code + "-" + lines[0], Serialise(code, lines[1..]) + rest;
      assert Serialise(code, lines) + rest == l + (CRLF + more);
      LineParses(code, '-', lines[0], more);
      SerialisedLines(code, lines[1..], rest);
      assert Coded(code, ' ', lines) == [l] + Coded(code, ' ', lines[1..]);
    }
  }

  /** A serialised reply parses back to its code and its text, and leaves what follows. */
  lemma ReplyRoundTrip(code: string, lines: seq<string>, rest: string)
    requires WellFormed(code, lines)
    ensures TakeReply(Serialise(code, lines) + rest) == Some(Taken(Reply(code, Join(lines, "\n")), rest))
  {
    hide TakeLines, Serialise, Join;
    SerialisedLines(code, lines, rest);
    var coded := Coded(code, ' ', lines);
    assert Bodies(coded) == lines;
    assert Take(coded[0], 3) == code;
  }

  /** A line too short to hold text is a reply with none. */
  lemma ShortReply(line: string, rest: string)
    requires OneLine(line) && |line| <= 3
    ensures TakeReply(line + (CRLF + rest)) == Some(Taken(Reply(line, ""), rest))
  {
    hide FirstLine;
    OneLineHasNoEnd(line);
    LineEnds(line, rest);
    assert TakeLines(line + (CRLF + rest)) == Some(Lines([line], rest));
    assert After(line, 4) == "" && Bodies([line]) == [""];
    assert Take(line, 3) == line;
  }

  /** `Number(…)` of the three characters, where they are digits. */
  function CodeOf(r: Reply): Option<nat> {
    if r.code != "" && forall i | 0 <= i < |r.code| :: IsDigit(r.code[i]) then Some(ValueOf(r.code)) else None
  }

  lemma CodeText(n: nat)
    requires 100 <= n <= 999
    ensures |Decimal(n)| == 3 && OneLine(Decimal(n))
  {
    assert |Decimal(n / 100)| == 1 && |Decimal(n / 10)| == 2;
  }

  /** A reply written with a three-digit code is read back with that number. */
  lemma CodeRoundTrip(n: nat, lines: seq<string>, rest: string)
    requires 100 <= n <= 999 && lines != [] && forall i | 0 <= i < |lines| :: OneLine(lines[i])
    ensures WellFormed(Decimal(n), lines)
    ensures var t := TakeReply(Serialise(Decimal(n), lines) + rest);
            t.Some? && CodeOf(t.value.reply) == Some(n) && t.value.reply.text == Join(lines, "\n") && t.value.rest == rest
  {
    hide TakeLines, Serialise, Join, Decimal;
    CodeText(n);
    DecimalDenotes(n);
    ReplyRoundTrip(Decimal(n), lines, rest);
  }

  datatype Message = Message(code: string, lines: seq<string>)

  predicate AllWellFormed(ms: seq<Message>) {
    forall m | m in ms :: WellFormed(m.code, m.lines)
  }

  function SerialiseAll(ms: seq<Message>): string
    requires AllWellFormed(ms)
  {
    if ms == [] then "" else Serialise(ms[0].code, ms[0].lines) + SerialiseAll(ms[1..])
  }

  function Replies(ms: seq<Message>): (r: seq<Reply>)
    ensures |r| == |ms|
  {
    seq(|ms|, i requires 0 <= i < |ms| => Reply(ms[i].code, Join(ms[i].lines, "\n")))
  }

  /** A whole stream of replies is read back in order with nothing left over. */
  lemma {:induction false} StreamRoundTrip(ms: seq<Message>)
    requires AllWellFormed(ms)
    ensures Drain(SerialiseAll(ms)) == Drained(Replies(ms), "")
  {
    hide TakeLines, Serialise, Join, WellFormed;
    if ms == [] {
      NothingIsDry();
    } else {
      ReplyRoundTrip(ms[0].code, ms[0].lines, SerialiseAll(ms[1..]));
      StreamRoundTrip(ms[1..]);
      assert Replies(ms) == [Reply(ms[0].code, Join(ms[0].lines, "\n"))] + Replies(ms[1..]);
    }
  }

  lemma NothingIsDry()
    ensures Drain("") == Drained([], "")
  {
    IndexOfFirst("", CRLF);
  }

  // --- the body of a message ---

  /** `split('\r\n')`. */
  function Split(s: string): (r: seq<string>)
    ensures r != []
    decreases |s|
  {
    match FirstLine(s)
    case None => [s]
    case Some(c) => [c.line] + Split(c.rest)
  }

  predicate StartsWithDot(l: string) {
    l != "" && l[0] == '.'
  }

  function Stuffed(l: string): string {
    if StartsWithDot(l) then "." + l else l
  }

  function StuffedAll(ls: seq<string>): (r: seq<string>)
    ensures |r| == |ls|
  {
    seq(|ls|, i requires 0 <= i < |ls| => Stuffed(ls[i]))
  }

  function DotStuff(body: string): string {
    Join(StuffedAll(Split(body)), CRLF)
  }

  /**
   * The receiver of section 4.5.2 of RFC 5321: a line that is a lone period ends the
   * message, and any other line that starts with a period loses it.
   */
  function Receive(s: string): Option<Lines>
    decreases |s|
  {
    match FirstLine(s)
    case None => None
    case Some(c) =>
      if c.line == "." then Some(Lines([], c.rest))
      else
        match Receive(c.rest)
        case None => None
        case Some(more) => Some(Lines([if StartsWithDot(c.line) then c.line[1..] else c.line] + more.lines, more.rest))
  }

  predicate NoEnds(ls: seq<string>) {
    forall i | 0 <= i < |ls| :: IndexOf(ls[i], CRLF).None?
  }

  lemma FirstLineHasNoEnd(s: string)
    ensures FirstLine(s).None? ==> IndexOf(s, CRLF).None?
    ensures FirstLine(s).Some? ==> IndexOf(FirstLine(s).value.line, CRLF).None?
    ensures FirstLine(s).Some? ==> s == FirstLine(s).value.line + (CRLF + FirstLine(s).value.rest)
  {
    IndexOfFirst(s, CRLF);
    if FirstLine(s).Some? {
      var i := IndexOf(s, CRLF).value;
      var l, rest := s[..i], s[i + 2..];
      assert s[i..][..2] == CRLF && s[i..][2..] == rest;
      assert s == l + (CRLF + rest);
      IndexOfFirst(l, CRLF);
      if IndexOf(l, CRLF).Some? {
        IndexOfLocal(l, CRLF + rest, CRLF);
      }
    }
  }

  lemma {:induction false} SplitLines(s: string)
    ensures NoEnds(Split(s)) && Join(Split(s), CRLF) == s
    decreases |s|
  {
    FirstLineHasNoEnd(s);
    hide FirstLine, Join, IndexOf;
    if FirstLine(s).Some? {
      var c := FirstLine(s).value;
      SplitLines(c.rest);
      JoinCons(c.line, Split(c.rest));
      Associative(c.line, CRLF, c.rest);
    } else {
      JoinOne(s);
    }
  }

  lemma JoinOne(l: string)
    ensures Join([l], CRLF) == l
  {
  }

  lemma JoinCons(l: string, ls: seq<string>)
    requires ls != []
    ensures Join([l] + ls, CRLF) == l + CRLF + Join(ls, CRLF)
  {
    assert ([l] + ls)[1..] == ls;
  }

  lemma StuffedHasNoEnd(l: string)
    requires IndexOf(l, CRLF).None?
    ensures IndexOf(Stuffed(l), CRLF).None?
    ensures Stuffed(l) != "."
    ensures l == if StartsWithDot(Stuffed(l)) then Stuffed(l)[1..] else Stuffed(l)
  {
    if StartsWithDot(l) {
      assert ("." + l)[1..] == l;
    }
  }

  /** One more line in front of what is received. */
  lemma ReceiveOne(l: string, more: string, t: Lines)
    requires IndexOf(l, CRLF).None? && Receive(more) == Some(t)
    ensures Receive(Stuffed(l) + (CRLF + more)) == Some(Lines([l] + t.lines, t.rest))
  {
    hide IndexOf, Stuffed, FirstLine;
    StuffedHasNoEnd(l);
    LineEnds(Stuffed(l), more);
  }

  lemma StuffedOne(l: string)
    ensures Join(StuffedAll([l]), CRLF) == Stuffed(l)
  {
    hide Stuffed;
    assert StuffedAll([l]) == [Stuffed(l)];
  }

  lemma StuffedCons(l: string, ls: seq<string>)
    requires ls != []
    ensures Join(StuffedAll([l] + ls), CRLF) == Stuffed(l) + CRLF + Join(StuffedAll(ls), CRLF)
  {
    hide Stuffed;
    assert StuffedAll([l] + ls) == [Stuffed(l)] + StuffedAll(ls);
    JoinCons(Stuffed(l), StuffedAll(ls));
  }

  lemma Regroup(a: string, b: string, c: string, d: string)
    ensures a + b + c + d == a + (b + (c + d))
  {
  }

  /** The lines come back, then the end of data is seen, then what follows is left. */
  lemma {:induction false} ReceiveLines(ls: seq<string>, rest: string)
    requires ls != [] && NoEnds(ls)
    ensures Receive(Join(StuffedAll(ls), CRLF) + (CRLF + ("." + (CRLF + rest)))) == Some(Lines(ls, rest))
    decreases |ls|
  {
    hide Stuffed, FirstLine, IndexOf, Receive, StuffedAll, Join;
    var tail := CRLF + ("." + (CRLF + rest));
    var l, more := ls[0], ls[1..];
    assert ls == [l] + more;
    if more == [] {
      StuffedOne(l);
      EndOfData(rest);
      assert ls == [l] && ls == [l] + [];
      ReceiveOne(l, "." + (CRLF + rest), Lines([], rest));
    } else {
      StuffedCons(l, more);
      ReceiveLines(more, rest);
      Regroup(Stuffed(l), CRLF, Join(StuffedAll(more), CRLF), tail);
      ReceiveOne(l, Join(StuffedAll(more), CRLF) + tail, Lines(more, rest));
    }
  }

  lemma EndOfData(rest: string)
    ensures Receive("." + (CRLF + rest)) == Some(Lines([], rest))
  {
    OneLineHasNoEnd(".");
    LineEnds(".", rest);
  }

  /**
   * Transparency: whatever the body, the receiver gets it back whole, sees the end of
   * data only after it, and starts the next command where the sender does.
   */
  lemma DotStuffTransparent(body: string, rest: string)
    ensures var got := Receive(DotStuff(body) + (CRLF + ("." + (CRLF + rest))));
            got.Some? && Join(got.value.lines, CRLF) == body && got.value.rest == rest
  {
    hide Split, Receive, StuffedAll;
    SplitLines(body);
    ReceiveLines(Split(body), rest);
  }

  // --- header values ---

  predicate IsLineBreak(c: char) {
    c == '\r' || c == '\n'
  }

  /** The length of a run of line breaks. */
  function BreakRun(s: string): (n: nat)
    ensures n <= |s|
  {
    if s != "" && IsLineBreak(s[0]) then 1 + BreakRun(s[1..]) else 0
  }

  /** `replace(/[\r\n]+/g, ' ')`. */
  function Unbroken(s: string): string
    decreases |s|
  {
    if s == "" then ""
    else if IsLineBreak(s[0]) then " " + Unbroken(s[BreakRun(s)..])
    else [s[0]] + Unbroken(s[1..])
  }

  function HeaderSafe(s: string): string {
    Trim(Unbroken(s))
  }

  predicate AllBreaks(s: string) {
    s != "" && forall i | 0 <= i < |s| :: s[i] == '\r' || s[i] == '\n'
  }

  lemma {:induction false} BreakRunIs(run: string, rest: string)
    requires (forall i | 0 <= i < |run| :: IsLineBreak(run[i])) && (rest != "" ==> !IsLineBreak(rest[0]))
    ensures BreakRun(run + rest) == |run|
  {
    if run == "" {
      assert run + rest == rest;
    } else {
      assert (run + rest)[1..] == run[1..] + rest;
      BreakRunIs(run[1..], rest);
    }
  }

  lemma UnbrokenIs(s: string)
    requires s != ""
    ensures Unbroken(s) == if IsLineBreak(s[0]) then " " + Unbroken(s[BreakRun(s)..]) else [s[0]] + Unbroken(s[1..])
  {
    hide IsLineBreak, BreakRun;
  }

  lemma RunFirst(run: string, b: string)
    requires AllBreaks(run) && (b != "" ==> !IsLineBreak(b[0]))
    ensures Unbroken(run + b) == " " + Unbroken(b)
  {
    hide Unbroken, BreakRun;
    UnbrokenIs(run + b);
    BreakRunIs(run, b);
    assert (run + b)[0] == run[0] && (run + b)[|run|..] == b;
  }

  /** A run of line breaks between two texts becomes one space, and both texts stay as they would alone. */
  lemma {:induction false} RunBecomesSpace(a: string, run: string, b: string)
    requires AllBreaks(run) && (b != "" ==> b[0] != '\r' && b[0] != '\n')
    requires a != "" ==> a[|a| - 1] != '\r' && a[|a| - 1] != '\n'
    ensures Unbroken(a + (run + b)) == Unbroken(a) + (" " + Unbroken(b))
    decreases |a|
  {
    hide Unbroken, BreakRun, AllBreaks;
    var s := a + (run + b);
    if a == "" {
      assert s == run + b;
      RunFirst(run, b);
      NothingUnbroken();
      assert Unbroken(a) + (" " + Unbroken(b)) == " " + Unbroken(b);
    } else {
      UnbrokenIs(a);
      UnbrokenIs(s);
      assert s[0] == a[0];
      if IsLineBreak(a[0]) {
        var k := BreakRun(a);
        BreakRunStops(a);
        BreakRunIs(a[..k], a[k..] + (run + b));
        assert s == a[..k] + (a[k..] + (run + b)) && s[k..] == a[k..] + (run + b);
        RunBecomesSpace(a[k..], run, b);
        Associative(" ", Unbroken(a[k..]), " " + Unbroken(b));
      } else {
        assert s[1..] == a[1..] + (run + b);
        RunBecomesSpace(a[1..], run, b);
        Associative([a[0]], Unbroken(a[1..]), " " + Unbroken(b));
      }
    }
  }

  lemma NothingUnbroken()
    ensures Unbroken("") == ""
  {
  }

  lemma {:induction false} BreakRunStops(a: string)
    requires a != "" && !IsLineBreak(a[|a| - 1])
    ensures BreakRun(a) < |a| && !IsLineBreak(a[BreakRun(a)]) && forall i | 0 <= i < BreakRun(a) :: IsLineBreak(a[i])
  {
    if IsLineBreak(a[0]) {
      BreakRunStops(a[1..]);
    }
  }

  /** The characters that are no blanks. */
  function Inked(s: string): string {
    if s == "" then "" else (if IsSpace(s[0]) then "" else [s[0]]) + Inked(s[1..])
  }

  lemma {:induction false} InkedAppend(s: string, t: string)
    ensures Inked(s + t) == Inked(s) + Inked(t)
  {
    if s == "" {
      assert s + t == t;
    } else {
      assert (s + t)[1..] == s[1..] + t;
      InkedAppend(s[1..], t);
    }
  }

  lemma {:induction false} BlankIsNotInked(s: string)
    requires forall i | 0 <= i < |s| :: IsSpace(s[i])
    ensures Inked(s) == ""
  {
    if s != "" {
      BlankIsNotInked(s[1..]);
    }
  }

  lemma {:induction false} BreakRunBlank(s: string)
    ensures forall i | 0 <= i < BreakRun(s) :: IsSpace(s[i])
  {
    if s != "" && IsLineBreak(s[0]) {
      BreakRunBlank(s[1..]);
    }
  }

  lemma {:induction false} UnbrokenKeeps(s: string)
    ensures Inked(Unbroken(s)) == Inked(s)
    decreases |s|
  {
    if s != "" {
      if IsLineBreak(s[0]) {
        var k := BreakRun(s);
        BreakRunBlank(s);
        BlankIsNotInked(s[..k]);
        InkedAppend(s[..k], s[k..]);
        assert s == s[..k] + s[k..];
        UnbrokenKeeps(s[k..]);
        InkedAppend(" ", Unbroken(s[k..]));
        BlankIsNotInked(" ");
      } else {
        UnbrokenKeeps(s[1..]);
        InkedAppend([s[0]], Unbroken(s[1..]));
        InkedAppend([s[0]], s[1..]);
        assert s == [s[0]] + s[1..];
      }
    }
  }

  lemma TrimStartKeeps(t: string)
    ensures Inked(TrimStart(t)) == Inked(t)
  {
    hide Inked, IsSpace, TrimStart;
    var u := TrimStart(t);
    var n := |t| - |u|;
    TrimStartBlank(t);
    assert t == t[..n] + u;
    BlankIsNotInked(t[..n]);
    InkedAppend(t[..n], u);
  }

  lemma TrimEndKeeps(u: string)
    ensures Inked(TrimEnd(u)) == Inked(u)
  {
    hide Inked, IsSpace, TrimEnd;
    var v := TrimEnd(u);
    assert u == v + u[|v|..];
    BlankIsNotInked(u[|v|..]);
    InkedAppend(v, u[|v|..]);
    assert Inked(v) + "" == Inked(v);
  }

  /** A safe value has every character that is no blank, in order. */
  lemma HeaderSafeKeeps(s: string)
    ensures Inked(HeaderSafe(s)) == Inked(s)
  {
    hide Inked, IsSpace, Unbroken, TrimStart, TrimEnd;
    UnbrokenKeeps(s);
    TrimStartKeeps(Unbroken(s));
    TrimEndKeeps(TrimStart(Unbroken(s)));
  }

  lemma {:induction false} TrimStartBlank(t: string)
    ensures forall i | 0 <= i < |t| - |TrimStart(t)| :: IsSpace(t[i])
  {
    hide IsSpace;
    if t != "" && IsSpace(t[0]) {
      TrimStartBlank(t[1..]);
    }
  }

  predicate Unbreakable(s: string) {
    forall i | 0 <= i < |s| :: !IsLineBreak(s[i])
  }

  lemma {:induction false} UnbrokenIsSafe(s: string)
    ensures Unbreakable(Unbroken(s))
    ensures Unbreakable(s) ==> Unbroken(s) == s
    decreases |s|
  {
    if s != "" {
      if IsLineBreak(s[0]) {
        UnbrokenIsSafe(s[BreakRun(s)..]);
      } else {
        UnbrokenIsSafe(s[1..]);
        assert s == [s[0]] + s[1..];
      }
    }
  }

  lemma TrimIsInside(s: string)
    ensures forall i | 0 <= i < |Trim(s)| :: Trim(s)[i] in s
    ensures Trim(s) != "" ==> !IsSpace(Trim(s)[0]) && !IsSpace(Trim(s)[|Trim(s)| - 1])
  {
    hide IsSpace;
    var t := TrimStart(s);
    assert Trim(s) == TrimEnd(t);
  }

  lemma SolidTrim(s: string)
    requires s != "" ==> !IsSpace(s[0]) && !IsSpace(s[|s| - 1])
    ensures Trim(s) == s
  {
  }

  /** Nothing in a safe value can end the header, and making it safe again changes nothing. */
  lemma HeaderSafeIsSafe(s: string)
    ensures Unbreakable(HeaderSafe(s)) && HeaderSafe(HeaderSafe(s)) == HeaderSafe(s)
    ensures Unbreakable(s) && Trim(s) == s ==> HeaderSafe(s) == s
  {
    hide IsSpace, Trim;
    var t := HeaderSafe(s);
    UnbrokenIsSafe(s);
    TrimIsInside(Unbroken(s));
    forall i | 0 <= i < |t| ensures !IsLineBreak(t[i]) {
      assert t[i] in Unbroken(s);
    }
    UnbrokenIsSafe(t);
    SolidTrim(t);
  }

  predicate IsPrintable(s: string) {
    forall i | 0 <= i < |s| :: ' ' <= s[i] <= '~'
  }

  predicate Special(c: char) {
    c == '\\' || c == '"'
  }

  function Escaped(s: string): string {
    if s == "" then "" else (if Special(s[0]) then "\\" else "") + [s[0]] + Escaped(s[1..])
  }

  /** A display name as it is written: a quoted string, or an encoded word (its encoding left abstract). */
  datatype Phrase = Quoted(text: string) | EncodedWord(payload: string)

  function DisplayName(value: string): Phrase {
    var safe := Escaped(HeaderSafe(value));
    if IsPrintable(safe) then Quoted("\"" + safe + "\"") else EncodedWord(safe)
  }

  /** The contents of a quoted string (section 3.2.4 of RFC 5322) after its opening quote, and what follows. */
  function Unquote(s: string): Option<Cut> {
    if s == "" then None
    else if s[0] == '"' then Some(Cut("", s[1..]))
    else if s[0] == '\\' then
      if |s| < 2 then None
      else
        match Unquote(s[2..])
        case None => None
        case Some(c) => Some(Cut([s[1]] + c.line, c.rest))
    else
      match Unquote(s[1..])
      case None => None
      case Some(c) => Some(Cut([s[0]] + c.line, c.rest))
  }

  lemma UnquoteEscape(c: char, more: string)
    requires Unquote(more).Some?
    ensures Unquote("\\" + [c] + more) == Unquote("\\" + ([c] + more))
    ensures Unquote("\\" + [c] + more) == Some(Cut([c] + Unquote(more).value.line, Unquote(more).value.rest))
  {
    assert "\\" + [c] + more == "\\" + ([c] + more);
    assert ("\\" + [c] + more)[2..] == more;
  }

  lemma UnquotePlain(c: char, more: string)
    requires Unquote(more).Some? && !Special(c)
    ensures Unquote([c] + more) == Some(Cut([c] + Unquote(more).value.line, Unquote(more).value.rest))
  {
    assert ([c] + more)[1..] == more;
  }

  lemma UnquoteEnd(rest: string)
    ensures Unquote("\"" + rest) == Some(Cut("", rest))
  {
  }

  lemma EscapedIs(c: char, s: string)
    ensures Escaped([c] + s) == if Special(c) then "\\" + [c] + Escaped(s) else [c] + Escaped(s)
  {
    hide Special;
    assert ([c] + s)[1..] == s;
    assert "" + [c] == [c];
  }

  lemma {:induction false} UnquoteEscaped(s: string, rest: string)
    ensures Unquote(Escaped(s) + ("\"" + rest)) == Some(Cut(s, rest))
  {
    hide Unquote, Special, Escaped;
    var tail := "\"" + rest;
    if s == "" {
      EscapedNil(tail);
      UnquoteEnd(rest);
    } else {
      var c, e := s[0], Escaped(s[1..]);
      assert s == [c] + s[1..];
      UnquoteEscaped(s[1..], rest);
      EscapedIs(c, s[1..]);
      if Special(c) {
        Regroup("\\", [c], e, tail);
        UnquoteEscape(c, e + tail);
      } else {
        Associative([c], e, tail);
        UnquotePlain(c, e + tail);
      }
    }
  }

  lemma EscapedNil(tail: string)
    ensures Escaped("") + tail == tail
  {
  }

  lemma {:induction false} EscapedPrintable(s: string)
    ensures IsPrintable(Escaped(s)) <==> IsPrintable(s)
  {
    if s != "" {
      hide IsPrintable;
      EscapedPrintable(s[1..]);
      assert s == [s[0]] + s[1..];
      PrintableCons(s[0], s[1..]);
      PrintableCons(s[0], Escaped(s[1..]));
      if Special(s[0]) {
        PrintableCons('\\', [s[0]] + Escaped(s[1..]));
        assert Escaped(s) == ['\\'] + ([s[0]] + Escaped(s[1..]));
      } else {
        assert Escaped(s) == [s[0]] + Escaped(s[1..]);
      }
    }
  }

  predicate NothingSpecial(s: string) {
    forall i | 0 <= i < |s| :: !Special(s[i])
  }

  lemma SpecialCons(c: char, s: string)
    ensures NothingSpecial([c] + s) <==> !Special(c) && NothingSpecial(s)
  {
    hide Special;
    if NothingSpecial([c] + s) {
      forall i | 0 <= i < |s| ensures !Special(s[i]) {
        assert ([c] + s)[i + 1] == s[i];
      }
      assert ([c] + s)[0] == c;
    }
  }

  lemma {:induction false} EscapedIsSame(s: string)
    ensures Escaped(s) == s <==> NothingSpecial(s)
    ensures |Escaped(s)| >= |s| && (|Escaped(s)| == |s| ==> Escaped(s) == s)
  {
    hide Special, NothingSpecial;
    if s != "" {
      EscapedIsSame(s[1..]);
      assert s == [s[0]] + s[1..];
      SpecialCons(s[0], s[1..]);
      if !Special(s[0]) {
        assert Escaped(s) == [s[0]] + Escaped(s[1..]);
        assert Escaped(s)[1..] == Escaped(s[1..]);
      }
    } else {
      NothingSpecialNil();
    }
  }

  lemma NothingSpecialNil()
    ensures NothingSpecial("")
  {
  }

  lemma PrintableCons(c: char, s: string)
    ensures IsPrintable([c] + s) <==> ' ' <= c <= '~' && IsPrintable(s)
  {
    if IsPrintable([c] + s) {
      forall i | 0 <= i < |s| ensures ' ' <= s[i] <= '~' {
        assert ([c] + s)[i + 1] == s[i];
      }
      assert ([c] + s)[0] == c;
    }
  }

  /** What a mail reader shows for a phrase. */
  function Read(p: Phrase): Option<string> {
    match p
    case EncodedWord(payload) => Some(payload)
    case Quoted(text) =>
      if text == "" then None
      else
        match Unquote(text[1..])
        case None => None
        case Some(c) => if c.rest == "" then Some(c.line) else None
  }

  predicate InAscii(s: string) {
    forall c | c in s :: 0x20 <= c as int <= 0x7e
  }

  lemma LiteralTests(s: string)
    ensures IsPrintable(s) <==> InAscii(s)
    ensures NothingSpecial(s) <==> '"' !in s && '\\' !in s
  {
    assert IsPrintable(s) ==> forall i | 0 <= i < |s| :: 0x20 <= s[i] as int <= 0x7e;
    assert InAscii(s) ==> forall i | 0 <= i < |s| :: s[i] in s;
    assert NothingSpecial(s) ==> forall i | 0 <= i < |s| :: !Special(s[i]);
    if '"' !in s && '\\' !in s {
      assert forall i | 0 <= i < |s| :: s[i] in s;
    }
  }

  /**
   * The reader sees the name that was given exactly when the name is printable ASCII or
   * holds neither quote nor backslash: an encoded word carries the escapes along.
   */
  lemma DisplayNameReadsIff(value: string)
    ensures Read(DisplayName(value)) == Some(HeaderSafe(value)) <==>
      InAscii(HeaderSafe(value)) || ('"' !in HeaderSafe(value) && '\\' !in HeaderSafe(value))
    ensures DisplayName(value).Quoted? <==> InAscii(HeaderSafe(value))
  {
    LiteralTests(HeaderSafe(value));
    hide HeaderSafe, IsPrintable, Escaped, Unquote, NothingSpecial, InAscii;
    var safe := HeaderSafe(value);
    EscapedPrintable(safe);
    EscapedIsSame(safe);
    if IsPrintable(safe) {
      UnquoteEscaped(safe, "");
      assert ("\"" + Escaped(safe) + "\"")[1..] == Escaped(safe) + ("\"" + "");
    }
  }

  const ACCENTED := "\U{00E9}\""

  lemma AccentedIsSafe()
    ensures HeaderSafe(ACCENTED) == ACCENTED
  {
    hide HeaderSafe, Trim;
    HeaderSafeIsSafe(ACCENTED);
    SolidTrim(ACCENTED);
  }

  lemma AccentedEscaped()
    ensures Escaped(ACCENTED) == ACCENTED[..1] + ("\\" + "\"")
  {
    hide Escaped;
    EscapedNil("");
    EscapedIs('\U{00E9}', "\"");
    EscapedIs('"', "");
    assert ['\U{00E9}'] + "\"" == ACCENTED && ['"'] + "" == "\"";
    assert Escaped("") == "" && "\\" + ['"'] + "" == "\\" + "\"";
    assert ACCENTED[..1] == ['\U{00E9}'];
  }

  /** A name that reads differently: an accented letter makes it an encoded word, and the quote's escape stays in it. */
  lemma AccentedQuoteReadsEscaped()
    ensures HeaderSafe(ACCENTED) == ACCENTED
    ensures Read(DisplayName(ACCENTED)) == Some(ACCENTED[..1] + ("\\" + "\"")) != Some(ACCENTED)
  {
    hide HeaderSafe, Escaped;
    AccentedIsSafe();
    AccentedEscaped();
    assert Escaped(ACCENTED)[0] == '\U{00E9}' && |Escaped(ACCENTED)| == 3 && |ACCENTED| == 2;
  }

  // --- the conversation, as it changes ---

  class Conversation {
    var buffer: string
    var waiters: seq<Waiter>
    ghost var resolved: seq<Resolved>
    ghost var dropped: seq<Reply>
    var failed: bool
    ghost var rejected: seq<Waiter>

    ghost function Now(): Session
      reads this
    {
      Session(buffer, waiters, resolved, dropped, failed, rejected)
    }

    constructor ()
      ensures Now() == FRESH
    {
      buffer, waiters, resolved, dropped, failed, rejected := "", [], [], [], false, [];
    }

    /** Take the first reply off the buffer, once all of it has come. */
    method TakeOne() returns (r: Option<Reply>)
      modifies this`buffer
      ensures match TakeReply(old(buffer))
              case None => r.None? && buffer == old(buffer)
              case Some(t) => r == Some(t.reply) && buffer == t.rest
    {
      hide TakeLines, ReplyOf;
      var lines, rest := [], buffer;
      TakenAfterNone(buffer);
      while true
        invariant buffer == old(buffer) && TakenAfter(buffer, lines, rest)
        decreases |rest|
      {
        TakeLinesIs(rest);
        var c := FirstLine(rest);
        if c.None? {
          return None;
        }
        TakenAfterOne(buffer, lines, rest);
        lines, rest := lines + [c.value.line], c.value.rest;
        if Continues(c.value.line) {
          continue;
        }
        buffer := rest;
        return Some(ReplyOf(lines));
      }
    }

    /** The data handler: every complete reply goes to the caller that has waited longest. */
    method Data(chunk: string)
      modifies this
      ensures Now() == OnData(old(Now()), chunk)
    {
      hide TakeReply, Drain, DeliverAll, Deliver;
      ghost var start, given := Now(), [];
      buffer := buffer + chunk;
      ghost var whole := buffer;
      DeliverNone(start);
      DrainedNone(whole);
      while true
        invariant DrainedTo(whole, given, buffer)
        invariant Now() == DeliverAll(start, given).(buffer := buffer)
        decreases |buffer|
      {
        DrainedOne(whole, given, buffer);
        var parsed := TakeOne();
        if parsed.None? {
          break;
        }
        DeliverOne(start, given, parsed.value);
        given := given + [parsed.value];
        Resolve(parsed.value);
      }
    }

    method Resolve(r: Reply)
      modifies this`waiters, this`resolved, this`dropped
      ensures Now() == Deliver(old(Now()), r)
    {
      if waiters != [] {
        resolved := resolved + [Resolved(waiters[0], r)];
        waiters := waiters[1..];
      } else {
        dropped := dropped + [r];
      }
    }

    /** A read waits its turn, or is rejected when the socket has failed. */
    method Await(w: Waiter)
      modifies this`waiters, this`rejected
      ensures Now() == Awaited(old(Now()), w)
    {
      if failed {
        rejected := rejected + [w];
      } else {
        waiters := waiters + [w];
      }
    }

    /** A failure rejects everyone who waits, and whoever comes later. */
    method Fail()
      modifies this`failed, this`waiters, this`rejected
      ensures Now() == Broken(old(Now()))
    {
      failed := true;
      while waiters != []
        invariant rejected + waiters == old(rejected) + old(waiters)
        invariant Now() == old(Now()).(failed := true, waiters := waiters, rejected := rejected)
        decreases |waiters|
      {
        rejected := rejected + [waiters[0]];
        waiters := waiters[1..];
      }
      assert rejected + [] == rejected;
    }
  }

  /** After reading `lines`, the reply at the front of `s` goes on with the one at the front of `rest`. */
  predicate TakenAfter(s: string, lines: seq<string>, rest: string) {
    TakeLines(s) ==
      match TakeLines(rest)
      case None => None
      case Some(t) => Some(Lines(lines + t.lines, t.rest))
  }

  lemma TakenAfterNone(s: string)
    ensures TakenAfter(s, [], s)
  {
    hide TakeLines;
    if TakeLines(s).Some? {
      assert [] + TakeLines(s).value.lines == TakeLines(s).value.lines;
    }
  }

  lemma TakeLinesIs(s: string)
    ensures TakeLines(s) ==
      match FirstLine(s)
      case None => None
      case Some(c) =>
        if !Continues(c.line) then Some(Lines([c.line], c.rest))
        else
          match TakeLines(c.rest)
          case None => None
          case Some(more) => Some(Lines([c.line] + more.lines, more.rest))
  {
    hide FirstLine, Continues;
  }

  lemma TakenAfterOne(s: string, lines: seq<string>, rest: string)
    requires TakenAfter(s, lines, rest) && FirstLine(rest).Some?
    ensures var c := FirstLine(rest).value;
            if Continues(c.line) then TakenAfter(s, lines + [c.line], c.rest)
            else TakeLines(s) == Some(Lines(lines + [c.line], c.rest))
  {
    hide TakeLines, FirstLine, Continues;
    TakeLinesIs(rest);
    var c := FirstLine(rest).value;
    if Continues(c.line) && TakeLines(c.rest).Some? {
      var more := TakeLines(c.rest).value.lines;
      assert lines + ([c.line] + more) == lines + [c.line] + more;
    }
  }

  /** Having taken `given`, what is left to drain of `s` is what is left of `rest`. */
  predicate DrainedTo(s: string, given: seq<Reply>, rest: string) {
    Drain(s) == Drained(given + Drain(rest).replies, Drain(rest).rest)
  }

  lemma DrainedNone(s: string)
    ensures DrainedTo(s, [], s)
  {
  }

  lemma DrainedOne(s: string, given: seq<Reply>, rest: string)
    requires DrainedTo(s, given, rest)
    ensures match TakeReply(rest)
            case None => Drain(s) == Drained(given, rest)
            case Some(t) => |t.rest| < |rest| && DrainedTo(s, given + [t.reply], t.rest)
  {
    hide TakeReply, Drain;
    TakenIsShorter(rest);
    match TakeReply(rest)
    case None => assert given + [] == given;
    case Some(t) => assert given + ([t.reply] + Drain(t.rest).replies) == given + [t.reply] + Drain(t.rest).replies;
  }

  lemma DeliverNone(s: Session)
    ensures DeliverAll(s, []) == s
  {
  }

  lemma DeliverOne(s: Session, given: seq<Reply>, r: Reply)
    ensures forall b :: Deliver(DeliverAll(s, given).(buffer := b), r) == DeliverAll(s, given + [r]).(buffer := b)
  {
    assert (given + [r])[..|given|] == given;
  }

  lemma TakenIsShorter(s: string)
    ensures match TakeReply(s)
            case None => Drain(s) == Drained([], s)
            case Some(t) => |t.rest| < |s| && Drain(s) == Drained([t.reply] + Drain(t.rest).replies, Drain(t.rest).rest)
  {
    hide TakeLines, ReplyOf;
  }
}
