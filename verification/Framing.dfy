/** Incremental framing of a text stream that arrives in arbitrary pieces: newline-delimited events on a child's
    standard output, and blank-line-delimited server-sent events. */
module Framing {
  import opened Options
  import opened Text

  const STDOUT_OVERSIZE_LIMIT: nat := 4 * 1024 * 1024
  const MAX_SSE_BUFFER_CHARS: nat := 1_048_576

  // ---------- Lines ----------

  /** `text.split('\n')`: always at least one part. */
  function Split(s: string): (parts: seq<string>)
    ensures parts != []
  {
    if s == [] then [""] else Prepend(s[0], Split(s[1..]))
  }

  /** One more character in front: a newline opens a new part, anything else extends the first. */
  function Prepend(c: char, parts: seq<string>): (r: seq<string>)
    requires parts != []
    ensures r != []
  {
    if c == '\n' then [""] + parts else [[c] + parts[0]] + parts[1..]
  }

  function Front(parts: seq<string>): seq<string>
    requires parts != []
  {
    parts[..|parts| - 1]
  }

  function Last(parts: seq<string>): string
    requires parts != []
  {
    parts[|parts| - 1]
  }

  /** White space as `String.prototype.trim` removes it. */
  predicate IsBlank(c: char)
  {
    var n := c as int;
    9 <= n <= 13 || n == 0x20 || n == 0xA0 || n == 0x1680 || 0x2000 <= n <= 0x200A
    || n == 0x2028 || n == 0x2029 || n == 0x202F || n == 0x205F || n == 0x3000 || n == 0xFEFF
  }

  function TrimStart(s: string): string
  {
    if s != [] && IsBlank(s[0]) then TrimStart(s[1..]) else s
  }

  function TrimEnd(s: string): string
  {
    if s != [] && IsBlank(s[|s| - 1]) then TrimEnd(s[..|s| - 1]) else s
  }

  function Trim(s: string): string
  {
    TrimEnd(TrimStart(s))
  }

  /** How lines become events: a parser that may refuse, a translator with a state of its own, and the end-of-turn mark. */
  datatype Protocol<!S, !J, !E> = Protocol(parse: string -> Option<J>, translate: (S, J) -> (S, seq<E>), isDone: E -> bool)

  datatype Output<E> = Event(event: E) | Oversize

  datatype Stream<S, E> = Stream(buffer: string, inner: S, malformed: nat, inFlight: bool, sent: seq<Output<E>>)

  function Events<E>(es: seq<E>): seq<Output<E>>
  {
    seq(|es|, i requires 0 <= i < |es| => Event(es[i]))
  }

  predicate AnyDone<E>(es: seq<E>, isDone: E -> bool)
  {
    exists i :: 0 <= i < |es| && isDone(es[i])
  }

  /** One complete line: blank lines are skipped, unreadable ones counted, the rest translated and broadcast. */
  function HandleLine<S, J, E>(st: Stream<S, E>, raw: string, p: Protocol<S, J, E>): Stream<S, E>
  {
    var line := Trim(raw);
    if line == "" then st
    else match p.parse(line)
      case None => st.(malformed := st.malformed + 1)
      case Some(j) =>
        var (inner, es) := p.translate(st.inner, j);
        st.(inner := inner, inFlight := st.inFlight && !AnyDone(es, p.isDone), sent := st.sent + Events(es))
  }

  function HandleLines<S, J, E>(st: Stream<S, E>, lines: seq<string>, p: Protocol<S, J, E>): Stream<S, E>
  {
    if lines == [] then st else HandleLine(HandleLines(st, lines[..|lines| - 1], p), lines[|lines| - 1], p)
  }

  predicate Trips<S, E>(st: Stream<S, E>, piece: string)
  {
    |st.buffer| + |piece| > STDOUT_OVERSIZE_LIMIT
  }

  /** `handleStdoutChunk`. */
  function Feed<S, J, E>(st: Stream<S, E>, piece: string, p: Protocol<S, J, E>): Stream<S, E>
  {
    var text := st.buffer + piece;
    if Trips(st, piece) then st.(buffer := text, sent := st.sent + [Oversize])
    else HandleLines(st.(buffer := Last(Split(text))), Front(Split(text)), p)
  }

  /** The exit handler: the end of the process also ends an unterminated last line. */
  function Exit<S, J, E>(st: Stream<S, E>, p: Protocol<S, J, E>): Stream<S, E>
  {
    if Trim(st.buffer) == "" then st else Feed(st.(buffer := st.buffer + "\n"), "", p)
  }

  function FeedAll<S, J, E>(st: Stream<S, E>, pieces: seq<string>, p: Protocol<S, J, E>): Stream<S, E>
  {
    if pieces == [] then st else Feed(FeedAll(st, pieces[..|pieces| - 1], p), pieces[|pieces| - 1], p)
  }

  /** No call, the one made at exit included, exceeds the size limit. */
  predicate NeverTrips<S, J, E>(st: Stream<S, E>, pieces: seq<string>, p: Protocol<S, J, E>)
  {
    && (forall i :: 0 <= i < |pieces| ==> !Trips(FeedAll(st, pieces[..i], p), pieces[i]))
    && !Trips(FeedAll(st, pieces, p), "\n")
  }

  /** `t` is `raw` without the white space at its ends. */
  ghost predicate Trimmed(raw: string, t: string)
  {
    exists i, j :: TrimmedAt(raw, t, i, j)
  }

  ghost predicate TrimmedAt(raw: string, t: string, i: int, j: int)
  {
    && 0 <= i <= j <= |raw| && t == raw[i..j]
    && (forall k :: 0 <= k < i || j <= k < |raw| ==> IsBlank(raw[k]))
    && (t != "" ==> !IsBlank(t[0]) && !IsBlank(t[|t| - 1]))
  }

  /** What a complete line does: nothing if it is blank, one more malformed line if it does not parse, and otherwise the
      events it translates to, in order; the turn is over once one of them says so. */
  ghost predicate LineTaken<S, J, E>(st: Stream<S, E>, st': Stream<S, E>, raw: string, p: Protocol<S, J, E>)
  {
    exists t :: Trimmed(raw, t) && LineEffect(st, st', t, p)
  }

  ghost predicate LineEffect<S, J, E>(st: Stream<S, E>, st': Stream<S, E>, t: string, p: Protocol<S, J, E>)
  {
    if t == "" then st' == st
    else match p.parse(t)
      case None => st' == Stream(st.buffer, st.inner, st.malformed + 1, st.inFlight, st.sent)
      case Some(j) =>
        var r := p.translate(st.inner, j);
        && st'.buffer == st.buffer && st'.malformed == st.malformed && st'.inner == r.0
        && |st'.sent| == |st.sent| + |r.1| && st.sent <= st'.sent
        && (forall k :: 0 <= k < |r.1| ==> st'.sent[|st.sent| + k] == Event(r.1[k]))
        && (st'.inFlight <==> st.inFlight && forall k :: 0 <= k < |r.1| ==> !p.isDone(r.1[k]))
  }

  lemma {:induction false} TrimStartAt(s: string) returns (i: nat)
    ensures i <= |s| && TrimStart(s) == s[i..] && (forall k :: 0 <= k < i ==> IsBlank(s[k]))
    ensures i < |s| ==> !IsBlank(s[i])
  {
    i := 0;
    if s != [] && IsBlank(s[0]) {
      i := TrimStartAt(s[1..]);
      i := i + 1;
      assert forall k :: 0 < k < i ==> s[k] == s[1..][k - 1];
    }
  }

  lemma {:induction false} TrimEndAt(s: string) returns (j: nat)
    ensures j <= |s| && TrimEnd(s) == s[..j] && (forall k :: j <= k < |s| ==> IsBlank(s[k]))
    ensures j > 0 ==> !IsBlank(s[j - 1])
  {
    j := |s|;
    if s != [] && IsBlank(s[|s| - 1]) {
      j := TrimEndAt(s[..|s| - 1]);
      assert forall k :: 0 <= k < |s| - 1 ==> s[k] == s[..|s| - 1][k];
    }
  }

  lemma TrimIs(raw: string)
    ensures Trimmed(raw, Trim(raw))
  {
    var i := TrimStartAt(raw);
    var rest := raw[i..];
    var j := TrimEndAt(rest);
    assert rest[..j] == raw[i..i + j];
    assert forall k :: i + j <= k < |raw| ==> raw[k] == rest[k - i];
    assert j > 0 ==> rest[0] == raw[i];
    assert TrimmedAt(raw, Trim(raw), i, i + j);
  }

  lemma LineIsTaken<S, J, E>(st: Stream<S, E>, raw: string, p: Protocol<S, J, E>)
    ensures LineTaken(st, HandleLine(st, raw, p), raw, p)
  {
    TrimIs(raw);
    assert LineEffect(st, HandleLine(st, raw, p), Trim(raw), p);
  }

  class CcSession<S, J, E> {
    const protocol: Protocol<S, J, E>
    var buffer: string
    var inner: S
    var malformed: nat
    var turnInFlight: bool
    var sent: seq<Output<E>>
    var stopRequested: bool

    function Value(): Stream<S, E>
      reads this
    {
      Stream(buffer, inner, malformed, turnInFlight, sent)
    }

    constructor (protocol: Protocol<S, J, E>, inner: S)
      ensures Value() == Stream("", inner, 0, true, []) && this.protocol == protocol && !stopRequested
    {
      this.protocol, this.inner := protocol, inner;
      buffer, malformed, turnInFlight, sent, stopRequested := "", 0, true, [], false;
    }

    method Broadcast(es: seq<E>)
      modifies this`sent, this`turnInFlight
      ensures sent == old(sent) + Events(es)
      ensures turnInFlight == (old(turnInFlight) && !AnyDone(es, protocol.isDone))
    {
      var i := 0;
      while i < |es|
        invariant 0 <= i <= |es| && sent == old(sent) + Events(es[..i])
        invariant turnInFlight == (old(turnInFlight) && !AnyDone(es[..i], protocol.isDone))
      {
        assert es[..i + 1] == es[..i] + [es[i]];
        assert Events(es[..i + 1]) == Events(es[..i]) + [Event(es[i])];
        DoneGrows(es[..i], es[i], protocol.isDone);
        if protocol.isDone(es[i]) { turnInFlight := false; }
        sent := sent + [Event(es[i])];
        i := i + 1;
      }
      assert es[..i] == es;
    }

    method TakeLine(raw: string)
      modifies this
      ensures Value() == HandleLine(old(Value()), raw, protocol) && stopRequested == old(stopRequested)
      ensures LineTaken(old(Value()), Value(), raw, protocol)
    {
      LineIsTaken(Value(), raw, protocol);
      var line := Trim(raw);
      if line == "" { return; }
      match protocol.parse(line)
      case None => malformed := malformed + 1;
      case Some(j) =>
        var r := protocol.translate(inner, j);
        inner := r.0;
        Broadcast(r.1);
    }

    method HandleStdoutChunk(piece: string)
      modifies this
      ensures Value() == Feed(old(Value()), piece, protocol)
      ensures stopRequested == (old(stopRequested) || Trips(old(Value()), piece))
    {
      buffer := buffer + piece;
      if |buffer| > STDOUT_OVERSIZE_LIMIT {
        sent := sent + [Oversize];
        stopRequested := true;
        return;
      }
      var parts := Split(buffer);
      var lines := Front(parts);
      buffer := Last(parts);
      ghost var start := Value();
      var i := 0;
      while i < |lines|
        invariant 0 <= i <= |lines| && Value() == HandleLines(start, lines[..i], protocol) && stopRequested == old(stopRequested)
      {
        assert lines[..i + 1][..i] == lines[..i];
        TakeLine(lines[i]);
        i := i + 1;
      }
      assert lines[..i] == lines;
    }

    method OnExit()
      modifies this
      ensures Value() == Exit(old(Value()), protocol)
    {
      if Trim(buffer) != "" {
        buffer := buffer + "\n";
        HandleStdoutChunk("");
      }
    }
  }

  lemma DoneGrows<E>(es: seq<E>, e: E, isDone: E -> bool)
    ensures AnyDone(es + [e], isDone) <==> AnyDone(es, isDone) || isDone(e)
  {
    var all := es + [e];
    assert all[|es|] == e;
    if AnyDone(es, isDone) {
      var i :| 0 <= i < |es| && isDone(es[i]);
      assert isDone(all[i]);
    }
  }

  /** Parts joined by newlines. */
  function Unsplit(parts: seq<string>): string
    requires parts != []
  {
    if |parts| == 1 then parts[0] else parts[0] + "\n" + Unsplit(parts[1..])
  }

  lemma UnsplitPrepend(c: char, parts: seq<string>)
    requires parts != []
    ensures Unsplit(Prepend(c, parts)) == [c] + Unsplit(parts)
  {
    if c == '\n' {
      assert ([""] + parts)[1..] == parts;
    } else {
      assert Prepend(c, parts)[1..] == parts[1..];
    }
  }

  /** Splitting loses nothing, and no part hides a newline. */
  lemma {:induction false} SplitRoundTrip(s: string)
    ensures Unsplit(Split(s)) == s
    ensures forall k :: 0 <= k < |Split(s)| ==> '\n' !in Split(s)[k]
  {
    if s != [] {
      SplitRoundTrip(s[1..]);
      UnsplitPrepend(s[0], Split(s[1..]));
      assert [s[0]] + s[1..] == s;
    }
  }

  // ---------- However the output is cut ----------

  lemma PrependParts(c: char, a: seq<string>, b: seq<string>)
    requires a != []
    ensures Prepend(c, a + b) == Prepend(c, a) + b
    ensures |a| > 1 || c == '\n' ==> Last(Prepend(c, a)) == Last(a)
    ensures |a| == 1 && c != '\n' ==> Prepend(c, a) == [[c] + a[0]]
    ensures |a| > 1 ==> Front(Prepend(c, a)) == Prepend(c, Front(a))
    ensures |a| == 1 && c == '\n' ==> Front(Prepend(c, a)) == [""]
  {
    assert (a + b)[1..] == a[1..] + b;
  }

  lemma SplitFirst(c: char, first: string, y: string)
    ensures Front([first]) == [] && [] + Split(first + y) == Split(first + y)
    ensures Prepend(c, Split(first + y)) == if c == '\n' then [""] + Split(first + y) else [] + Split(([c] + first) + y)
  {
    assert ([c] + first) + y == [c] + (first + y) && ([c] + (first + y))[1..] == first + y;
    assert [] + Split(([c] + first) + y) == Split(([c] + first) + y);
  }

  lemma {:induction false} SplitJoin(x: string, y: string)
    ensures Split(x + y) == Front(Split(x)) + Split(Last(Split(x)) + y)
  {
    if x == [] {
      assert x + y == y && "" + y == y && [] + Split(y) == Split(y);
    } else {
      var (c, rest) := (x[0], Split(x[1..]));
      var more := Split(Last(rest) + y);
      SplitJoin(x[1..], y);
      assert (x + y)[1..] == x[1..] + y;
      PrependParts(c, rest, []);
      if |rest| > 1 {
        PrependParts(c, Front(rest), more);
      } else {
        SplitFirst(c, rest[0], y);
      }
    }
  }

  lemma {:induction false} HandleLinesTwice<S, J, E>(st: Stream<S, E>, a: seq<string>, b: seq<string>, p: Protocol<S, J, E>)
    ensures HandleLines(st, a + b, p) == HandleLines(HandleLines(st, a, p), b, p)
  {
    if b == [] {
      assert a + b == a;
    } else {
      HandleLinesTwice(st, a, b[..|b| - 1], p);
      assert (a + b)[..|a + b| - 1] == a + b[..|b| - 1];
    }
  }

  /** Handling lines neither reads nor writes the buffer. */
  lemma {:induction false} BufferAside<S, J, E>(st: Stream<S, E>, lines: seq<string>, p: Protocol<S, J, E>, buffer: string)
    ensures HandleLines(st.(buffer := buffer), lines, p) == HandleLines(st, lines, p).(buffer := buffer)
    ensures HandleLines(st, lines, p).buffer == st.buffer
  {
    if lines != [] { BufferAside(st, lines[..|lines| - 1], p, buffer); }
  }

  /** The state after some text: its complete lines handled, the rest buffered. */
  function Progress<S, J, E>(st: Stream<S, E>, text: string, p: Protocol<S, J, E>): Stream<S, E>
  {
    HandleLines(st, Front(Split(text)), p).(buffer := Last(Split(text)))
  }

  lemma FrontOfParts(a: seq<string>, b: seq<string>)
    requires b != []
    ensures Front(a + b) == a + Front(b) && Last(a + b) == Last(b)
  {
  }

  lemma FeedProgress<S, J, E>(st: Stream<S, E>, text: string, piece: string, p: Protocol<S, J, E>)
    requires !Trips(Progress(st, text, p), piece)
    ensures Feed(Progress(st, text, p), piece, p) == Progress(st, text + piece, p)
  {
    var parts := Split(text);
    var more := Split(Last(parts) + piece);
    SplitJoin(text, piece);
    FrontOfParts(Front(parts), more);
    HandleLinesTwice(st, Front(parts), Front(more), p);
    FeedOne(Progress(st, text, p), HandleLines(st, Front(parts), p), piece, p);
  }

  /** After any pieces, the session has handled every complete line of their concatenation and holds the rest. */
  lemma {:induction false} FeedAllIsSplit<S, J, E>(st: Stream<S, E>, pieces: seq<string>, p: Protocol<S, J, E>)
    requires st.buffer == "" && forall i :: 0 <= i < |pieces| ==> !Trips(FeedAll(st, pieces[..i], p), pieces[i])
    ensures FeedAll(st, pieces, p) == Progress(st, Joined(pieces), p)
  {
    if pieces == [] {
      assert Split("") == [""] && Front([""]) == [];
    } else {
      var n := |pieces| - 1;
      var front := pieces[..n];
      assert forall i :: 0 <= i < n ==> front[..i] == pieces[..i] && front[i] == pieces[i];
      FeedAllIsSplit(st, front, p);
      FeedProgress(st, Joined(front), pieces[n], p);
    }
  }

  lemma FeedOne<S, J, E>(st: Stream<S, E>, mid: Stream<S, E>, piece: string, p: Protocol<S, J, E>)
    requires st == mid.(buffer := st.buffer) && !Trips(st, piece)
    ensures Feed(st, piece, p) == HandleLines(mid, Front(Split(st.buffer + piece)), p).(buffer := Last(Split(st.buffer + piece)))
  {
    var parts := Split(st.buffer + piece);
    BufferAside(mid, Front(parts), p, Last(parts));
    assert st.(buffer := Last(parts)) == mid.(buffer := Last(parts));
  }

  lemma {:induction false} NoNewlineInLast(s: string)
    ensures forall i :: 0 <= i < |Last(Split(s))| ==> Last(Split(s))[i] != '\n'
  {
    if s != [] {
      var rest := Split(s[1..]);
      NoNewlineInLast(s[1..]);
      PrependParts(s[0], rest, []);
      assert Last(Split(s)) == if |rest| == 1 && s[0] != '\n' then [s[0]] + Last(rest) else Last(rest);
    }
  }

  lemma {:induction false} SplitTerminated(s: string)
    requires forall i :: 0 <= i < |s| ==> s[i] != '\n'
    ensures Split(s + "\n") == [s, ""]
  {
    if s == [] {
      assert s + "\n" == "\n" && "\n"[1..] == "" && Split("") == [""];
    } else {
      SplitTerminated(s[1..]);
      assert (s + "\n")[1..] == s[1..] + "\n" && (s + "\n")[0] == s[0];
      assert [s[0]] + s[1..] == s;
    }
  }

  lemma ExitHandlesRest<S, J, E>(st: Stream<S, E>, p: Protocol<S, J, E>)
    requires !Trips(st, "\n") && forall i :: 0 <= i < |st.buffer| ==> st.buffer[i] != '\n'
    ensures Exit(st, p).(buffer := "") == HandleLine(st, st.buffer, p).(buffer := "")
  {
    if Trim(st.buffer) != "" {
      SplitTerminated(st.buffer);
      var text := st.buffer + "\n";
      assert text + "" == text && Front([st.buffer, ""]) == [st.buffer] && [st.buffer][..0] == [];
      BufferAside(st, [st.buffer], p, "");
      assert st.(buffer := text).(buffer := "") == st.(buffer := "");
      assert HandleLines(st, [st.buffer], p) == HandleLine(st, st.buffer, p);
    }
  }

  /** However the output is cut into pieces, what is broadcast -- the unterminated last line included -- is what the
      whole output, split once, would have produced. */
  lemma ChunkingIsInvisible<S, J, E>(st: Stream<S, E>, pieces: seq<string>, p: Protocol<S, J, E>)
    requires st.buffer == "" && NeverTrips(st, pieces, p)
    ensures Exit(FeedAll(st, pieces, p), p).(buffer := "") == HandleLines(st, Split(Joined(pieces)), p)
  {
    FeedAllIsSplit(st, pieces, p);
    ExitProgress(st, Joined(pieces), p);
  }

  lemma ExitProgress<S, J, E>(st: Stream<S, E>, text: string, p: Protocol<S, J, E>)
    requires st.buffer == "" && !Trips(Progress(st, text, p), "\n")
    ensures Exit(Progress(st, text, p), p).(buffer := "") == HandleLines(st, Split(text), p)
  {
    var parts := Split(text);
    NoNewlineInLast(text);
    var mid := HandleLines(st, Front(parts), p);
    ExitHandlesRest(Progress(st, text, p), p);
    assert parts[..|parts| - 1] == Front(parts);
    BufferAside(st, Front(parts), p, "");
    LineAside(mid, Last(parts), p, Last(parts));
  }

  lemma LineAside<S, J, E>(st: Stream<S, E>, line: string, p: Protocol<S, J, E>, buffer: string)
    ensures HandleLine(st.(buffer := buffer), line, p) == HandleLine(st, line, p).(buffer := buffer)
    ensures HandleLine(st, line, p).buffer == st.buffer
  {
  }

  /** So two ways of cutting the same output broadcast the same events. */
  lemma CutsAgree<S, J, E>(st: Stream<S, E>, a: seq<string>, b: seq<string>, p: Protocol<S, J, E>)
    requires st.buffer == "" && NeverTrips(st, a, p) && NeverTrips(st, b, p) && Joined(a) == Joined(b)
    ensures Exit(FeedAll(st, a, p), p).sent == Exit(FeedAll(st, b, p), p).sent
  {
    ChunkingIsInvisible(st, a, p);
    ChunkingIsInvisible(st, b, p);
  }

  /** The flush at exit is lost to the size limit exactly when the unterminated line fills the buffer to the brim. */
  lemma ExitTripsIff<S, J, E>(st: Stream<S, E>, p: Protocol<S, J, E>)
    requires Trim(st.buffer) != ""
    ensures Exit(st, p) == st.(buffer := st.buffer + "\n", sent := st.sent + [Oversize]) <==> |st.buffer| >= STDOUT_OVERSIZE_LIMIT
  {
    var text := st.buffer + "\n";
    assert text + "" == text;
    if |st.buffer| < STDOUT_OVERSIZE_LIMIT {
      BufferAside(st, Front(Split(text)), p, Last(Split(text)));
      assert text[|st.buffer|] == '\n';
      LastIsShorter(text);
    }
  }

  /** A run that loses its last line: output that fills the buffer to the brim without a newline, then the exit. */
  lemma ExitFlushLost<S, J, E>(st: Stream<S, E>, p: Protocol<S, J, E>)
    requires st.buffer == ""
    ensures var line := seq(STDOUT_OVERSIZE_LIMIT, _ => 'x');
      && Trim(line) == line && Split(line) == [line]
      && Exit(FeedAll(st, [line], p), p) == st.(buffer := line + "\n", sent := st.sent + [Oversize])
  {
    var line := seq(STDOUT_OVERSIZE_LIMIT, _ => 'x');
    var whole := [line];
    SplitPlain(line);
    assert whole[..0] == [] && "" + line == line && HandleLines(st.(buffer := line), Front(whole), p) == st.(buffer := line);
    assert FeedAll(st, whole, p) == Feed(FeedAll(st, [], p), line, p);
    ExitTripsIff(st.(buffer := line), p);
  }

  lemma {:induction false} SplitPlain(s: string)
    requires '\n' !in s
    ensures Split(s) == [s]
  {
    if s != [] {
      SplitPlain(s[1..]);
      assert s[0] in s && [s[0]] + s[1..] == s;
    }
  }

  lemma {:induction false} LastIsShorter(s: string)
    requires exists i :: 0 <= i < |s| && s[i] == '\n'
    ensures |Last(Split(s))| < |s|
  {
    var i :| 0 <= i < |s| && s[i] == '\n';
    if s[0] != '\n' {
      assert s[1..][i - 1] == '\n';
      LastIsShorter(s[1..]);
    } else {
      LastNotLonger(s[1..]);
    }
  }

  lemma {:induction false} LastNotLonger(s: string)
    ensures |Last(Split(s))| <= |s|
  {
    if s != [] { LastNotLonger(s[1..]); }
  }

  // ---------- Server-sent events ----------

  predicate SeparatorAt(s: string, i: int)
  {
    0 <= i && i + 1 < |s| && s[i] == '\n' && s[i + 1] == '\n'
  }

  /** `buffer.indexOf('\n\n')`, or the length of the text when there is none. */
  function Separator(s: string): (i: nat)
    ensures i <= |s| && (i < |s| ==> SeparatorAt(s, i))
    ensures forall j :: j < i ==> !SeparatorAt(s, j)
  {
    if |s| < 2 then |s|
    else if s[0] == '\n' && s[1] == '\n' then 0
    else
      var i := Separator(s[1..]);
      assert forall j :: j > 0 && SeparatorAt(s, j) ==> SeparatorAt(s[1..], j - 1);
      1 + i
  }

  /** The complete frames of a text, and what is left after the last separator. */
  function Frames(s: string): (seq<string>, string)
    decreases |s|
  {
    var i := Separator(s);
    if i == |s| then ([], s)
    else
      var (more, rest) := Frames(s[i + 2..]);
      ([s[..i]] + more, rest)
  }

  /** More text after a separator does not move it. */
  lemma SeparatorStays(x: string, y: string)
    requires Separator(x) < |x|
    ensures Separator(x + y) == Separator(x)
  {
    var (i, k) := (Separator(x), Separator(x + y));
    assert SeparatorAt(x + y, i);
    assert k <= i;
    assert SeparatorAt(x, k);
  }

  lemma FramesStep(s: string, i: nat, after: string)
    requires i == Separator(s) < |s| && after == s[i + 2..]
    ensures Frames(s) == ([s[..i]] + Frames(after).0, Frames(after).1)
  {
  }

  lemma FramesNone(s: string)
    requires Separator(s) == |s|
    ensures Frames(s) == ([], s)
  {
  }

  /** What feeding `y` after `x` must produce. */
  function Continued(head: (seq<string>, string), tail: (seq<string>, string)): (seq<string>, string)
  {
    (head.0 + tail.0, tail.1)
  }

  lemma ContinuedStep(frame: string, head: (seq<string>, string), tail: (seq<string>, string))
    ensures Continued(([frame] + head.0, head.1), tail) == ([frame] + Continued(head, tail).0, Continued(head, tail).1)
  {
    assert ([frame] + head.0) + tail.0 == [frame] + (head.0 + tail.0);
  }

  lemma ContinuedNone(s: string, tail: (seq<string>, string))
    ensures Continued(([], s), tail) == tail
  {
    assert [] + tail.0 == tail.0;
  }

  /** A separator may straddle two pieces; the frames are the same as if the text had come at once. */
  lemma {:induction false} FramesJoin(x: string, y: string)
    ensures Frames(x + y) == Continued(Frames(x), Frames(Frames(x).1 + y))
    decreases |x|
  {
    var i := Separator(x);
    if i < |x| {
      var after := x[i + 2..];
      SeparatorStays(x, y);
      assert (x + y)[i + 2..] == after + y && (x + y)[..i] == x[..i];
      FramesStep(x, i, after);
      FramesStep(x + y, i, after + y);
      FramesJoin(after, y);
      ContinuedStep(x[..i], Frames(after), Frames(Frames(after).1 + y));
    } else {
      FramesNone(x);
      ContinuedNone(x, Frames(x + y));
    }
  }

  /** The text that a list of frames and a remainder stand for. */
  function Unframed(frames: seq<string>, rest: string): string
  {
    if frames == [] then rest else frames[0] + "\n\n" + Unframed(frames[1..], rest)
  }

  /** Framing loses nothing, and neither a frame nor the remainder hides a separator. */
  lemma {:induction false} FramesRoundTrip(s: string)
    ensures Unframed(Frames(s).0, Frames(s).1) == s
    ensures forall j :: !SeparatorAt(Frames(s).1, j)
    ensures forall k, j :: 0 <= k < |Frames(s).0| ==> !SeparatorAt(Frames(s).0[k], j)
    decreases |s|
  {
    var i := Separator(s);
    if i < |s| {
      var (frame, after) := (s[..i], s[i + 2..]);
      FramesStep(s, i, after);
      FramesRoundTrip(after);
      assert frame + "\n\n" + after == s;
      assert forall j :: SeparatorAt(frame, j) ==> j < i && SeparatorAt(s, j);
      var all := Frames(s).0;
      assert all == [frame] + Frames(after).0 && all[0] == frame && all[1..] == Frames(after).0;
      forall k, j | 0 <= k < |all| ensures !SeparatorAt(all[k], j) {
        if k > 0 { assert all[k] == Frames(after).0[k - 1]; }
      }
    } else {
      FramesNone(s);
    }
  }

  /** The reader's state: what is buffered and the frames handed on so far; `failed` once the buffer limit was hit. */
  datatype Reader = Reader(buffer: string, frames: seq<string>, failed: bool)

  function Receive(r: Reader, piece: string): Reader
  {
    if r.failed then r
    else
      var text := r.buffer + piece;
      if |text| > MAX_SSE_BUFFER_CHARS then r.(buffer := text, failed := true)
      else var (fs, rest) := Frames(text); Reader(rest, r.frames + fs, false)
  }

  function ReceiveAll(pieces: seq<string>): Reader
  {
    if pieces == [] then Reader("", [], false) else Receive(ReceiveAll(pieces[..|pieces| - 1]), pieces[|pieces| - 1])
  }

  class SseReader {
    var buffer: string
    var frames: seq<string>
    var failed: bool

    function Value(): Reader
      reads this
    {
      Reader(buffer, frames, failed)
    }

    constructor ()
      ensures Value() == Reader("", [], false)
    {
      buffer, frames, failed := "", [], false;
    }

    /** One `reader.read()`: append, then hand on every complete frame. */
    method Read(piece: string)
      modifies this
      ensures Value() == Receive(old(Value()), piece)
    {
      if failed { return; }
      buffer := buffer + piece;
      if |buffer| > MAX_SSE_BUFFER_CHARS {
        failed := true;
        return;
      }
      HandOn();
    }

    method HandOn()
      modifies this`buffer, this`frames
      ensures buffer == Frames(old(buffer)).1 && frames == old(frames) + Frames(old(buffer)).0
    {
      var at := Separator(buffer);
      while at < |buffer|
        invariant at == Separator(buffer)
        invariant old(frames) + Frames(old(buffer)).0 == frames + Frames(buffer).0
        invariant Frames(old(buffer)).1 == Frames(buffer).1
        decreases |buffer|
      {
        frames, buffer := frames + [buffer[..at]], buffer[at + 2..];
        at := Separator(buffer);
      }
    }
  }

  /** Unless the buffer limit is hit, the frames handed on are those of the whole text, however it was cut. */
  lemma {:induction false} FramesAreWhole(pieces: seq<string>)
    ensures !ReceiveAll(pieces).failed ==>
      ReceiveAll(pieces) == Reader(Frames(Joined(pieces)).1, Frames(Joined(pieces)).0, false)
  {
    if pieces == [] {
      assert Frames("") == ([], "");
    } else {
      var (front, piece) := (pieces[..|pieces| - 1], pieces[|pieces| - 1]);
      FramesAreWhole(front);
      FramesJoin(Joined(front), piece);
    }
  }
}
