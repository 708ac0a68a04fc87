/**
 * Server-sent event framing, and an independent reading of event streams as sections 9.2.5
 * (parsing) and 9.2.6 (interpreting) of the WHATWG HTML Living Standard prescribe it.
 */
module SseFraming {

  datatype Event = Event(event: string, data: string)

  // ----- writing -----

  /** Python's `data.split("\n")`, with `acc` the line being read. */
  function Split(acc: string, s: string): (r: seq<string>)
    ensures r != []
    decreases s
  {
    if s == "" then [acc]
    else if s[0] == '\n' then [acc] + Split("", s[1..])
    else Split(acc + [s[0]], s[1..])
  }

  function DataLines(lines: seq<string>): string {
    if lines == [] then "" else "data: " + lines[0] + "\n" + DataLines(lines[1..])
  }

  function Format(e: Event): string {
    "event: " + e.event + "\n" + DataLines(Split("", e.data)) + "\n"
  }

  function FormatAll(es: seq<Event>): string {
    if es == [] then "" else Format(es[0]) + FormatAll(es[1..])
  }

  method FormatSseEvent(event: string, data: string) returns (formatted: string)
    ensures formatted == Format(Event(event, data))
  {
    var lines := Split("", data);
    formatted := "event: " + event + "\n";
    var i := 0;
    while i < |lines|
      invariant 0 <= i <= |lines|
      invariant formatted + DataLines(lines[i..]) == "event: " + event + "\n" + DataLines(lines)
    {
      assert lines[i..][0] == lines[i] && lines[i..][1..] == lines[i + 1..];
      assert formatted + DataLines(lines[i..])
          == formatted + ("data: " + lines[i] + "\n") + DataLines(lines[i + 1..]);
      formatted := formatted + ("data: " + lines[i] + "\n");
      i := i + 1;
    }
    assert lines[i..] == [];
    formatted := formatted + "\n";
  }

  // ----- reading -----

  /** The terminated lines of a stream; CRLF, LF and CR each end one, and an unterminated rest is
      no line. */
  function Lines(acc: string, s: string): seq<string>
    decreases |s|
  {
    if s == "" then []
    else if s[0] == '\n' then [acc] + Lines("", s[1..])
    else if s[0] == '\r' then [acc] + Lines("", if |s| > 1 && s[1] == '\n' then s[2..] else s[1..])
    else Lines(acc + [s[0]], s[1..])
  }

  const BOM := '\U{FEFF}'

  function StripBom(s: string): string {
    if s != "" && s[0] == BOM then s[1..] else s
  }

  /** The event type buffer and the data buffer. */
  datatype Buffers = Buffers(event: string, data: string)

  function Colon(line: string): (i: nat)
    ensures i <= |line| && (i < |line| ==> line[i] == ':') && forall k :: 0 <= k < i ==> line[k] != ':'
  {
    if line == "" || line[0] == ':' then 0 else 1 + Colon(line[1..])
  }

  function FieldName(line: string): string {
    line[..Colon(line)]
  }

  function FieldValue(line: string): string {
    if Colon(line) == |line| then ""
    else
      var v := line[Colon(line) + 1..];
      if v != "" && v[0] == ' ' then v[1..] else v
  }

  /** Comments and the fields that touch neither buffer, `id` and `retry` among them, change nothing here. */
  function ProcessField(b: Buffers, line: string): Buffers {
    if FieldName(line) == "event" then b.(event := FieldValue(line))
    else if FieldName(line) == "data" then b.(data := b.data + FieldValue(line) + "\n")
    else b
  }

  /** A blank line dispatches: nothing if the data buffer is empty, else an event whose data loses
      one trailing newline and whose type defaults to "message". */
  function Dispatch(b: Buffers): seq<Event> {
    if b.data == "" then []
    else
      var data := if b.data[|b.data| - 1] == '\n' then b.data[..|b.data| - 1] else b.data;
      [Event(if b.event == "" then "message" else b.event, data)]
  }

  function Interpret(b: Buffers, lines: seq<string>): seq<Event>
    decreases |lines|
  {
    if lines == [] then []
    else if lines[0] == "" then Dispatch(b) + Interpret(Buffers("", ""), lines[1..])
    else Interpret(ProcessField(b, lines[0]), lines[1..])
  }

  function Parse(stream: string): seq<Event> {
    Interpret(Buffers("", ""), Lines("", StripBom(stream)))
  }

  // ----- the round trip -----

  predicate NoBreak(s: string) {
    forall i :: 0 <= i < |s| ==> s[i] != '\n' && s[i] != '\r'
  }

  predicate NoCr(s: string) {
    forall i :: 0 <= i < |s| ==> s[i] != '\r'
  }

  predicate Framable(e: Event) {
    e.event != "" && NoBreak(e.event) && NoCr(e.data)
  }

  lemma {:induction false} LineRead(acc: string, x: string, rest: string)
    requires NoBreak(x)
    ensures Lines(acc, x + "\n" + rest) == [acc + x] + Lines("", rest)
    decreases |x|
  {
    var s := x + "\n" + rest;
    if x == "" {
      assert s == "\n" + rest && s[1..] == rest && acc + x == acc;
    } else {
      LineRead(acc + [x[0]], x[1..], rest);
      assert s[1..] == x[1..] + "\n" + rest;
      assert acc + [x[0]] + x[1..] == acc + x;
    }
  }

  function Prefixed(lines: seq<string>): seq<string> {
    if lines == [] then [] else ["data: " + lines[0]] + Prefixed(lines[1..])
  }

  predicate AllUnbroken(lines: seq<string>) {
    forall i :: 0 <= i < |lines| ==> NoBreak(lines[i])
  }

  lemma DataLinesStep(lines: seq<string>, rest: string)
    requires lines != []
    ensures DataLines(lines) + rest == "data: " + lines[0] + "\n" + (DataLines(lines[1..]) + rest)
  {}

  lemma Assoc<T>(a: seq<T>, b: seq<T>, c: seq<T>)
    ensures (a + b) + c == a + (b + c)
  {}

  lemma DataLineRead(x: string, rest: string)
    requires NoBreak(x)
    ensures Lines("", "data: " + x + "\n" + rest) == ["data: " + x] + Lines("", rest)
  {
    LineRead("", "data: " + x, rest);
    assert "" + ("data: " + x) == "data: " + x;
  }

  lemma {:induction false} DataLinesRead(lines: seq<string>, rest: string)
    requires AllUnbroken(lines)
    ensures Lines("", DataLines(lines) + rest) == Prefixed(lines) + Lines("", rest)
    decreases |lines|
  {
    if lines == [] {
      assert DataLines(lines) + rest == rest;
    } else {
      var line := "data: " + lines[0];
      assert Prefixed(lines) == [line] + Prefixed(lines[1..]);
      DataLinesStep(lines, rest);
      hide Lines, DataLines, NoBreak, Prefixed;
      calc {
        Lines("", DataLines(lines) + rest);
        { DataLineRead(lines[0], DataLines(lines[1..]) + rest); }
        [line] + Lines("", DataLines(lines[1..]) + rest);
        { DataLinesRead(lines[1..], rest); }
        [line] + (Prefixed(lines[1..]) + Lines("", rest));
        { Assoc([line], Prefixed(lines[1..]), Lines("", rest)); }
        Prefixed(lines) + Lines("", rest);
      }
    }
  }

  lemma {:induction false} SplitUnbroken(acc: string, s: string)
    requires NoBreak(acc) && NoCr(s)
    ensures AllUnbroken(Split(acc, s))
    decreases s
  {
    if s != "" {
      if s[0] == '\n' {
        SplitUnbroken("", s[1..]);
      } else {
        SplitUnbroken(acc + [s[0]], s[1..]);
      }
    }
  }

  /** What the data lines leave in the data buffer. */
  function Joined(lines: seq<string>): string {
    if lines == [] then "" else lines[0] + "\n" + Joined(lines[1..])
  }

  lemma {:induction false} SplitJoined(acc: string, s: string)
    ensures Joined(Split(acc, s)) == acc + s + "\n"
    decreases s
  {
    if s == "" {
      assert Split(acc, s)[1..] == [];
    } else if s[0] == '\n' {
      SplitJoined("", s[1..]);
      assert Split(acc, s)[1..] == Split("", s[1..]);
      assert s == "\n" + s[1..];
    } else {
      SplitJoined(acc + [s[0]], s[1..]);
      assert acc + [s[0]] + s[1..] == acc + s;
    }
  }

  lemma FieldRead(name: string, x: string)
    requires forall k :: 0 <= k < |name| ==> name[k] != ':'
    ensures var line := name + ": " + x;
            FieldName(line) == name && FieldValue(line) == x
  {
    var line := name + ": " + x;
    var c := Colon(line);
    assert line[|name|] == ':';
    assert c == |name|;
    assert line[..c] == name && line[c + 1..] == " " + x;
  }

  lemma InterpretLine(b: Buffers, line: string, rest: seq<string>)
    requires line != ""
    ensures Interpret(b, [line] + rest) == Interpret(ProcessField(b, line), rest)
  {}

  lemma JoinedStep(b: Buffers, lines: seq<string>)
    requires lines != []
    ensures b.(data := b.data + lines[0] + "\n").data + Joined(lines[1..]) == b.data + Joined(lines)
  {}

  lemma PrefixedStep(lines: seq<string>, rest: seq<string>)
    ensures lines == [] ==> Prefixed(lines) + rest == rest
    ensures lines != [] ==> Prefixed(lines) + rest == ["data: " + lines[0]] + (Prefixed(lines[1..]) + rest)
  {}

  lemma {:induction false} DataInterpreted(b: Buffers, lines: seq<string>, rest: seq<string>)
    ensures Interpret(b, Prefixed(lines) + rest) == Interpret(b.(data := b.data + Joined(lines)), rest)
    decreases |lines|
  {
    PrefixedStep(lines, rest);
    if lines == [] {
      assert b.data + Joined(lines) == b.data;
    } else {
      var b' := b.(data := b.data + lines[0] + "\n");
      InterpretLine(b, "data: " + lines[0], Prefixed(lines[1..]) + rest);
      DataLineProcessed(b, lines[0]);
      DataInterpreted(b', lines[1..], rest);
      JoinedStep(b, lines);
    }
  }

  lemma DataLineProcessed(b: Buffers, x: string)
    ensures ProcessField(b, "data: " + x) == b.(data := b.data + x + "\n")
  {
    FieldRead("data", x);
    assert "data" + ": " + x == "data: " + x;
  }

  /** The lines of one framed event and what follows it. */
  lemma EventLines(e: Event, rest: string)
    requires Framable(e)
    ensures Lines("", Format(e) + rest)
         == ["event: " + e.event] + (Prefixed(Split("", e.data)) + ([""] + Lines("", rest)))
  {
    var pieces := Split("", e.data);
    var line, afterData := "event: " + e.event, "\n" + rest;
    assert Format(e) + rest == line + "\n" + (DataLines(pieces) + afterData);
    assert NoBreak(line) && NoCr(e.data);
    assert "" + "\n" + rest == afterData && "" + line == line;
    hide *;
    LineRead("", line, DataLines(pieces) + afterData);
    SplitUnbroken("", e.data);
    DataLinesRead(pieces, afterData);
    NothingBroken();
    LineRead("", "", rest);
  }

  lemma NothingBroken()
    ensures NoBreak("")
  {}

  lemma EventLineProcessed(x: string)
    ensures ProcessField(Buffers("", ""), "event: " + x) == Buffers(x, "")
  {
    FieldRead("event", x);
    assert "event" + ": " + x == "event: " + x;
  }

  /** A blank line after an event's data dispatches the event. */
  lemma BlankDispatches(e: Event, rest: seq<string>)
    requires e.event != ""
    ensures Interpret(Buffers(e.event, e.data + "\n"), [""] + rest) == [e] + Interpret(Buffers("", ""), rest)
  {
    assert ([""] + rest)[1..] == rest;
    assert (e.data + "\n")[..|e.data|] == e.data;
  }

  /** Reading one framed event off the front of a stream. */
  lemma EventRead(e: Event, rest: string)
    requires Framable(e)
    ensures Interpret(Buffers("", ""), Lines("", Format(e) + rest))
         == [e] + Interpret(Buffers("", ""), Lines("", rest))
  {
    assert e.event != "";
    hide *;
    var pieces, after := Split("", e.data), [""] + Lines("", rest);
    EventLines(e, rest);
    InterpretLine(Buffers("", ""), "event: " + e.event, Prefixed(pieces) + after);
    EventLineProcessed(e.event);
    DataInterpreted(Buffers(e.event, ""), pieces, after);
    SplitJoined("", e.data);
    assert "" + e.data + "\n" == e.data + "\n" && "" + (e.data + "\n") == e.data + "\n";
    BlankDispatches(e, Lines("", rest));
  }

  lemma {:induction false} AllRead(es: seq<Event>)
    requires forall i :: 0 <= i < |es| ==> Framable(es[i])
    ensures Interpret(Buffers("", ""), Lines("", FormatAll(es))) == es
  {
    if es != [] {
      EventRead(es[0], FormatAll(es[1..]));
      AllRead(es[1..]);
    }
  }

  lemma NoBomAhead(es: seq<Event>)
    ensures StripBom(FormatAll(es)) == FormatAll(es)
  {}

  // ----- and nothing else can be read -----

  lemma {:induction false} LinesUnbroken(acc: string, s: string)
    requires NoBreak(acc)
    ensures AllUnbroken(Lines(acc, s))
    decreases |s|
  {
    if s != "" {
      if s[0] == '\n' {
        LinesUnbroken("", s[1..]);
      } else if s[0] == '\r' {
        LinesUnbroken("", if |s| > 1 && s[1] == '\n' then s[2..] else s[1..]);
      } else {
        LinesUnbroken(acc + [s[0]], s[1..]);
      }
    }
  }

  lemma {:induction false} OnlyFramableRead(b: Buffers, lines: seq<string>)
    requires AllUnbroken(lines) && NoBreak(b.event) && NoCr(b.data)
    ensures forall i :: 0 <= i < |Interpret(b, lines)| ==> Framable(Interpret(b, lines)[i])
    decreases |lines|
  {
    if lines != [] {
      if lines[0] == "" {
        OnlyFramableRead(Buffers("", ""), lines[1..]);
        assert forall i :: 0 <= i < |Dispatch(b)| ==> Framable(Dispatch(b)[i]);
      } else {
        assert NoBreak(FieldValue(lines[0]));
        OnlyFramableRead(ProcessField(b, lines[0]), lines[1..]);
      }
    }
  }

  /** Whatever the stream, a reader only ever sees events that can be framed. */
  lemma ParsedFramable(stream: string)
    ensures forall i :: 0 <= i < |Parse(stream)| ==> Framable(Parse(stream)[i])
  {
    LinesUnbroken("", StripBom(stream));
    OnlyFramableRead(Buffers("", ""), Lines("", StripBom(stream)));
  }

  /**
   * The round trip, with its exact condition: reading a concatenation of formatted events gives
   * back the very same events if and only if every event has a non-empty name without CR or LF
   * and data without CR.
   */
  lemma RoundTripExactly(es: seq<Event>)
    ensures Parse(FormatAll(es)) == es <==> forall i :: 0 <= i < |es| ==> Framable(es[i])
  {
    NoBomAhead(es);
    if forall i :: 0 <= i < |es| ==> Framable(es[i]) {
      AllRead(es);
    }
    ParsedFramable(FormatAll(es));
  }
}

/** One SSE connection: a queue of formatted events, a generator that yields them, and a closed flag. */
module SseSessions {
  import opened SseFraming

  /** Where the generator stands: not started, suspended at a yield, waiting on the queue, finished. */
  datatype Phase = NotStarted | Yielded | Waiting | Finished

  /** What the generator yielded. */
  datatype Chunk = Endpoint | Message(event: Event) | Ping

  datatype Action =
    | Send(event: Event)
    | Pull
    | Deliver
    | Timeout
    | Close

  /** `accepted` are the events taken from senders, `out` everything yielded, `quota` how much had
      been yielded when the session was closed. */
  datatype Session = Session(endpoint: string, queue: seq<Event>, closed: bool, phase: Phase,
                             accepted: seq<Event>, out: seq<Chunk>, quota: nat)

  function Initial(endpoint: string): Session {
    Session(endpoint, [], false, NotStarted, [], [], 0)
  }

  function Step(s: Session, a: Action): Session {
    match a
    case Send(e) => if s.closed then s else s.(queue := s.queue + [e], accepted := s.accepted + [e])
    case Pull =>
      if s.phase == NotStarted then s.(phase := Yielded, out := s.out + [Endpoint])
      else if s.phase == Yielded then s.(phase := if s.closed then Finished else Waiting)
      else s
    case Deliver =>
      if s.phase == Waiting && s.queue != [] then
        s.(phase := Yielded, queue := s.queue[1..], out := s.out + [Message(s.queue[0])])
      else s
    case Timeout => if s.phase == Waiting then s.(phase := Yielded, out := s.out + [Ping]) else s
    case Close => if s.closed then s else s.(closed := true, quota := |s.out|)
  }

  function Run(endpoint: string, actions: seq<Action>): Session {
    if actions == [] then Initial(endpoint)
    else Step(Run(endpoint, actions[..|actions| - 1]), actions[|actions| - 1])
  }

  function Messages(out: seq<Chunk>): seq<Event> {
    if out == [] then [] else
    var before := Messages(out[..|out| - 1]);
    if out[|out| - 1].Message? then before + [out[|out| - 1].event] else before
  }

  function Framed(endpoint: string, c: Chunk): Event {
    match c
    case Endpoint => Event("endpoint", endpoint)
    case Message(e) => e
    case Ping => Event("ping", "keepalive")
  }

  function FramedAll(endpoint: string, out: seq<Chunk>): (r: seq<Event>)
    ensures |r| == |out| && forall i :: 0 <= i < |out| ==> r[i] == Framed(endpoint, out[i])
  {
    if out == [] then [] else FramedAll(endpoint, out[..|out| - 1]) + [Framed(endpoint, out[|out| - 1])]
  }

  ghost predicate Inv(s: Session) {
    && Conserved(s)
    && (s.phase == NotStarted <==> s.out == [])
    && (s.out != [] ==> s.out[0] == Endpoint)
    && (forall i :: 0 < i < |s.out| ==> s.out[i] != Endpoint)
    && (s.closed ==> s.quota <= |s.out| <= s.quota + 1)
    && (s.closed && (s.phase == NotStarted || s.phase == Waiting) ==> |s.out| == s.quota)
  }

  /** Every accepted event is either yielded or queued, in order. */
  ghost predicate Conserved(s: Session) {
    Messages(s.out) + s.queue == s.accepted
  }

  lemma StepConserves(s: Session, a: Action)
    requires Conserved(s)
    ensures Conserved(Step(s, a))
  {}

  lemma StepKeepsInv(s: Session, a: Action)
    requires Inv(s)
    ensures Inv(Step(s, a))
    ensures s.closed ==> Step(s, a).accepted == s.accepted
  {
    StepConserves(s, a);
    hide Conserved;
  }

  /**
   * Over every run: what was yielded is the endpoint followed by the accepted events, in order,
   * none lost or repeated, with pings in between; the rest is still queued; and after closing
   * at most one more chunk is yielded.
   */
  lemma {:induction false} RunKeepsInv(endpoint: string, actions: seq<Action>)
    ensures Inv(Run(endpoint, actions)) && Run(endpoint, actions).endpoint == endpoint
  {
    if actions != [] {
      RunKeepsInv(endpoint, actions[..|actions| - 1]);
      StepKeepsInv(Run(endpoint, actions[..|actions| - 1]), actions[|actions| - 1]);
    }
  }

  // ----- the same from the actions alone -----

  predicate ClosedBy(actions: seq<Action>) {
    exists i :: 0 <= i < |actions| && actions[i] == Close
  }

  /** What was sent before the session was closed. */
  function SentInTime(actions: seq<Action>): seq<Event> {
    if actions == [] then [] else
    var before, a := actions[..|actions| - 1], actions[|actions| - 1];
    if a.Send? && !ClosedBy(before) then SentInTime(before) + [a.event] else SentInTime(before)
  }

  /** The action makes the generator, waiting, yield the head of the queue, or a keepalive. */
  predicate Delivers(endpoint: string, actions: seq<Action>, i: nat)
    requires i < |actions|
  {
    actions[i] == Deliver && Run(endpoint, actions[..i]).phase == Waiting && Run(endpoint, actions[..i]).queue != []
  }

  predicate Keeps(endpoint: string, actions: seq<Action>, i: nat)
    requires i < |actions|
  {
    actions[i] == Timeout && Run(endpoint, actions[..i]).phase == Waiting
  }

  function Deliveries(endpoint: string, actions: seq<Action>): nat {
    if actions == [] then 0 else
    Deliveries(endpoint, actions[..|actions| - 1]) + if Delivers(endpoint, actions, |actions| - 1) then 1 else 0
  }

  function Keepalives(endpoint: string, actions: seq<Action>): nat {
    if actions == [] then 0 else
    Keepalives(endpoint, actions[..|actions| - 1]) + if Keeps(endpoint, actions, |actions| - 1) then 1 else 0
  }

  /** Where the generator stands: it starts at the first pull, goes on waiting at a pull while the session
      is open, and is back at a yield after each delivery or keepalive. */
  function PhaseAfter(endpoint: string, actions: seq<Action>): Phase {
    if actions == [] then NotStarted else
    var before := actions[..|actions| - 1];
    var phase := PhaseAfter(endpoint, before);
    if Delivers(endpoint, actions, |actions| - 1) || Keeps(endpoint, actions, |actions| - 1) then Yielded
    else if actions[|actions| - 1] != Pull then phase
    else if phase == NotStarted then Yielded
    else if phase == Yielded then (if ClosedBy(before) then Finished else Waiting)
    else phase
  }

  lemma ClosedNext(actions: seq<Action>, a: Action)
    ensures ClosedBy(actions + [a]) <==> ClosedBy(actions) || a == Close
  {
    var all := actions + [a];
    if i :| 0 <= i < |actions| && actions[i] == Close {
      assert all[i] == Close;
    }
    if a == Close {
      assert all[|actions|] == Close;
    }
  }

  /**
   * Over every run: every event sent before closing is accepted and none after; each delivery yields
   * one message and each wait that times out one keepalive; and the generator stands where the
   * actions put it.
   */
  lemma {:induction false} RunFollowsActions(endpoint: string, actions: seq<Action>)
    ensures var s := Run(endpoint, actions);
      && s.accepted == SentInTime(actions) && (s.closed <==> ClosedBy(actions))
      && s.phase == PhaseAfter(endpoint, actions)
      && |Messages(s.out)| == Deliveries(endpoint, actions)
      && |s.out| == Deliveries(endpoint, actions) + Keepalives(endpoint, actions)
                    + (if s.phase == NotStarted then 0 else 1)
  {
    if actions != [] {
      var before, a := actions[..|actions| - 1], actions[|actions| - 1];
      RunFollowsActions(endpoint, before);
      ClosedNext(before, a);
      assert before + [a] == actions;
      hide ClosedBy;
    }
  }

  predicate IsNotice(endpoint: string, e: Event) {
    e == Event("endpoint", endpoint) || e == Event("ping", "keepalive")
  }

  /** What a client keeps when it drops the endpoint notice and the pings. */
  function Kept(endpoint: string, es: seq<Event>): seq<Event> {
    if es == [] then [] else
    var before := Kept(endpoint, es[..|es| - 1]);
    if IsNotice(endpoint, es[|es| - 1]) then before else before + [es[|es| - 1]]
  }

  lemma {:induction false} KeptMessages(endpoint: string, out: seq<Chunk>)
    requires forall i :: 0 <= i < |out| && out[i].Message? ==> !IsNotice(endpoint, out[i].event)
    ensures Kept(endpoint, FramedAll(endpoint, out)) == Messages(out)
  {
    if out != [] {
      KeptMessages(endpoint, out[..|out| - 1]);
      var all := FramedAll(endpoint, out);
      assert all[..|all| - 1] == FramedAll(endpoint, out[..|out| - 1]);
    }
  }

  lemma {:induction false} MessageIn(out: seq<Chunk>, i: nat)
    requires i < |out| && out[i].Message?
    ensures out[i].event in Messages(out)
  {
    if i < |out| - 1 {
      MessageIn(out[..|out| - 1], i);
    }
  }

  lemma ChunkFramable(endpoint: string, c: Chunk)
    requires NoCr(endpoint) && (c.Message? ==> Framable(c.event))
    ensures Framable(Framed(endpoint, c))
  {}

  lemma MessagesReceived(endpoint: string, out: seq<Chunk>)
    requires NoCr(endpoint)
    requires forall e :: e in Messages(out) ==> Framable(e) && !IsNotice(endpoint, e)
    ensures Kept(endpoint, Parse(FormatAll(FramedAll(endpoint, out)))) == Messages(out)
  {
    hide *;
    forall i | 0 <= i < |out| && out[i].Message? ensures out[i].event in Messages(out) {
      MessageIn(out, i);
    }
    KeptMessages(endpoint, out);
    var es := FramedAll(endpoint, out);
    forall i | 0 <= i < |es| ensures Framable(es[i]) {
      ChunkFramable(endpoint, out[i]);
    }
    RoundTripExactly(es);
  }

  /**
   * End to end: a client that parses the bytes of any run, and drops the endpoint notice and the
   * pings, has received a prefix of the accepted events; the remainder is exactly the queue.
   */
  lemma ClientReceivesPrefix(endpoint: string, actions: seq<Action>)
    requires NoCr(endpoint)
    requires forall e :: e in Run(endpoint, actions).accepted ==> Framable(e) && !IsNotice(endpoint, e)
    ensures var s := Run(endpoint, actions);
            Kept(endpoint, Parse(FormatAll(FramedAll(endpoint, s.out)))) + s.queue == s.accepted
  {
    var s := Run(endpoint, actions);
    RunKeepsInv(endpoint, actions);
    assert Messages(s.out) + s.queue == s.accepted;
    hide *;
    forall e | e in Messages(s.out) ensures e in s.accepted {}
    MessagesReceived(endpoint, s.out);
  }

  class SseSession {
    const endpoint: string
    var queue: seq<string>
    var closed: bool
    ghost var pending: seq<Event>
    ghost var phase: Phase
    ghost var accepted: seq<Event>
    ghost var out: seq<Chunk>
    ghost var quota: nat

    ghost function View(): Session
      reads this
    {
      Session(endpoint, pending, closed, phase, accepted, out, quota)
    }

    ghost predicate Valid()
      reads this
    {
      && Inv(View()) && |queue| == |pending|
      && forall i :: 0 <= i < |queue| ==> queue[i] == Format(pending[i])
    }

    constructor (endpoint: string)
      ensures Valid() && View() == Initial(endpoint)
    {
      this.endpoint := endpoint;
      queue, closed := [], false;
      pending, phase, accepted, out, quota := [], NotStarted, [], [], 0;
    }

    method SendEvent(event: string, data: string)
      requires Valid()
      modifies this
      ensures Valid() && View() == Step(old(View()), Send(Event(event, data)))
    {
      StepKeepsInv(View(), Send(Event(event, data)));
      if !closed {
        var formatted := FormatSseEvent(event, data);
        queue := queue + [formatted];
        pending, accepted := pending + [Event(event, data)], accepted + [Event(event, data)];
      }
    }

    /** The generator's first step. */
    method Start() returns (chunk: string)
      requires Valid() && phase == NotStarted
      modifies this
      ensures Valid() && View() == Step(old(View()), Pull)
      ensures chunk == Format(Framed(endpoint, out[|out| - 1]))
    {
      StepKeepsInv(View(), Pull);
      hide Inv, Format;
      chunk := FormatSseEvent("endpoint", endpoint);
      phase, out := Yielded, out + [Endpoint];
    }

    /** The loop test: the generator ends if the session has been closed. */
    method Resume() returns (more: bool)
      requires Valid() && phase == Yielded
      modifies this
      ensures Valid() && View() == Step(old(View()), Pull)
      ensures more == !closed
    {
      StepKeepsInv(View(), Pull);
      more := !closed;
      phase := if closed then Finished else Waiting;
    }

    /** The wait ends with the head of the queue, or with a keepalive when it times out. */
    method Await(timedOut: bool) returns (chunk: string)
      requires Valid() && phase == Waiting && (!timedOut ==> queue != [])
      modifies this
      ensures Valid() && View() == Step(old(View()), if timedOut then Timeout else Deliver)
      ensures out == old(out) + [out[|out| - 1]] && chunk == Format(Framed(endpoint, out[|out| - 1]))
    {
      StepKeepsInv(View(), if timedOut then Timeout else Deliver);
      hide Inv;
      if timedOut {
        chunk := FormatSseEvent("ping", "keepalive");
        phase, out := Yielded, out + [Ping];
      } else {
        chunk := queue[0];
        queue := queue[1..];
        phase, out, pending := Yielded, out + [Message(pending[0])], pending[1..];
      }
    }

    method CloseSession()
      requires Valid()
      modifies this
      ensures Valid() && View() == Step(old(View()), Close)
    {
      StepKeepsInv(View(), Close);
      if !closed {
        quota := |out|;
      }
      closed := true;
    }
  }
}
