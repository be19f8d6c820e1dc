/**
 The Timeout middleware: the handler writes into a buffer while the request
 goroutine waits for it or for the deadline. Whichever it sees first decides
 what reaches the real writer.
 */
module Timeout {

  type Header = map<string, seq<string>>
  type Bytes = seq<int>

  /** The buffering writer. */
  datatype Buffer = Buffer(header: Header, body: Bytes, status: int, wroteHeader: bool, timedOut: bool)

  /** What the client has been sent: nothing yet, or one status, its headers and a body. */
  datatype Response = Nothing | Sent(status: int, header: Header, body: Bytes)

  datatype Phase = Waiting | Flushed | TimedOut

  datatype State = State(buffer: Buffer, returned: bool, phase: Phase, sent: Response)

  /** The handler's calls and its return; the two branches of the select. */
  datatype Step =
    | SetHeader(key: string, values: seq<string>)
    | WriteHeader(code: int)
    | Write(bytes: Bytes)
    | Return
    | Deliver
    | Deadline

  const OK := 200
  const UNAVAILABLE := 503
  const JSON := "application/json; charset=utf-8"

  /** The bytes of a text of one-byte characters. */
  function Ascii(text: string): Bytes
  {
    seq(|text|, i requires 0 <= i < |text| => text[i] as int)
  }

  const TIMEOUT_BODY: Bytes := Ascii("{\"error\":\"request timeout\"}")

  function Fresh(): State
  {
    State(Buffer(map[], [], OK, false, false), false, Waiting, Nothing)
  }

  function OnWriteHeader(b: Buffer, code: int): Buffer
  {
    if b.timedOut || b.wroteHeader then b else b.(status := code, wroteHeader := true)
  }

  function OnWrite(b: Buffer, bytes: Bytes): Buffer
  {
    if b.timedOut then b
    else if b.wroteHeader then b.(body := b.body + bytes)
    else b.(status := OK, wroteHeader := true, body := b.body + bytes)
  }

  /** Replay the buffer to the real writer, whose headers so far are base. */
  function Flush(b: Buffer, base: Header): Response
  {
    if b.wroteHeader then Sent(b.status, base + b.header, b.body) else Nothing
  }

  function Unavailable(base: Header): Response
  {
    Sent(UNAVAILABLE, base["Content-Type" := [JSON]], TIMEOUT_BODY)
  }

  /** A timed-out handler may still be running; a returned one makes no more calls. */
  predicate Enabled(s: State, step: Step)
  {
    match step
    case Deliver => s.phase == Waiting && s.returned
    case Deadline => s.phase == Waiting
    case _ => !s.returned
  }

  function Next(s: State, base: Header, step: Step): State
    requires Enabled(s, step)
  {
    match step
    case SetHeader(key, values) => s.(buffer := s.buffer.(header := s.buffer.header[key := values]))
    case WriteHeader(code) => s.(buffer := OnWriteHeader(s.buffer, code))
    case Write(bytes) => s.(buffer := OnWrite(s.buffer, bytes))
    case Return => s.(returned := true)
    case Deliver => s.(phase := Flushed, sent := Flush(s.buffer, base))
    case Deadline => s.(phase := TimedOut, buffer := s.buffer.(timedOut := true), sent := Unavailable(base))
  }

  ghost predicate IsRun(base: Header, s: State, steps: seq<Step>)
    decreases |steps|
  {
    steps == [] || (Enabled(s, steps[0]) && IsRun(base, Next(s, base, steps[0]), steps[1..]))
  }

  ghost function Run(base: Header, s: State, steps: seq<Step>): State
    requires IsRun(base, s, steps)
    decreases |steps|
  {
    if steps == [] then s else Run(base, Next(s, base, steps[0]), steps[1..])
  }

  // ------------------------------------------- what the handler asked for

  /** The response a handler means to give, read off its calls alone. */
  ghost predicate Answers(calls: seq<Step>)
  {
    exists i :: 0 <= i < |calls| && (calls[i].WriteHeader? || calls[i].Write?)
  }

  /** The code of the first WriteHeader, or 200 if a Write comes before any. */
  ghost function FirstStatus(calls: seq<Step>): int
  {
    if calls == [] then OK
    else match calls[0]
      case WriteHeader(code) => code
      case Write(_) => OK
      case _ => FirstStatus(calls[1..])
  }

  ghost function AllBytes(calls: seq<Step>): Bytes
  {
    if calls == [] then []
    else (if calls[0].Write? then calls[0].bytes else []) + AllBytes(calls[1..])
  }

  ghost function Headers(calls: seq<Step>): Header
  {
    if calls == [] then map[]
    else if calls[0].SetHeader? then map[calls[0].key := calls[0].values] + Headers(calls[1..])
    else Headers(calls[1..])
  }

  ghost function Meant(calls: seq<Step>, base: Header): Response
  {
    if Answers(calls) then Sent(FirstStatus(calls), base + Headers(calls), AllBytes(calls)) else Nothing
  }

  // --------------------------------------------------------------- proof

  lemma AnswersSnoc(calls: seq<Step>, c: Step)
    ensures Answers(calls + [c]) <==> Answers(calls) || c.WriteHeader? || c.Write?
  {
    var all := calls + [c];
    assert all[|calls|] == c;
    if Answers(calls) {
      var i :| 0 <= i < |calls| && (calls[i].WriteHeader? || calls[i].Write?);
      assert all[i] == calls[i];
    }
  }

  lemma {:induction false} StatusSnoc(calls: seq<Step>, c: Step)
    ensures FirstStatus(calls + [c]) ==
      if Answers(calls) then FirstStatus(calls) else if c.WriteHeader? then c.code else OK
  {
    if calls != [] {
      assert (calls + [c])[1..] == calls[1..] + [c];
      StatusSnoc(calls[1..], c);
      assert calls == [calls[0]] + calls[1..];
      if Answers(calls[1..]) {
        var i :| 0 <= i < |calls[1..]| && (calls[1..][i].WriteHeader? || calls[1..][i].Write?);
        assert calls[i + 1] == calls[1..][i];
      }
    }
  }

  lemma {:induction false} BytesSnoc(calls: seq<Step>, c: Step)
    ensures AllBytes(calls + [c]) == AllBytes(calls) + if c.Write? then c.bytes else []
  {
    if calls == [] {
      assert calls + [c] == [c];
      assert [c][1..] == [];
    } else {
      assert (calls + [c])[1..] == calls[1..] + [c];
      BytesSnoc(calls[1..], c);
      var head, rest := if calls[0].Write? then calls[0].bytes else [], AllBytes(calls[1..]);
      var tail := if c.Write? then c.bytes else [];
      assert AllBytes(calls + [c]) == head + (rest + tail);
      assert head + (rest + tail) == head + rest + tail;
    }
  }

  lemma {:induction false} HeadersSnoc(calls: seq<Step>, c: Step)
    ensures Headers(calls + [c]) == if c.SetHeader? then Headers(calls)[c.key := c.values] else Headers(calls)
  {
    if calls == [] {
      assert calls + [c] == [c];
      assert [c][1..] == [];
    } else {
      assert (calls + [c])[1..] == calls[1..] + [c];
      HeadersSnoc(calls[1..], c);
    }
  }

  /** Until the deadline the buffer is exactly what the calls so far mean. */
  ghost predicate Tracks(b: Buffer, calls: seq<Step>)
  {
    && !b.timedOut
    && b.wroteHeader == Answers(calls)
    && b.status == FirstStatus(calls)
    && b.body == AllBytes(calls)
    && b.header == Headers(calls)
  }

  ghost predicate Decided(s: State, calls: seq<Step>, base: Header)
  {
    match s.phase
    case Waiting => s.sent == Nothing && Tracks(s.buffer, calls)
    case Flushed => s.returned && s.sent == Meant(calls, base)
    case TimedOut => s.buffer.timedOut && s.sent == Unavailable(base)
  }

  /** The handler's calls among the steps. */
  ghost function Calls(steps: seq<Step>): seq<Step>
  {
    if steps == [] then []
    else if steps[|steps| - 1].Return? || steps[|steps| - 1].Deliver? || steps[|steps| - 1].Deadline?
      then Calls(steps[..|steps| - 1])
    else Calls(steps[..|steps| - 1]) + [steps[|steps| - 1]]
  }

  lemma TrackCall(b: Buffer, calls: seq<Step>, c: Step)
    requires Tracks(b, calls) && (c.SetHeader? || c.WriteHeader? || c.Write?)
    ensures Tracks(match c
                   case SetHeader(k, vs) => b.(header := b.header[k := vs])
                   case WriteHeader(code) => OnWriteHeader(b, code)
                   case Write(bytes) => OnWrite(b, bytes)
                   case _ => b, calls + [c])
  {
    AnswersSnoc(calls, c);
    StatusSnoc(calls, c);
    BytesSnoc(calls, c);
    HeadersSnoc(calls, c);
    StatusBefore(calls);
  }

  lemma {:induction false} StatusBefore(calls: seq<Step>)
    ensures !Answers(calls) ==> FirstStatus(calls) == OK
  {
    if calls != [] {
      StatusBefore(calls[1..]);
      if Answers(calls[1..]) {
        var i :| 0 <= i < |calls[1..]| && (calls[1..][i].WriteHeader? || calls[1..][i].Write?);
        assert calls[i + 1] == calls[1..][i];
      }
      assert calls[0].WriteHeader? || calls[0].Write? ==> Answers(calls);
    }
  }

  lemma DecidedStep(s: State, past: seq<Step>, base: Header, step: Step)
    requires Decided(s, Calls(past), base) && Enabled(s, step)
    ensures Decided(Next(s, base, step), Calls(past + [step]), base)
  {
    var calls := Calls(past);
    assert (past + [step])[..|past|] == past;
    if s.phase == Waiting && (step.SetHeader? || step.WriteHeader? || step.Write?) {
      TrackCall(s.buffer, calls, step);
    }
  }

  /**
   Exactly one response: in every interleaving the client is sent nothing before
   the decision, and after it either the handler's first status, headers and
   complete body, or the 503, and no handler byte after that.
   */
  lemma {:induction false} ExactlyOneResponse(base: Header, s: State, past: seq<Step>, steps: seq<Step>)
    requires Decided(s, Calls(past), base) && IsRun(base, s, steps)
    ensures Decided(Run(base, s, steps), Calls(past + steps), base)
    decreases |steps|
  {
    if steps == [] {
      assert past + steps == past;
    } else {
      DecidedStep(s, past, base, steps[0]);
      ExactlyOneResponse(base, Next(s, base, steps[0]), past + [steps[0]], steps[1..]);
      assert past + [steps[0]] + steps[1..] == past + steps;
    }
  }

  lemma TimeoutFromStart(base: Header, steps: seq<Step>)
    requires IsRun(base, Fresh(), steps)
    ensures var s := Run(base, Fresh(), steps);
      s.sent == match s.phase
                case Waiting => Nothing
                case Flushed => Meant(Calls(steps), base)
                case TimedOut =>
                  Sent(503, base["Content-Type" := ["application/json; charset=utf-8"]],
                       Ascii("{\"error\":\"request timeout\"}"))
  {
    var none: seq<Step> := [];
    assert none + steps == steps;
    ExactlyOneResponse(base, Fresh(), none, steps);
  }

  /** The writer object the handler is given. */
  class TimeoutWriter {
    var header: Header
    var body: Bytes
    var status: int
    var wroteHeader: bool
    var timedOut: bool

    constructor ()
      ensures Value() == Fresh().buffer
    {
      header, body, status := map[], [], OK;
      wroteHeader, timedOut := false, false;
    }

    ghost function Value(): Buffer
      reads this
    {
      Buffer(header, body, status, wroteHeader, timedOut)
    }

    method WriteHeader(code: int)
      modifies this
      ensures Value() == OnWriteHeader(old(Value()), code)
    {
      if timedOut || wroteHeader {
        return;
      }
      status := code;
      wroteHeader := true;
    }

    /** Returns the bytes taken, or -1 for the handler-timeout error. */
    method Write(bytes: Bytes) returns (n: int)
      modifies this
      ensures Value() == OnWrite(old(Value()), bytes)
      ensures n == if old(timedOut) then -1 else |bytes|
    {
      if timedOut {
        return -1;
      }
      if !wroteHeader {
        status := OK;
        wroteHeader := true;
      }
      body := body + bytes;
      return |bytes|;
    }
  }
}
