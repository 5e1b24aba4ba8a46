/** Server-sent events: how exec output is framed, and what a client reads back by
    sections 9.2.5 and 9.2.6 of the WHATWG HTML Standard. */
module Sse {
  import opened Text

  datatype Message = Message(event: string, data: string)

  // ----- Framing -----

  function DataLines(lines: seq<string>): string {
    if lines == [] then "" else "data: " + lines[0] + "\n" + DataLines(lines[1..])
  }

  function Encode(m: Message): string {
    "event: " + m.event + "\n" + DataLines(Split(m.data, '\n')) + "\n"
  }

  function EncodeAll(ms: seq<Message>): string {
    if ms == [] then "" else Encode(ms[0]) + EncodeAll(ms[1..])
  }

  // ----- The client -----

  predicate OneLine(s: string) {
    '\n' !in s && '\r' !in s
  }

  /** Complete lines, each ended by CR LF, by LF or by CR; an unfinished one is dropped. */
  function Lines(s: string): seq<string>
    decreases |s|
  {
    if OneLine(s) then [] else [FirstLine(s)] + Lines(AfterLine(s))
  }

  function LineEnd(s: string): (i: nat)
    requires !OneLine(s)
    ensures i < |s| && (s[i] == '\n' || s[i] == '\r')
    ensures forall k | 0 <= k < i :: s[k] != '\n' && s[k] != '\r'
  {
    if s[0] == '\n' || s[0] == '\r' then 0 else 1 + LineEnd(s[1..])
  }

  function FirstLine(s: string): (l: string)
    requires !OneLine(s)
    ensures OneLine(l)
  {
    s[..LineEnd(s)]
  }

  function AfterLine(s: string): (rest: string)
    requires !OneLine(s)
    ensures |rest| < |s|
  {
    var i := LineEnd(s);
    if s[i] == '\r' && i + 1 < |s| && s[i + 1] == '\n' then s[i + 2..] else s[i + 1..]
  }

  datatype Buffers = Buffers(data: string, event: string)

  const CLEAR := Buffers("", "")

  function Field(b: Buffers, name: string, value: string): Buffers {
    if name == "event" then b.(event := value)
    else if name == "data" then b.(data := b.data + value + "\n")
    else b
  }

  /** A line that is not blank. */
  function Line(b: Buffers, line: string): Buffers {
    if ':' !in line then Field(b, line, "")
    else
      var i := IndexOf(line, ':');
      var value := line[i + 1..];
      if i == 0 then b
      else Field(b, line[..i], if " " <= value then value[1..] else value)
  }

  /** A blank line: no data, no event. */
  function Dispatch(b: Buffers): seq<Message> {
    if b.data == "" then []
    else [Message(if b.event == "" then "message" else b.event,
                  if b.data[|b.data| - 1] == '\n' then b.data[..|b.data| - 1] else b.data)]
  }

  function Interpret(b: Buffers, lines: seq<string>): seq<Message>
    decreases |lines|
  {
    if lines == [] then []
    else if lines[0] == "" then Dispatch(b) + Interpret(CLEAR, lines[1..])
    else Interpret(Line(b, lines[0]), lines[1..])
  }

  function Parse(s: string): seq<Message> {
    Interpret(CLEAR, Lines(if "\U{FEFF}" <= s then s[1..] else s))
  }

  // ----- Round trip -----

  /** What the stream can carry: a named event on one line, data without CR. */
  predicate Carries(m: Message) {
    m.event != "" && OneLine(m.event) && '\r' !in m.data
  }

  lemma LinesCons(a: string, rest: string)
    requires OneLine(a)
    ensures Lines(a + "\n" + rest) == [a] + Lines(rest)
  {
    var s := a + "\n" + rest;
    assert s[|a|] == '\n';
    var i := LineEnd(s);
    assert i == |a|;
    assert s[..i] == a && s[i + 1..] == rest;
  }

  function Prefixed(lines: seq<string>): (r: seq<string>)
    ensures |r| == |lines| && forall k | 0 <= k < |lines| :: r[k] == "data: " + lines[k]
  {
    seq(|lines|, k requires 0 <= k < |lines| => "data: " + lines[k])
  }

  lemma PrefixedCons(lines: seq<string>, rest: seq<string>)
    requires lines != []
    ensures Prefixed(lines) + rest == ["data: " + lines[0]] + (Prefixed(lines[1..]) + rest)
  {
  }

  lemma Regroup(a: string, b: string, c: string, d: string)
    ensures a + b + c + d == a + b + (c + d)
  {
  }

  lemma {:induction false} LinesOfData(lines: seq<string>, rest: string)
    requires forall l | l in lines :: OneLine(l)
    ensures Lines(DataLines(lines) + rest) == Prefixed(lines) + Lines(rest)
  {
    if lines == [] {
      assert DataLines(lines) + rest == rest;
    } else {
      assert lines[0] in lines;
      var head := "data: " + lines[0];
      Regroup(head, "\n", DataLines(lines[1..]), rest);
      LinesCons(head, DataLines(lines[1..]) + rest);
      LinesOfData(lines[1..], rest);
      PrefixedCons(lines, Lines(rest));
    }
  }

  lemma {:induction false} PartsOneLine(data: string)
    requires '\r' !in data
    ensures forall l | l in Split(data, '\n') :: OneLine(l)
    decreases |data|
  {
    if '\n' in data {
      PartsOneLine(data[IndexOf(data, '\n') + 1..]);
    }
  }

  lemma FieldLine(b: Buffers, name: string, value: string)
    requires name != "" && ':' !in name
    ensures Line(b, name + ": " + value) == Field(b, name, value)
  {
    var line := name + ": " + value;
    assert line[|name|] == ':' && line[..|name|] == name;
    IndexOfUnique(line, ':', |name|);
    assert line[|name| + 1..] == " " + value;
  }

  lemma EventLine(b: Buffers, value: string)
    ensures Line(b, "event: " + value) == b.(event := value)
  {
    FieldLine(b, "event", value);
    assert "event" + ": " + value == "event: " + value;
  }

  lemma DataLine(b: Buffers, value: string)
    ensures Line(b, "data: " + value) == b.(data := b.data + value + "\n")
  {
    FieldLine(b, "data", value);
    assert "data" + ": " + value == "data: " + value;
  }

  lemma InterpretCons(b: Buffers, line: string, rest: seq<string>)
    requires line != ""
    ensures Interpret(b, [line] + rest) == Interpret(Line(b, line), rest)
  {
    assert ([line] + rest)[1..] == rest;
  }

  lemma JoinMore(data: string, lines: seq<string>)
    requires |lines| > 1
    ensures data + lines[0] + "\n" + (Join(lines[1..], '\n') + "\n") == data + (Join(lines, '\n') + "\n")
  {
  }

  /** Data lines fill the data buffer with the lines and their ends. */
  lemma {:induction false} ReadData(b: Buffers, lines: seq<string>, rest: seq<string>)
    requires lines != []
    ensures Interpret(b, Prefixed(lines) + rest) == Interpret(b.(data := b.data + (Join(lines, '\n') + "\n")), rest)
    decreases |lines|
  {
    var b' := b.(data := b.data + lines[0] + "\n");
    DataLine(b, lines[0]);
    PrefixedCons(lines, rest);
    InterpretCons(b, "data: " + lines[0], Prefixed(lines[1..]) + rest);
    if |lines| == 1 {
      assert Prefixed(lines[1..]) + rest == rest;
      assert b'.data == b.data + (lines[0] + "\n");
    } else {
      ReadData(b', lines[1..], rest);
      JoinMore(b.data, lines);
    }
  }

  /** The blank line that ends a frame. */
  lemma ReadBlank(m: Message, rest: seq<string>)
    requires m.event != ""
    ensures Interpret(Buffers("" + (m.data + "\n"), m.event), [""] + rest) == [m] + Interpret(CLEAR, rest)
  {
    assert ([""] + rest)[1..] == rest;
    assert "" + (m.data + "\n") == m.data + "\n";
    assert (m.data + "\n")[..|m.data|] == m.data;
  }

  lemma BlankLine(rest: string)
    ensures Lines("\n" + rest) == [""] + Lines(rest)
  {
    assert "" + "\n" + rest == "\n" + rest;
    LinesCons("", rest);
  }

  lemma LinesOfBody(data: string, rest: string)
    requires '\r' !in data
    ensures Lines(DataLines(Split(data, '\n')) + ("\n" + rest)) == Prefixed(Split(data, '\n')) + ([""] + Lines(rest))
  {
    PartsOneLine(data);
    LinesOfData(Split(data, '\n'), "\n" + rest);
    BlankLine(rest);
  }

  lemma LinesOfFrame(m: Message, rest: string)
    requires Carries(m)
    ensures Lines(Encode(m) + rest) == ["event: " + m.event] + (Prefixed(Split(m.data, '\n')) + ([""] + Lines(rest)))
  {
    var head, body := "event: " + m.event, DataLines(Split(m.data, '\n'));
    EncodeParts(head, body, rest);
    LinesCons(head, body + ("\n" + rest));
    LinesOfBody(m.data, rest);
  }

  lemma EncodeParts(head: string, body: string, rest: string)
    ensures head + "\n" + body + "\n" + rest == head + "\n" + (body + ("\n" + rest))
  {
  }

  lemma ReadFrame(m: Message, rest: string)
    requires Carries(m)
    ensures Interpret(CLEAR, Lines(Encode(m) + rest)) == [m] + Interpret(CLEAR, Lines(rest))
  {
    var parts, after := Split(m.data, '\n'), [""] + Lines(rest);
    LinesOfFrame(m, rest);
    InterpretCons(CLEAR, "event: " + m.event, Prefixed(parts) + after);
    EventLine(CLEAR, m.event);
    ReadData(Buffers("", m.event), parts, after);
    JoinSplit(m.data, '\n');
    ReadBlank(m, Lines(rest));
  }

  lemma {:induction false} ReadFrames(ms: seq<Message>)
    requires forall m | m in ms :: Carries(m)
    ensures Interpret(CLEAR, Lines(EncodeAll(ms))) == ms
  {
    if ms != [] {
      ReadFrames(ms[1..]);
      ReadFrame(ms[0], EncodeAll(ms[1..]));
      assert ms == [ms[0]] + ms[1..];
    }
  }

  // ----- What a client can ever see -----

  lemma {:induction false} LinesAreLines(s: string)
    ensures forall l | l in Lines(s) :: OneLine(l)
    decreases |s|
  {
    if !OneLine(s) {
      LinesAreLines(AfterLine(s));
    }
  }

  lemma LineKeeps(b: Buffers, line: string)
    requires OneLine(b.event) && '\r' !in b.data && OneLine(line)
    ensures OneLine(Line(b, line).event) && '\r' !in Line(b, line).data
  {
  }

  lemma {:induction false} SeenCarries(b: Buffers, lines: seq<string>)
    requires OneLine(b.event) && '\r' !in b.data && forall l | l in lines :: OneLine(l)
    ensures forall m | m in Interpret(b, lines) :: Carries(m)
    decreases |lines|
  {
    if lines != [] {
      if lines[0] == "" {
        SeenCarries(CLEAR, lines[1..]);
      } else {
        LineKeeps(b, lines[0]);
        SeenCarries(Line(b, lines[0]), lines[1..]);
      }
    }
  }

  /** The round trip, exactly: a client reads back the frames written if and only if every
      frame is one the stream can carry. */
  lemma RoundTripIff(ms: seq<Message>)
    ensures Parse(EncodeAll(ms)) == ms <==> forall m | m in ms :: Carries(m)
  {
    var s := EncodeAll(ms);
    assert !("\U{FEFF}" <= s) by {
      if ms != [] {
        assert s[0] == 'e';
      }
    }
    if forall m | m in ms :: Carries(m) {
      ReadFrames(ms);
    }
    LinesAreLines(s);
    SeenCarries(CLEAR, Lines(s));
  }

  // ----- Streams that break off -----

  lemma SameLineEnd(p: string, s: string)
    requires p <= s && !OneLine(p)
    ensures !OneLine(s) && LineEnd(s) == LineEnd(p)
  {
    var i := LineEnd(p);
    assert s[i] == p[i];
    forall k | 0 <= k < i ensures s[k] == p[k] {}
    var j := LineEnd(s);
    assert !(j < i) && !(i < j);
  }

  lemma ConsPrefix(x: string, a: seq<string>, b: seq<string>)
    requires a <= b
    ensures [x] + a <= [x] + b
  {
  }

  /** What follows the first line of a prefix is a prefix of what follows in the whole; it
      is empty when the cut falls between CR and LF. */
  lemma RestPrefix(p: string, s: string)
    requires p <= s && !OneLine(p)
    ensures !OneLine(s) && FirstLine(s) == FirstLine(p)
    ensures AfterLine(p) <= AfterLine(s) || AfterLine(p) == ""
  {
    SameLineEnd(p, s);
    var i := LineEnd(p);
    if i + 1 < |p| {
      assert p[i] == s[i] && p[i + 1] == s[i + 1];
      assert p[i + 1..] <= s[i + 1..];
      assert i + 2 <= |p| && p[i + 2..] <= s[i + 2..];
    } else {
      assert p[i + 1..] == "";
    }
    assert p[..i] == s[..i];
  }

  lemma {:induction false} LinesPrefix(p: string, s: string)
    requires p <= s
    ensures Lines(p) <= Lines(s)
    decreases |p|
  {
    if !OneLine(p) {
      RestPrefix(p, s);
      if AfterLine(p) != "" {
        LinesPrefix(AfterLine(p), AfterLine(s));
      }
      ConsPrefix(FirstLine(p), Lines(AfterLine(p)), Lines(AfterLine(s)));
    }
  }

  lemma {:induction false} InterpretPrefix(b: Buffers, p: seq<string>, lines: seq<string>)
    requires p <= lines
    ensures Interpret(b, p) <= Interpret(b, lines)
    decreases |p|
  {
    if p != [] {
      assert p[0] == lines[0] && p[1..] <= lines[1..];
      if p[0] == "" {
        InterpretPrefix(CLEAR, p[1..], lines[1..]);
      } else {
        InterpretPrefix(Line(b, p[0]), p[1..], lines[1..]);
      }
    }
  }

  /** A stream cut anywhere shows the client nothing but the first messages. */
  lemma ParsePrefix(p: string, s: string)
    requires p <= s
    ensures Parse(p) <= Parse(s)
  {
    var p', s' := if "\U{FEFF}" <= p then p[1..] else p, if "\U{FEFF}" <= s then s[1..] else s;
    if p != "" {
      assert p' <= s';
      LinesPrefix(p', s');
      InterpretPrefix(CLEAR, Lines(p'), Lines(s'));
    }
  }

  // ----- The writer -----

  lemma {:induction false} EncodeSnoc(ms: seq<Message>, m: Message)
    ensures EncodeAll(ms + [m]) == EncodeAll(ms) + Encode(m)
  {
    if ms == [] {
      assert ms + [m] == [m] && [m][1..] == [];
    } else {
      assert (ms + [m])[1..] == ms[1..] + [m];
      EncodeSnoc(ms[1..], m);
    }
  }

  /** sseWriter over a stream whose write calls fail when they will: `fails[k]`, when
      there, is how much of the k-th write still gets through before its error. */
  class Writer {
    const fails: map<nat, nat>
    var writes: nat
    var sent: string
    var flushed: nat
    var err: bool
    /** Every frame asked for, and what is being sent of the one under way. */
    ghost var asked: seq<Message>

    constructor (fails: map<nat, nat>)
      ensures Valid() && !err && asked == [] && sent == "" && this.fails == fails
    {
      this.fails := fails;
      writes, sent, flushed, err, asked := 0, "", 0, false, [];
    }

    /** The client has got a first part of what was asked for, all of it while no write
        has failed, and all of that has been flushed. */
    ghost predicate Valid()
      reads this
    {
      sent <= EncodeAll(asked) && (!err ==> sent == EncodeAll(asked) && flushed == |sent|)
    }

    method Put(p: string) returns (ok: bool)
      modifies this`writes, this`sent
      ensures if ok then sent == old(sent) + p else exists k | 0 <= k <= |p| :: sent == old(sent) + p[..k]
    {
      var k := if writes in fails && fails[writes] <= |p| then fails[writes] else |p|;
      ok := writes !in fails;
      writes := writes + 1;
      sent := sent + p[..k];
      assert p[..|p|] == p;
    }

    /** One write of a frame of which `rest` is still to follow; its error sticks. */
    method Send(p: string, ghost rest: string)
      requires !err && sent + (p + rest) == EncodeAll(asked)
      modifies this`writes, this`sent, this`err
      ensures old(sent) <= sent <= EncodeAll(asked)
      ensures !err ==> sent + rest == EncodeAll(asked)
    {
      ghost var before := sent;
      var ok := Put(p);
      if !ok {
        CutHere(before, p, rest, sent);
        err := true;
      } else {
        assert sent + rest == before + (p + rest);
      }
    }

    /** The data lines of a frame, up to the first failure. */
    method SendLines(lines: seq<string>)
      requires !err && sent + (DataLines(lines) + "\n") == EncodeAll(asked)
      modifies this`writes, this`sent, this`err
      ensures old(sent) <= sent <= EncodeAll(asked) && (!err ==> sent + "\n" == EncodeAll(asked))
    {
      for i := 0 to |lines|
        invariant sent + (DataLines(lines[i..]) + "\n") == EncodeAll(asked)
        invariant old(sent) <= sent && !err
      {
        NextLine(lines, i);
        Send("data: " + lines[i] + "\n", DataLines(lines[i + 1..]) + "\n");
        if err {
          return;
        }
      }
    }

    method Frame(event: string, data: string)
      requires Valid()
      modifies this
      ensures Valid() && asked == old(asked) + [Message(event, data)]
      ensures old(err) ==> err && sent == old(sent)
      ensures old(sent) <= sent
    {
      EncodeSnoc(asked, Message(event, data));
      asked := asked + [Message(event, data)];
      if err {
        return;
      }
      var lines := Split(data, '\n');
      HeadFirst(sent, event, DataLines(lines));
      Send("event: " + event + "\n", DataLines(lines) + "\n");
      if err {
        return;
      }
      SendLines(lines);
      if err {
        return;
      }
      Send("\n", "");
      assert sent + "" == sent;
      if err {
        return;
      }
      flushed := |sent|;
    }

    /** The writer an exec's output is copied to: it takes the whole chunk, or reports
        the stream's failure, for ever.  `meanwhile` are the frames the other channel gets
        in before this one looks at the error. */
    method Channel(event: string, p: string, meanwhile: seq<Message>) returns (n: nat, ok: bool)
      requires Valid()
      modifies this
      ensures Valid() && asked == old(asked) + [Message(event, p)] + meanwhile
      ensures (ok <==> !err) && n == if ok then |p| else 0
      ensures old(err) ==> !ok && sent == old(sent)
      ensures ok ==> sent == EncodeAll(asked) && old(sent) + Encode(Message(event, p)) <= sent && flushed == |sent|
    {
      ghost var before := asked;
      Frame(event, p);
      EncodeSnoc(before, Message(event, p));
      ghost var cut := sent;
      for i := 0 to |meanwhile|
        invariant Valid() && asked == before + [Message(event, p)] + meanwhile[..i]
        invariant cut <= sent && (old(err) ==> err && sent == old(sent))
        invariant !err ==> old(sent) + Encode(Message(event, p)) <= sent
      {
        Frame(meanwhile[i].event, meanwhile[i].data);
      }
      assert meanwhile[..|meanwhile|] == meanwhile;
      if err {
        return 0, false;
      }
      return |p|, true;
    }
  }

  lemma NextLine(lines: seq<string>, i: nat)
    requires i < |lines|
    ensures DataLines(lines[i..]) + "\n" == "data: " + lines[i] + "\n" + (DataLines(lines[i + 1..]) + "\n")
  {
    assert lines[i..][1..] == lines[i + 1..];
  }

  lemma HeadFirst(before: string, event: string, body: string)
    ensures before + ("event: " + event + "\n" + body + "\n") == before + ("event: " + event + "\n" + (body + "\n"))
  {
  }

  lemma CutHere(before: string, p: string, rest: string, sent: string)
    requires exists k | 0 <= k <= |p| :: sent == before + p[..k]
    ensures before <= sent <= before + (p + rest)
  {
    var k :| 0 <= k <= |p| && sent == before + p[..k];
    assert (before + (p + rest))[..|sent|] == sent;
  }

  /** Whatever the stream did to the writes: a client that reads what got through sees
      the first of the frames asked for, and all of them when nothing failed. */
  lemma ClientSees(sent: string, asked: seq<Message>)
    requires sent <= EncodeAll(asked) && forall m | m in asked :: Carries(m)
    ensures Parse(sent) <= asked && (sent == EncodeAll(asked) ==> Parse(sent) == asked)
  {
    RoundTripIff(asked);
    ParsePrefix(sent, EncodeAll(asked));
  }
}
