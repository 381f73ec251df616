// Framing of lines received over Bluetooth, and their delivery to a consumer
// on another thread.
module LineFramer {
  import opened Bytes
  import opened Ordering
  import opened Options

  const NEWLINE: byte := 10

  type Line = seq<byte>

  // ----------------------------------------------------------------- framing

  // One read: the unfinished line afterwards, and the lines it completed.
  function Process(str: Line, chunk: seq<byte>): (Line, seq<Line>)
    decreases |chunk|
  {
    if chunk == [] || chunk[0] == 0 then (str, [])
    else if chunk[0] == NEWLINE then
      var (rest, lines) := Process([], chunk[1..]);
      (rest, [str] + lines)
    else Process(if Printable(chunk[0]) then str + [chunk[0]] else str, chunk[1..])
  }

  function ProcessAll(str: Line, chunks: seq<seq<byte>>): (Line, seq<Line>)
    decreases |chunks|
  {
    if chunks == [] then (str, [])
    else
      var (next, lines) := Process(str, chunks[0]);
      var (rest, more) := ProcessAll(next, chunks[1..]);
      (rest, lines + more)
  }

  // Each read contributes its bytes before the first NUL.
  function Stream(chunks: seq<seq<byte>>): (s: seq<byte>)
    ensures NulFree(s)
  {
    if chunks == [] then [] else Cut(chunks[0]) + Stream(chunks[1..])
  }

  lemma {:induction false} CutProcesses(str: Line, chunk: seq<byte>)
    ensures Process(str, Cut(chunk)) == Process(str, chunk)
    decreases |chunk|
  {
    if chunk != [] && chunk[0] != 0 {
      assert Cut(chunk)[1..] == Cut(chunk[1..]);
      CutProcesses([], chunk[1..]);
      CutProcesses(str, chunk[1..]);
      CutProcesses(str + [chunk[0]], chunk[1..]);
    }
  }

  // Reading in two parts is reading at once.
  lemma {:induction false} ProcessConcat(str: Line, a: seq<byte>, b: seq<byte>)
    requires NulFree(a)
    ensures var (mid, first) := Process(str, a); var (rest, second) := Process(mid, b);
      Process(str, a + b) == (rest, first + second)
    decreases |a|
  {
    if a == [] {
      assert a + b == b && [] + Process(str, b).1 == Process(str, b).1;
    } else {
      assert (a + b)[1..] == a[1..] + b;
      var next := if a[0] == NEWLINE then [] else if Printable(a[0]) then str + [a[0]] else str;
      ProcessConcat(next, a[1..], b);
      var (mid, first) := Process(next, a[1..]);
      var second := Process(mid, b).1;
      assert ([str] + first) + second == [str] + (first + second);
    }
  }

  // The lines depend only on the stream, not on how it was split into reads.
  lemma {:induction false} FramingIgnoresSplits(str: Line, chunks: seq<seq<byte>>)
    ensures ProcessAll(str, chunks) == Process(str, Stream(chunks))
    decreases |chunks|
  {
    if chunks != [] {
      var (next, _) := Process(str, chunks[0]);
      FramingIgnoresSplits(next, chunks[1..]);
      CutProcesses(str, chunks[0]);
      ProcessConcat(str, Cut(chunks[0]), Stream(chunks[1..]));
    }
  }

  function Concat(chunks: seq<seq<byte>>): seq<byte> {
    if chunks == [] then [] else chunks[0] + Concat(chunks[1..])
  }

  lemma {:induction false} StreamIsConcat(chunks: seq<seq<byte>>)
    requires forall i :: 0 <= i < |chunks| ==> NulFree(chunks[i])
    ensures Stream(chunks) == Concat(chunks)
  {
    if chunks != [] {
      assert NulFree(chunks[0]);
      CutWhole(chunks[0]);
      StreamIsConcat(chunks[1..]);
    }
  }

  // Any two splits of the same NUL-free stream give the same lines.
  lemma SplitsAgree(a: seq<seq<byte>>, b: seq<seq<byte>>)
    requires forall i :: 0 <= i < |a| ==> NulFree(a[i])
    requires forall i :: 0 <= i < |b| ==> NulFree(b[i])
    requires Concat(a) == Concat(b)
    ensures ProcessAll([], a) == ProcessAll([], b)
  {
    StreamIsConcat(a);
    StreamIsConcat(b);
    FramingIgnoresSplits([], a);
    FramingIgnoresSplits([], b);
  }

  // -------------------------------------------------- what the lines are

  // The characters that survive: printable ones, from space to tilde, and line
  // feeds.
  function Kept(s: seq<byte>): seq<byte> {
    if s == [] then []
    else if 32 <= s[0] <= 126 || s[0] == 10 then [s[0]] + Kept(s[1..])
    else Kept(s[1..])
  }

  // Lines, each followed by a line feed.
  function Ended(lines: seq<Line>): seq<byte> {
    if lines == [] then [] else lines[0] + [10] + Ended(lines[1..])
  }

  lemma CutAtNewline(str: Line, lines: seq<Line>, rest: Line, kept: seq<byte>)
    requires Ended(lines) + rest == [] + kept
    ensures Ended([str] + lines) + rest == str + ([NEWLINE] + kept)
  {
    assert ([str] + lines)[1..] == lines;
    assert (str + [NEWLINE] + Ended(lines)) + rest == str + ([NEWLINE] + (Ended(lines) + rest));
  }

  lemma KeepChar(str: Line, c: byte, kept: seq<byte>)
    ensures (str + [c]) + kept == str + ([c] + kept)
  {
  }

  // The lines are the kept characters cut at the line ends, and nothing else.
  lemma {:induction false} LinesAreTheStream(str: Line, s: seq<byte>)
    requires NulFree(s) && 10 !in str
    ensures var (rest, lines) := Process(str, s);
      && Ended(lines) + rest == str + Kept(s)
      && 10 !in rest && forall i :: 0 <= i < |lines| ==> 10 !in lines[i]
    decreases |s|
  {
    hide Ended;
    if s == [] {
      NoneEnded();
    } else if s[0] == NEWLINE {
      var (rest, lines) := Process([], s[1..]);
      LinesAreTheStream([], s[1..]);
      CutAtNewline(str, lines, rest, Kept(s[1..]));
    } else if Printable(s[0]) {
      LinesAreTheStream(str + [s[0]], s[1..]);
      KeepChar(str, s[0], Kept(s[1..]));
    } else {
      LinesAreTheStream(str, s[1..]);
    }
  }

  lemma NoneEnded()
    ensures Ended([]) == []
  {
  }

  // ---------------------------------------------------------------- delivery

  // The two threads.  `pending` is what the consumer has copied and not yet
  // cleared; `lost` counts the lines that a clear removed without a copy.
  datatype System = System(str: Line, framed: seq<Line>, dataIn: seq<Line>, pending: Option<seq<Line>>,
                           delivered: seq<Line>, lost: nat)

  const START: System := System([], [], [], None, [], 0)

  datatype Event = Receive(chunk: seq<byte>) | Copy | Clear

  // One consumer: it clears after each copy, and copies after each clear.
  predicate CanStep(s: System, e: Event) {
    match e
    case Receive(_) => true
    case Copy => s.pending.None?
    case Clear => s.pending.Some?
  }

  function Step(s: System, e: Event): System
    requires CanStep(s, e)
  {
    match e
    case Receive(chunk) =>
      var (str, lines) := Process(s.str, chunk);
      s.(str := str, framed := s.framed + lines, dataIn := s.dataIn + lines)
    case Copy => s.(pending := Some(s.dataIn))
    case Clear =>
      var data := s.pending.value;
      s.(pending := None, dataIn := [], delivered := s.delivered + data,
         lost := s.lost + if |data| <= |s.dataIn| then |s.dataIn| - |data| else 0)
  }

  predicate CanRun(s: System, es: seq<Event>)
    decreases |es|
  {
    es == [] || (CanStep(s, es[0]) && CanRun(Step(s, es[0]), es[1..]))
  }

  function Run(s: System, es: seq<Event>): System
    requires CanRun(s, es)
    decreases |es|
  {
    if es == [] then s else Run(Step(s, es[0]), es[1..])
  }

  // `d` is found in `f` at increasing positions.
  ghost predicate InOrderAt(d: seq<Line>, f: seq<Line>, at: seq<nat>) {
    && |at| == |d|
    && (forall i :: 0 <= i < |d| ==> at[i] < |f| && f[at[i]] == d[i])
    && forall i, j :: 0 <= i < j < |at| ==> at[i] < at[j]
  }

  // What every reachable state keeps, with the places of the delivered lines.
  ghost predicate Inv(s: System, at: seq<nat>) {
    && |s.dataIn| <= |s.framed| && s.dataIn == s.framed[|s.framed| - |s.dataIn|..]
    && (s.pending.Some? ==> s.pending.value <= s.dataIn)
    && InOrderAt(s.delivered, s.framed, at)
    && (forall i :: 0 <= i < |at| ==> at[i] < |s.framed| - |s.dataIn|)
    && |s.delivered| + |s.dataIn| + s.lost == |s.framed|
    && (s.lost == 0 ==> s.delivered + s.dataIn == s.framed)
  }

  // Where the lines that are still in the shared buffer begin.
  function Base(s: System): nat {
    if |s.dataIn| <= |s.framed| then |s.framed| - |s.dataIn| else 0
  }

  // The places after a step: a clear adds those of the lines it delivers.
  function Places(s: System, at: seq<nat>, e: Event): seq<nat> {
    if e.Clear? && s.pending.Some? then at + seq(|s.pending.value|, i => Base(s) + i) else at
  }

  lemma ReceiveKeeps(s: System, at: seq<nat>, chunk: seq<byte>)
    requires Inv(s, at)
    ensures Inv(Step(s, Receive(chunk)), at)
  {
    hide Process;
    var t := Step(s, Receive(chunk));
    var lines := Process(s.str, chunk).1;
    assert t.framed[|t.framed| - |t.dataIn|..] == s.framed[|s.framed| - |s.dataIn|..] + lines;
    assert s.lost == 0 ==> t.delivered + t.dataIn == (s.delivered + s.dataIn) + lines;
    PlacesStay(s.delivered, s.framed, at, lines);
    hide InOrderAt;
  }

  lemma PlacesStay(d: seq<Line>, f: seq<Line>, at: seq<nat>, lines: seq<Line>)
    requires InOrderAt(d, f, at)
    ensures InOrderAt(d, f + lines, at)
  {
  }

  lemma ClearKeeps(s: System, at: seq<nat>)
    requires Inv(s, at) && s.pending.Some?
    ensures Inv(Step(s, Clear), Places(s, at, Clear))
  {
    var t, more := Step(s, Clear), Places(s, at, Clear);
    var base, data := |s.framed| - |s.dataIn|, s.pending.value;
    forall i | 0 <= i < |t.delivered| ensures more[i] < |t.framed| && t.framed[more[i]] == t.delivered[i] {
      if i >= |s.delivered| {
        assert t.delivered[i] == data[i - |s.delivered|] == s.dataIn[i - |s.delivered|];
      }
    }
    if t.lost == 0 {
      assert data == s.dataIn;
    }
  }

  lemma StepKeeps(s: System, at: seq<nat>, e: Event)
    requires Inv(s, at) && CanStep(s, e)
    ensures Inv(Step(s, e), Places(s, at, e))
  {
    match e
    case Receive(chunk) => ReceiveKeeps(s, at, chunk);
    case Copy =>
    case Clear => ClearKeeps(s, at);
  }

  lemma {:induction false} RunKeeps(s: System, at: seq<nat>, es: seq<Event>) returns (more: seq<nat>)
    requires Inv(s, at) && CanRun(s, es)
    ensures Inv(Run(s, es), more)
    decreases |es|
  {
    hide Inv, Step, CanStep;
    if es == [] {
      more := at;
    } else {
      StepKeeps(s, at, es[0]);
      more := RunKeeps(Step(s, es[0]), Places(s, at, es[0]), es[1..]);
    }
  }

  // From the start: delivered lines are framed lines, in order, none twice.
  lemma DeliveredInOrder(es: seq<Event>)
    requires CanRun(START, es)
    ensures var s := Run(START, es);
      (exists at :: InOrderAt(s.delivered, s.framed, at)) && |s.delivered| + |s.dataIn| + s.lost == |s.framed|
  {
    var at := RunKeeps(START, [], es);
    hide InOrderAt;
  }

  // Some line arrives between a copy and its clear.
  predicate Overlaps(str: Line, es: seq<Event>, window: bool)
    decreases |es|
  {
    if es == [] then false
    else
      match es[0]
      case Receive(chunk) =>
        var (next, lines) := Process(str, chunk);
        (window && lines != []) || Overlaps(next, es[1..], window)
      case Copy => Overlaps(str, es[1..], true)
      case Clear => Overlaps(str, es[1..], false)
  }

  // Lines that arrived since the pending copy.
  function Excess(s: System): int {
    if s.pending.Some? then |s.dataIn| - |s.pending.value| else 0
  }

  lemma {:induction false} LossIsOverlap(s: System, at: seq<nat>, es: seq<Event>)
    requires Inv(s, at) && CanRun(s, es) && Run(s, es).pending.None?
    ensures Run(s, es).lost == 0 <==> s.lost == 0 && Excess(s) == 0 && !Overlaps(s.str, es, s.pending.Some?)
    decreases |es|
  {
    ExcessBound(s, at);
    hide InOrderAt, Process;
    if es != [] {
      StepKeeps(s, at, es[0]);
      ExcessBound(Step(s, es[0]), Places(s, at, es[0]));
      hide Inv, Places;
      LossIsOverlap(Step(s, es[0]), Places(s, at, es[0]), es[1..]);
    }
  }

  lemma ExcessBound(s: System, at: seq<nat>)
    requires Inv(s, at)
    ensures Excess(s) >= 0
  {
  }

  // Outside a window nothing is lost exactly when no line arrived inside one.
  lemma NothingLostIff(es: seq<Event>)
    requires CanRun(START, es) && Run(START, es).pending.None?
    ensures var s := Run(START, es);
      s.delivered + s.dataIn == s.framed <==> !Overlaps([], es, false)
  {
    var at := RunKeeps(START, [], es);
    LossIsOverlap(START, [], es);
    hide InOrderAt, Overlaps, Run, CanRun;
  }

  // The lines framed outside every window between a copy and its clear.
  function Outside(str: Line, es: seq<Event>, window: bool): seq<Line>
    decreases |es|
  {
    if es == [] then []
    else
      match es[0]
      case Receive(chunk) =>
        var (next, lines) := Process(str, chunk);
        (if window then [] else lines) + Outside(next, es[1..], window)
      case Copy => Outside(str, es[1..], true)
      case Clear => Outside(str, es[1..], false)
  }

  // The lines the consumer has or will get: delivered, and then copied or,
  // outside a window, waiting.
  function Secured(s: System): seq<Line> {
    s.delivered + if s.pending.Some? then s.pending.value else s.dataIn
  }

  lemma {:induction false} SecuredFrom(s: System, es: seq<Event>)
    requires CanRun(s, es)
    ensures Secured(Run(s, es)) == Secured(s) + Outside(s.str, es, s.pending.Some?)
    decreases |es|
  {
    hide Process;
    if es == [] {
      assert Secured(s) + [] == Secured(s);
    } else {
      var t := Step(s, es[0]);
      SecuredFrom(t, es[1..]);
      SecuredStep(s, es[0]);
      var rest := Outside(t.str, es[1..], t.pending.Some?);
      assert Secured(s) + [] + rest == Secured(s) + ([] + rest) == Secured(s) + rest;
      if es[0].Receive? {
        var lines := Process(s.str, es[0].chunk).1;
        assert Secured(s) + lines + rest == Secured(s) + (lines + rest);
      }
    }
  }

  lemma SecuredStep(s: System, e: Event)
    requires CanStep(s, e)
    ensures Secured(Step(s, e))
         == Secured(s) + if e.Receive? && s.pending.None? then Process(s.str, e.chunk).1 else []
  {
    hide Process;
    match e
    case Receive(chunk) =>
      if s.pending.None? {
        assert s.delivered + (s.dataIn + Process(s.str, chunk).1) == s.delivered + s.dataIn + Process(s.str, chunk).1;
      }
    case Copy =>
    case Clear => assert s.delivered + s.pending.value + [] == s.delivered + s.pending.value;
  }

  // For every interleaving the consumer gets exactly the framed lines without
  // those that arrive between a copy and its clear, in order; those it never gets.
  lemma WindowLinesAreLost(es: seq<Event>)
    requires CanRun(START, es)
    ensures Secured(Run(START, es)) == Outside([], es, false)
  {
    SecuredFrom(START, es);
    assert Secured(START) + Outside([], es, false) == Outside([], es, false);
  }

  // An instance: one line, arriving in the window.
  lemma WindowLosesLine()
    ensures var es := [Copy, Receive([97, NEWLINE]), Clear];
      && CanRun(START, es)
      && var s := Run(START, es); s.framed == [[97]] && s.delivered == [] && s.dataIn == []
  {
    var es := [Copy, Receive([97, NEWLINE]), Clear];
    var a := Step(START, Copy);
    LetterLine(97);
    var b := Step(a, Receive([97, NEWLINE]));
    assert es[1..] == [Receive([97, NEWLINE]), Clear] && es[1..][1..] == [Clear] && [Clear][1..] == [];
    assert CanRun(b, [Clear]) && Run(b, [Clear]) == Step(b, Clear);
    assert Run(a, es[1..]) == Run(b, [Clear]);
  }

  lemma LetterLine(c: byte)
    requires Printable(c)
    ensures Process([], [c, NEWLINE]) == ([], [[c]])
  {
    var s, t: seq<byte>, u: seq<byte> := [c, NEWLINE], [NEWLINE], [];
    assert s[1..] == t && t[1..] == u && [] + [c] == [c];
    assert Process([], u) == ([], []);
    var lines: seq<Line> := [[c]];
    assert Process([c], t) == ([], lines + []) && lines + [] == lines;
    assert Process([], s) == Process([c], t);
  }

  // The reads of a run.
  function Chunks(es: seq<Event>): seq<seq<byte>> {
    if es == [] then []
    else if es[0].Receive? then [es[0].chunk] + Chunks(es[1..])
    else Chunks(es[1..])
  }

  lemma {:induction false} FramedFrom(s: System, es: seq<Event>)
    requires CanRun(s, es)
    ensures var (str, lines) := ProcessAll(s.str, Chunks(es));
      Run(s, es).str == str && Run(s, es).framed == s.framed + lines
    decreases |es|
  {
    hide Process;
    if es == [] {
      assert s.framed + [] == s.framed;
    } else {
      FramedFrom(Step(s, es[0]), es[1..]);
      if es[0].Receive? {
        var (next, lines) := Process(s.str, es[0].chunk);
        assert ([es[0].chunk] + Chunks(es[1..]))[1..] == Chunks(es[1..]);
        var (_, more) := ProcessAll(next, Chunks(es[1..]));
        assert s.framed + lines + more == s.framed + (lines + more);
      }
    }
  }

  // Whatever the interleaving, the framed lines are those of the byte stream.
  lemma FramedIsStream(es: seq<Event>)
    requires CanRun(START, es)
    ensures Run(START, es).framed == Process([], Stream(Chunks(es))).1
  {
    FramedFrom(START, es);
    FramingIgnoresSplits([], Chunks(es));
  }

  // ------------------------------------------------------------- the object

  class BTRemote {
    // The unfinished line of the receiving thread.
    var str: Line
    var dataIn: seq<Line>

    constructor ()
      ensures str == [] && dataIn == []
    {
      str, dataIn := [], [];
    }

    // One round of the receiving thread, for the bytes of one read.
    method Receive(buf: seq<byte>)
      modifies this
      ensures (str, dataIn) == (Process(old(str), buf).0, old(dataIn) + Process(old(str), buf).1)
    {
      var tempStrs: seq<Line> := [];
      var i := 0;
      assert buf[0..] == buf && [] + Process(str, buf).1 == Process(str, buf).1;
      while i < |buf|
        invariant 0 <= i <= |buf| && dataIn == old(dataIn)
        invariant Process(old(str), buf) == (Process(str, buf[i..]).0, tempStrs + Process(str, buf[i..]).1)
      {
        var c := buf[i];
        assert buf[i..][0] == c && buf[i..][1..] == buf[i + 1..];
        if c == NEWLINE {
          ghost var more := Process([], buf[i + 1..]).1;
          assert tempStrs + ([str] + more) == tempStrs + [str] + more;
          tempStrs := tempStrs + [str];
          str := [];
        } else if c == 0 {
          break;
        } else if Printable(c) {
          str := str + [c];
        }
        i := i + 1;
      }
      assert tempStrs + [] == tempStrs;
      dataIn := dataIn + tempStrs;
    }

    method CopyData() returns (data: seq<Line>)
      ensures data == dataIn
    {
      data := dataIn;
    }

    method ClearData()
      modifies `dataIn
      ensures dataIn == []
    {
      dataIn := [];
    }

    // The same call with rounds of the receiving thread between the copy and the
    // clear: their lines are gone.
    method GetDataAround(chunks: seq<seq<byte>>) returns (data: seq<Line>)
      modifies this
      ensures data == old(dataIn) && dataIn == []
      ensures str == ProcessAll(old(str), chunks).0
    {
      data := CopyData();
      assert chunks[0..] == chunks;
      for i := 0 to |chunks|
        invariant ProcessAll(old(str), chunks).0 == ProcessAll(str, chunks[i..]).0
      {
        assert chunks[i..][0] == chunks[i] && chunks[i..][1..] == chunks[i + 1..];
        Receive(chunks[i]);
      }
      ClearData();
    }

    // Copy, then clear, with nothing in between.
    method GetData() returns (data: seq<Line>)
      modifies `dataIn
      ensures data == old(dataIn) && dataIn == []
    {
      data := CopyData();
      ClearData();
    }
  }
}
