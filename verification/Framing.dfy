/**
  What a run of reads on one connection delivers.  A connection's messages travel as text
  followed by a NUL; the receiver cuts the byte stream into reads of 1 to `size` bytes, one
  buffer a read, and joins the chain of buffers whenever a read ends with a NUL
  (NetEventHandler.cpp, BufferPool.cpp).
 */
module Framing {
  import opened Memory

  /** One read: the whole buffer as it stood when the read was processed, stale bytes included. */
  datatype RawRead = Read(buffer: seq<char>, count: nat)
  type Read = r: RawRead | 1 <= r.count <= |r.buffer| witness Read([NUL], 1)

  ghost predicate AllFit(log: seq<Read>, size: nat) {
    forall k :: 0 <= k < |log| ==> |log[k].buffer| == size
  }

  ghost function Data(r: Read): seq<char> {
    r.buffer[..r.count]
  }

  /** The bytes of a read before its last one. */
  ghost function Body(r: Read): seq<char> {
    r.buffer[..r.count - 1]
  }

  predicate EndsMessage(r: Read) {
    r.buffer[r.count - 1] == NUL
  }

  /** The buffers read since the last message, and every message emitted so far. */
  datatype Frame = Frame(filled: seq<seq<char>>, inbox: seq<string>)

  ghost function FrameStep(f: Frame, r: Read): Frame {
    if EndsMessage(r) then
      Frame([], f.inbox + [Join(f.filled + [r.buffer])])
    else
      Frame(f.filled + [r.buffer], f.inbox)
  }

  ghost function Framed(log: seq<Read>): Frame {
    if log == [] then Frame([], [])
    else FrameStep(Framed(log[..|log| - 1]), log[|log| - 1])
  }

  ghost function Stream(log: seq<Read>): seq<char> {
    if log == [] then []
    else Stream(log[..|log| - 1]) + Data(log[|log| - 1])
  }

  // ----- The reference: splitting a byte stream at its NULs -----

  datatype Split = Split(messages: seq<string>, rest: string)

  ghost function SplitAtNuls(s: seq<char>): Split {
    if s == [] then Split([], [])
    else
      var front, c := SplitAtNuls(s[..|s| - 1]), s[|s| - 1];
      if c == NUL then Split(front.messages + [front.rest], []) else Split(front.messages, front.rest + [c])
  }

  /** What a sender puts on the wire for a list of messages. */
  ghost function Wire(messages: seq<string>): seq<char> {
    if messages == [] then []
    else Wire(messages[..|messages| - 1]) + messages[|messages| - 1] + [NUL]
  }

  lemma SplitOne(s: seq<char>, c: char)
    ensures var front := SplitAtNuls(s);
            SplitAtNuls(s + [c]) ==
            if c == NUL then Split(front.messages + [front.rest], []) else Split(front.messages, front.rest + [c])
  {
    assert (s + [c])[..|s|] == s;
  }

  lemma {:induction false} SplitText(s: seq<char>, text: seq<char>)
    requires NUL !in text
    ensures SplitAtNuls(s + text) == Split(SplitAtNuls(s).messages, SplitAtNuls(s).rest + text)
  {
    hide SplitAtNuls;
    if text == [] {
      assert s + text == s;
      assert SplitAtNuls(s).rest + text == SplitAtNuls(s).rest;
    } else {
      var front, last := text[..|text| - 1], text[|text| - 1];
      assert text == front + [last];
      SplitText(s, front);
      SplitOne(s + front, last);
      assert s + text == s + front + [last];
      assert SplitAtNuls(s).rest + text == SplitAtNuls(s).rest + front + [last];
    }
  }

  /** Splitting undoes sending, for messages without a NUL. */
  lemma {:induction false} SplitOfWire(messages: seq<string>)
    requires forall k :: 0 <= k < |messages| ==> NUL !in messages[k]
    ensures SplitAtNuls(Wire(messages)) == Split(messages, [])
  {
    if messages != [] {
      var front, last := messages[..|messages| - 1], messages[|messages| - 1];
      SplitOfWire(front);
      SplitText(Wire(front), last);
      SplitOne(Wire(front) + last, NUL);
      assert [] + last == last;
    }
  }

  // ----- When delivery is exact -----

  /** No NUL before the last byte, and a read that does not end a message fills its buffer. */
  ghost predicate Aligned(r: Read) {
    NUL !in Body(r) && (EndsMessage(r) || r.count == |r.buffer|)
  }

  ghost predicate AllAligned(log: seq<Read>) {
    forall k :: 0 <= k < |log| ==> Aligned(log[k])
  }

  lemma {:induction false} StrlenIs(s: seq<char>, n: nat)
    requires n < |s| && s[n] == NUL && NUL !in s[..n]
    ensures Strlen(s) == n
  {
  }

  lemma JoinOne(filled: seq<seq<char>>, buffer: seq<char>)
    ensures Join(filled + [buffer]) == Flatten(filled) + buffer[..Strlen(buffer)]
    ensures Flatten(filled + [buffer]) == Flatten(filled) + buffer
  {
  }

  /** A frame that has delivered what the stream so far contains. */
  ghost predicate InStep(f: Frame, s: seq<char>) {
    f.inbox == SplitAtNuls(s).messages && Flatten(f.filled) == SplitAtNuls(s).rest
  }

  /** What a final read without a buried NUL makes of the buffers before it. */
  lemma EndStep(f: Frame, r: Read)
    requires NUL !in Body(r) && EndsMessage(r)
    ensures FrameStep(f, r) == Frame([], f.inbox + [Flatten(f.filled) + Body(r)]) && Data(r) == Body(r) + [NUL]
  {
    StrlenIs(r.buffer, r.count - 1);
    JoinOne(f.filled, r.buffer);
  }

  lemma AlignedEnd(f: Frame, s: seq<char>, r: Read)
    requires InStep(f, s) && Aligned(r) && EndsMessage(r)
    ensures InStep(FrameStep(f, r), s + Data(r))
  {
    var text := Body(r);
    EndStep(f, r);
    SplitText(s, text);
    SplitOne(s + text, NUL);
    assert s + (text + [NUL]) == s + text + [NUL];
    hide Body, Data, FrameStep, SplitAtNuls, EndsMessage;
  }

  lemma AlignedMiddle(f: Frame, s: seq<char>, r: Read)
    requires InStep(f, s) && Aligned(r) && !EndsMessage(r)
    ensures InStep(FrameStep(f, r), s + Data(r))
  {
    JoinOne(f.filled, r.buffer);
    assert NUL !in Data(r) by {
      assert Data(r) == Body(r) + [r.buffer[r.count - 1]];
    }
    SplitText(s, Data(r));
    assert Data(r) == r.buffer;
  }

  lemma AlignedStep(f: Frame, s: seq<char>, r: Read)
    requires InStep(f, s) && Aligned(r)
    ensures InStep(FrameStep(f, r), s + Data(r))
  {
    if EndsMessage(r) {
      AlignedEnd(f, s, r);
    } else {
      AlignedMiddle(f, s, r);
    }
  }

  /** Aligned reads deliver exactly the stream's messages, and hold exactly its unfinished rest. */
  lemma {:induction false} AlignedDelivers(log: seq<Read>)
    requires AllAligned(log)
    ensures InStep(Framed(log), Stream(log))
  {
    if log != [] {
      AlignedDelivers(log[..|log| - 1]);
      AlignedStep(Framed(log[..|log| - 1]), Stream(log[..|log| - 1]), log[|log| - 1]);
    }
  }

  // ----- Counting: why a misaligned read always shows -----

  ghost function Nuls(s: seq<char>): nat {
    if s == [] then 0 else Nuls(s[..|s| - 1]) + if s[|s| - 1] == NUL then 1 else 0
  }

  lemma {:induction false} NulsAppend(s: seq<char>, t: seq<char>)
    ensures Nuls(s + t) == Nuls(s) + Nuls(t)
  {
    if t == [] {
      assert s + t == s;
    } else {
      NulsAppend(s, t[..|t| - 1]);
      assert (s + t)[..|s + t| - 1] == s + t[..|t| - 1];
    }
  }

  lemma {:induction false} NoNuls(s: seq<char>)
    ensures Nuls(s) == 0 <==> NUL !in s
  {
    if s != [] {
      NoNuls(s[..|s| - 1]);
      assert s == s[..|s| - 1] + [s[|s| - 1]];
    }
  }

  ghost function Size(messages: seq<string>): nat {
    if messages == [] then 0 else Size(messages[..|messages| - 1]) + |messages[|messages| - 1]|
  }

  lemma SizeNext(messages: seq<string>, m: string)
    ensures Size(messages + [m]) == Size(messages) + |m|
  {
  }

  lemma {:induction false} SplitMeasures(s: seq<char>)
    ensures |SplitAtNuls(s).messages| == Nuls(s)
    ensures Size(SplitAtNuls(s).messages) + |SplitAtNuls(s).rest| + Nuls(s) == |s|
  {
    if s != [] {
      SplitMeasures(s[..|s| - 1]);
      SizeNext(SplitAtNuls(s[..|s| - 1]).messages, SplitAtNuls(s[..|s| - 1]).rest);
    }
  }

  /** Reads that end a message. */
  ghost function Ends(log: seq<Read>): nat {
    if log == [] then 0
    else Ends(log[..|log| - 1]) + if EndsMessage(log[|log| - 1]) then 1 else 0
  }

  /** NULs before the last byte of their read. */
  ghost function Buried(log: seq<Read>): nat {
    if log == [] then 0 else Buried(log[..|log| - 1]) + Nuls(Body(log[|log| - 1]))
  }

  /** Buffer bytes left unfilled by a read that does not end a message. */
  ghost function Unfilled(r: Read): nat {
    if EndsMessage(r) then 0 else |r.buffer| - r.count
  }

  ghost function Slack(log: seq<Read>): nat {
    if log == [] then 0 else Slack(log[..|log| - 1]) + Unfilled(log[|log| - 1])
  }

  lemma {:induction false} NulBalance(log: seq<Read>)
    ensures Nuls(Stream(log)) == Ends(log) + Buried(log)
    ensures |Framed(log).inbox| == Ends(log)
  {
    if log != [] {
      var s, r := Stream(log[..|log| - 1]), log[|log| - 1];
      NulBalance(log[..|log| - 1]);
      NulsAppend(s, Data(r));
      assert Data(r)[..|Data(r)| - 1] == Body(r);
    }
  }

  lemma {:induction false} NothingBuried(log: seq<Read>)
    requires Buried(log) == 0
    ensures forall k :: 0 <= k < |log| ==> NUL !in Body(log[k])
  {
    if log != [] {
      NothingBuried(log[..|log| - 1]);
      NoNuls(Body(log[|log| - 1]));
      assert forall k :: 0 <= k < |log| - 1 ==> log[k] == log[..|log| - 1][k];
    }
  }

  lemma {:induction false} NoSlack(log: seq<Read>)
    requires Slack(log) == 0
    ensures forall k :: 0 <= k < |log| ==> Unfilled(log[k]) == 0
  {
    if log != [] {
      NoSlack(log[..|log| - 1]);
      assert forall k :: 0 <= k < |log| - 1 ==> log[k] == log[..|log| - 1][k];
    }
  }

  /** Bytes emitted and bytes in pending buffers. */
  ghost function Volume(f: Frame): nat {
    Size(f.inbox) + |Flatten(f.filled)|
  }

  lemma StepVolume(f: Frame, r: Read)
    requires NUL !in Body(r)
    ensures Volume(FrameStep(f, r)) == Volume(f) + r.count + Unfilled(r) - if EndsMessage(r) then 1 else 0
  {
  }

  /** With no NUL buried, what is emitted and pending exceeds the text received by exactly the slack. */
  lemma {:induction false} ByteBalance(log: seq<Read>)
    requires forall k :: 0 <= k < |log| ==> NUL !in Body(log[k])
    ensures Volume(Framed(log)) + Ends(log) == |Stream(log)| + Slack(log)
  {
    if log != [] {
      ByteBalance(log[..|log| - 1]);
      StepVolume(Framed(log[..|log| - 1]), log[|log| - 1]);
    }
  }

  ghost predicate AtBoundary(s: seq<char>) {
    s == [] || s[|s| - 1] == NUL
  }

  /** A stream that stops at a message boundary leaves no pending buffer. */
  lemma BoundaryLeavesNothing(log: seq<Read>)
    requires AtBoundary(Stream(log))
    ensures Framed(log).filled == [] && SplitAtNuls(Stream(log)).rest == []
  {
  }

  lemma ExactOnlyIfAligned(log: seq<Read>)
    requires AtBoundary(Stream(log)) && Framed(log).inbox == SplitAtNuls(Stream(log)).messages
    ensures AllAligned(log)
  {
    BoundaryLeavesNothing(log);
    NulBalance(log);
    SplitMeasures(Stream(log));
    NothingBuried(log);
    ByteBalance(log);
    NoSlack(log);
    forall k | 0 <= k < |log|
      ensures Aligned(log[k])
    {
      assert Unfilled(log[k]) == 0;
    }
  }

  /** For a stream that stops at a message boundary, every read must be aligned. */
  lemma BoundaryFraming(log: seq<Read>)
    requires AtBoundary(Stream(log))
    ensures Framed(log).inbox == SplitAtNuls(Stream(log)).messages <==> AllAligned(log)
  {
    if AllAligned(log) {
      AlignedDelivers(log);
    } else if Framed(log).inbox == SplitAtNuls(Stream(log)).messages {
      ExactOnlyIfAligned(log);
    }
  }

  /** One past the last read that ends a message. */
  ghost function LastEnd(log: seq<Read>): (n: nat)
    ensures n <= |log|
  {
    if log == [] || EndsMessage(log[|log| - 1]) then |log| else LastEnd(log[..|log| - 1])
  }

  /** The reads behind it end none. */
  lemma {:induction false} NoneEndsBehind(log: seq<Read>)
    ensures Ends(log[LastEnd(log)..]) == 0
  {
    var n := LastEnd(log);
    if n < |log| {
      NoneEndsBehind(log[..|log| - 1]);
      assert log[n..][..|log| - 1 - n] == log[..|log| - 1][n..];
    } else {
      assert log[n..] == [];
    }
  }

  /** The reads up to it delivered everything. */
  lemma {:induction false} AllDeliveredBefore(log: seq<Read>)
    ensures Framed(log).inbox == Framed(log[..LastEnd(log)]).inbox
  {
    var n := LastEnd(log);
    if n < |log| {
      AllDeliveredBefore(log[..|log| - 1]);
      assert log[..|log| - 1][..n] == log[..n];
    } else {
      assert log[..n] == log;
    }
  }

  lemma {:induction false} EndsAtBoundary(log: seq<Read>)
    ensures AtBoundary(Stream(log[..LastEnd(log)]))
  {
    var n := LastEnd(log);
    if n < |log| {
      EndsAtBoundary(log[..|log| - 1]);
      assert log[..|log| - 1][..n] == log[..n];
    } else {
      assert log[..n] == log;
      if log != [] {
        var r := log[|log| - 1];
        assert Stream(log)[|Stream(log)| - 1] == r.buffer[r.count - 1];
      }
    }
  }

  /** A NUL behind the last read that ends a message is never delivered for. */
  lemma BuriedShows(front: seq<Read>, rest: seq<Read>)
    requires Ends(rest) == 0 && NUL in Stream(rest)
    ensures |Framed(front).inbox| < |SplitAtNuls(Stream(front) + Stream(rest)).messages|
  {
    NulBalance(front);
    NulsAppend(Stream(front), Stream(rest));
    NoNuls(Stream(rest));
    SplitMeasures(Stream(front) + Stream(rest));
  }

  lemma FramedApart(front: seq<Read>, rest: seq<Read>)
    requires Ends(rest) == 0 && AtBoundary(Stream(front))
    ensures Framed(front).inbox == SplitAtNuls(Stream(front) + Stream(rest)).messages <==>
            AllAligned(front) && NUL !in Stream(rest)
  {
    if NUL in Stream(rest) {
      BuriedShows(front, rest);
    } else {
      SplitText(Stream(front), Stream(rest));
      BoundaryFraming(front);
    }
  }

  /**
    Exact framing.  However a byte stream is cut into reads, and wherever it stops, the messages
    delivered are those of the stream if and only if every read up to the last one that ends a
    message is aligned, and no NUL came behind it.  Several messages in one read, or a short read
    in the middle of a message, always show.
   */
  lemma ExactFraming(log: seq<Read>)
    ensures var n := LastEnd(log);
            Framed(log).inbox == SplitAtNuls(Stream(log)).messages <==>
            AllAligned(log[..n]) && NUL !in Stream(log[n..])
  {
    hide Framed, Stream, SplitAtNuls, AllAligned, AtBoundary, Ends;
    var n := LastEnd(log);
    NoneEndsBehind(log);
    AllDeliveredBefore(log);
    EndsAtBoundary(log);
    assert log == log[..n] + log[n..];
    StreamSplit(log[..n], log[n..]);
    FramedApart(log[..n], log[n..]);
  }

  lemma WireStops(messages: seq<string>)
    ensures AtBoundary(Wire(messages))
  {
  }

  /** The round trip: messages sent without NULs arrive as sent if and only if every read is aligned. */
  lemma {:induction false} RoundTrip(messages: seq<string>, log: seq<Read>)
    requires Stream(log) == Wire(messages)
    requires forall k :: 0 <= k < |messages| ==> NUL !in messages[k]
    ensures Framed(log).inbox == messages <==> AllAligned(log)
  {
    SplitOfWire(messages);
    WireStops(messages);
    BoundaryFraming(log);
  }

  lemma OneReadFramed(r: Read)
    requires r.buffer == ['a', NUL, 'b', NUL] && r.count == 4
    ensures Framed([r]).inbox == ["a"]
  {
    StrlenIs(r.buffer, 1);
    JoinOne([], r.buffer);
    assert Framed([r]) == FrameStep(Frame([], []), r);
    assert [] + r.buffer[..1] == "a";
  }

  lemma WireOfTwo()
    ensures Wire(["a", "b"]) == ['a', NUL, 'b', NUL]
  {
    assert ["a", "b"][..1] == ["a"] && ["a"][..0] == [];
    assert Wire(["a"]) == ['a', NUL];
  }

  /** It happens: two messages that arrive in one read come out as one, cut at the first NUL. */
  lemma TwoInOneRead(r: Read)
    requires r.buffer == ['a', NUL, 'b', NUL] && r.count == 4
    ensures Stream([r]) == Wire(["a", "b"]) && !AllAligned([r]) && Framed([r]).inbox == ["a"]
  {
    hide Wire, Framed, SplitAtNuls;
    OneReadFramed(r);
    WireOfTwo();
    assert [r][..0] == [] && Data(r) == r.buffer;
    assert Body(r)[1] == NUL;
  }

  lemma FramedNext(log: seq<Read>, r: Read)
    ensures Framed(log + [r]) == FrameStep(Framed(log), r)
  {
  }

  /**
    One more read of any size: a message comes out exactly when the read ends with a NUL, and
    it is as long as whole buffers for the reads before it and the text of the last, which is never full.
   */
  lemma EmittedLength(log: seq<Read>, r: Read, size: nat)
    requires AllFit(log + [r], size)
    ensures var f, f' := Framed(log), Framed(log + [r]);
            if EndsMessage(r) then
              && f'.filled == [] && |f'.inbox| == |f.inbox| + 1 && f'.inbox[..|f.inbox|] == f.inbox
              && |f'.inbox[|f.inbox|]| == |f.filled| * size + Strlen(r.buffer) && Strlen(r.buffer) < size
            else
              f'.inbox == f.inbox && |f'.filled| == |f.filled| + 1
  {
    FramedNext(log, r);
    var f := Framed(log);
    JoinOne(f.filled, r.buffer);
    assert forall k :: 0 <= k < |log| ==> log[k] == (log + [r])[k];
    FilledSize(log, size);
    assert r == (log + [r])[|log|];
    FlattenLength(f.filled, size);
    TotalIsProduct(|f.filled|, size);
  }

  lemma {:induction false} FilledSize(log: seq<Read>, size: nat)
    requires AllFit(log, size)
    ensures AllOfSize(Framed(log).filled, size)
  {
    if log != [] {
      FilledSize(log[..|log| - 1], size);
    }
  }

  // ----- A cut that is aligned -----

  /** One message and its NUL, cut into full reads of `size` bytes and one final read. */
  ghost function CutText(text: seq<char>, size: nat): (log: seq<Read>)
    requires size > 0 && text != []
    decreases |text|
  {
    if |text| <= size then [Read(text + Blank(size - |text|), |text|)]
    else [Read(text[..size], size)] + CutText(text[size..], size)
  }

  /** What is behind the bytes of a short read in a buffer. */
  ghost function Blank(n: nat): (s: seq<char>)
    ensures |s| == n
  {
    seq(n, _ => 'x')
  }

  /** Messages sent one after the other, each cut on its own. */
  ghost function Cut(messages: seq<string>, size: nat): seq<Read>
    requires size > 0
  {
    if messages == [] then []
    else Cut(messages[..|messages| - 1], size) + CutText(messages[|messages| - 1] + [NUL], size)
  }

  lemma {:induction false} StreamSplit(a: seq<Read>, b: seq<Read>)
    ensures Stream(a + b) == Stream(a) + Stream(b)
  {
    hide Data;
    if b == [] {
      assert a + b == a;
    } else {
      var front, last := b[..|b| - 1], b[|b| - 1];
      StreamSplit(a, front);
      assert (a + b)[..|a + b| - 1] == a + front && (a + b)[|a + b| - 1] == last;
    }
  }

  /** A full read without a NUL before more reads. */
  lemma FullReadFirst(text: seq<char>, size: nat, rest: seq<Read>)
    requires 0 < size <= |text| && NUL !in text[..size] && AllFit(rest, size) && AllAligned(rest)
    ensures var r: Read := Read(text[..size], size);
            AllFit([r] + rest, size) && AllAligned([r] + rest) && Stream([r] + rest) == text[..size] + Stream(rest)
  {
    var r: Read := Read(text[..size], size);
    StreamSplit([r], rest);
    assert Stream([r]) == Data(r) == text[..size] by {
      assert [r][..0] == [];
    }
    assert Body(r) == text[..size][..size - 1];
  }

  lemma LastRead(message: string, size: nat)
    requires NUL !in message && |message| < size
    ensures var r: Read := Read(message + [NUL] + Blank(size - |message| - 1), |message| + 1);
            AllFit([r], size) && AllAligned([r]) && Stream([r]) == message + [NUL]
  {
    var r: Read := Read(message + [NUL] + Blank(size - |message| - 1), |message| + 1);
    assert [r][..0] == [];
    assert Body(r) == message && Data(r) == message + [NUL];
  }

  lemma {:induction false} CutTextIs(message: string, size: nat)
    requires size > 0 && NUL !in message
    ensures var log := CutText(message + [NUL], size);
            AllFit(log, size) && AllAligned(log) && Stream(log) == message + [NUL]
    decreases |message|
  {
    var text := message + [NUL];
    hide Stream, Aligned, AllFit, AllAligned;
    if |text| <= size {
      LastRead(message, size);
    } else {
      var rest := message[size..];
      assert text[size..] == rest + [NUL] && text[..size] == message[..size];
      CutTextIs(rest, size);
      FullReadFirst(text, size, CutText(rest + [NUL], size));
      assert text == text[..size] + text[size..];
    }
  }

  lemma {:induction false} CutIs(messages: seq<string>, size: nat)
    requires size > 0 && forall k :: 0 <= k < |messages| ==> NUL !in messages[k]
    ensures AllFit(Cut(messages, size), size) && AllAligned(Cut(messages, size))
    ensures Stream(Cut(messages, size)) == Wire(messages)
  {
    if messages != [] {
      var front, last := messages[..|messages| - 1], messages[|messages| - 1];
      CutIs(front, size);
      CutTextIs(last, size);
      StreamSplit(Cut(front, size), CutText(last + [NUL], size));
      assert Wire(front) + (last + [NUL]) == Wire(front) + last + [NUL];
    }
  }

  /**
    The promise of the protocol: messages that are each cut into full reads and one final read
    arrive as sent, also when a length is a multiple of the buffer size or the last read is just the NUL.
   */
  lemma CutsArrive(messages: seq<string>, size: nat)
    requires size > 0 && forall k :: 0 <= k < |messages| ==> NUL !in messages[k]
    ensures Framed(Cut(messages, size)).inbox == messages && Framed(Cut(messages, size)).filled == []
  {
    CutIs(messages, size);
    RoundTrip(messages, Cut(messages, size));
    if messages != [] {
      BoundaryLeavesNothing(Cut(messages, size));
    }
  }

  /** A message as long as a whole number of buffers ends with a read of just its NUL. */
  lemma {:induction false} LastReadIsNul(message: string, size: nat, k: nat)
    requires size > 0 && |message| == k * size
    ensures var log := CutText(message + [NUL], size); |log| == k + 1 && Data(log[k]) == [NUL]
    decreases k
  {
    var text := message + [NUL];
    if k > 0 {
      assert k * size == (k - 1) * size + size;
      assert text[size..] == message[size..] + [NUL];
      LastReadIsNul(message[size..], size, k - 1);
    }
  }
}
