/** The chunked line reader of the native bridge and what it does with each line
    (bridge_native.py). JSON decoding belongs to its library and is a parameter. */
module Framing {
  import opened Messages
  import opened Order

  newtype Byte = b: int | 0 <= b < 256

  type Bytes = seq<Byte>

  const MAX_LINE_BYTES := 1_048_576
  const RECV_BYTES := 65536
  const NL: Byte := 10
  const NATIVE_FROM_ID := "native-bridge"

  // ----- lines of a byte stream -----

  ghost predicate NoNl(s: Bytes) { forall i :: 0 <= i < |s| ==> s[i] != NL }

  /** The complete lines read so far, and the part of a line after the last newline. */
  datatype Split = Split(lines: seq<Bytes>, rest: Bytes)

  function Feed(st: Split, s: Bytes): Split
    decreases |s|
  {
    if s == [] then st
    else Feed(if s[0] == NL then Split(st.lines + [st.rest], []) else Split(st.lines, st.rest + [s[0]]), s[1..])
  }

  /** The newline-terminated segments of a stream. */
  function Lines(s: Bytes): seq<Bytes> { Feed(Split([], []), s).lines }

  /** What follows the last newline. */
  function Rest(s: Bytes): Bytes { Feed(Split([], []), s).rest }

  predicate IsSpace(b: Byte) { b == 32 || 9 <= b <= 13 }

  /** `line.strip()` leaves something. */
  function NonBlank(): Bytes -> bool { (s: Bytes) => exists i :: 0 <= i < |s| && !IsSpace(s[i]) }

  function Concat(chunks: seq<Bytes>): Bytes { if chunks == [] then [] else chunks[0] + Concat(chunks[1..]) }

  // ----- the reader -----

  /** The lines passed on when `buf` is held and these chunks arrive; a buffer left over the
      limit without a newline ends the connection. */
  function Passed(buf: Bytes, chunks: seq<Bytes>): seq<Bytes>
    decreases |chunks|
  {
    if chunks == [] then []
    else
      var b := buf + chunks[0];
      Filter(NonBlank(), Lines(b)) + if |Rest(b)| > MAX_LINE_BYTES then [] else Passed(Rest(b), chunks[1..])
  }

  /** A decoded JSON object: its `type`, its message content if that is a string, and its
      priority. */
  datatype Frame = Malformed | Frame(kind: string, content: Option<string>, urgent: bool)

  datatype Class = Delivered(frame: Frame) | Control | Dropped

  /** `parse_inbound_line`, then `parse_control_line`. */
  function Classify(raw: Bytes, decode: Bytes -> Frame): Class {
    if raw == [] || |raw| > MAX_LINE_BYTES || decode(raw).Malformed? then Dropped
    else
      var f := decode(raw);
      if f.kind == "user" && f.content.Some? && f.content.value != "" then Delivered(f)
      else if f.kind == "control" then Control else Dropped
  }

  /** `native_to_local_msg`: nothing of the sender's claim reaches a field that is trusted. */
  function LocalMsg(f: Frame, nick: string, id: string, now: int): Msg
    requires f.Frame? && f.content.Some?
  {
    Msg(id, NATIVE_FROM_ID, nick, now, 0, false, None, f.content.value, Pending, 0, 0, NativeBridge, None)
  }

  method ParseInbound(raw: Bytes, decode: Bytes -> Frame) returns (f: Option<Frame>)
    ensures f.Some? <==> Classify(raw, decode).Delivered?
    ensures f.Some? ==> Classify(raw, decode) == Delivered(f.value) && f.value.Frame? && f.value.content.Some?
  {
    if raw == [] || |raw| > MAX_LINE_BYTES {
      return None;
    }
    var env := decode(raw);
    if env.Malformed? || env.kind != "user" {
      return None;
    }
    if env.content.None? || env.content.value == "" {
      return None;
    }
    return Some(env);
  }

  method ParseControl(raw: Bytes, decode: Bytes -> Frame) returns (yes: bool)
    ensures yes <==> Classify(raw, decode).Control?
  {
    if raw == [] || |raw| > MAX_LINE_BYTES {
      return false;
    }
    var env := decode(raw);
    return env.Frame? && env.kind == "control";
  }

  method FindNl(s: Bytes) returns (k: nat)
    ensures k <= |s| && NoNl(s[..k]) && (k < |s| ==> s[k] == NL)
  {
    k := 0;
    while k < |s| && s[k] != NL
      invariant k <= |s| && NoNl(s[..k])
    {
      k := k + 1;
    }
  }

  /** What a listener has done: messages written, and its two counters. */
  datatype Effect = Effect(inbox: seq<Msg>, delivered: nat, controlSeen: nat)

  class Listener {
    const nick: string
    const decode: Bytes -> Frame
    const ids: nat -> string
    const stamps: nat -> int
    var inbox: seq<Msg>
    var delivered: nat
    var controlSeen: nat

    constructor (nick: string, decode: Bytes -> Frame, ids: nat -> string, stamps: nat -> int)
      ensures this.nick == nick && this.decode == decode && this.ids == ids && this.stamps == stamps
      ensures Done() == Effect([], 0, 0)
    {
      this.nick, this.decode, this.ids, this.stamps := nick, decode, ids, stamps;
      inbox, delivered, controlSeen := [], 0, 0;
    }

    function Done(): Effect
      reads this
    {
      Effect(inbox, delivered, controlSeen)
    }

    function After(e: Effect, raw: Bytes): Effect {
      match Classify(raw, decode)
      case Delivered(f) =>
        var m := LocalMsg(f, nick, ids(e.delivered), stamps(e.delivered));
        e.(inbox := e.inbox + [m], delivered := e.delivered + 1)
      case Control => e.(controlSeen := e.controlSeen + 1)
      case Dropped => e
    }

    function AfterAll(e: Effect, lines: seq<Bytes>): Effect
      decreases |lines|
    {
      if lines == [] then e else AfterAll(After(e, lines[0]), lines[1..])
    }

    lemma {:induction false} AfterAllAppend(e: Effect, a: seq<Bytes>, b: seq<Bytes>)
      ensures AfterAll(e, a + b) == AfterAll(AfterAll(e, a), b)
      decreases |a|
    {
      if a == [] {
        assert a + b == b;
      } else {
        assert (a + b)[1..] == a[1..] + b;
        AfterAllAppend(After(e, a[0]), a[1..], b);
      }
    }

    method Deliver(raw: Bytes)
      modifies this
      ensures Done() == After(old(Done()), raw)
    {
      var env := ParseInbound(raw, decode);
      if env.Some? {
        inbox := inbox + [LocalMsg(env.value, nick, ids(delivered), stamps(delivered))];
        delivered := delivered + 1;
        return;
      }
      var control := ParseControl(raw, decode);
      if control {
        controlSeen := controlSeen + 1;
      }
    }

    /** Split off and deliver every complete line of the buffer. */
    method DrainBuffer(buf: Bytes) returns (rest: Bytes)
      modifies this
      ensures rest == Rest(buf)
      ensures Done() == AfterAll(old(Done()), Filter(NonBlank(), Lines(buf)))
    {
      rest := buf;
      var k := FindNl(rest);
      while k < |rest|
        invariant 0 <= k <= |rest| && NoNl(rest[..k]) && (k < |rest| ==> rest[k] == NL)
        invariant Rest(rest) == Rest(buf)
        invariant AfterAll(Done(), Filter(NonBlank(), Lines(rest))) ==
          AfterAll(old(Done()), Filter(NonBlank(), Lines(buf)))
        decreases |rest|
      {
        var line, next := rest[..k], rest[k + 1..];
        assert rest == line + ([NL] + next);
        FirstLine(line, next);
        assert Lines(rest)[1..] == Lines(next);
        if NonBlank()(line) {
          Deliver(line);
        }
        rest := next;
        k := FindNl(rest);
      }
      assert rest[..k] == rest;
      NoLine(rest);
    }

    /** One connection: chunks until the stream ends or an unterminated line is too long. */
    method Handle(chunks: seq<Bytes>)
      modifies this
      ensures Done() == AfterAll(old(Done()), Passed([], chunks))
    {
      var buf: Bytes := [];
      assert chunks[0..] == chunks;
      var i := 0;
      while i < |chunks|
        invariant 0 <= i <= |chunks|
        invariant AfterAll(Done(), Passed(buf, chunks[i..])) == AfterAll(old(Done()), Passed([], chunks))
      {
        assert chunks[i..][1..] == chunks[i + 1..];
        buf := buf + chunks[i];
        var more := if |Rest(buf)| > MAX_LINE_BYTES then [] else Passed(Rest(buf), chunks[i + 1..]);
        AfterAllAppend(Done(), Filter(NonBlank(), Lines(buf)), more);
        buf := DrainBuffer(buf);
        if |buf| > MAX_LINE_BYTES {
          return;
        }
        i := i + 1;
      }
    }
  }

  function Contents(msgs: seq<Msg>): seq<string> { if msgs == [] then [] else [msgs[0].content] + Contents(msgs[1..]) }

  /** The texts of the lines that decode to a user message, in line order. */
  function TextsOf(decode: Bytes -> Frame, lines: seq<Bytes>): seq<string> {
    if lines == [] then []
    else
      (match Classify(lines[0], decode)
       case Delivered(f) => [f.content.value]
       case _ => []) + TextsOf(decode, lines[1..])
  }

  lemma {:induction false} ContentsAppend(a: seq<Msg>, m: Msg)
    ensures Contents(a + [m]) == Contents(a) + [m.content]
  {
    if a == [] {
      assert a + [m] == [m] && Contents([m][1..]) == [];
    } else {
      assert (a + [m])[1..] == a[1..] + [m];
      ContentsAppend(a[1..], m);
    }
  }

  /** The inbox gains exactly the texts of the delivered lines, in order. */
  lemma {:induction false} TextsArrive(l: Listener, e: Effect, lines: seq<Bytes>)
    ensures Contents(l.AfterAll(e, lines).inbox) == Contents(e.inbox) + TextsOf(l.decode, lines)
    decreases |lines|
  {
    if lines != [] {
      TextsArrive(l, l.After(e, lines[0]), lines[1..]);
      match Classify(lines[0], l.decode) {
        case Delivered(f) =>
          ContentsAppend(e.inbox, LocalMsg(f, l.nick, l.ids(e.delivered), l.stamps(e.delivered)));
          Regroup(Contents(e.inbox), [f.content.value], TextsOf(l.decode, lines[1..]));
        case _ =>
          assert [] + TextsOf(l.decode, lines[1..]) == TextsOf(l.decode, lines[1..]);
      }
    }
  }

  /** Every line is delivered, control or dropped, and each counter and the inbox say how
      many and which: messages appear in line order, all from the bridge's own id. */
  lemma {:induction false} EachLineCounted(l: Listener, e: Effect, lines: seq<Bytes>)
    ensures
      var done := l.AfterAll(e, lines);
      && e.inbox <= done.inbox && |done.inbox| - |e.inbox| == done.delivered - e.delivered
      && done.delivered - e.delivered == |Filter(IsDelivered(l.decode), lines)|
      && done.controlSeen - e.controlSeen == |Filter(IsControl(l.decode), lines)|
      && (forall i :: |e.inbox| <= i < |done.inbox| ==>
            var m := done.inbox[i];
            m.from_ == NATIVE_FROM_ID && m.to == l.nick && m.via == NativeBridge && !m.mustRead && m.state == Pending)
    ensures |Filter(IsDelivered(l.decode), lines)| + |Filter(IsControl(l.decode), lines)| +
      |Filter(IsDropped(l.decode), lines)| == |lines|
    decreases |lines|
  {
    if lines != [] {
      EachLineCounted(l, l.After(e, lines[0]), lines[1..]);
    }
  }

  function IsDelivered(decode: Bytes -> Frame): Bytes -> bool { (raw: Bytes) => Classify(raw, decode).Delivered? }

  function IsControl(decode: Bytes -> Frame): Bytes -> bool { (raw: Bytes) => Classify(raw, decode).Control? }

  function IsDropped(decode: Bytes -> Frame): Bytes -> bool { (raw: Bytes) => Classify(raw, decode).Dropped? }

  // ----- cutting a stream -----

  lemma {:induction false} FeedAppend(st: Split, a: Bytes, b: Bytes)
    ensures Feed(st, a + b) == Feed(Feed(st, a), b)
    decreases |a|
  {
    if a == [] {
      assert a + b == b;
    } else {
      assert (a + b)[1..] == a[1..] + b;
      FeedAppend(if a[0] == NL then Split(st.lines + [st.rest], []) else Split(st.lines, st.rest + [a[0]]), a[1..], b);
    }
  }

  /** Lines already read stay in front. */
  lemma {:induction false} FeedFrom(lines: seq<Bytes>, rest: Bytes, s: Bytes)
    ensures Feed(Split(lines, rest), s).lines == lines + Feed(Split([], rest), s).lines
    ensures Feed(Split(lines, rest), s).rest == Feed(Split([], rest), s).rest
    decreases |s|
  {
    if s != [] {
      if s[0] == NL {
        FeedFrom(lines + [rest], [], s[1..]);
        FeedFrom([rest], [], s[1..]);
        assert [] + [rest] == [rest];
      } else {
        FeedFrom(lines, rest + [s[0]], s[1..]);
      }
    }
  }

  /** Without a newline only the held part grows. */
  lemma {:induction false} FeedNoNl(st: Split, s: Bytes)
    requires NoNl(s)
    ensures Feed(st, s) == Split(st.lines, st.rest + s)
    decreases |s|
  {
    if s == [] {
      assert st.rest + s == st.rest;
    } else {
      FeedNoNl(Split(st.lines, st.rest + [s[0]]), s[1..]);
      assert (st.rest + [s[0]]) + s[1..] == st.rest + s;
    }
  }

  lemma NoLine(s: Bytes)
    requires NoNl(s)
    ensures Lines(s) == [] && Rest(s) == s
  {
    FeedNoNl(Split([], []), s);
  }

  lemma FirstLine(line: Bytes, next: Bytes)
    requires NoNl(line)
    ensures Lines(line + ([NL] + next)) == [line] + Lines(next) && Rest(line + ([NL] + next)) == Rest(next)
  {
    FeedAppend(Split([], []), line, [NL] + next);
    FeedNoNl(Split([], []), line);
    assert ([NL] + next)[1..] == next && [] + line == line && [] + [line] == [line];
    FeedFrom([line], [], next);
  }

  /** Reading `a` and then `b` gives the lines of `a`, then those of the rest of `a` with `b`. */
  lemma LinesAppend(a: Bytes, b: Bytes)
    ensures Lines(a + b) == Lines(a) + Lines(Rest(a) + b)
    ensures Rest(a + b) == Rest(Rest(a) + b)
  {
    FeedAppend(Split([], []), a, b);
    RestHasNoNl(a);
    FeedAppend(Split([], []), Rest(a), b);
    FeedNoNl(Split([], []), Rest(a));
    assert [] + Rest(a) == Rest(a);
    FeedFrom(Lines(a), Rest(a), b);
  }

  lemma {:induction false} FeedKeepsNoNl(st: Split, s: Bytes)
    requires NoNl(st.rest) && forall l :: l in st.lines ==> NoNl(l)
    ensures NoNl(Feed(st, s).rest) && forall l :: l in Feed(st, s).lines ==> NoNl(l)
    decreases |s|
  {
    if s != [] {
      FeedKeepsNoNl(if s[0] == NL then Split(st.lines + [st.rest], []) else Split(st.lines, st.rest + [s[0]]), s[1..]);
    }
  }

  lemma RestHasNoNl(s: Bytes)
    ensures NoNl(Rest(s)) && Lines(Rest(s)) == [] && Rest(Rest(s)) == Rest(s)
  {
    FeedKeepsNoNl(Split([], []), s);
    NoLine(Rest(s));
  }

  function Joined(lines: seq<Bytes>): Bytes {
    if lines == [] then [] else Joined(lines[..|lines| - 1]) + lines[|lines| - 1] + [NL]
  }

  lemma {:induction false} FeedJoins(st: Split, s: Bytes)
    ensures Joined(Feed(st, s).lines) + Feed(st, s).rest == Joined(st.lines) + st.rest + s
    decreases |s|
  {
    if s == [] {
      assert Joined(st.lines) + st.rest + s == Joined(st.lines) + st.rest;
    } else if s[0] == NL {
      var next := Split(st.lines + [st.rest], []);
      FeedJoins(next, s[1..]);
      assert next.lines[..|next.lines| - 1] == st.lines;
      assert Joined(next.lines) + [] + s[1..] == Joined(st.lines) + st.rest + s;
    } else {
      FeedJoins(Split(st.lines, st.rest + [s[0]]), s[1..]);
      assert Joined(st.lines) + (st.rest + [s[0]]) + s[1..] == Joined(st.lines) + st.rest + s;
    }
  }

  /** `Lines` and `Rest` take a stream apart at its newlines and nowhere else. */
  lemma LinesAreSegments(s: Bytes)
    ensures Joined(Lines(s)) + Rest(s) == s
    ensures NoNl(Rest(s)) && forall l :: l in Lines(s) ==> NoNl(l)
  {
    FeedJoins(Split([], []), s);
    FeedKeepsNoNl(Split([], []), s);
    assert Joined([]) + [] + s == s;
  }

  ghost predicate NoneTooLong(lines: seq<Bytes>) { forall l :: l in lines ==> |l| <= MAX_LINE_BYTES }

  lemma HeldPartComesBack(buf: Bytes, more: Bytes) returns (line: Bytes)
    requires NoNl(buf) && !NoNl(more)
    ensures line in Lines(buf + more) && |line| >= |buf|
  {
    HasFirstNl(more);
    var k: nat :| k < |more| && more[k] == NL && NoNl(more[..k]);
    var next := more[k + 1..];
    line := buf + more[..k];
    assert buf + more == line + ([NL] + next);
    FirstLine(line, next);
  }

  /** If a held part of a line is already too long, no complete line of acceptable length
      can follow it. */
  lemma TooLongEndsStream(buf: Bytes, more: Bytes)
    requires NoNl(buf) && |buf| > MAX_LINE_BYTES && NoneTooLong(Lines(buf + more))
    ensures Lines(buf + more) == []
  {
    if NoNl(more) {
      NoLine(buf + more);
    } else {
      var line := HeldPartComesBack(buf, more);
    }
  }

  lemma {:induction false} HasFirstNl(s: Bytes)
    requires !NoNl(s)
    ensures exists k: nat :: k < |s| && s[k] == NL && NoNl(s[..k])
  {
    if s[0] == NL {
      assert NoNl(s[..0]);
    } else {
      HasFirstNl(s[1..]);
      var k: nat :| k < |s[1..]| && s[1..][k] == NL && NoNl(s[1..][..k]);
      assert s[k + 1] == NL;
      var head := s[..k + 1];
      forall i | 0 <= i < |head| ensures head[i] != NL {
        assert i > 0 ==> head[i] == s[1..][..k][i - 1];
      }
    }
  }

  lemma {:induction false} PassedIsLines(buf: Bytes, chunks: seq<Bytes>)
    requires NoNl(buf) && NoneTooLong(Lines(buf + Concat(chunks)))
    ensures Passed(buf, chunks) == Filter(NonBlank(), Lines(buf + Concat(chunks)))
    decreases |chunks|
  {
    if chunks == [] {
      assert buf + Concat(chunks) == buf;
      NoLine(buf);
    } else {
      var b, more := buf + chunks[0], Concat(chunks[1..]);
      assert buf + Concat(chunks) == b + more;
      LinesAppend(b, more);
      RestHasNoNl(b);
      FilterAppend(NonBlank(), Lines(b), Lines(Rest(b) + more));
      assert forall l :: l in Lines(Rest(b) + more) ==> l in Lines(b + more);
      if |Rest(b)| > MAX_LINE_BYTES {
        TooLongEndsStream(Rest(b), more);
      } else {
        PassedIsLines(Rest(b), chunks[1..]);
      }
    }
  }

  /** Framing does not depend on the cuts: however a stream with no over-long line arrives,
      exactly its non-blank newline-terminated segments are passed on, in order. */
  lemma ChunkIndependent(chunks: seq<Bytes>)
    requires NoneTooLong(Lines(Concat(chunks)))
    ensures Passed([], chunks) == Filter(NonBlank(), Lines(Concat(chunks)))
  {
    assert [] + Concat(chunks) == Concat(chunks);
    PassedIsLines([], chunks);
  }

  // ----- over-long lines -----

  ghost predicate ChunksOf(chunks: seq<Bytes>, s: Bytes) {
    Concat(chunks) == s && forall i :: 0 <= i < |chunks| ==> 0 < |chunks[i]| <= RECV_BYTES
  }

  ghost predicate AlwaysPassed(line: Bytes) {
    forall chunks :: ChunksOf(chunks, line + [NL]) ==> Passed([], chunks) == [line]
  }

  ghost predicate NeverPassed(line: Bytes) {
    forall chunks :: ChunksOf(chunks, line + [NL]) ==> Passed([], chunks) == []
  }

  function Pieces(s: Bytes): seq<Bytes>
    decreases |s|
  {
    if |s| <= RECV_BYTES then (if s == [] then [] else [s]) else [s[..RECV_BYTES]] + Pieces(s[RECV_BYTES..])
  }

  lemma {:induction false} ConcatAppend(a: seq<Bytes>, last: Bytes)
    ensures Concat(a + [last]) == Concat(a) + last
  {
    if a == [] {
      assert a + [last] == [last] && Concat([last]) == last + Concat([last][1..]) && [last][1..] == [];
    } else {
      assert (a + [last])[1..] == a[1..] + [last];
      ConcatAppend(a[1..], last);
    }
  }

  lemma {:induction false} PiecesWhole(s: Bytes)
    ensures Concat(Pieces(s)) == s
    ensures forall i :: 0 <= i < |Pieces(s)| ==> 0 < |Pieces(s)[i]| <= RECV_BYTES
    decreases |s|
  {
    if s == [] {
    } else if |s| <= RECV_BYTES {
      assert Concat([s]) == s + Concat([s][1..]) && [s][1..] == [];
    } else {
      PiecesWhole(s[RECV_BYTES..]);
      assert Pieces(s)[1..] == Pieces(s[RECV_BYTES..]);
      assert s == s[..RECV_BYTES] + s[RECV_BYTES..];
    }
  }

  lemma PiecesConcat(s: Bytes, last: Bytes)
    requires 0 < |last| <= RECV_BYTES
    ensures ChunksOf(Pieces(s) + [last], s + last)
  {
    PiecesWhole(s);
    ConcatAppend(Pieces(s), last);
  }

  /** Feeding a stretch without newline piece by piece only fills the buffer, until it is
      too long. */
  lemma {:induction false} PiecesFill(buf: Bytes, s: Bytes, after: seq<Bytes>)
    requires NoNl(buf + s) && |buf| <= MAX_LINE_BYTES
    ensures Passed(buf, Pieces(s) + after) == if |buf + s| <= MAX_LINE_BYTES then Passed(buf + s, after) else []
    decreases |s|
  {
    if s == [] {
      assert Pieces(s) + after == after && buf + s == buf;
    } else {
      var n := if |s| <= RECV_BYTES then |s| else RECV_BYTES;
      var b := buf + s[..n];
      assert buf + s == b + s[n..];
      assert NoNl(b) by { assert b == (buf + s)[..|b|]; }
      NoLine(b);
      assert (Pieces(s) + after)[0] == s[..n];
      assert (Pieces(s) + after)[1..] == Pieces(s[n..]) + after;
      if |b| <= MAX_LINE_BYTES {
        PiecesFill(b, s[n..], after);
      }
    }
  }

  lemma OneLine(line: Bytes)
    requires NoNl(line)
    ensures Lines(line + [NL]) == [line] && Rest(line + [NL]) == []
  {
    FirstLine(line, []);
    assert [NL] + [] == [NL];
    NoLine([]);
  }

  lemma LineThenEnd(buf: Bytes, end: Bytes)
    requires NoNl(buf + end) && NonBlank()(buf + end)
    ensures Passed(buf, [end + [NL]]) == [buf + end]
  {
    var line := buf + end;
    assert buf + (end + [NL]) == line + [NL];
    OneLine(line);
    assert Filter(NonBlank(), [line]) == [line];
    assert [end + [NL]][1..] == [] && Passed([], []) == [];
  }

  /** Cut right before its newline, an over-long line is lost. */
  lemma CutBeforeNewline(line: Bytes)
    requires NoNl(line) && |line| > MAX_LINE_BYTES
    ensures ChunksOf(Pieces(line) + [[NL]], line + [NL]) && Passed([], Pieces(line) + [[NL]]) == []
  {
    PiecesConcat(line, [NL]);
    assert [] + line == line;
    PiecesFill([], line, [[NL]]);
  }

  /** Read with its newline in one full chunk, a line up to one read over the limit passes. */
  lemma CutLate(line: Bytes) returns (chunks: seq<Bytes>)
    requires NoNl(line) && NonBlank()(line) && MAX_LINE_BYTES < |line| < MAX_LINE_BYTES + RECV_BYTES
    ensures ChunksOf(chunks, line + [NL]) && Passed([], chunks) == [line]
  {
    var p := |line| + 1 - RECV_BYTES;
    var head, end := line[..p], line[p..];
    assert line == head + end;
    chunks := Pieces(head) + [end + [NL]];
    assert line + [NL] == head + (end + [NL]);
    PiecesConcat(head, end + [NL]);
    assert NoNl(head) by { assert head == line[..p]; }
    assert [] + head == head;
    PiecesFill([], head, [end + [NL]]);
    LineThenEnd(head, end);
  }

  lemma {:induction false} FarTooLong(buf: Bytes, chunks: seq<Bytes>, line: Bytes)
    requires NoNl(line) && |line| >= MAX_LINE_BYTES + RECV_BYTES
    requires buf + Concat(chunks) == line + [NL] && |buf| <= MAX_LINE_BYTES
    requires forall i :: 0 <= i < |chunks| ==> |chunks[i]| <= RECV_BYTES
    ensures Passed(buf, chunks) == []
    decreases |chunks|
  {
    if chunks != [] {
      var b := buf + chunks[0];
      var all := line + [NL];
      assert b + Concat(chunks[1..]) == all;
      assert |b| <= |line|;
      assert b == all[..|b|] == line[..|b|];
      assert NoNl(b);
      NoLine(b);
      if |b| <= MAX_LINE_BYTES {
        FarTooLong(b, chunks[1..], line);
      }
    }
  }

  lemma ShortLinePasses(line: Bytes)
    requires NoNl(line) && NonBlank()(line) && |line| <= MAX_LINE_BYTES
    ensures AlwaysPassed(line)
  {
    OneLine(line);
    assert Filter(NonBlank(), [line]) == [line];
    forall chunks | ChunksOf(chunks, line + [NL]) ensures Passed([], chunks) == [line] {
      ChunkIndependent(chunks);
    }
  }

  lemma FarTooLongNeverPasses(line: Bytes)
    requires NoNl(line) && |line| >= MAX_LINE_BYTES + RECV_BYTES
    ensures NeverPassed(line)
  {
    forall chunks | ChunksOf(chunks, line + [NL]) ensures Passed([], chunks) == [] {
      assert [] + Concat(chunks) == line + [NL];
      FarTooLong([], chunks, line);
    }
  }

  /** Whether the reader gets past one line: up to the limit always, from one full read over
      the limit on never, and in between it depends on where the last chunk begins. Parsing
      drops a line over the limit even if it gets there; the cuts decide what comes after. */
  lemma LineFateIff(line: Bytes)
    requires NoNl(line) && NonBlank()(line)
    ensures AlwaysPassed(line) <==> |line| <= MAX_LINE_BYTES
    ensures NeverPassed(line) <==> |line| >= MAX_LINE_BYTES + RECV_BYTES
  {
    if |line| <= MAX_LINE_BYTES {
      ShortLinePasses(line);
      SometimesPassed(line, PiecesOf(line));
    } else if |line| < MAX_LINE_BYTES + RECV_BYTES {
      CutBeforeNewline(line);
      SometimesLost(line, PiecesOf(line));
      var chunks := CutLate(line);
      SometimesPassed(line, chunks);
    } else {
      CutBeforeNewline(line);
      SometimesLost(line, PiecesOf(line));
      FarTooLongNeverPasses(line);
    }
  }

  function PiecesOf(line: Bytes): (chunks: seq<Bytes>)
    ensures ChunksOf(chunks, line + [NL])
  {
    PiecesConcat(line, [NL]);
    Pieces(line) + [[NL]]
  }

  lemma SometimesPassed(line: Bytes, chunks: seq<Bytes>)
    requires ChunksOf(chunks, line + [NL]) && (AlwaysPassed(line) || Passed([], chunks) == [line])
    ensures !NeverPassed(line)
  {
    assert Passed([], chunks) == [line];
  }

  lemma SometimesLost(line: Bytes, chunks: seq<Bytes>)
    requires ChunksOf(chunks, line + [NL]) && Passed([], chunks) == []
    ensures !AlwaysPassed(line)
  {
  }

  // ----- what the cuts decide -----

  /** Reading stops after `n` lines: at the end, or in front of a line over the limit. */
  predicate StopsAt(lines: seq<Bytes>, n: nat) {
    n <= |lines| && (n == |lines| || |lines[n]| > MAX_LINE_BYTES)
  }

  /** Whatever the cuts, what is passed on is the non-blank lines in front of some line over
      the limit, or all of them. */
  lemma {:induction false} PassedIsPrefix(buf: Bytes, chunks: seq<Bytes>) returns (n: nat)
    requires NoNl(buf)
    ensures StopsAt(Lines(buf + Concat(chunks)), n)
    ensures Passed(buf, chunks) == Filter(NonBlank(), Lines(buf + Concat(chunks))[..n])
    decreases |chunks|
  {
    if chunks == [] {
      assert buf + Concat(chunks) == buf;
      NoLine(buf);
      n := 0;
    } else {
      var b, more := buf + chunks[0], Concat(chunks[1..]);
      assert buf + Concat(chunks) == b + more;
      LinesAppend(b, more);
      RestHasNoNl(b);
      var first, later := Lines(b), Lines(Rest(b) + more);
      if |Rest(b)| > MAX_LINE_BYTES {
        n := |first|;
        assert (first + later)[..n] == first;
        FirstLineKeeps(Rest(b), more);
      } else {
        var k := PassedIsPrefix(Rest(b), chunks[1..]);
        n := |first| + k;
        assert (first + later)[..n] == first + later[..k];
        FilterAppend(NonBlank(), first, later[..k]);
      }
    }
  }

  /** A line begun with `buf` is at least as long. */
  lemma FirstLineKeeps(buf: Bytes, more: Bytes)
    requires NoNl(buf)
    ensures Lines(buf + more) != [] ==> |Lines(buf + more)[0]| >= |buf|
  {
    if NoNl(more) {
      NoLine(buf + more);
    } else {
      HasFirstNl(more);
      var k: nat :| k < |more| && more[k] == NL && NoNl(more[..k]);
      assert buf + more == (buf + more[..k]) + ([NL] + more[k + 1..]);
      FirstLine(buf + more[..k], more[k + 1..]);
    }
  }

  /** If the held part of a line gets too long before the chunks end, reading ends with the
      lines there were, whatever would follow. */
  lemma {:induction false} StopsInside(buf: Bytes, chunks: seq<Bytes>, more: seq<Bytes>)
    requires NoNl(buf) && |buf| <= MAX_LINE_BYTES
    requires NoneTooLong(Lines(buf + Concat(chunks))) && |Rest(buf + Concat(chunks))| > MAX_LINE_BYTES
    ensures Passed(buf, chunks + more) == Filter(NonBlank(), Lines(buf + Concat(chunks)))
    decreases |chunks|
  {
    if chunks == [] {
      assert buf + Concat(chunks) == buf;
      NoLine(buf);
    } else {
      var b, later := buf + chunks[0], Concat(chunks[1..]);
      assert buf + Concat(chunks) == b + later;
      assert (chunks + more)[0] == chunks[0] && (chunks + more)[1..] == chunks[1..] + more;
      LinesAppend(b, later);
      RestHasNoNl(b);
      FilterAppend(NonBlank(), Lines(b), Lines(Rest(b) + later));
      assert forall l :: l in Lines(Rest(b) + later) ==> l in Lines(b + later);
      if |Rest(b)| > MAX_LINE_BYTES {
        TooLongEndsStream(Rest(b), later);
      } else {
        StopsInside(Rest(b), chunks[1..], more);
      }
    }
  }

  lemma {:induction false} LinesOfJoined(lines: seq<Bytes>, tail: Bytes)
    requires forall l :: l in lines ==> NoNl(l)
    ensures Lines(Joined(lines) + tail) == lines + Lines(tail) && Rest(Joined(lines) + tail) == Rest(tail)
  {
    if lines == [] {
      assert Joined(lines) + tail == tail;
    } else {
      var n := |lines| - 1;
      assert Joined(lines) + tail == Joined(lines[..n]) + (lines[n] + ([NL] + tail));
      LinesOfJoined(lines[..n], lines[n] + ([NL] + tail));
      FirstLine(lines[n], tail);
      assert lines == lines[..n] + [lines[n]];
    }
  }

  lemma {:induction false} JoinedAppend(a: seq<Bytes>, b: seq<Bytes>)
    ensures Joined(a + b) == Joined(a) + Joined(b)
  {
    if b == [] {
      assert a + b == a;
    } else {
      var n := |b| - 1;
      assert (a + b)[..|a + b| - 1] == a + b[..n];
      JoinedAppend(a, b[..n]);
    }
  }

  lemma {:induction false} ConcatOfTwo(a: seq<Bytes>, b: seq<Bytes>)
    ensures Concat(a + b) == Concat(a) + Concat(b)
  {
    if a == [] {
      assert a + b == b;
    } else {
      assert (a + b)[1..] == a[1..] + b;
      ConcatOfTwo(a[1..], b);
    }
  }

  lemma JoinBoth(a: seq<Bytes>, b: seq<Bytes>, s: Bytes)
    requires ChunksOf(a, Concat(a)) && ChunksOf(b, Concat(b)) && s == Concat(a) + Concat(b)
    ensures ChunksOf(a + b, s)
  {
    ConcatOfTwo(a, b);
  }

  lemma AroundLine(s: Bytes, j: nat)
    requires j < |Lines(s)|
    ensures
      var lines := Lines(s);
      s == Joined(lines[..j]) + lines[j] + ([NL] + (Joined(lines[j + 1..]) + Rest(s)))
  {
    var lines := Lines(s);
    var line, later := lines[j], lines[j + 1..];
    LinesAreSegments(s);
    assert lines == lines[..j] + ([line] + later);
    JoinedAppend(lines[..j], [line] + later);
    JoinedAppend([line], later);
    assert [line][..0] == [];
    assert Joined([line]) == line + [NL];
    Regroup(Joined(lines[..j]) + line, [NL], Joined(later) + Rest(s));
  }

  /** A stream can be cut so that reading stops in front of its first line over the limit. */
  lemma CutAt(s: Bytes, j: nat) returns (chunks: seq<Bytes>)
    requires j < |Lines(s)| && |Lines(s)[j]| > MAX_LINE_BYTES && NoneTooLong(Lines(s)[..j])
    ensures ChunksOf(chunks, s) && Passed([], chunks) == Filter(NonBlank(), Lines(s)[..j])
  {
    var lines := Lines(s);
    LinesAreSegments(s);
    var head, line := Joined(lines[..j]), lines[j];
    var tail := [NL] + (Joined(lines[j + 1..]) + Rest(s));
    AroundLine(s, j);
    PiecesWhole(head + line);
    PiecesWhole(tail);
    chunks := Pieces(head + line) + Pieces(tail);
    JoinBoth(Pieces(head + line), Pieces(tail), s);
    LinesOfJoined(lines[..j], line);
    NoLine(line);
    assert [] + Concat(Pieces(head + line)) == head + line;
    assert lines[..j] + [] == lines[..j];
    StopsInside([], Pieces(head + line), Pieces(tail));
  }

  lemma FirstTooLong(lines: seq<Bytes>, j: nat) returns (k: nat)
    requires j < |lines| && |lines[j]| > MAX_LINE_BYTES
    ensures k <= j && |lines[k]| > MAX_LINE_BYTES && NoneTooLong(lines[..k])
  {
    k := 0;
    while |lines[k]| <= MAX_LINE_BYTES
      invariant k <= j && NoneTooLong(lines[..k])
      decreases j - k
    {
      assert lines[..k + 1] == lines[..k] + [lines[k]];
      k := k + 1;
    }
  }

  /** Nothing that counts stands at or behind a line over the limit. */
  ghost predicate QuietBehind(lines: seq<Bytes>, counts: Bytes -> bool) {
    forall j :: 0 <= j < |lines| && |lines[j]| > MAX_LINE_BYTES ==>
      forall l :: l in lines[j..] && NonBlank()(l) ==> !counts(l)
  }

  /** Every cut passes on exactly the non-blank lines of the stream. */
  ghost predicate CutsPassAll(s: Bytes) {
    forall chunks :: ChunksOf(chunks, s) ==> Passed([], chunks) == Filter(NonBlank(), Lines(s))
  }

  /** Exactly the streams whose lines do not depend on the cuts: no non-blank line stands at
      or behind a line over the limit. */
  lemma CutsPassAllIff(s: Bytes)
    ensures CutsPassAll(s) <==> QuietBehind(Lines(s), _ => true)
  {
    var lines := Lines(s);
    if CutsPassAll(s) {
      forall j | 0 <= j < |lines| && |lines[j]| > MAX_LINE_BYTES
        ensures forall l :: l in lines[j..] ==> !NonBlank()(l)
      {
        var k := FirstTooLong(lines, j);
        var chunks := CutAt(s, k);
        SplitFilter(lines, k);
        FilterElements(NonBlank(), lines[k..]);
        assert lines[j..] == lines[k..][j - k..];
      }
    }
    if QuietBehind(lines, _ => true) {
      forall chunks | ChunksOf(chunks, s) ensures Passed([], chunks) == Filter(NonBlank(), lines) {
        assert [] + Concat(chunks) == s;
        var n := PassedIsPrefix([], chunks);
        SplitFilter(lines, n);
        FilterNone(NonBlank(), lines[n..]);
      }
    }
  }

  lemma SplitFilter(lines: seq<Bytes>, n: nat)
    requires n <= |lines|
    ensures Filter(NonBlank(), lines) == Filter(NonBlank(), lines[..n]) + Filter(NonBlank(), lines[n..])
  {
    assert lines == lines[..n] + lines[n..];
    FilterAppend(NonBlank(), lines[..n], lines[n..]);
  }

  /** The parser takes the line: a message, or a control frame that is counted. */
  function Counts(decode: Bytes -> Frame): Bytes -> bool { (raw: Bytes) => !Classify(raw, decode).Dropped? }

  lemma {:induction false} EffectSameIff(l: Listener, e: Effect, lines: seq<Bytes>)
    ensures l.AfterAll(e, lines) == e <==> forall x :: x in lines ==> !Counts(l.decode)(x)
    ensures l.AfterAll(e, lines).delivered + l.AfterAll(e, lines).controlSeen >= e.delivered + e.controlSeen
    decreases |lines|
  {
    if lines != [] {
      var next := l.After(e, lines[0]);
      EffectSameIff(l, next, lines[1..]);
      assert lines[0] in lines && forall x :: x in lines <==> x == lines[0] || x in lines[1..];
      assert Counts(l.decode)(lines[0]) ==> next.delivered + next.controlSeen > e.delivered + e.controlSeen;
      assert !Counts(l.decode)(lines[0]) ==> next == e;
    }
  }

  /** Every cut has the effect of delivering all non-blank lines of the stream. */
  ghost predicate CutsAgree(l: Listener, e: Effect, s: Bytes) {
    forall chunks :: ChunksOf(chunks, s) ==>
      l.AfterAll(e, Passed([], chunks)) == l.AfterAll(e, Filter(NonBlank(), Lines(s)))
  }

  /** What the cuts of a connection can lose: its effect on inbox and counters is that of all
      its lines, however it is cut, exactly when no line that the parser takes stands behind a
      line over the limit, which the parser itself never takes. */
  lemma CutsAgreeIff(l: Listener, e: Effect, s: Bytes)
    ensures CutsAgree(l, e, s) <==> QuietBehind(Lines(s), Counts(l.decode))
  {
    var lines := Lines(s);
    if CutsAgree(l, e, s) {
      forall j | 0 <= j < |lines| && |lines[j]| > MAX_LINE_BYTES
        ensures forall x :: x in lines[j..] && NonBlank()(x) ==> !Counts(l.decode)(x)
      {
        var k := FirstTooLong(lines, j);
        var chunks := CutAt(s, k);
        EffectOfSplit(l, e, lines, k);
        FilterElements(NonBlank(), lines[k..]);
        assert lines[j..] == lines[k..][j - k..];
      }
    }
    if QuietBehind(lines, Counts(l.decode)) {
      forall chunks | ChunksOf(chunks, s)
        ensures l.AfterAll(e, Passed([], chunks)) == l.AfterAll(e, Filter(NonBlank(), lines))
      {
        assert [] + Concat(chunks) == s;
        var n := PassedIsPrefix([], chunks);
        EffectOfSplit(l, e, lines, n);
        FilterElements(NonBlank(), lines[n..]);
      }
    }
  }

  lemma EffectOfSplit(l: Listener, e: Effect, lines: seq<Bytes>, n: nat)
    requires n <= |lines|
    ensures l.AfterAll(e, Filter(NonBlank(), lines)) == l.AfterAll(e, Filter(NonBlank(), lines[..n])) <==>
      forall x :: x in Filter(NonBlank(), lines[n..]) ==> !Counts(l.decode)(x)
  {
    SplitFilter(lines, n);
    l.AfterAllAppend(e, Filter(NonBlank(), lines[..n]), Filter(NonBlank(), lines[n..]));
    EffectSameIff(l, l.AfterAll(e, Filter(NonBlank(), lines[..n])), Filter(NonBlank(), lines[n..]));
  }
}
