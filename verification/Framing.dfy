/** Newline framing of the C++ client: the receive loop, the send loop, and what survives the trip. */
module Framing {
  import opened BitStream

  const NEWLINE: byte := 10
  const RETURN: byte := 13
  const MAX_LINE_BYTES := 1048576
  const RECV_CHUNK_BYTES := 4096

  type Line = seq<byte>

  // ----- What a byte stream means ------------------------------------------

  /** The position of the first newline, or the length when there is none. */
  function FirstNewline(s: seq<byte>): (n: nat)
    ensures n <= |s| && NEWLINE !in s[..n] && (n < |s| ==> s[n] == NEWLINE)
  {
    if s == [] || s[0] == NEWLINE then 0
    else
      assert forall k :: 0 <= k < 1 + FirstNewline(s[1..]) ==> s[k] == ([s[0]] + s[1..])[k];
      1 + FirstNewline(s[1..])
  }

  function StripReturn(frame: Line): Line {
    if frame != [] && frame[|frame| - 1] == RETURN then frame[..|frame| - 1] else frame
  }

  /** What a complete frame hands to the handler: nothing if it is empty once stripped. */
  function Handed(frame: Line): seq<Line> {
    if StripReturn(frame) == [] then [] else [StripReturn(frame)]
  }

  /** The lines of a stream: its complete frames, up to the first one that is too long. */
  function Lines(s: seq<byte>): seq<Line>
    decreases |s|
  {
    var n := FirstNewline(s);
    if n == |s| || n > MAX_LINE_BYTES then [] else Handed(s[..n]) + Lines(s[n + 1..])
  }

  /** The bytes after the last complete frame; a stream with a frame that is too long has none to wait for. */
  function Rest(s: seq<byte>): seq<byte>
    decreases |s|
  {
    var n := FirstNewline(s);
    if n == |s| || n > MAX_LINE_BYTES then s else Rest(s[n + 1..])
  }

  /** Some frame, complete or not, is too long. */
  predicate Overlong(s: seq<byte>)
    decreases |s|
  {
    var n := FirstNewline(s);
    n > MAX_LINE_BYTES || (n < |s| && Overlong(s[n + 1..]))
  }

  lemma NewlineOfConcat(a: seq<byte>, b: seq<byte>)
    ensures FirstNewline(a) < |a| ==> FirstNewline(a + b) == FirstNewline(a)
    ensures FirstNewline(a) == |a| ==> FirstNewline(a + b) == |a| + FirstNewline(b)
  {
    FirstIsUnique(a + b, if FirstNewline(a) < |a| then FirstNewline(a) else |a| + FirstNewline(b));
  }

  lemma FirstIsUnique(s: seq<byte>, n: nat)
    requires n <= |s| && NEWLINE !in s[..n] && (n < |s| ==> s[n] == NEWLINE)
    ensures FirstNewline(s) == n
  {
    var m := FirstNewline(s);
    assert forall k :: 0 <= k < n ==> s[k] == s[..n][k];
    assert forall k :: 0 <= k < m ==> s[k] == s[..m][k];
  }

  /** More bytes extend the lines: the rest of what came before is continued by what comes next. */
  lemma {:induction false} LinesOfConcat(a: seq<byte>, b: seq<byte>)
    ensures if Overlong(a) then Lines(a + b) == Lines(a)
            else Lines(a + b) == Lines(a) + Lines(Rest(a) + b) && Rest(a + b) == Rest(Rest(a) + b)
                 && (Overlong(a + b) <==> Overlong(Rest(a) + b))
    decreases |a|
  {
    hide FirstNewline, Handed;
    NewlineOfConcat(a, b);
    var n := FirstNewline(a);
    NewlineBound(a);
    NewlineBound(b);
    if n < |a| && n <= MAX_LINE_BYTES {
      assert (a + b)[..n] == a[..n] && (a + b)[n + 1..] == a[n + 1..] + b;
      LinesOfConcat(a[n + 1..], b);
    }
  }

  lemma NewlineBound(s: seq<byte>)
    ensures FirstNewline(s) <= |s|
  {
  }

  /** One complete frame taken off the front. */
  lemma FrameOff(s: seq<byte>)
    requires FirstNewline(s) < |s| && FirstNewline(s) <= MAX_LINE_BYTES
    ensures var n := FirstNewline(s);
            && Lines(s) == Handed(s[..n]) + Lines(s[n + 1..])
            && Rest(s) == Rest(s[n + 1..]) && (Overlong(s) <==> Overlong(s[n + 1..]))
  {
    hide FirstNewline, Handed, Lines, Rest, Overlong;
    var n := FirstNewline(s);
    LinesOff(s, n, s[..n], s[n + 1..]);
    RestOff(s, n, s[n + 1..]);
    OverlongOff(s, n, s[n + 1..]);
  }

  lemma LinesOff(s: seq<byte>, n: nat, frame: Line, rest: seq<byte>)
    requires n == FirstNewline(s) && n < |s| && n <= MAX_LINE_BYTES && frame == s[..n] && rest == s[n + 1..]
    ensures Lines(s) == Handed(frame) + Lines(rest)
  {
    hide FirstNewline, Handed, Rest, Overlong;
  }

  lemma RestOff(s: seq<byte>, n: nat, rest: seq<byte>)
    requires n == FirstNewline(s) && n < |s| && n <= MAX_LINE_BYTES && rest == s[n + 1..]
    ensures Rest(s) == Rest(rest)
  {
    hide FirstNewline, Handed, Lines, Overlong;
  }

  lemma OverlongOff(s: seq<byte>, n: nat, rest: seq<byte>)
    requires n == FirstNewline(s) && n < |s| && n <= MAX_LINE_BYTES && rest == s[n + 1..]
    ensures Overlong(s) <==> Overlong(rest)
  {
    hide FirstNewline, Handed, Lines, Rest;
  }

  /** No complete frame left that may be handed over. */
  lemma NoFrame(s: seq<byte>)
    requires FirstNewline(s) == |s| || FirstNewline(s) > MAX_LINE_BYTES
    ensures Lines(s) == [] && Rest(s) == s && (Overlong(s) <==> FirstNewline(s) > MAX_LINE_BYTES)
  {
    hide FirstNewline;
  }

  lemma NothingYet()
    ensures Lines([]) == [] && Rest([]) == [] && !Overlong([])
  {
  }

  // ----- The receive loop --------------------------------------------------

  function Joined(chunks: seq<seq<byte>>): seq<byte> {
    if chunks == [] then [] else Joined(chunks[..|chunks| - 1]) + chunks[|chunks| - 1]
  }

  class Receiver {
    var buffer: seq<byte>
    var handled: seq<Line>
    var open: bool

    constructor ()
      ensures buffer == [] && handled == [] && open
    {
      buffer, handled, open := [], [], true;
    }

    /**
      Runs the receive loop over the chunks recv returns until the connection ends. However the stream is cut into
      chunks, the handler gets exactly the lines of the stream, and the connection is closed at the end.
      */
    method RunReceiveLoop(chunks: seq<seq<byte>>)
      requires forall i :: 0 <= i < |chunks| ==> 0 < |chunks[i]| <= RECV_CHUNK_BYTES
      requires open
      modifies this
      ensures handled == old(handled) + Lines(Joined(chunks)) && !open
    {
      hide Lines, Rest, Overlong;
      buffer := [];
      var i := 0;
      NothingYet();
      while i < |chunks|
        invariant 0 <= i <= |chunks| && open
        invariant !Overlong(Joined(chunks[..i])) && buffer == Rest(Joined(chunks[..i]))
        invariant handled == old(handled) + Lines(Joined(chunks[..i]))
      {
        assert Joined(chunks[..i + 1]) == Joined(chunks[..i]) + chunks[i] by {
          assert chunks[..i + 1][..i] == chunks[..i];
        }
        LinesOfConcat(Joined(chunks[..i]), chunks[i]);
        buffer := buffer + chunks[i];
        var tooLong := Drain();
        if tooLong || |buffer| > MAX_LINE_BYTES {
          StaysOverlong(chunks, i + 1);
          open := false;
          return;
        }
        i := i + 1;
      }
      assert chunks[..i] == chunks;
      open := false;
    }

    /** Hands over every complete frame of the buffer; stops at one that is too long. */
    method Drain() returns (tooLong: bool)
      modifies this`buffer, this`handled
      ensures handled == old(handled) + Lines(old(buffer))
      ensures tooLong || |buffer| > MAX_LINE_BYTES <==> Overlong(old(buffer))
      ensures !Overlong(old(buffer)) ==> buffer == Rest(old(buffer))
    {
      hide FirstNewline, Lines, Rest, Overlong;
      var newline := FirstNewline(buffer);
      NewlineBound(buffer);
      while newline < |buffer|
        invariant newline == FirstNewline(buffer) <= |buffer|
        invariant handled + Lines(buffer) == old(handled) + Lines(old(buffer))
        invariant Overlong(buffer) <==> Overlong(old(buffer))
        invariant Rest(buffer) == Rest(old(buffer))
        decreases |buffer|
      {
        if newline > MAX_LINE_BYTES {
          NoFrame(buffer);
          return true;
        }
        FrameOff(buffer);
        var line := buffer[..newline];
        buffer := buffer[newline + 1..];
        if line != [] && line[|line| - 1] == RETURN {
          line := line[..|line| - 1];
        }
        if line != [] {
          handled := handled + [line];
        }
        newline := FirstNewline(buffer);
        NewlineBound(buffer);
      }
      NoFrame(buffer);
      return false;
    }
  }

  lemma {:induction false} StaysOverlong(chunks: seq<seq<byte>>, n: nat)
    requires n <= |chunks| && Overlong(Joined(chunks[..n]))
    ensures Lines(Joined(chunks)) == Lines(Joined(chunks[..n]))
    decreases |chunks| - n
  {
    hide Lines, Overlong;
    if n == |chunks| {
      assert chunks[..n] == chunks;
    } else {
      assert chunks[..n + 1][..n] == chunks[..n];
      LinesOfConcat(Joined(chunks[..n]), chunks[n]);
      OverlongGrows(Joined(chunks[..n]), chunks[n]);
      StaysOverlong(chunks, n + 1);
    }
  }

  lemma {:induction false} OverlongGrows(a: seq<byte>, b: seq<byte>)
    requires Overlong(a)
    ensures Overlong(a + b)
    decreases |a|
  {
    hide FirstNewline;
    NewlineOfConcat(a, b);
    NewlineBound(a);
    var n := FirstNewline(a);
    if n <= MAX_LINE_BYTES {
      assert (a + b)[n + 1..] == a[n + 1..] + b;
      OverlongGrows(a[n + 1..], b);
    }
  }

  // ----- Frames ------------------------------------------------------------

  predicate Unbroken(frame: Line) {
    NEWLINE !in frame
  }

  /** Frames, each ended by a newline. */
  function Wire(frames: seq<Line>): seq<byte> {
    if frames == [] then [] else Wire(frames[..|frames| - 1]) + frames[|frames| - 1] + [NEWLINE]
  }

  /** What the frames before the first one that is too long hand over. */
  function HandedAll(frames: seq<Line>): seq<Line> {
    if frames == [] || |frames[0]| > MAX_LINE_BYTES then [] else Handed(frames[0]) + HandedAll(frames[1..])
  }

  lemma {:induction false} WireFromFront(frames: seq<Line>)
    requires frames != []
    ensures Wire(frames) == frames[0] + [NEWLINE] + Wire(frames[1..])
  {
    if |frames| > 1 {
      WireFromFront(frames[..|frames| - 1]);
      assert frames[1..][..|frames| - 2] == frames[..|frames| - 1][1..];
    }
  }

  /** One trailing carriage return is no part of a line, and no other one is lost; what is then empty is dropped. */
  lemma HandedIff(frame: Line, line: Line)
    ensures Handed(frame) == [line]
       <==> line != [] && (frame == line + [RETURN] || (frame == line && frame[|frame| - 1] != RETURN))
    ensures Handed(frame) == [] <==> frame == [] || frame == [RETURN]
    ensures |Handed(frame)| <= 1
  {
    if frame != [] {
      assert frame == frame[..|frame| - 1] + [frame[|frame| - 1]];
    }
    assert (line + [RETURN])[..|line|] == line;
  }

  /**
    Read independently of any loop: the lines are the frames up to the first long one, stripped, empty ones dropped.
    */
  lemma {:induction false} LinesOfFrames(frames: seq<Line>, tail: seq<byte>)
    requires (forall i :: 0 <= i < |frames| ==> Unbroken(frames[i])) && Unbroken(tail)
    ensures Lines(Wire(frames) + tail) == HandedAll(frames)
  {
    hide FirstNewline, Handed;
    var s := Wire(frames) + tail;
    if frames == [] {
      assert s == tail;
      FirstIsUnique(s, |s|);
    } else {
      WireFromFront(frames);
      assert s == frames[0] + ([NEWLINE] + Wire(frames[1..]) + tail);
      assert s[..|frames[0]|] == frames[0] && s[|frames[0]|] == NEWLINE;
      FirstIsUnique(s, |frames[0]|);
      assert s[|frames[0]| + 1..] == Wire(frames[1..]) + tail;
      LinesOfFrames(frames[1..], tail);
    }
  }

  /** Every stream is frames ended by newlines and a tail without one, so the reading above covers every stream. */
  lemma {:induction false} StreamIsFrames(s: seq<byte>) returns (frames: seq<Line>, tail: seq<byte>)
    ensures s == Wire(frames) + tail && Unbroken(tail)
    ensures forall i :: 0 <= i < |frames| ==> Unbroken(frames[i])
    decreases |s|
  {
    hide FirstNewline;
    var n := FirstNewline(s);
    SplitAtNewline(s);
    if n == |s| {
      frames, tail := [], s;
      assert s[..n] == s;
    } else {
      var rest;
      rest, tail := StreamIsFrames(s[n + 1..]);
      frames := [s[..n]] + rest;
      WireFromFront(frames);
      assert frames[1..] == rest && s == s[..n] + [s[n]] + s[n + 1..];
    }
  }

  lemma SplitAtNewline(s: seq<byte>)
    ensures var n := FirstNewline(s); n <= |s| && NEWLINE !in s[..n] && (n < |s| ==> s[n] == NEWLINE)
  {
  }

  // ----- The send loop -----------------------------------------------------

  /** What send_line accepts. */
  predicate Sendable(line: Line) {
    |line| <= MAX_LINE_BYTES && NEWLINE !in line && RETURN !in line
  }

  function Total(results: seq<int>): int {
    if results == [] then 0 else Total(results[..|results| - 1]) + results[|results| - 1]
  }

  /** The native sends before the first refusal take n bytes or more. */
  ghost predicate TakesAll(results: seq<int>, n: nat) {
    exists k: nat :: k <= |results| && AllTake(results, k) && Total(results[..k]) >= n
  }

  /** The first k native sends take at least a byte each. */
  predicate AllTake(results: seq<int>, k: nat)
    requires k <= |results|
  {
    forall i :: 0 <= i < k ==> results[i] > 0
  }

  lemma {:induction false} TotalGrows(results: seq<int>, j: nat, k: nat)
    requires j <= k <= |results| && AllTake(results, k)
    ensures Total(results[..k]) >= Total(results[..j]) + (k - j)
  {
    if j < k {
      TotalGrows(results, j, k - 1);
      assert results[..k][..k - 1] == results[..k - 1];
    }
  }

  /** As many native sends as there are bytes are enough, whatever each of them takes. */
  lemma ManySendsTakeAll(results: seq<int>, n: nat)
    requires AllTake(results, |results|) && |results| >= n
    ensures TakesAll(results, n)
  {
    TotalGrows(results, 0, |results|);
  }

  /** A refusal after too few bytes is final: no longer stretch of sends gets past it. */
  lemma TooFew(results: seq<int>, call: nat, n: nat)
    requires call <= |results| && AllTake(results, call) && Total(results[..call]) < n
    requires call < |results| ==> results[call] <= 0
    ensures !TakesAll(results, n)
  {
    forall k: nat | k <= |results| && AllTake(results, k)
      ensures Total(results[..k]) < n
    {
      assert k <= call;
      TotalGrows(results, k, call);
    }
  }

  class Sender {
    var open: bool
    var wire: seq<byte>

    constructor ()
      ensures open && wire == []
    {
      open, wire := true, [];
    }

    /**
      Sends one line, as many bytes at a time as each native send takes (results); success puts exactly the whole
      frame on the wire, failure a part of it, and a refused line nothing. It succeeds exactly when the connection is
      open, the line is sendable, and the native sends take the frame before one of them fails.
      */
    method SendLine(line: Line, results: seq<int>) returns (ok: bool)
      modifies this`wire
      ensures ok ==> open && Sendable(line) && wire == old(wire) + line + [NEWLINE]
      ensures !open || !Sendable(line) ==> !ok && wire == old(wire)
      ensures !ok ==> exists n: nat :: n < |line| + 1 && wire == old(wire) + (line + [NEWLINE])[..n]
      ensures ok <==> open && |line| <= 1048576 && 10 !in line && 13 !in line && TakesAll(results, |line| + 1)
      ensures open && Sendable(line) && |results| > |line| && AllTake(results, |results|) ==> ok
    {
      if |line| > MAX_LINE_BYTES || NEWLINE in line || RETURN in line || !open {
        assert wire == old(wire) + (line + [NEWLINE])[..0];
        return false;
      }
      var payload := line + [NEWLINE];
      var offset := 0;
      var call := 0;
      while offset < |payload|
        invariant 0 <= offset <= |payload| && 0 <= call <= |results|
        invariant AllTake(results, call)
        invariant if offset < |payload| then offset == Total(results[..call]) else Total(results[..call]) >= |payload|
        invariant wire == old(wire) + payload[..offset]
        decreases |payload| - offset
      {
        if call >= |results| || results[call] <= 0 {
          TooFew(results, call, |payload|);
          if AllTake(results, |results|) && |results| > |line| {
            ManySendsTakeAll(results, |payload|);
          }
          return false;
        }
        var sent := if results[call] > |payload| - offset then |payload| - offset else results[call];
        wire := wire + payload[offset..offset + sent];
        assert payload[..offset + sent] == payload[..offset] + payload[offset..offset + sent];
        offset := offset + sent;
        assert results[..call + 1][..call] == results[..call];
        call := call + 1;
      }
      return true;
    }
  }

  // ----- The trip ----------------------------------------------------------

  function NonEmpty(lines: seq<Line>): seq<Line> {
    if lines == [] then [] else (if lines[0] == [] then [] else [lines[0]]) + NonEmpty(lines[1..])
  }

  lemma {:induction false} SendableIsHanded(lines: seq<Line>)
    requires forall i :: 0 <= i < |lines| ==> Sendable(lines[i])
    ensures HandedAll(lines) == NonEmpty(lines)
  {
    if lines != [] {
      SendableIsHanded(lines[1..]);
      assert Handed(lines[0]) == if lines[0] == [] then [] else [lines[0]];
    }
  }

  /** Non-empty lines that were sent are received unchanged and in order; a frame cut off at the end adds nothing. */
  lemma SentLinesAreReceived(lines: seq<Line>, cutOff: seq<byte>)
    requires (forall i :: 0 <= i < |lines| ==> Sendable(lines[i])) && Unbroken(cutOff)
    ensures Lines(Wire(lines) + cutOff) == NonEmpty(lines)
    ensures (forall i :: 0 <= i < |lines| ==> lines[i] != []) ==> NonEmpty(lines) == lines
  {
    hide Lines, Handed, HandedAll;
    LinesOfFrames(lines, cutOff);
    SendableIsHanded(lines);
    if forall i :: 0 <= i < |lines| ==> lines[i] != [] {
      NothingDropped(lines);
    }
  }

  lemma {:induction false} NothingDropped(lines: seq<Line>)
    requires forall i :: 0 <= i < |lines| ==> lines[i] != []
    ensures NonEmpty(lines) == lines
  {
    if lines != [] {
      NothingDropped(lines[1..]);
    }
  }
}
