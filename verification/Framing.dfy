/**
 Newline-delimited messages over a byte stream that arrives in arbitrary chunks.

 The reader keeps a buffer, checks it against a size limit and peels off lines as they
 complete.  It is proved to do what a reader of the whole stream would do: split at the
 newlines and stop at the first bad line.
 */
module Framing {
  import opened Basics

  type Byte = x: int | 0 <= x < 256

  const NEWLINE: Byte := 10
  const MAX_MESSAGE_BYTES: nat := 1024 * 1024

  datatype Error = Disconnected | Oversized | InvalidText | InvalidMessage

  datatype Decoded<M> = Message(m: M) | NotText | NoType

  /** What has been put on the queue, and the error that ended the reader, if any has. */
  datatype Outcome<M> = Outcome(messages: seq<M>, error: Option<Error>)

  // ---------------------------------------------------------------- the whole stream at once

  /** The position of the first newline, or the length. */
  function FirstNewline(s: seq<Byte>): (i: nat)
    ensures i <= |s|
    ensures forall j | 0 <= j < i :: s[j] != NEWLINE
    ensures i < |s| ==> s[i] == NEWLINE
  {
    if s == [] then 0 else if s[0] == NEWLINE then 0 else 1 + FirstNewline(s[1..])
  }

  /** The complete lines of a stream, and what follows the last newline. */
  function Lines(s: seq<Byte>): seq<seq<Byte>>
    decreases |s|
  {
    var i := FirstNewline(s);
    if i == |s| then [] else [s[..i]] + Lines(s[i + 1..])
  }

  function Rest(s: seq<Byte>): seq<Byte>
    decreases |s|
  {
    var i := FirstNewline(s);
    if i == |s| then s else Rest(s[i + 1..])
  }

  function Verdict<M>(decode: seq<Byte> -> Decoded<M>, line: seq<Byte>): Option<Error> {
    if |line| > MAX_MESSAGE_BYTES then Some(Oversized)
    else match decode(line)
      case Message(_) => None
      case NotText => Some(InvalidText)
      case NoType => Some(InvalidMessage)
  }

  /** Lines are taken in order up to the first bad one. */
  function Process<M>(decode: seq<Byte> -> Decoded<M>, lines: seq<seq<Byte>>): Outcome<M> {
    if lines == [] then Outcome([], None)
    else
      match Verdict(decode, lines[0])
      case Some(e) => Outcome([], Some(e))
      case None =>
        var rest := Process(decode, lines[1..]);
        Outcome([decode(lines[0]).m] + rest.messages, rest.error)
  }

  /** What a stream means: its good lines, then whatever stops the reader, at the latest its end. */
  function Meaning<M>(decode: seq<Byte> -> Decoded<M>, s: seq<Byte>): Outcome<M> {
    var o := Process(decode, Lines(s));
    if o.error.Some? then o
    else o.(error := Some(if |Rest(s)| > MAX_MESSAGE_BYTES then Oversized else Disconnected))
  }

  // ---------------------------------------------------------------- facts about splitting

  /** The first newline of s + b is that of s if there is one. */
  lemma FirstNewlineConcat(s: seq<Byte>, b: seq<Byte>)
    ensures FirstNewline(s) < |s| ==> FirstNewline(s + b) == FirstNewline(s)
    ensures FirstNewline(s) == |s| ==> FirstNewline(s + b) == |s| + FirstNewline(b)
  {
    var i := FirstNewline(s);
    if i < |s| {
      FirstNewlineIs(s + b, i);
    } else {
      var j := FirstNewline(b);
      assert forall k | 0 <= k < |s| :: (s + b)[k] == s[k];
      assert forall k | |s| <= k < |s| + j :: (s + b)[k] == b[k - |s|];
      FirstNewlineIs(s + b, |s| + j);
    }
  }

  lemma FirstNewlineIs(s: seq<Byte>, i: nat)
    requires i <= |s| && (forall j | 0 <= j < i :: s[j] != NEWLINE) && (i < |s| ==> s[i] == NEWLINE)
    ensures FirstNewline(s) == i
  {
    var k := FirstNewline(s);
    assert k < |s| ==> s[k] == NEWLINE;
    assert i < |s| ==> s[i] == NEWLINE;
  }

  /** Nothing is lost or gained by splitting later: the unfinished line waits for the rest. */
  lemma {:induction false} SplitConcat(s: seq<Byte>, b: seq<Byte>)
    ensures Lines(s + b) == Lines(s) + Lines(Rest(s) + b)
    ensures Rest(s + b) == Rest(Rest(s) + b)
    decreases |s|
  {
    hide FirstNewline, Lines, Rest;
    var i := FirstNewline(s);
    if i < |s| {
      var tail := s[i + 1..];
      PeelLine(s);
      PeelConcat(s, b);
      SplitConcat(tail, b);
      assert ([s[..i]] + Lines(tail)) + Lines(Rest(tail) + b) == [s[..i]] + (Lines(tail) + Lines(Rest(tail) + b));
    } else {
      NoLine(s);
      assert [] + Lines(s + b) == Lines(s + b);
    }
  }

  lemma PeelLine(s: seq<Byte>)
    requires FirstNewline(s) < |s|
    ensures var i := FirstNewline(s); Lines(s) == [s[..i]] + Lines(s[i + 1..]) && Rest(s) == Rest(s[i + 1..])
  {
    hide FirstNewline;
  }

  lemma PeelConcat(s: seq<Byte>, b: seq<Byte>)
    requires FirstNewline(s) < |s|
    ensures var i := FirstNewline(s); Lines(s + b) == [s[..i]] + Lines(s[i + 1..] + b) && Rest(s + b) == Rest(s[i + 1..] + b)
  {
    hide FirstNewline, Lines, Rest;
    var i := FirstNewline(s);
    FirstNewlineConcat(s, b);
    PeelLine(s + b);
    assert (s + b)[..i] == s[..i] && (s + b)[i + 1..] == s[i + 1..] + b;
  }

  lemma NoLine(s: seq<Byte>)
    requires FirstNewline(s) == |s|
    ensures Lines(s) == [] && Rest(s) == s
  {
    hide FirstNewline;
  }

  lemma {:induction false} RestHasNoNewline(s: seq<Byte>)
    ensures FirstNewline(Rest(s)) == |Rest(s)| <= |s|
    ensures Lines(Rest(s)) == [] && Rest(Rest(s)) == Rest(s)
    ensures FirstNewline(s) < |s| ==> |Rest(s)| < |s| - FirstNewline(s)
    decreases |s|
  {
    var i := FirstNewline(s);
    if i < |s| { RestHasNoNewline(s[i + 1..]); }
  }

  lemma {:induction false} ProcessConcat<M>(decode: seq<Byte> -> Decoded<M>, a: seq<seq<Byte>>, b: seq<seq<Byte>>)
    ensures var x, y := Process(decode, a), Process(decode, b);
            Process(decode, a + b) == if x.error.Some? then x else Outcome(x.messages + y.messages, y.error)
  {
    if a == [] {
      assert a + b == b;
    } else {
      assert (a + b)[1..] == a[1..] + b && (a + b)[0] == a[0];
      ProcessConcat(decode, a[1..], b);
    }
  }

  /** The whole of a line, oversized before its end is seen, is oversized. */
  lemma OversizedStays<M>(decode: seq<Byte> -> Decoded<M>, s: seq<Byte>, b: seq<Byte>)
    requires FirstNewline(s) == |s| > MAX_MESSAGE_BYTES
    ensures Meaning(decode, s + b) == Outcome([], Some(Oversized))
  {
    FirstNewlineConcat(s, b);
    if FirstNewline(s + b) < |s + b| {
      var line := (s + b)[..FirstNewline(s + b)];
      assert Lines(s + b)[0] == line && |line| > MAX_MESSAGE_BYTES;
    }
  }

  // ---------------------------------------------------------------- the reader

  /** The outcome of a stream, one line at a time. */
  lemma Peel<M>(decode: seq<Byte> -> Decoded<M>, s: seq<Byte>)
    requires FirstNewline(s) < |s|
    ensures var i := FirstNewline(s);
            var o := Process(decode, Lines(s[i + 1..]));
            && Rest(s) == Rest(s[i + 1..])
            && Process(decode, Lines(s)) ==
               match Verdict(decode, s[..i])
               case Some(e) => Outcome([], Some(e))
               case None => Outcome([decode(s[..i]).m] + o.messages, o.error)
  {
    hide FirstNewline, Lines, Rest, Process, Verdict;
    var i := FirstNewline(s);
    PeelLine(s);
    ProcessCons(decode, s[..i], Lines(s[i + 1..]));
  }

  lemma ProcessCons<M>(decode: seq<Byte> -> Decoded<M>, line: seq<Byte>, lines: seq<seq<Byte>>)
    ensures var o := Process(decode, lines);
            Process(decode, [line] + lines) ==
            match Verdict(decode, line)
            case Some(e) => Outcome([], Some(e))
            case None => Outcome([decode(line).m] + o.messages, o.error)
  {
    hide Verdict;
    var all := [line] + lines;
    assert all[0] == line && all[1..] == lines;
  }

  lemma NothingToPeel<M>(decode: seq<Byte> -> Decoded<M>, s: seq<Byte>)
    requires FirstNewline(s) == |s|
    ensures Rest(s) == s && Process(decode, Lines(s)) == Outcome([], None)
  {
  }

  /** Take complete lines off the buffer until none is left or one is bad. */
  method Drain<M>(decode: seq<Byte> -> Decoded<M>, buffer: seq<Byte>) returns (got: Outcome<M>, left: seq<Byte>)
    ensures got == Process(decode, Lines(buffer))
    ensures got.error.None? ==> left == Rest(buffer)
  {
    hide FirstNewline, Lines, Rest, Process;
    left := buffer;
    var messages: seq<M> := [];
    assert forall o: Outcome<M> {:trigger o.messages} :: [] + o.messages == o.messages;
    while FirstNewline(left) < |left|
      invariant Rest(left) == Rest(buffer)
      invariant var o := Process(decode, Lines(left));
                Process(decode, Lines(buffer)) == Outcome(messages + o.messages, o.error)
      decreases |left|
    {
      Peel(decode, left);
      var i := FirstNewline(left);
      var raw := left[..i];
      ghost var o := Process(decode, Lines(left[i + 1..]));
      left := left[i + 1..];
      if |raw| > MAX_MESSAGE_BYTES { return Outcome(messages, Some(Oversized)), left; }
      match decode(raw) {
        case NotText => return Outcome(messages, Some(InvalidText)), left;
        case NoType => return Outcome(messages, Some(InvalidMessage)), left;
        case Message(m) =>
          assert messages + ([m] + o.messages) == (messages + [m]) + o.messages;
          messages := messages + [m];
      }
    }
    NothingToPeel(decode, left);
    got := Outcome(messages, None);
  }

  function Concat(chunks: seq<seq<Byte>>): seq<Byte> {
    if chunks == [] then [] else Concat(chunks[..|chunks| - 1]) + chunks[|chunks| - 1]
  }

  lemma {:induction false} ConcatSplit(chunks: seq<seq<Byte>>, n: nat)
    requires n <= |chunks|
    ensures Concat(chunks) == Concat(chunks[..n]) + Concat(chunks[n..])
    decreases |chunks|
  {
    if n == |chunks| {
      assert chunks[..n] == chunks && chunks[n..] == [];
    } else {
      var m := |chunks| - 1;
      ConcatSplit(chunks[..m], n);
      assert chunks[..m][..n] == chunks[..n] && chunks[..m][n..] == chunks[n..][..m - n];
      assert chunks[n..][m - n] == chunks[m];
      assert Concat(chunks) == Concat(chunks[..n]) + (Concat(chunks[..m][n..]) + chunks[m]);
    }
  }

  /**
   The reader loop over everything the socket delivers.  The messages depend only on the
   bytes, not on the chunks.  With chunks no larger than the size limit the error does so
   too, and the buffer kept between two reads never exceeds the limit.
   */
  method ReadLoop<M>(decode: seq<Byte> -> Decoded<M>, chunks: seq<seq<Byte>>)
    returns (out: Outcome<M>, ghost buffers: seq<seq<Byte>>)
    requires forall c | c in chunks :: c != []
    ensures out.messages == Meaning(decode, Concat(chunks)).messages
    ensures (forall c | c in chunks :: |c| <= MAX_MESSAGE_BYTES) ==>
              out == Meaning(decode, Concat(chunks)) && forall b | b in buffers :: |b| <= MAX_MESSAGE_BYTES
  {
    hide FirstNewline, Lines, Rest, Process;
    var buffer: seq<Byte> := [];
    var messages: seq<M> := [];
    buffers := [];
    var n := 0;
    ghost var small := forall c | c in chunks :: |c| <= MAX_MESSAGE_BYTES;
    NothingToPeel(decode, buffer);
    while n < |chunks|
      invariant 0 <= n <= |chunks|
      invariant Read(decode, chunks, n, messages, buffer)
      invariant small ==> |buffer| <= MAX_MESSAGE_BYTES && forall b | b in buffers :: |b| <= MAX_MESSAGE_BYTES
    {
      buffer := buffer + chunks[n];
      if |buffer| > MAX_MESSAGE_BYTES && FirstNewline(buffer) == |buffer| {
        StuckOversized(decode, chunks, n, messages, buffer);
        return Outcome(messages, Some(Oversized)), buffers;
      }
      var got, left := Drain(decode, buffer);
      Progress(decode, chunks, n, messages, buffer);
      if got.error.Some? { return Outcome(messages + got.messages, got.error), buffers; }
      messages, buffer, n := messages + got.messages, left, n + 1;
      buffers := buffers + [buffer];
    }
    assert chunks[..n] == chunks;
    out := Outcome(messages, Some(Disconnected));
  }

  /** After n good chunks: what is queued, and the unfinished line in the buffer. */
  ghost predicate Read<M>(decode: seq<Byte> -> Decoded<M>, chunks: seq<seq<Byte>>, n: nat, messages: seq<M>, buffer: seq<Byte>) {
    && n <= |chunks|
    && buffer == Rest(Concat(chunks[..n]))
    && Process(decode, Lines(Concat(chunks[..n]))) == Outcome(messages, None)
  }

  /** One more chunk is processed as if it had come with everything before it. */
  lemma Progress<M>(decode: seq<Byte> -> Decoded<M>, chunks: seq<seq<Byte>>, n: nat, messages: seq<M>, buffer: seq<Byte>)
    requires n < |chunks| && Read(decode, chunks, n, messages, Rest(Concat(chunks[..n])))
    requires buffer == Rest(Concat(chunks[..n])) + chunks[n]
    ensures var o := Process(decode, Lines(buffer));
            if o.error.Some? then Meaning(decode, Concat(chunks)) == Outcome(messages + o.messages, o.error)
            else Read(decode, chunks, n + 1, messages + o.messages, Rest(buffer))
    ensures FirstNewline(buffer) < |buffer| ==> |Rest(buffer)| < |chunks[n]|
    ensures FirstNewline(buffer) == |buffer| ==> Rest(buffer) == buffer
  {
    hide FirstNewline, Lines, Rest, Process;
    var before, chunk := Concat(chunks[..n]), chunks[n];
    assert chunks[..n + 1][..n] == chunks[..n] && Concat(chunks[..n + 1]) == before + chunk;
    SplitConcat(before, chunk);
    ProcessConcat(decode, Lines(before), Lines(buffer));
    var o := Process(decode, Lines(buffer));
    if o.error.Some? {
      ConcatSplit(chunks, n + 1);
      EndsHere(decode, before + chunk, Concat(chunks[n + 1..]), Outcome(messages + o.messages, o.error));
    }
    RestHasNoNewline(before);
    RestHasNoNewline(buffer);
    FirstNewlineConcat(Rest(before), chunk);
    if FirstNewline(buffer) == |buffer| { NothingToPeel(decode, buffer); }
  }

  /** Nothing after a bad line matters. */
  lemma EndsHere<M>(decode: seq<Byte> -> Decoded<M>, s: seq<Byte>, b: seq<Byte>, o: Outcome<M>)
    requires Process(decode, Lines(s)) == o && o.error.Some?
    ensures Meaning(decode, s + b) == o
  {
    SplitConcat(s, b);
    ProcessConcat(decode, Lines(s), Lines(Rest(s) + b));
  }

  /** The meaning of a stream whose beginning has been read. */
  lemma MeaningConcat<M>(decode: seq<Byte> -> Decoded<M>, s: seq<Byte>, b: seq<Byte>, messages: seq<M>)
    requires Process(decode, Lines(s)) == Outcome(messages, None)
    ensures var o := Meaning(decode, Rest(s) + b);
            Meaning(decode, s + b) == Outcome(messages + o.messages, o.error)
  {
    hide FirstNewline, Lines, Rest, Process;
    SplitConcat(s, b);
    ProcessConcat(decode, Lines(s), Lines(Rest(s) + b));
  }

  /** Giving up on an oversized line before it ends is what its end would have led to. */
  lemma StuckOversized<M>(decode: seq<Byte> -> Decoded<M>, chunks: seq<seq<Byte>>, n: nat, messages: seq<M>, buffer: seq<Byte>)
    requires n < |chunks| && Read(decode, chunks, n, messages, Rest(Concat(chunks[..n])))
    requires buffer == Rest(Concat(chunks[..n])) + chunks[n]
    requires |buffer| > MAX_MESSAGE_BYTES && FirstNewline(buffer) == |buffer|
    ensures Meaning(decode, Concat(chunks)) == Outcome(messages, Some(Oversized))
  {
    hide FirstNewline, Lines, Rest, Process, Meaning;
    var after := Concat(chunks[n + 1..]);
    ChunkSplit(chunks, n);
    OversizedStays(decode, buffer, after);
    hide Concat;
    var before := Concat(chunks[..n]);
    MeaningConcat(decode, before, chunks[n] + after, messages);
    Associative(Rest(before), chunks[n], after);
  }

  lemma Associative(a: seq<Byte>, b: seq<Byte>, c: seq<Byte>)
    ensures (a + b) + c == a + (b + c)
  {
  }

  lemma ChunkSplit(chunks: seq<seq<Byte>>, n: nat)
    requires n < |chunks|
    ensures Concat(chunks) == Concat(chunks[..n]) + (chunks[n] + Concat(chunks[n + 1..]))
  {
    ConcatSplit(chunks, n + 1);
    assert chunks[..n + 1][..n] == chunks[..n];
    Associative(Concat(chunks[..n]), chunks[n], Concat(chunks[n + 1..]));
  }

  // ---------------------------------------------------------------- sending

  datatype SendResult = Sent(payload: seq<Byte>) | Refused

  function Send<M>(encode: M -> seq<Byte>, m: M): SendResult {
    var payload := encode(m) + [NEWLINE];
    if |payload| > MAX_MESSAGE_BYTES then Refused else Sent(payload)
  }

  /** An encoder whose text holds no newline and is decoded again, except that a message needs a type. */
  ghost predicate Inverse<M(!new)>(encode: M -> seq<Byte>, decode: seq<Byte> -> Decoded<M>, typed: M -> bool) {
    && (forall m :: FirstNewline(encode(m)) == |encode(m)|)
    && (forall m :: decode(encode(m)) == if typed(m) then Message(m) else NoType)
  }

  /** The bytes that sending these messages puts on the wire. */
  function Wire<M>(encode: M -> seq<Byte>, ms: seq<M>): seq<Byte> {
    if ms == [] then [] else encode(ms[0]) + [NEWLINE] + Wire(encode, ms[1..])
  }

  lemma FirstLine(e: seq<Byte>, rest: seq<Byte>)
    requires FirstNewline(e) == |e|
    ensures Lines(e + [NEWLINE] + rest) == [e] + Lines(rest) && Rest(e + [NEWLINE] + rest) == Rest(rest)
  {
    var w := e + [NEWLINE] + rest;
    assert forall j | 0 <= j < |e| :: w[j] == e[j];
    FirstNewlineIs(w, |e|);
    assert w[..|e|] == e && w[|e| + 1..] == rest;
  }

  lemma {:induction false} WireLines<M(!new)>(encode: M -> seq<Byte>, decode: seq<Byte> -> Decoded<M>, typed: M -> bool, ms: seq<M>)
    requires Inverse(encode, decode, typed)
    ensures Lines(Wire(encode, ms)) == seq(|ms|, i requires 0 <= i < |ms| => encode(ms[i]))
    ensures Rest(Wire(encode, ms)) == []
  {
    if ms != [] {
      var e, rest := encode(ms[0]), Wire(encode, ms[1..]);
      assert FirstNewline(e) == |e|;
      FirstLine(e, rest);
      hide FirstNewline, Lines, Rest, Inverse;
      WireLines(encode, decode, typed, ms[1..]);
    }
  }

  /** How many messages come before the first one without a type. */
  function TypedPrefix<M>(typed: M -> bool, ms: seq<M>): (n: nat)
    ensures n <= |ms|
  {
    if ms == [] || !typed(ms[0]) then 0 else 1 + TypedPrefix(typed, ms[1..])
  }

  lemma {:induction false} ProcessSent<M(!new)>(encode: M -> seq<Byte>, decode: seq<Byte> -> Decoded<M>, typed: M -> bool, ms: seq<M>)
    requires Inverse(encode, decode, typed)
    requires forall i | 0 <= i < |ms| :: Send(encode, ms[i]).Sent?
    ensures var n := TypedPrefix(typed, ms);
            Process(decode, seq(|ms|, i requires 0 <= i < |ms| => encode(ms[i])))
            == Outcome(ms[..n], if n < |ms| then Some(InvalidMessage) else None)
  {
    if ms != [] {
      var lines := seq(|ms|, i requires 0 <= i < |ms| => encode(ms[i]));
      var tail := ms[1..];
      assert lines[1..] == seq(|tail|, i requires 0 <= i < |tail| => encode(tail[i]));
      assert Send(encode, ms[0]).Sent? && |encode(ms[0])| < MAX_MESSAGE_BYTES;
      ProcessSent(encode, decode, typed, tail);
      var k := TypedPrefix(typed, tail);
      assert typed(ms[0]) ==> ms[..k + 1] == [ms[0]] + tail[..k];
    }
  }

  /**
   Whatever was accepted for sending arrives, in order, up to the first message without a
   string type; so everything arrives if and only if every message has one.
   */
  lemma SentArrives<M(!new)>(encode: M -> seq<Byte>, decode: seq<Byte> -> Decoded<M>, typed: M -> bool, ms: seq<M>)
    requires Inverse(encode, decode, typed)
    requires forall i | 0 <= i < |ms| :: Send(encode, ms[i]).Sent?
    ensures Meaning(decode, Wire(encode, ms)).messages == ms[..TypedPrefix(typed, ms)]
    ensures Meaning(decode, Wire(encode, ms)) == Outcome(ms, Some(Disconnected)) <==> forall m | m in ms :: typed(m)
  {
    hide FirstNewline, Lines, Rest, Process, Inverse, Send, TypedPrefix, Wire;
    WireLines(encode, decode, typed, ms);
    ProcessSent(encode, decode, typed, ms);
    AllTyped(typed, ms);
    assert ms[..|ms|] == ms;
  }

  lemma {:induction false} AllTyped<M(!new)>(typed: M -> bool, ms: seq<M>)
    ensures TypedPrefix(typed, ms) == |ms| <==> forall m | m in ms :: typed(m)
  {
    if ms != [] {
      AllTyped(typed, ms[1..]);
      assert ms == [ms[0]] + ms[1..];
    }
  }
}
