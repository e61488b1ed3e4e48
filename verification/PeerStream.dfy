/**
 One authenticated viewer connection (desktop_control.py, `Peer`): the bounded
 output queue with partial writes, and the incremental request reader.
 */
module PeerStream {
  import opened Common

  type Bytes = seq<byte>

  const MAX_MESSAGE: nat := 128 * 1024
  const MAX_OUTPUT: nat := 2 * 1024 * 1024
  const MAX_OUTPUT_RECORDS: nat := 512
  const MAX_FRAME: nat := 4096 * 4096 * 4
  const MAX_CURSOR: nat := 5 * 1024 * 1024

  // ---- framing ------------------------------------------------------------------

  /** One framed unit: JSON text is kind 1, frame pixels kind 2, cursor pixels kind 3. */
  datatype Unit = Unit(kind: byte, body: Bytes) {
    ghost predicate Fits() {
      0 < |body| < 0x1_0000_0000
    }
  }

  /** The five-byte header: kind, then the length in network order. */
  function Head(kind: byte, length: nat): (h: Bytes)
    requires length < 0x1_0000_0000
    ensures |h| == 5
  {
    [kind, length / 256 / 256 / 256, length / 256 / 256 % 256, length / 256 % 256, length % 256]
  }

  function Length(h: Bytes): nat
    requires |h| >= 5
  {
    var a: int, b: int, c: int, d: int := h[1], h[2], h[3], h[4];
    16777216 * a + 65536 * b + 256 * c + d
  }

  lemma LengthOfHead(kind: byte, length: nat, after: Bytes)
    requires length < 0x1_0000_0000
    ensures Length(Head(kind, length) + after) == length && (Head(kind, length) + after)[0] == kind
  {
    Digits(length);
  }

  lemma Digits(n: nat)
    requires n < 0x1_0000_0000
    ensures 16777216 * (n / 256 / 256 / 256) + 65536 * (n / 256 / 256 % 256) + 256 * (n / 256 % 256) + n % 256 == n
  {
    var a := n / 256;
    var b := a / 256;
    assert n == 256 * a + n % 256 && a == 256 * b + a % 256 && b == 256 * (b / 256) + b % 256;
  }

  function Framed(u: Unit): Bytes
    requires u.Fits()
  {
    Head(u.kind, |u.body|) + u.body
  }

  ghost predicate AllFit(units: seq<Unit>) {
    forall u :: u in units ==> u.Fits()
  }

  function Stream(units: seq<Unit>): Bytes
    requires AllFit(units)
  {
    if units == [] then [] else Framed(units[0]) + Stream(units[1..])
  }

  lemma {:induction false} StreamAppend(a: seq<Unit>, b: seq<Unit>)
    requires AllFit(a) && AllFit(b)
    ensures AllFit(a + b) && Stream(a + b) == Stream(a) + Stream(b)
  {
    if a == [] {
      assert a + b == b;
    } else {
      assert (a + b)[1..] == a[1..] + b;
      StreamAppend(a[1..], b);
    }
  }

  /** What a reader of the connection makes of the bytes so far: whole units only. */
  function Units(bytes: Bytes): seq<Unit> {
    if |bytes| < 5 || |bytes| < 5 + Length(bytes) then []
    else [Unit(bytes[0], bytes[5..5 + Length(bytes)])] + Units(bytes[5 + Length(bytes)..])
  }

  /** However much of a stream has arrived, it reads as the first units of that stream, unaltered and in order. */
  lemma {:induction false} PrefixReadsBack(units: seq<Unit>, n: nat)
    requires AllFit(units) && n <= |Stream(units)|
    ensures Units(Stream(units)[..n]) <= units
    ensures n == |Stream(units)| ==> Units(Stream(units)[..n]) == units
    decreases |units|
  {
    var s := Stream(units);
    if units != [] {
      hide Length, Head;
      var u, rest := units[0], Stream(units[1..]);
      var f := Framed(u);
      LengthOfHead(u.kind, |u.body|, u.body + rest);
      assert s == Head(u.kind, |u.body|) + (u.body + rest);
      if n >= |f| {
        PrefixReadsBack(units[1..], n - |f|);
        assert s[..n] == f + rest[..n - |f|];
        HeadSeen(s, n);
        assert s[..n][5..5 + |u.body|] == u.body;
        assert s[..n][|f|..] == rest[..n - |f|];
      } else if n >= 5 {
        HeadSeen(s, n);
      }
    }
  }

  lemma HeadSeen(s: Bytes, n: nat)
    requires 5 <= n <= |s|
    ensures Length(s[..n]) == Length(s) && s[..n][0] == s[0]
  {
  }

  // ---- output ---------------------------------------------------------------------

  datatype Signal = Silent | FrameDone | CursorDone

  datatype Record = Record(data: Bytes, payload: bool, completed: Signal)

  /** What the kernel answers to one `send`. */
  datatype Sent = Count(n: nat) | Blocked | Broken

  function Queued(output: seq<Record>): Bytes {
    if output == [] then [] else output[0].data + Queued(output[1..])
  }

  function ControlBytes(output: seq<Record>): nat {
    if output == [] then 0 else (if output[0].payload then 0 else |output[0].data|) + ControlBytes(output[1..])
  }

  function Signals(output: seq<Record>, s: Signal): nat {
    if output == [] then 0 else (if output[0].completed == s then 1 else 0) + Signals(output[1..], s)
  }

  predicate Proper(r: Record) {
    && r.data != []
    && (r.payload ==> r.completed != Silent)
    && (r.completed == FrameDone ==> r.payload && |r.data| <= MAX_FRAME)
    && (r.completed == CursorDone && r.payload ==> |r.data| <= MAX_CURSOR)
  }

  lemma {:induction false} Appended(output: seq<Record>, r: Record)
    ensures Queued(output + [r]) == Queued(output) + r.data
    ensures ControlBytes(output + [r]) == ControlBytes(output) + if r.payload then 0 else |r.data|
    ensures forall s :: Signals(output + [r], s) == Signals(output, s) + if r.completed == s then 1 else 0
  {
    if output == [] {
      assert [r][1..] == [];
    } else {
      assert (output + [r])[1..] == output[1..] + [r];
      Appended(output[1..], r);
    }
  }

  /** The byte bound follows from there being at most one frame and one cursor in the queue. */
  lemma {:induction false} PayloadBound(output: seq<Record>)
    requires forall r :: r in output ==> Proper(r)
    ensures |Queued(output)| <= ControlBytes(output) + Signals(output, FrameDone) * MAX_FRAME +
      Signals(output, CursorDone) * MAX_CURSOR
  {
    if output != [] {
      PayloadBound(output[1..]);
      assert Proper(output[0]);
    }
  }

  /** The queue once `count` bytes of its first record have left. */
  ghost function Left(output: seq<Record>, count: nat): seq<Record>
    requires output != [] && count <= |output[0].data|
  {
    if count == |output[0].data| then output[1..]
    else [output[0].(data := output[0].data[count..])] + output[1..]
  }

  function Least(a: nat, b: nat): (c: nat)
    ensures c <= a && c <= b && (c == a || c == b)
  {
    if a <= b then a else b
  }

  /** What a turn of `write` comes to: the bytes taken, what stays queued, and whether the connection broke. */
  datatype Turned = Turned(taken: nat, left: seq<Record>, broken: bool)

  /** The kernel takes what it says of each record offered, within the budget, until it blocks or breaks. */
  ghost function Turn(output: seq<Record>, budget: nat, replies: seq<Sent>): Turned
    decreases |replies|
  {
    if output == [] || budget == 0 || replies == [] || replies[0].Blocked? then Turned(0, output, false)
    else if replies[0].Broken? || replies[0].n == 0 then Turned(0, [], true)
    else
      var count := Least(replies[0].n, Least(|output[0].data|, budget));
      var rest := Turn(Left(output, count), budget - count, replies[1..]);
      rest.(taken := count + rest.taken)
  }

  lemma TurnFrom(output: seq<Record>, budget: nat, replies: seq<Sent>, i: nat)
    requires i < |replies| && output != [] && budget > 0 && replies[i].Count? && replies[i].n > 0
    ensures var count := Least(replies[i].n, Least(|output[0].data|, budget));
            var rest := Turn(Left(output, count), budget - count, replies[i + 1..]);
            Turn(output, budget, replies[i..]) == rest.(taken := count + rest.taken)
  {
    assert replies[i..][1..] == replies[i + 1..];
  }

  lemma TurnEnds(output: seq<Record>, budget: nat, replies: seq<Sent>, i: nat)
    requires i <= |replies|
    ensures output == [] || budget == 0 || i == |replies| || replies[i].Blocked? ==>
      Turn(output, budget, replies[i..]) == Turned(0, output, false)
    ensures output != [] && budget > 0 && i < |replies| && (replies[i].Broken? || replies[i] == Count(0)) ==>
      Turn(output, budget, replies[i..]) == Turned(0, [], true)
  {
  }

  class Peer {
    var authenticated: bool
    var closed: bool
    var output: seq<Record>
    var buffered: nat
    var controlBuffered: nat
    var framePending: bool
    var cursorPending: bool

    /** Every unit accepted for this viewer, in call order, and every byte the kernel took. */
    ghost var accepted: seq<Unit>
    ghost var written: Bytes

    /** The queue's meaning, when a record carrying `extra` has been queued and its flag not yet raised. */
    ghost predicate Holds(extra: Signal)
      reads this
    {
      && AllFit(accepted)
      && (closed ==> output == [] && buffered == controlBuffered == 0 && !framePending && !cursorPending)
      && (!closed ==> written + Queued(output) == Stream(accepted))
      && (forall r :: r in output ==> Proper(r))
      && buffered == |Queued(output)|
      && controlBuffered == ControlBytes(output)
      && Signals(output, FrameDone) == (if framePending then 1 else 0) + (if extra == FrameDone then 1 else 0)
      && Signals(output, CursorDone) == (if cursorPending then 1 else 0) + (if extra == CursorDone then 1 else 0)
    }

    ghost predicate Valid()
      reads this
    {
      Holds(Silent) && controlBuffered <= MAX_OUTPUT + 5 && |output| <= MAX_OUTPUT_RECORDS + 2
    }

    constructor ()
      ensures Valid() && !closed && !authenticated && accepted == [] && written == []
    {
      authenticated, closed, output, buffered, controlBuffered := false, false, [], 0, 0;
      framePending, cursorPending, accepted, written := false, false, [], [];
    }

    lemma Bounds()
      requires Valid()
      ensures buffered <= MAX_OUTPUT + 5 + MAX_FRAME + MAX_CURSOR
      ensures framePending <==> exists r :: r in output && r.completed == FrameDone
      ensures cursorPending <==> exists r :: r in output && r.completed == CursorDone
    {
      PayloadBound(output);
      SignalPresent(output, FrameDone);
      SignalPresent(output, CursorDone);
    }

    method Append(data: Bytes, payload: bool, completed: Signal)
      requires data != []
      modifies this`output, this`buffered, this`controlBuffered
      ensures output == old(output) + [Record(data, payload, completed)]
      ensures buffered == old(buffered) + |data|
      ensures controlBuffered == old(controlBuffered) + if payload then 0 else |data|
    {
      output := output + [Record(data, payload, completed)];
      buffered := buffered + |data|;
      if !payload {
        controlBuffered := controlBuffered + |data|;
      }
    }

    predicate Room(size: nat)
      reads this
    {
      !closed && authenticated && controlBuffered + size <= MAX_OUTPUT && |output| < MAX_OUTPUT_RECORDS
    }

    predicate Sendable(body: Bytes)
      reads this
    {
      0 < |body| <= MAX_OUTPUT - 5 && Room(|body| + 5)
    }

    /** `send`: a message that does not fit revokes the viewer instead of being dropped. */
    method Send(body: Bytes, completed: Signal) returns (ok: bool)
      requires Valid() && completed != FrameDone
      requires completed == CursorDone ==> !cursorPending
      modifies this
      ensures ok == old(Sendable(body))
      ensures ok ==> !closed && authenticated && accepted == old(accepted) + [Unit(1, body)] && written == old(written)
      ensures ok ==> output == old(output) + [Record(Framed(Unit(1, body)), false, completed)]
      ensures ok ==> controlBuffered <= MAX_OUTPUT && |output| <= MAX_OUTPUT_RECORDS
      ensures ok ==> framePending == old(framePending) && cursorPending == old(cursorPending)
      ensures ok ==> Holds(completed)
      ensures !ok ==> Valid() && closed == (old(closed) || old(authenticated)) && accepted == old(accepted)
    {
      hide Queued, ControlBytes, Signals, Stream;
      if closed || !authenticated {
        return false;
      }
      if !(0 < |body| <= MAX_OUTPUT - 5) || controlBuffered + |body| + 5 > MAX_OUTPUT ||
        |output| >= MAX_OUTPUT_RECORDS {
        Close();
        return false;
      }
      var u := Unit(1, body);
      var record := Record(Framed(u), false, completed);
      assert Proper(record);
      hide Proper, Framed;
      Appended(output, record);
      StreamOne(u);
      StreamAppend(accepted, [u]);
      assert written + (Queued(output) + record.data) == written + Queued(output) + record.data;
      Append(Framed(u), false, completed);
      accepted := accepted + [u];
      ok := true;
    }

    /** `send_frame`: metadata, header and pixels follow one another, or nothing is queued. */
    method SendFrame(description: Bytes, pixels: Bytes) returns (ok: bool)
      requires Valid() && 0 < |pixels| <= MAX_FRAME
      modifies this
      ensures Valid()
      ensures ok == old(!framePending && Sendable(description))
      ensures ok ==> !closed && framePending && accepted == old(accepted) + [Unit(1, description), Unit(2, pixels)]
      ensures ok ==> written == old(written) && cursorPending == old(cursorPending)
      ensures !ok ==> accepted == old(accepted)
      ensures !ok ==> closed == (old(closed) || (old(authenticated) && !old(framePending)))
    {
      if closed || !authenticated || framePending {
        return false;
      }
      ok := Send(description, Silent);
      if ok {
        framePending := true;
        Payload(2, pixels, FrameDone);
        assert accepted == old(accepted) + [Unit(1, description), Unit(2, pixels)];
      }
    }

    /** `send_cursor`. */
    method SendCursor(description: Bytes, pixels: Option<Bytes>) returns (ok: bool)
      requires Valid() && (pixels.Some? ==> 0 < |pixels.value| <= MAX_CURSOR)
      modifies this
      ensures Valid()
      ensures ok == old(!cursorPending && Sendable(description))
      ensures ok ==> !closed && cursorPending && written == old(written) && framePending == old(framePending)
      ensures ok ==> accepted == old(accepted) + [Unit(1, description)] + if pixels.Some?
        then [Unit(3, pixels.value)] else []
      ensures !ok ==> accepted == old(accepted)
      ensures !ok ==> closed == (old(closed) || (old(authenticated) && !old(cursorPending)))
    {
      if closed || !authenticated || cursorPending {
        return false;
      }
      ok := Send(description, if pixels.Some? then Silent else CursorDone);
      if ok {
        cursorPending := true;
        if pixels.Some? {
          Payload(3, pixels.value, CursorDone);
        }
      }
    }

    /** The header and pixel records of one payload; its pending flag is already raised. */
    method Payload(kind: byte, pixels: Bytes, completed: Signal)
      requires !closed && 0 < |pixels| <= MAX_FRAME && (completed == CursorDone ==> |pixels| <= MAX_CURSOR)
      requires completed != Silent && RaisedOnly(completed)
      requires controlBuffered <= MAX_OUTPUT && |output| <= MAX_OUTPUT_RECORDS
      modifies this`output, this`buffered, this`controlBuffered, this`accepted
      ensures Valid() && accepted == old(accepted) + [Unit(kind, pixels)]
    {
      hide Queued, ControlBytes, Signals, Stream;
      var u := Unit(kind, pixels);
      var head := Head(kind, |pixels|);
      var first, second := Record(head, false, Silent), Record(pixels, true, completed);
      Appended(output, first);
      Appended(output + [first], second);
      StreamOne(u);
      StreamAppend(accepted, [u]);
      assert head + pixels == Framed(u);
      assert Queued(output) + head + pixels == Queued(output) + Framed(u);
      assert written + (Queued(output) + head + pixels) == written + Queued(output) + Framed(u);
      Append(head, false, Silent);
      Append(pixels, true, completed);
      accepted := accepted + [u];
    }

    /** `Holds` with one flag raised before its record is queued. */
    ghost predicate RaisedOnly(s: Signal)
      reads this
    {
      && AllFit(accepted)
      && written + Queued(output) == Stream(accepted)
      && (forall r :: r in output ==> Proper(r))
      && buffered == |Queued(output)|
      && controlBuffered == ControlBytes(output)
      && (s == FrameDone ==> framePending) && (s == CursorDone ==> cursorPending)
      && Signals(output, FrameDone) == (if framePending && s != FrameDone then 1 else 0)
      && Signals(output, CursorDone) == (if cursorPending && s != CursorDone then 1 else 0)
    }

    /** One record's worth of `write`: the first `count` of its bytes have left. */
    method Advance(count: nat) returns (drained: bool)
      requires Valid() && !closed && output != [] && 0 < count <= |output[0].data|
      modifies this
      ensures Valid() && !closed && accepted == old(accepted) && authenticated == old(authenticated)
      ensures written == old(written) + old(output)[0].data[..count] && output == Left(old(output), count)
      ensures drained == (count == |old(output)[0].data| && old(output)[0].completed != Silent)
      ensures drained && old(output)[0].completed == FrameDone ==> old(framePending)
      ensures drained && old(output)[0].completed == CursorDone ==> old(cursorPending)
      ensures framePending == (old(framePending) && !(drained && old(output)[0].completed == FrameDone))
      ensures cursorPending == (old(cursorPending) && !(drained && old(output)[0].completed == CursorDone))
    {
      hide Queued, ControlBytes, Signals, Stream, AllFit;
      var first := output[0];
      assert first in output && Proper(first);
      var taken, left := first.data[..count], first.data[count..];
      assert first.data == taken + left;
      Popped(output);
      buffered := buffered - count;
      if !first.payload {
        controlBuffered := controlBuffered - count;
      }
      drained := false;
      if count == |first.data| {
        assert taken == first.data;
        output := output[1..];
        if first.completed == CursorDone {
          cursorPending := false;
        } else if first.completed == FrameDone {
          framePending := false;
        }
        drained := first.completed != Silent;
      } else {
        Shortened(output, count);
        output := [first.(data := left)] + output[1..];
      }
      written := written + taken;
      assert old(written) + (taken + Queued(output)) == written + Queued(output);
    }

    lemma FirstProper()
      requires Valid() && output != []
      ensures output[0].data != []
    {
      assert output[0] in output;
    }

    /** `write`: as many records as the kernel and the turn's budget allow. */
    method Write(replies: seq<Sent>) returns (drained: bool)
      requires Valid()
      requires forall r :: r in replies && r.Count? ==> r.n <= MAX_MESSAGE
      modifies this
      ensures Valid() && accepted == old(accepted)
      ensures old(written) <= written && |written| <= |old(written)| + MAX_MESSAGE
      ensures old(closed) ==> closed && written == old(written) && !drained
      ensures !old(closed) ==>
        var turn := Turn(old(output), MAX_MESSAGE, replies);
        |written| == |old(written)| + turn.taken && output == turn.left && closed == turn.broken
      ensures !closed ==> (drained <==> (old(framePending) && !framePending) || (old(cursorPending) && !cursorPending))
      ensures !closed ==> (framePending ==> old(framePending)) && (cursorPending ==> old(cursorPending))
      ensures !closed && output != [] && |written| < |old(written)| + MAX_MESSAGE ==>
        exists j :: 0 <= j <= |replies| && (j < |replies| ==> replies[j].Blocked?)
                    && forall k :: 0 <= k < j ==> replies[k].Count? && replies[k].n > 0
      ensures closed && !old(closed) ==>
        exists j :: 0 <= j < |replies| && (replies[j].Broken? || replies[j] == Count(0))
    {
      hide Holds, Turn, Left;
      drained := false;
      if closed {
        return;
      }
      assert replies[0..] == replies;
      var budget: int := MAX_MESSAGE;
      var i := 0;
      while output != [] && budget > 0
        invariant Valid() && !closed && accepted == old(accepted) && old(written) <= written
        invariant |written| == |old(written)| + (MAX_MESSAGE - budget) && 0 <= budget <= MAX_MESSAGE
        invariant 0 <= i <= |replies| && forall k :: 0 <= k < i ==> replies[k].Count? && replies[k].n > 0
        invariant var turn, rest := Turn(old(output), MAX_MESSAGE, replies), Turn(output, budget, replies[i..]);
                  turn == rest.(taken := MAX_MESSAGE - budget + rest.taken)
        invariant (framePending ==> old(framePending)) && (cursorPending ==> old(cursorPending))
        invariant drained <==> (old(framePending) && !framePending) || (old(cursorPending) && !cursorPending)
        decreases budget
      {
        TurnEnds(output, budget, replies, i);
        if i >= |replies| || replies[i].Blocked? {
          return;
        }
        FirstProper();
        var offered := if |output[0].data| <= budget then |output[0].data| else budget;
        if replies[i].Broken? || replies[i].n == 0 {
          assert replies[i].Broken? || replies[i] == Count(0);
          Close();
          return;
        }
        var count := if replies[i].n <= offered then replies[i].n else offered;
        TurnFrom(output, budget, replies, i);
        var done := Advance(count);
        budget := budget - count;
        drained := drained || done;
        i := i + 1;
      }
      TurnEnds(output, budget, replies, i);
    }

    /** `close`. */
    method Close()
      requires Valid()
      modifies this
      ensures Valid() && closed && accepted == old(accepted) && written == old(written) && output == []
      ensures authenticated == old(authenticated)
    {
      if closed {
        return;
      }
      closed := true;
      output, buffered, controlBuffered, framePending, cursorPending := [], 0, 0, false, false;
    }

    /**
     Whatever interleaving of sends and partial writes led here, the viewer has
     received a prefix of the accepted units.
     */
    lemma ReceivedInOrder()
      requires Valid() && !closed
      ensures Units(written) <= accepted
      ensures output == [] ==> Units(written) == accepted
    {
      assert written == Stream(accepted)[..|written|];
      PrefixReadsBack(accepted, |written|);
      if output == [] {
        assert written + [] == written;
      }
    }
  }

  lemma Unfolded(first: Record, rest: seq<Record>)
    ensures var output := [first] + rest;
            && Queued(output) == first.data + Queued(rest)
            && ControlBytes(output) == (if first.payload then 0 else |first.data|) + ControlBytes(rest)
            && (forall s :: Signals(output, s) == (if first.completed == s then 1 else 0) + Signals(rest, s))
  {
    assert ([first] + rest)[1..] == rest;
  }

  lemma Popped(output: seq<Record>)
    requires output != [] && forall r :: r in output ==> Proper(r)
    ensures var first, rest := output[0], output[1..];
            && (forall r :: r in rest ==> Proper(r))
            && Queued(output) == first.data + Queued(rest)
            && ControlBytes(output) == (if first.payload then 0 else |first.data|) + ControlBytes(rest)
            && (forall s :: Signals(output, s) == (if first.completed == s then 1 else 0) + Signals(rest, s))
  {
    assert forall r :: r in output[1..] ==> r in output;
  }

  lemma Shortened(output: seq<Record>, count: nat)
    requires output != [] && 0 < count < |output[0].data| && Proper(output[0])
    ensures var first := output[0].(data := output[0].data[count..]);
            var shorter := [first] + output[1..];
            && Proper(first)
            && output[0].data[..count] + Queued(shorter) == Queued(output)
            && ControlBytes(shorter) == ControlBytes(output) - (if first.payload then 0 else count)
            && (forall s :: Signals(shorter, s) == Signals(output, s))
  {
    hide Queued, ControlBytes, Signals;
    var first, rest := output[0].(data := output[0].data[count..]), output[1..];
    assert output == [output[0]] + rest;
    Unfolded(output[0], rest);
    Unfolded(first, rest);
    assert output[0].data == output[0].data[..count] + first.data;
    assert Queued(output) == output[0].data[..count] + (first.data + Queued(rest));
  }

  lemma StreamOne(u: Unit)
    requires u.Fits()
    ensures AllFit([u]) && Stream([u]) == Framed(u)
  {
    assert [u][1..] == [];
  }

  lemma {:induction false} SignalPresent(output: seq<Record>, s: Signal)
    ensures Signals(output, s) > 0 <==> exists r :: r in output && r.completed == s
  {
    if output != [] {
      SignalPresent(output[1..], s);
    }
  }

  // ---- input ------------------------------------------------------------------------

  /** The unparsed remainder of a connection's input, or the fact that it was closed. */
  datatype Reader = Open(rest: Bytes) | Shut

  /**
   Takes complete requests off the front of the buffer, after those in `done`.
   `closes` says whether dispatching the last of these requests closes the
   viewer: then nothing that follows it is read.
   */
  function Take(done: seq<Bytes>, input: Bytes, closes: seq<Bytes> -> bool): (r: (seq<Bytes>, Reader))
    ensures r.1.Open? ==> |r.1.rest| < MAX_MESSAGE + 5 && |r.1.rest| <= |input|
    decreases |input|
  {
    if |input| < 5 then ([], Open(input))
    else
      var size := Length(input);
      if input[0] != 1 || !(0 < size <= MAX_MESSAGE) then ([], Shut)
      else if |input| < size + 5 then ([], Open(input))
      else
        var request := input[5..size + 5];
        if closes(done + [request]) then ([request], Shut)
        else
          var (more, end) := Take(done + [request], input[size + 5..], closes);
          ([request] + more, end)
  }

  /** One read event appends what the socket returned and parses on. */
  function Feed(done: seq<Bytes>, r: Reader, data: Bytes, closes: seq<Bytes> -> bool): (seq<Bytes>, Reader) {
    match r
    case Shut => ([], Shut)
    case Open(rest) => Take(done, rest + data, closes)
  }

  lemma LengthLocal(a: Bytes, b: Bytes)
    requires |a| >= 5
    ensures Length(a + b) == Length(a) && (a + b)[0] == a[0]
  {
  }

  /** The front of the buffer is not a request. */
  predicate Malformed(input: Bytes) {
    |input| >= 5 && (input[0] != 1 || !(0 < Length(input) <= MAX_MESSAGE))
  }

  predicate Whole(input: Bytes) {
    |input| >= 5 && !Malformed(input) && |input| >= Length(input) + 5
  }

  function First(input: Bytes): Bytes
    requires Whole(input)
  {
    input[5..Length(input) + 5]
  }

  function Rest(input: Bytes): Bytes
    requires Whole(input)
  {
    input[Length(input) + 5..]
  }

  lemma TakesOne(done: seq<Bytes>, input: Bytes, closes: seq<Bytes> -> bool)
    ensures Whole(input) ==>
      var more := Take(done + [First(input)], Rest(input), closes);
      Take(done, input, closes) == if closes(done + [First(input)]) then ([First(input)], Shut)
        else ([First(input)] + more.0, more.1)
    ensures !Whole(input) ==> Take(done, input, closes) == ([], if Malformed(input) then Shut else Open(input))
  {
  }

  /** What is at the front does not change with what follows. */
  lemma FrontStays(a: Bytes, b: Bytes)
    ensures Malformed(a) ==> Malformed(a + b)
    ensures Whole(a) ==> Whole(a + b) && First(a + b) == First(a) && Rest(a + b) == Rest(a) + b
  {
    if |a| >= 5 {
      LengthLocal(a, b);
      hide Length;
      if Whole(a) {
        assert (a + b)[5..Length(a) + 5] == a[5..Length(a) + 5];
        assert (a + b)[Length(a) + 5..] == a[Length(a) + 5..] + b;
      }
    }
  }

  lemma {:induction false} TakeContinues(done: seq<Bytes>, a: Bytes, b: Bytes, closes: seq<Bytes> -> bool)
    ensures var (first, r) := Take(done, a, closes);
            var (second, s) := Feed(done + first, r, b, closes);
            Take(done, a + b, closes) == (first + second, s)
    decreases |a|
  {
    hide Take, First, Malformed;
    var none: seq<Bytes> := [];
    TakesOne(done, a, closes);
    TakesOne(done, a + b, closes);
    FrontStays(a, b);
    if Whole(a) {
      var request := First(a);
      if closes(done + [request]) {
        assert [request] + none == [request];
      } else {
        TakeContinues(done + [request], Rest(a), b, closes);
        var (more, r) := Take(done + [request], Rest(a), closes);
        assert done + [request] + more == done + ([request] + more);
        var (second, s) := Feed(done + [request] + more, r, b, closes);
        assert [request] + (more + second) == [request] + more + second;
      }
    } else {
      assert done + none == done;
      assert none + Take(done, a + b, closes).0 == Take(done, a + b, closes).0;
    }
  }

  /** How the network cuts the bytes never changes which requests are dispatched or whether the viewer is closed. */
  lemma ChunksDoNotMatter(done: seq<Bytes>, r: Reader, a: Bytes, b: Bytes, closes: seq<Bytes> -> bool)
    ensures var (first, s) := Feed(done, r, a, closes);
            var (second, t) := Feed(done + first, s, b, closes);
            Feed(done, r, a + b, closes) == (first + second, t)
  {
    if r.Open? {
      assert r.rest + (a + b) == r.rest + a + b;
      TakeContinues(done, r.rest + a, b, closes);
    } else {
      var none: seq<Bytes> := [];
      assert none + none == none;
    }
  }

  /**
   `read`: it always asks for at least one byte, and dispatches exactly the
   complete requests, up to one that closes the viewer.
   */
  method Read(done: seq<Bytes>, input: Bytes, available: Bytes, closes: seq<Bytes> -> bool)
    returns (asked: nat, requests: seq<Bytes>, next: Reader)
    requires |input| < MAX_MESSAGE + 5 && Take(done, input, closes) == ([], Open(input))
    ensures asked >= 1 && |input| + asked == MAX_MESSAGE + 5
    ensures available == [] ==> requests == [] && next == Shut
    ensures available != [] ==>
      (requests, next) == Feed(done, Open(input), if |available| <= asked then available
        else available[..asked], closes)
    ensures next.Open? ==> Take(done + requests, next.rest, closes) == ([], next)
  {
    hide Take, Length;
    asked := MAX_MESSAGE + 5 - |input|;
    requests := [];
    if available == [] {
      return asked, [], Shut;
    }
    var buffer := input + if |available| <= asked then available else available[..asked];
    ghost var whole := Take(done, buffer, closes);
    assert done + requests == done && requests + whole.0 == whole.0;
    while |buffer| >= 5
      invariant whole == (requests + Take(done + requests, buffer, closes).0, Take(done + requests, buffer, closes).1)
      decreases |buffer|
    {
      TakesOne(done + requests, buffer, closes);
      var size := Length(buffer);
      if buffer[0] != 1 || !(0 < size <= MAX_MESSAGE) {
        assert requests + [] == requests;
        return asked, requests, Shut;
      }
      if |buffer| < size + 5 {
        break;
      }
      ghost var before, rest := requests, Take(done + requests, buffer, closes).0;
      var request := buffer[5..size + 5];
      requests := requests + [request];
      assert done + requests == done + before + [request];
      if closes(done + requests) {
        return asked, requests, Shut;
      }
      buffer := buffer[size + 5..];
      assert before + rest == requests + Take(done + requests, buffer, closes).0;
    }
    TakesOne(done + requests, buffer, closes);
    assert requests + [] == requests;
    next := Open(buffer);
  }
}
