/**
 One native capture at a time (desktop_capture.py, `NativeFrames`), bracketed by
 two answers of the compositor about its scene (desktop_native.py,
 `query_scene` and the `scene-at` record).

 The compositor's scenes form a history in which every scene has a greater
 generation than the one before it; a scene query is answered with the scene of
 some moment between the asking and the hearing. The capture child answers each
 request it receives whole with one whole reply, when it is well-formed.
 */
module Capture {
  import opened Common
  import opened Pod

  type Bytes = seq<byte>

  const HEADER: nat := 40
  const CHUNK: nat := 128 * 1024
  const LAST_SEQUENCE: nat := 0xffff_ffff

  datatype Scene = Scene(window: nat, generation: nat)

  /** Between the barriers a ticket is at `Header` or `Pixels`. */
  datatype Stage = Begin | Header | Pixels(length: nat) | End

  /** What is written to the child, and for which scene. */
  datatype Request = Request(sequence: nat, mode: nat, reset: bool, refining: bool, target: Scene)

  /** `request` is what is being written, `output` how many of its bytes are left. */
  datatype Ticket = Ticket(call: nat, sequence: nat, target: Scene, cancelled: bool, stage: Stage, input: Bytes,
    request: Option<Request>, output: nat, image: Option<Bytes>)

  datatype Outcome = Picture(pixels: Bytes) | Unchanged | Failed

  datatype Completion = Completion(call: nat, outcome: Outcome)

  /**
   A picture that was delivered: the request it answers, and the moments of the
   first answer, of the request, of the last byte read and of the second answer.
   */
  datatype Taken = Taken(call: nat, sequence: nat, target: Scene, pixels: Bytes, first: nat, wrote: nat, read: nat,
    last: nat)

  /** Generations only grow, and one generation is one scene. */
  ghost predicate Ordered(history: seq<Scene>) {
    forall i, j :: 0 <= i < j < |history| ==>
      history[i].generation <= history[j].generation &&
        (history[i].generation == history[j].generation ==> history[i] == history[j])
  }

  ghost predicate Throughout(history: seq<Scene>, scene: Scene, from: nat, to: nat) {
    from <= to < |history| && forall k :: from <= k <= to ==> history[k] == scene
  }

  /** Two equal answers enclose nothing else. */
  lemma Bracketed(history: seq<Scene>, from: nat, to: nat)
    requires Ordered(history) && from <= to < |history| && history[from] == history[to]
    ensures Throughout(history, history[from], from, to)
  {
  }

  ghost predicate Sound(t: Taken, history: seq<Scene>) {
    t.first <= t.wrote <= t.read <= t.last && Throughout(history, t.target, t.first, t.last)
  }

  lemma StillSound(taken: seq<Taken>, history: seq<Scene>, next: Scene)
    requires forall t :: t in taken ==> Sound(t, history)
    ensures forall t :: t in taken ==> Sound(t, history + [next])
  {
  }

  /** Every call so far has completed once, in order. */
  ghost predicate Once(completions: seq<Completion>, n: int) {
    |completions| == n && forall i :: 0 <= i < |completions| ==> completions[i].call == i + 1
  }

  function Payload(reply: Bytes): Bytes {
    if |reply| < HEADER then [] else reply[HEADER..]
  }

  // ---- replies ---------------------------------------------------------------------

  function Field(h: Bytes, i: nat): nat
    requires |h| == HEADER && i < 10
  {
    Word(h, 4 * i)
  }

  predicate KnownFormat(f: nat) {
    f == 0x20474e50 || f == 0x4745504a || f == 0x50424557
  }

  predicate SoundPicture(h: Bytes)
    requires |h| == HEADER
  {
    var width, height, length, x, y, rw, rh :=
      Field(h, 2), Field(h, 3), Field(h, 5), Field(h, 6), Field(h, 7), Field(h, 8), Field(h, 9);
    && 0 < width <= 4096 && 0 < height <= 4096
    && 20 <= length <= 4096 * 4096 * 4 && KnownFormat(Field(h, 4))
    && 0 < rw <= width && 0 < rh <= height && x + rw <= width && y + rh <= height
  }

  /** A whole reply to request `sequence`. */
  predicate Reply(bytes: Bytes, sequence: nat) {
    && |bytes| >= HEADER
    && var h := bytes[..HEADER];
       && Field(h, 0) == sequence && 1 <= Field(h, 1) <= 4
       && if Field(h, 1) == 1 then SoundPicture(h) && |bytes| == HEADER + Field(h, 5)
         else Field(h, 5) == 0 && |bytes| == HEADER
  }

  /** How a call ends when the answer to its second query arrives, or to any query after it was cancelled. */
  function Verdict(t: Ticket, scene: Scene): Outcome {
    if t.cancelled || scene != t.target then Failed
    else if t.image.Some? then Picture(t.image.value)
    else Unchanged
  }

  /** How a call ends that is left alone and whose scene stays. */
  ghost function Answered(reply: Bytes): Outcome
    requires |reply| >= HEADER
  {
    var status := Field(reply[..HEADER], 1);
    if status == 1 then Picture(Payload(reply)) else if status == 4 then Unchanged else Failed
  }

  class NativeFrames {
    var closed: bool
    var pending: Option<Ticket>
    var sequence: nat
    var reset: bool
    var refining: bool
    var mode: nat
    var target: Option<Scene>
    /** Whether the compositor owes an answer. */
    var asking: bool
    var calls: nat

    /** The compositor's scenes, and moments of the exchange in progress. */
    var history: seq<Scene>
    var asked: nat
    ghost var first: nat
    ghost var wrote: nat
    ghost var read: nat
    /**
     The child's reply to each request, what of the last one has not been received,
     and whether everything received was its.
     */
    ghost var replies: map<nat, Bytes>
    ghost var unread: Bytes
    ghost var honest: bool

    ghost var completions: seq<Completion>
    ghost var taken: seq<Taken>
    ghost var requests: seq<Request>

    /** What is true of every picture and reply so far. */
    ghost predicate Past()
      reads this`history, this`taken, this`honest, this`replies, this`sequence
    {
      && Ordered(history)
      && (forall t :: t in taken ==>
        Sound(t, history) && (honest ==> t.sequence in replies && t.pixels == Payload(replies[t.sequence])))
      && (forall n :: n in replies ==> n <= sequence && Reply(replies[n], n))
    }

    ghost predicate Histories()
      reads this`history, this`taken, this`honest, this`replies, this`sequence, this`asking, this`asked
      reads this`completions, this`calls, this`pending
    {
      && Past() && history != []
      && (asking ==> asked < |history|)
      && Once(completions, calls - if pending.Some? then 1 else 0)
    }

    /** What the stage of a ticket says about the two answers and about the child's stream. */
    ghost predicate Underway(t: Ticket)
      reads this
    {
      && t.call == calls && t.sequence == sequence
      && (t.stage == Begin ==> asking && t.input == [] && t.output == 0)
      && (t.stage != Begin ==> first <= wrote < |history| && history[first] == t.target)
      && (t.stage == Header ==> !asking && |t.input| < HEADER)
      && (t.stage.Pixels? ==> !asking && |t.input| < t.stage.length)
      && (t.stage == End ==> asking && wrote <= read <= asked)
      && (honest ==> match t.stage
          case Begin => unread == [] && t.sequence !in replies
          case Header =>
            if t.output > 0 then unread == t.input == [] && t.sequence !in replies
            else t.sequence in replies && t.input + unread == replies[t.sequence]
          case Pixels(length) =>
            && t.output == 0 && t.sequence in replies && |replies[t.sequence]| == HEADER + length
            && t.input + unread == Payload(replies[t.sequence])
          case End =>
            && unread == [] && t.sequence in replies
            && (t.image.Some? ==> t.image.value == Payload(replies[t.sequence])))
    }

    /** Without a ticket the child's replies have been consumed whole. */
    ghost predicate Valid()
      reads this
    {
      && Histories()
      && (closed ==> pending.None?)
      && (pending.Some? ==> Underway(pending.value))
      && (pending.None? && honest && !closed ==> unread == [])
    }

    constructor (scene: Scene)
      ensures Valid() && !closed && pending.None? && calls == 0 && completions == [] && honest && reset
    {
      closed, pending, sequence, reset, refining, mode, target, asking, calls :=
        false, None, 0, true, false, 0, None, false, 0;
      history, asked, first, wrote, read, replies, unread, honest := [scene], 0, 0, 0, 0, map[], [], true;
      completions, taken, requests := [], [], [];
    }

    /** The compositor moves on to another scene, or a moment passes. */
    method Moment(next: Scene)
      requires Valid() && (next == history[|history| - 1] || next.generation > history[|history| - 1].generation)
      modifies this`history
      ensures Valid() && history == old(history) + [next]
    {
      StillSound(taken, history, next);
      ghost var was := history;
      history := history + [next];
      assert forall i :: 0 <= i < |was| ==> history[i] == was[i];
    }

    /** `finish`: the one completion of the pending call. */
    method Finish(outcome: Outcome)
      requires Histories() && pending.Some? && pending.value.call == calls
      requires honest && !closed ==> unread == []
      modifies this`pending, this`completions, this`reset
      ensures Valid() && pending.None? && completions == old(completions) + [Completion(calls, outcome)]
      ensures reset == (old(reset) || outcome == Failed)
    {
      hide Past, Reply;
      completions := completions + [Completion(calls, outcome)];
      pending := None;
      if outcome == Failed {
        reset := true;
      }
    }

    /** `close`. */
    method Close()
      requires Histories() && (pending.Some? ==> pending.value.call == calls) && (closed ==> pending.None?)
      modifies this`closed, this`pending, this`completions, this`reset
      ensures Valid() && closed && pending.None? && calls == old(calls)
      ensures reset == (old(reset) || old(!closed && pending.Some?))
      ensures completions == old(completions) +
        (if old(!closed && pending.Some?) then [Completion(calls, Failed)] else [])
    {
      hide Past, Reply;
      if closed {
        return;
      }
      closed := true;
      if pending.Some? {
        Finish(Failed);
      }
    }

    /** `capture`. A second call while one is pending is refused and changes nothing. */
    method Capture(target: Scene, asks: bool) returns (ok: bool)
      requires Valid()
      modifies this
      ensures Valid() && ok == old(pending.None?)
      ensures !ok ==> unchanged(this)
      ensures ok ==> calls == old(calls) + 1
      ensures ok && old(!closed && !asking && sequence < LAST_SEQUENCE) && asks ==>
        && pending == Some(Ticket(calls, old(sequence) + 1, target, false, Begin, [], None, 0, None))
        && asking && asked == |history| - 1 && !closed && sequence == old(sequence) + 1 && reset == old(reset)
        && completions == old(completions) && requests == old(requests)
        && unchanged(this`history, this`honest, this`unread, this`replies, this`mode, this`refining, this`target)
      ensures ok && !(old(!closed && !asking && sequence < LAST_SEQUENCE) && asks) ==>
        closed && pending.None? && completions == old(completions) + [Completion(calls, Failed)]
    {
      hide Past, Reply;
      if pending.Some? {
        return false;
      }
      ok := true;
      calls := calls + 1;
      if closed {
        completions := completions + [Completion(calls, Failed)];
        return;
      }
      Number();
      if sequence > LAST_SEQUENCE {
        closed := true;
        completions := completions + [Completion(calls, Failed)];
        return;
      }
      pending := Some(Ticket(calls, sequence, target, false, Begin, [], None, 0, None));
      Ask(asks);
    }

    method Number()
      requires Past()
      modifies this`sequence
      ensures Past() && sequence == old(sequence) + 1 && sequence !in replies
    {
      hide Ordered, Sound, Reply, Payload;
      sequence := sequence + 1;
    }

    /** `barrier`: only one scene query is outstanding at a time. */
    method Ask(asks: bool)
      requires Histories() && !closed && pending.Some? && pending.value.call == calls
      requires asks && !asking ==> pending.value.sequence == sequence
      modifies this`asking, this`asked, this`closed, this`pending, this`completions, this`reset
      ensures asks && !old(asking) ==>
        && asking
        && asked == |history| - 1
        && pending == old(pending)
        && closed == old(closed)
        && completions == old(completions)
        && reset == old(reset)
      ensures !(asks && !old(asking)) ==>
        && Valid()
        && closed && pending.None? && reset
        && completions == old(completions) + [Completion(calls, Failed)]
        && asking == old(asking)
        && asked == old(asked)
    {
      hide Past, Reply;
      if asks && !asking {
        asking, asked := true, |history| - 1;
      } else {
        Close();
      }
    }

    /** The answer to the outstanding query, which the compositor gave at the moment `at`. */
    method Observed(scene: Scene, ghost at: nat)
      requires Valid() && asking && asked <= at < |history| && history[at] == scene
      modifies this
      ensures Valid() && !asking && calls == old(calls) && closed == old(closed) && sequence == old(sequence)
      ensures unchanged(this`history, this`honest, this`unread, this`replies, this`mode)
      ensures old(pending).None? ==> pending.None? && completions == old(completions) && reset == old(reset)
      ensures old(pending).Some? && (old(pending).value.stage == End || !Proceeds(old(pending).value, scene)) ==>
        && pending.None? && requests == old(requests)
        && completions == old(completions) + [Completion(calls, Verdict(old(pending).value, scene))]
        && reset == (old(reset) || Verdict(old(pending).value, scene) == Failed)
      ensures old(pending).Some? && pending.None? && Verdict(old(pending).value, scene).Picture? ==>
        taken == old(taken) + [Taken(calls, sequence, scene, old(pending).value.image.value, first, wrote, read, at)]
      ensures old(pending).Some? && old(pending).value.stage == Begin && Proceeds(old(pending).value, scene) ==>
        && completions == old(completions)
        && Sends(old(pending).value,
                 Request(sequence, mode, old(reset) || old(target) != Some(scene), old(refining), scene))
    {
      hide Past, Reply;
      if pending.None? {
        asking := false;
        return;
      }
      var t := pending.value;
      if t.cancelled || scene != t.target {
        asking := false;
        Finish(Failed);
      } else if t.stage == End {
        asking := false;
        if t.image.Some? {
          Keep(t, at);
        }
        Finish(if t.image.Some? then Picture(t.image.value) else Unchanged);
      } else {
        Send(at);
      }
    }

    /** The scene is the one the ticket is for, by window and by generation, and nobody gave it up. */
    ghost predicate Proceeds(t: Ticket, scene: Scene) {
      !t.cancelled && scene.window == t.target.window && scene.generation == t.target.generation
    }

    /** The request is on its way, and what it asked for is not asked for again. */
    twostate predicate Sends(t: Ticket, r: Request)
      reads this
    {
      && pending == Some(t.(stage := Header, output := 12, request := Some(r)))
      && requests == old(requests) + [r]
      && !reset && !refining && target == Some(t.target) && !asking
    }

    /**
     The first answer is the target's: the request goes out, with a reset unless the
     last one was for the same target.
     */
    method Send(ghost at: nat)
      requires Valid() && !closed && pending.Some? && pending.value.stage == Begin && at < |history|
      requires history[at] == pending.value.target
      requires honest ==> unread == []
      modifies this`first, this`wrote, this`requests, this`pending, this`reset, this`refining, this`target, this`asking
      ensures Valid()
      ensures Sends(old(pending).value,
                    Request(sequence, mode, old(reset) || old(target) != Some(old(pending).value.target),
                                                old(refining), old(pending).value.target))
    {
      hide Past, Reply, Payload, Once;
      var t := pending.value;
      var request := Request(t.sequence, mode, reset || target != Some(t.target), refining, t.target);
      requests := requests + [request];
      reset, refining, target := false, false, Some(t.target);
      Open(at, request);
    }

    method Open(ghost at: nat, request: Request)
      requires Valid() && !closed && pending.Some? && pending.value.stage == Begin && at < |history|
      requires history[at] == pending.value.target
      requires honest ==> unread == []
      modifies this`first, this`wrote, this`pending, this`asking
      ensures Valid() && !asking
      ensures pending == Some(old(pending).value.(stage := Header, output := 12, request := Some(request)))
    {
      hide Past, Reply, Payload, Once;
      first, wrote, asking := at, |history| - 1, false;
      pending := Some(pending.value.(stage := Header, output := 12, request := Some(request)));
    }

    ghost method Keep(t: Ticket, at: nat)
      requires Histories() && pending == Some(t) && t.stage == End && t.image.Some? && t.call == calls
      requires t.sequence == sequence
      requires first <= wrote <= read <= at < |history| && history[first] == history[at] == t.target
      requires honest ==> t.sequence in replies && t.image.value == Payload(replies[t.sequence])
      modifies this`taken
      ensures Histories()
      ensures taken == old(taken) + [Taken(t.call, t.sequence, t.target, t.image.value, first, wrote, read, at)]
    {
      Bracketed(history, first, at);
      taken := taken + [Taken(t.call, t.sequence, t.target, t.image.value, first, wrote, read, at)];
    }

    /** `write`. The child answers, in its own time, the request it has received whole. */
    method Write(count: nat, broken: bool, ghost reply: Bytes)
      requires Valid() && (pending.Some? ==> Reply(reply, pending.value.sequence))
      modifies this
      ensures Valid() && calls == old(calls)
      ensures old(closed || pending.None? || pending.value.output == 0) ==> unchanged(this)
      ensures old(pending.Some? && pending.value.output > 0) && (broken || count == 0) ==>
        closed && completions == old(completions) + [Completion(calls, Failed)]
      ensures old(pending.Some? && pending.value.output > 0) && !broken && count > 0 ==>
        && unchanged(this`closed, this`completions, this`honest, this`reset, this`sequence, this`history, this`asking)
        && pending == Some(old(pending).value.(output := if count < old(pending).value.output
             then old(pending).value.output - count else 0))
        && if pending.value.output > 0 then replies == old(replies) && unread == old(unread)
           else pending.value.sequence in replies && (old(pending).value.sequence !in old(replies) ==>
             replies == old(replies)[pending.value.sequence := reply] && unread == reply)
    {
      if closed || pending.None? || pending.value.output == 0 {
        return;
      }
      var t := pending.value;
      if broken || count == 0 {
        Close();
        return;
      }
      var left := if count < t.output then t.output - count else 0;
      pending := Some(t.(output := left));
      if left == 0 && t.sequence !in replies {
        unread, replies := reply, replies[t.sequence := reply];
      }
    }

    /** How many bytes `read` asks the socket for. */
    function Wanted(): (size: nat)
      requires Valid()
      reads this
      ensures 1 <= size <= CHUNK
    {
      if pending.None? then 1
      else match pending.value.stage
        case Header => HEADER - |pending.value.input|
        case Pixels(length) => if CHUNK <= length - |pending.value.input| then CHUNK else length - |pending.value.input|
        case _ => 1
    }

    /** Whether a reply is awaited. */
    predicate Awaiting()
      reads this
    {
      pending.Some? && (pending.value.stage == Header || pending.value.stage.Pixels?)
    }

    /**
     `read`, given what the socket returned: some bytes, or none at its end.
     `wellFormed` is whether a complete image is in its announced format.
     */
    method Read(chunk: Bytes, wellFormed: bool, asks: bool)
      requires Valid() && |chunk| <= Wanted()
      modifies this
      ensures Valid() && calls == old(calls)
      ensures honest ==> old(honest)
      ensures old(honest && Awaiting()) && chunk != [] && chunk <= old(unread) && wellFormed && asks ==>
        honest && closed == old(closed) && unread == old(unread)[|chunk|..]
      ensures old(closed) ==> unchanged(this)
      ensures old(!closed && !Awaiting()) || (old(!closed) && chunk == []) ==>
        closed && completions == old(completions) + if old(pending).Some? then [Completion(calls, Failed)] else []
      ensures old(!closed && Awaiting()) && chunk != [] ==>
        && unchanged(this`history, this`replies, this`sequence)
        && var t := old(pending).value.(input := old(pending).value.input + chunk);
           if t.stage == Header then
             if |t.input| < HEADER then Waits(t) else Heads(t, asks)
           else
             if |t.input| < t.stage.length then Waits(t) else Pictures(t, wellFormed, asks)
    {
      hide Past, Reply, Payload;
      if closed {
        return;
      }
      if !Awaiting() || chunk == [] {
        Close();
        return;
      }
      Take(chunk, wellFormed);
      var t := pending.value;
      if t.stage == Header {
        if |t.input| == HEADER {
          Headed(asks);
        }
      } else if |t.input| == t.stage.length {
        Complete(wellFormed, asks);
      }
    }

    /** The pending call stays in hand, as this ticket. */
    twostate predicate Waits(t: Ticket)
      reads this
    {
      pending == Some(t) && closed == old(closed) && completions == old(completions) && reset == old(reset)
    }

    /** The pending call has failed; `shut` if the socket is given up with it. */
    twostate predicate Fails(shut: bool)
      reads this
    {
      && pending.None? && reset && closed == (old(closed) || shut)
      && completions == old(completions) + [Completion(calls, Failed)]
    }

    /** The reply is whole: the second query is out, or it could not be asked. */
    twostate predicate Seals(t: Ticket, image: Option<Bytes>, asks: bool)
      reads this
    {
      if asks then Waits(t.(stage := End, image := image)) && asking && asked == |history| - 1 && read == |history| - 1
      else Fails(true)
    }

    /** What a complete header leads to, by its ten fields in the order they are sent. */
    twostate predicate Heads(t: Ticket, asks: bool)
      requires |t.input| == HEADER
      reads this
    {
      var h := t.input;
      var sequence, status, width, height, format := Field(h, 0), Field(h, 1), Field(h, 2), Field(h, 3), Field(h, 4);
      var length, x, y, rw, rh := Field(h, 5), Field(h, 6), Field(h, 7), Field(h, 8), Field(h, 9);
      if sequence != t.sequence then Fails(true)
      else if status == 4 && length == 0 then Seals(t.(input := []), None, asks)
      else if (status == 2 || status == 3) && length == 0 then Fails(false)
      else if status == 1 && 0 < width <= 4096 && 0 < height <= 4096 && 20 <= length <= 4 * 4096 * 4096
              && format in {0x20474e50, 0x4745504a, 0x50424557}
              && 0 < rw && x + rw <= width && 0 < rh && y + rh <= height
        then Waits(t.(input := [], stage := Pixels(length)))
      else Fails(true)
    }

    /** What the last byte of a picture leads to. */
    twostate predicate Pictures(t: Ticket, wellFormed: bool, asks: bool)
      reads this
    {
      if t.cancelled then Fails(false)
      else if !wellFormed then Fails(true)
      else Seals(t, Some(t.input), asks)
    }

    method Take(chunk: Bytes, wellFormed: bool)
      requires Valid() && Awaiting() && chunk != [] && |chunk| <= Wanted()
      modifies this`honest, this`unread, this`pending
      ensures Histories() && pending == Some(old(pending).value.(input := old(pending).value.input + chunk))
      ensures honest == (old(honest) && chunk <= old(unread) && wellFormed)
      ensures honest ==> unread == old(unread)[|chunk|..]
      ensures honest ==>
        var t := pending.value;
        && t.output == 0 && t.sequence in replies && Reply(replies[t.sequence], t.sequence)
        && (if t.stage == Header then t.input + unread == replies[t.sequence]
            else |Payload(replies[t.sequence])| == t.stage.length && t.input + unread == Payload(replies[t.sequence]))
    {
      hide Ordered, Throughout, Once, Sound, Reply;
      var t := pending.value;
      ghost var was := unread;
      honest := honest && chunk <= unread && wellFormed;
      unread := if |chunk| <= |unread| then unread[|chunk|..] else [];
      pending := Some(t.(input := t.input + chunk));
      assert honest ==> t.input + was == t.input + chunk + unread;
    }

    /** A header is complete. */
    method Headed(asks: bool)
      requires Histories() && !closed && pending.Some?
      requires
        var t := pending.value;
        && !asking && t.call == calls && t.sequence == sequence && t.stage == Header && |t.input| == HEADER
        && first <= wrote < |history| && history[first] == t.target
        && (honest ==>
              && t.output == 0 && t.sequence in replies && Reply(replies[t.sequence], t.sequence)
              && t.input + unread == replies[t.sequence])
      modifies this
      ensures Valid() && calls == old(calls) && honest == old(honest) && unread == old(unread)
      ensures honest && asks ==> !closed
      ensures unchanged(this`history, this`replies, this`sequence) && Heads(old(pending).value, asks)
    {
      hide Past, Word;
      var t := pending.value;
      var h := t.input;
      pending := Some(t.(input := []));
      assert honest ==> replies[t.sequence][..HEADER] == h && Payload(replies[t.sequence]) == unread;
      if Field(h, 0) != t.sequence || !(1 <= Field(h, 1) <= 4) {
        Close();
      } else if Field(h, 1) != 1 {
        if Field(h, 5) != 0 {
          Close();
        } else if Field(h, 1) == 4 {
          Finished(None, asks);
        } else {
          Finish(Failed);
        }
      } else if !SoundPicture(h) {
        Close();
      } else {
        assert [] + unread == unread;
        pending := Some(t.(input := [], stage := Pixels(Field(h, 5))));
      }
    }

    /** The picture's bytes are complete. */
    method Complete(wellFormed: bool, asks: bool)
      requires Histories() && !closed && pending.Some?
      requires
        var t := pending.value;
        && !asking && t.call == calls && t.sequence == sequence && t.stage.Pixels? && |t.input| == t.stage.length
        && first <= wrote < |history| && history[first] == t.target
        && (honest ==> wellFormed && t.output == 0 && t.sequence in replies)
        && (honest ==>
              && |Payload(replies[t.sequence])| == t.stage.length
              && t.input + unread == Payload(replies[t.sequence]))
      modifies this
      ensures Valid() && calls == old(calls) && honest == old(honest) && unread == old(unread)
      ensures honest && asks ==> !closed
      ensures unchanged(this`history, this`replies, this`sequence) && Pictures(old(pending).value, wellFormed, asks)
    {
      hide Past, Reply;
      ghost var t := pending.value;
      assert honest ==> unread == [] && t.input == Payload(replies[t.sequence]) by {
        if honest {
          assert |t.input + unread| == |t.input|;
          assert t.input + unread == t.input;
        }
      }
      if pending.value.cancelled {
        Finish(Failed);
      } else if !wellFormed {
        Close();
      } else {
        Finished(Some(pending.value.input), asks);
      }
    }

    /** The reply is read whole; the second query goes out. */
    method Finished(image: Option<Bytes>, asks: bool)
      requires Histories() && !closed && pending.Some? && pending.value.call == calls
      requires pending.value.sequence == sequence
      requires first <= wrote < |history| && history[first] == pending.value.target
      requires honest ==>
        && unread == []
        && sequence in replies
        && (image.Some? ==> image.value == Payload(replies[sequence]))
      modifies this
      ensures Valid() && calls == old(calls) && honest == old(honest) && unread == old(unread)
      ensures asks && !old(asking) ==> !closed
      ensures unchanged(this`history, this`replies, this`sequence)
      ensures !old(asking) ==> Seals(old(pending).value, image, asks)
    {
      hide Past, Reply;
      pending := Some(pending.value.(stage := End, image := image));
      read := |history| - 1;
      Ask(asks);
    }

    /** `cancel`: the reply in progress will still be read to its end. */
    method Cancel()
      requires Valid()
      modifies this`reset, this`pending
      ensures Valid() && reset
      ensures pending == if old(pending).Some? then Some(old(pending).value.(cancelled := true)) else None
    {
      hide Past, Reply;
      reset := true;
      if pending.Some? {
        pending := Some(pending.value.(cancelled := true));
      }
    }

    /** `expired`: only the call it was set for can run out of time. */
    method Expired(call: nat)
      requires Valid()
      modifies this
      ensures Valid() && calls == old(calls)
      ensures old(pending.None? || pending.value.call != call) ==>
        && closed == old(closed)
        && pending == old(pending)
        && completions == old(completions)
      ensures old(pending.Some? && pending.value.call == call) ==>
        && closed
        && completions == old(completions) + [Completion(call, Failed)]
    {
      hide Past, Reply;
      if pending.Some? && pending.value.call == call {
        Close();
      }
    }

    /** `configure` and `refine`. */
    method Configure(mode: nat, refine: bool)
      requires Valid()
      modifies this`mode, this`reset, this`refining
      ensures Valid() && reset == (old(reset) || mode != old(this.mode)) && refining == (old(refining) || refine)
    {
      hide Past, Reply;
      if mode != this.mode {
        this.mode, reset := mode, true;
      }
      refining := refining || refine;
    }
  }

  /** Each call completes exactly once, and only the pending call has not completed yet. */
  lemma CompletesOnce(f: NativeFrames, call: nat)
    requires f.Valid() && 0 < call <= f.calls && (f.pending.None? || call < f.calls)
    ensures f.completions[call - 1].call == call
    ensures forall i :: 0 <= i < |f.completions| && f.completions[i].call == call ==> i == call - 1
  {
  }

  /**
   A delivered picture was taken while the scene was the requested window and
   generation, from before its request was written until after its last byte was
   read; and with a well-formed child it is exactly the payload of the reply to
   its own request.
   */
  lemma PictureOfTarget(f: NativeFrames, t: Taken)
    requires f.Valid() && t in f.taken
    ensures t.first <= t.wrote <= t.read <= t.last < |f.history|
    ensures forall k :: t.first <= k <= t.last ==> f.history[k] == t.target
    ensures f.honest ==>
      && t.sequence in f.replies
      && t.pixels == Payload(f.replies[t.sequence])
      && Reply(f.replies[t.sequence], t.sequence)
  {
    assert Sound(t, f.history);
  }

  /** With no capture pending on an open socket, a well-formed child's replies have been consumed whole. */
  lemma NothingLeftOver(f: NativeFrames)
    requires f.Valid() && f.honest && !f.closed && !f.Awaiting()
    ensures f.unread == []
  {
  }

  // ---- a whole exchange -------------------------------------------------------------

  /** The reply to the pending call has been read but for `rest`, and nobody gave the call up. */
  ghost predicate Halfway(f: NativeFrames, target: Scene, reply: Bytes, rest: Bytes)
    requires |reply| >= HEADER
    reads f
  {
    var status := Field(reply[..HEADER], 1);
    if f.pending.None? then status == 2 || status == 3
    else
      var t := f.pending.value;
      && !t.cancelled && t.target == target && t.output == 0
      && match t.stage
         case Begin => false
         case Header => t.input + rest == reply && |t.input| < HEADER
         case Pixels(length) =>
           status == 1 && t.input + rest == Payload(reply) && |t.input| < length == |Payload(reply)|
         case End => f.asking && (if status == 1 then t.image == Some(Payload(reply)) else status == 4 && t.image.None?)
  }

  lemma Appended(input: Bytes, rest: Bytes, n: nat)
    requires n <= |rest|
    ensures input + rest[..n] + rest[n..] == input + rest
    ensures |input| + n <= |input + rest| ==> input + rest[..n] == (input + rest)[..|input| + n]
  {
    assert rest[..n] + rest[n..] == rest;
  }

  /** The next piece of the reply arrives. */
  method ReadPiece(f: NativeFrames, target: Scene, reply: Bytes, rest: Bytes, n: nat)
    requires f.Valid() && f.honest && !f.closed && f.unread == rest && f.Awaiting() && Reply(reply, f.sequence)
    requires Halfway(f, target, reply, rest) && 0 < n <= |rest| && n <= f.Wanted()
    modifies f
    ensures f.Valid() && f.honest && !f.closed && f.unread == rest[n..] && f.calls == old(f.calls)
    ensures f.history == old(f.history) && f.sequence == old(f.sequence)
    ensures f.completions == old(f.completions) + if f.pending.Some? then [] else [Completion(f.calls, Failed)]
    ensures Halfway(f, target, reply, rest[n..])
  {
    var t := f.pending.value;
    Appended(t.input, rest, n);
    hide NativeFrames.Valid, Ordered, Sound;
    f.Read(rest[..n], true, true);
    if t.stage == Header && |t.input| + n == HEADER {
      assert t.input + rest[..n] == reply[..HEADER];
      assert rest[n..] == reply[HEADER..];
    }
    if t.stage.Pixels? && |t.input| + n == t.stage.length {
      assert t.input + rest[..n] == Payload(reply);
    }
  }

  /**
   A call on an idle socket whose queries are answered by its target, whose
   request is written and whose reply is read in pieces of any size, and that
   nobody gives up, completes with what the reply says: the picture of status 1,
   unchanged for status 4, a failure otherwise.
   */
  method Exchange(f: NativeFrames, target: Scene, reply: Bytes, pieces: nat -> nat)
    requires f.Valid() && f.pending.None? && !f.closed && !f.asking && f.honest && f.sequence < LAST_SEQUENCE
    requires f.history[|f.history| - 1] == target && Reply(reply, f.sequence + 1)
    modifies f
    ensures f.Valid() && !f.closed && f.pending.None? && f.calls == old(f.calls) + 1
    ensures f.completions == old(f.completions) + [Completion(f.calls, Answered(reply))]
  {
    hide Ordered, Sound, NativeFrames.Past;
    Start(f, target, reply);
    var rest, i := reply, 0;
    while f.Awaiting()
      invariant f.Valid() && !f.closed && f.honest && f.calls == old(f.calls) + 1
      invariant f.unread == rest && f.history == old(f.history) && f.sequence == old(f.sequence) + 1
      invariant f.completions == old(f.completions) + if f.pending.Some? then [] else [Completion(f.calls, Failed)]
      invariant Halfway(f, target, reply, rest)
      decreases |rest|
    {
      hide NativeFrames.Valid, Reply;
      SomeLeft(f, target, reply, rest);
      var size := if f.Wanted() <= |rest| then f.Wanted() else |rest|;
      var n := if 0 < pieces(i) < size then pieces(i) else size;
      ReadPiece(f, target, reply, rest, n);
      rest, i := rest[n..], i + 1;
    }
    if f.pending.Some? {
      f.Observed(target, |f.history| - 1);
    }
  }

  lemma SomeLeft(f: NativeFrames, target: Scene, reply: Bytes, rest: Bytes)
    requires f.Awaiting() && |reply| >= HEADER && Halfway(f, target, reply, rest)
    ensures |rest| > 0
  {
    var t := f.pending.value;
    assert |t.input + rest| == |t.input| + |rest|;
  }

  method Start(f: NativeFrames, target: Scene, reply: Bytes)
    requires f.Valid() && f.pending.None? && !f.closed && !f.asking && f.honest && f.sequence < LAST_SEQUENCE
    requires f.history[|f.history| - 1] == target && Reply(reply, f.sequence + 1)
    modifies f
    ensures f.Valid() && !f.closed && f.honest && f.calls == old(f.calls) + 1 && f.Awaiting()
    ensures f.unread == reply && f.history == old(f.history) && f.sequence == old(f.sequence) + 1
    ensures f.completions == old(f.completions) && Halfway(f, target, reply, reply)
  {
    Unused(f);
    hide Ordered, Sound, Reply;
    var _ := f.Capture(target, true);
    f.Observed(target, |f.history| - 1);
    f.Write(12, false, reply);
    assert [] + reply == reply;
  }

  lemma Unused(f: NativeFrames)
    requires f.Valid()
    ensures f.sequence + 1 !in f.replies
  {
  }

  datatype Event =
    | Requests(target: Scene, asks: bool)
    | Answer(back: nat)
    | Writable(count: nat, broken: bool, reply: Bytes)
    | Readable(bytes: Bytes, wellFormed: bool, asks: bool)
    | Cancels
    | Timeout(call: nat)
    | Settings(mode: nat, refine: bool)
    | SceneIs(scene: Scene)
    | Closes

  /** Every order of captures, answers, partial writes and reads, cancellations, timeouts and scene changes. */
  method Run(start: Scene, events: seq<Event>) returns (f: NativeFrames)
    ensures fresh(f) && f.Valid()
  {
    f := new NativeFrames(start);
    for i := 0 to |events|
      invariant fresh(f) && f.Valid()
    {
      hide NativeFrames.Underway, Reply, Ordered, Once, Sound;
      match events[i] {
        case Requests(target, asks) =>
          var _ := f.Capture(target, asks);
        case Answer(back) =>
          if f.asking {
            var last := |f.history| - 1;
            var at := if f.asked + back <= last then last - back else f.asked;
            f.Observed(f.history[at], at);
          }
        case Writable(count, broken, reply) =>
          if f.pending.None? || Reply(reply, f.pending.value.sequence) {
            f.Write(count, broken, reply);
          }
        case Readable(bytes, wellFormed, asks) =>
          var size := f.Wanted();
          f.Read(if |bytes| <= size then bytes else bytes[..size], wellFormed, asks);
        case Cancels =>
          f.Cancel();
        case Timeout(call) =>
          f.Expired(call);
        case Settings(mode, refine) =>
          f.Configure(mode, refine);
        case SceneIs(scene) =>
          if scene.generation > f.history[|f.history| - 1].generation {
            f.Moment(scene);
          }
        case Closes =>
          f.Close();
      }
    }
  }
}
