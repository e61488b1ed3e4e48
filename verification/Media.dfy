/**
 Pictures of a physical desktop on their way to its one viewer
 (host_desktop_media.py, host_desktop_contract.py, host_desktop_helper.py): a
 scheduler that submits the newest picture while the viewer has credit, and an
 authority that lets input through only once such a picture was painted.

 The capture thread and the main loop share the newest picture and the
 scheduled callback under a lock. Each method is one stretch between two
 acquisitions of it. Time, the encoder's answers and what the viewer sends are
 parameters.
 */
module Media {
  import opened Common

  const LAST_FRAME: nat := 0x1f_ffff_ffff_ffff

  class FrameCredit {
    var capacity: nat
    var sequence: nat
    var acknowledged: nat

    ghost predicate Valid()
      reads this
    {
      1 <= capacity <= 8 && acknowledged <= sequence <= acknowledged + capacity
    }

    constructor (capacity: nat)
      requires 1 <= capacity <= 8
      ensures Valid() && this.capacity == capacity && sequence == acknowledged == 0
    {
      this.capacity, sequence, acknowledged := capacity, 0, 0;
    }

    function Pending(): nat
      requires acknowledged <= sequence
      reads this
    {
      sequence - acknowledged
    }

    method Reserve() returns (frame: Option<nat>)
      requires Valid()
      modifies this`sequence
      ensures Valid()
      ensures old(Pending() >= capacity) ==> frame.None? && sequence == old(sequence)
      ensures old(Pending() < capacity) ==> frame == Some(sequence) && sequence == old(sequence) + 1
    {
      if Pending() >= capacity {
        return None;
      }
      sequence := sequence + 1;
      frame := Some(sequence);
    }

    method Acknowledge(frame: nat) returns (ok: bool)
      requires Valid()
      modifies this`acknowledged
      ensures Valid() && ok == (1 <= frame <= sequence)
      ensures acknowledged == if ok && frame > old(acknowledged) then frame else old(acknowledged)
    {
      ok := 1 <= frame <= sequence;
      if ok && frame > acknowledged {
        acknowledged := frame;
      }
    }
  }

  datatype Standing = Disconnected | Streaming | Suspended

  datatype Verdict = Accepted | Stale | ViewOnly

  /** One painted frame, of one generation. */
  datatype Painting = Painting(generation: nat, frame: nat)

  class DesktopAuthority {
    var generation: nat
    var control: bool
    var standing: Standing
    var lastSent: nat
    var lastPainted: nat

    /** Every frame handed to the viewer and every frame it painted. */
    ghost var delivered: seq<Painting>
    ghost var painted: set<Painting>

    ghost predicate Valid()
      reads this
    {
      && lastPainted <= lastSent
      && (forall i, j :: 0 <= i < j < |delivered| && delivered[i].generation == delivered[j].generation ==>
        delivered[i].frame < delivered[j].frame)
      && (forall p :: p in delivered ==>
        p.generation <= generation && 0 < p.frame && (p.generation == generation ==> p.frame <= lastSent))
      && (forall p :: p in painted ==> p.generation <= generation)
      && (lastPainted > 0 ==> Painting(generation, lastPainted) in painted)
    }

    constructor ()
      ensures Valid() && standing == Disconnected && !control && generation == lastSent == lastPainted == 0
      ensures delivered == [] && painted == {}
    {
      generation, control, standing, lastSent, lastPainted, delivered, painted := 0, false, Disconnected, 0, 0, [], {};
    }

    method Bind(control: bool)
      requires Valid()
      modifies this
      ensures Valid() && generation == old(generation) + 1 && standing == Streaming && this.control == control
      ensures lastSent == lastPainted == 0 && delivered == old(delivered) && painted == old(painted)
    {
      generation, this.control, standing, lastSent, lastPainted := generation + 1, control, Streaming, 0, 0;
    }

    method Revoke()
      requires Valid()
      modifies this
      ensures Valid() && generation == old(generation) + 1 && standing == Suspended
      ensures lastSent == lastPainted == 0 && delivered == old(delivered) && painted == old(painted)
    {
      generation, standing, lastSent, lastPainted := generation + 1, Suspended, 0, 0;
    }

    /** `sent` accepts exactly the frames after the last one. */
    method Sent(frame: nat) returns (ok: bool)
      requires Valid()
      modifies this`lastSent, this`delivered
      ensures Valid() && ok == (old(lastSent) < frame <= LAST_FRAME)
      ensures lastSent == if ok then frame else old(lastSent)
      ensures delivered == if ok then old(delivered) + [Painting(generation, frame)] else old(delivered)
    {
      ok := lastSent < frame <= LAST_FRAME;
      if ok {
        lastSent, delivered := frame, delivered + [Painting(generation, frame)];
      }
    }

    method Paint(generation: nat, frame: nat) returns (ok: bool)
      requires Valid()
      modifies this`lastPainted, this`painted
      ensures Valid()
      ensures ok == (standing == Streaming && generation == this.generation && 1 <= frame &&
        old(lastPainted) <= frame <= lastSent)
      ensures lastPainted == if ok then frame else old(lastPainted)
      ensures painted == if ok then old(painted) + {Painting(generation, frame)} else old(painted)
    {
      ok := standing == Streaming && generation == this.generation && 1 <= frame && lastPainted <= frame <= lastSent;
      if ok {
        lastPainted, painted := frame, painted + {Painting(generation, frame)};
      }
    }

    function Input(generation: nat): (verdict: Verdict)
      requires Valid()
      reads this
      ensures verdict == Stale <==> !(standing == Streaming && generation == this.generation && 1 <= lastPainted)
      ensures verdict == Accepted <==> verdict != Stale && control
      ensures verdict == Accepted ==> Painting(this.generation, lastPainted) in painted && lastPainted <= lastSent
    {
      if standing != Streaming || generation != this.generation || lastPainted == 0 then Stale
      else if !control then ViewOnly
      else Accepted
    }
  }

  /** Where the main loop is in `produce`: not in it, called, or holding what it read under the lock. */
  datatype Turn = Rest | Fired | Looked(present: bool, sequence: nat)

  class DesktopMedia {
    var generation: nat
    var closed: bool
    /** A failure was reported to the desktop, which ends this media. */
    var failed: bool
    var credit: FrameCredit
    /** Shared with the capture thread: the newest picture, by number, and whether `produce` is scheduled. */
    var latest: bool
    var sequence: nat
    var scheduled: bool
    /** The capture thread has noted a picture and not yet scheduled anything for it. */
    var noted: bool
    var turn: Turn
    var encoded: nat
    var refined: nat
    var busy: bool
    var refining: bool
    var submitted: seq<nat>

    /** Whatever still has to be submitted has someone on the way to submit it. */
    ghost predicate Awake()
      requires credit.acknowledged <= credit.sequence
      reads this, credit
    {
      || closed || failed || !latest || sequence == encoded
      || scheduled || busy || credit.Pending() >= credit.capacity
      || noted || turn == Fired || turn == Looked(true, sequence)
    }

    ghost predicate Valid()
      reads this, credit
    {
      && credit.Valid() && Awake()
      && (turn.Looked? ==> turn == Looked(latest, sequence) || noted || scheduled || closed)
      && (latest <==> sequence > 0)
      && submitted == (if busy then [credit.sequence] else [])
    }

    constructor (generation: nat, window: nat)
      requires 1 <= window <= 8
      ensures Valid() && fresh(credit) && this.generation == generation && !closed && !failed && !busy
      ensures !latest && sequence == encoded == refined == 0 && !scheduled && !noted && !refining && turn == Rest
      ensures credit.capacity == window
      ensures credit.sequence == credit.acknowledged == 0
    {
      this.generation, closed, failed := generation, false, false;
      credit := new FrameCredit(window);
      latest, sequence, scheduled, noted, turn := false, 0, false, false, Rest;
      encoded, refined, busy, refining, submitted := 0, 0, false, false, [];
    }

    /** `_changed`, up to the release of the lock. */
    method Note()
      requires Valid() && !noted
      modifies this`latest, this`sequence, this`noted
      ensures Valid() && sequence == old(sequence) + (if closed then 0 else 1) && noted == !closed
    {
      if closed {
        return;
      }
      latest, sequence, noted := true, sequence + 1, true;
    }

    /** The rest of `_changed`. */
    method Noted()
      requires Valid() && noted
      modifies this`scheduled, this`noted
      ensures Valid() && !noted && scheduled == (old(scheduled) || !closed)
    {
      Schedule();
      noted := false;
    }

    /** `_schedule_produce`. */
    method Schedule()
      modifies this`scheduled
      ensures scheduled == (old(scheduled) || !closed)
    {
      if !closed && !scheduled {
        scheduled := true;
      }
    }

    /** The scheduled callback starts. */
    method Fire()
      requires Valid() && scheduled && turn == Rest
      modifies this`scheduled, this`turn
      ensures Valid() && turn == Fired && !scheduled
    {
      scheduled, turn := false, Fired;
    }

    /** `produce` reads the newest picture under the lock. */
    method Look()
      requires Valid() && turn == Fired
      modifies this`turn
      ensures Valid() && turn == if closed then Rest else Looked(latest, sequence)
    {
      turn := if closed then Rest else Looked(latest, sequence);
    }

    /** The picture read is a new one, nothing is in flight, and there is credit. */
    ghost predicate Wanting()
      requires turn.Looked? && credit.acknowledged <= credit.sequence
      reads this, credit
    {
      turn.present && !busy && turn.sequence != encoded && credit.Pending() < credit.capacity
    }

    /** The rest of `produce`: at most one picture is submitted, and only with credit for it. */
    method Decide(early: bool, sized: bool, encodes: bool)
      requires Valid() && turn.Looked?
      modifies this, credit
      ensures Valid() && turn == Rest && closed == old(closed) && generation == old(generation)
      ensures credit == old(credit) && credit.acknowledged == old(credit.acknowledged)
      ensures credit.capacity == old(credit.capacity)
      ensures credit.sequence == old(credit.sequence) + |submitted| - |old(submitted)|
      ensures old(busy) ==> submitted == old(submitted)
      ensures submitted != old(submitted) <==> old(Wanting()) && !early && sized
      ensures submitted != old(submitted) ==>
        && submitted == [credit.sequence]
        && encoded == old(turn).sequence
        && failed == (old(failed) || !encodes) && scheduled == old(scheduled)
      ensures submitted == old(submitted) ==>
        && encoded == old(encoded) && busy == old(busy)
        && scheduled == (old(scheduled) || (!closed && early && old(Wanting())))
        && failed == (old(failed) || (!early && !sized && old(Wanting())))
    {
      var seen := turn;
      turn := Rest;
      if !seen.present || busy || seen.sequence == encoded || credit.Pending() >= credit.capacity {
        return;
      }
      if early {
        Schedule();
        return;
      }
      if !sized {
        failed := true;
        return;
      }
      var frame := credit.Reserve();
      busy, encoded, submitted := true, seen.sequence, submitted + [frame.value];
      failed := failed || !encodes;
    }

    /** `_encoded`, as it runs on the main loop: the frame that was in flight, for its own generation only. */
    method Encoded(generation: nat, wellFormed: bool) returns (frame: Option<nat>)
      requires Valid()
      modifies this`busy, this`submitted, this`scheduled, this`failed
      ensures Valid()
      ensures frame.Some? <==> !closed && generation == this.generation && old(busy) && wellFormed
      ensures frame.Some? ==> frame.value == credit.sequence && !busy
      ensures frame.None? ==> busy == old(busy)
      ensures failed == (old(failed) || (!closed && generation == this.generation && frame.None?))
      ensures scheduled == (old(scheduled) || frame.Some?)
    {
      if closed || generation != this.generation {
        return None;
      }
      if submitted == [] || !wellFormed {
        failed := true;
        return None;
      }
      frame := Some(submitted[0]);
      submitted, busy := submitted[1..], false;
      Schedule();
    }

    method Acknowledge(frame: nat) returns (ok: bool)
      requires Valid()
      modifies this`scheduled, credit`acknowledged
      ensures ok ==> Valid()
      ensures ok == (1 <= frame <= credit.sequence) && scheduled == (old(scheduled) || (ok && !closed))
      ensures credit.acknowledged == if ok && frame > old(credit.acknowledged) then frame else old(credit.acknowledged)
    {
      ok := credit.Acknowledge(frame);
      if ok {
        Schedule();
      }
    }

    /** The newest picture was not yet sent exactly, nothing is on its way, and no exact one is being made. */
    ghost predicate Refines()
      requires credit.acknowledged <= credit.sequence
      reads this, credit
    {
      !closed && latest && credit.Pending() == 0 && !refining && refined != sequence
    }

    /** `_tick`: whether an exact picture is wanted, and of which one. */
    method Tick(settled: bool) returns (wanted: Option<nat>)
      requires Valid()
      modifies this`refining
      ensures Valid()
      ensures wanted.Some? <==> old(Refines()) && settled
      ensures wanted.Some? ==> wanted.value == sequence
      ensures refining == (old(refining) || wanted.Some?)
    {
      wanted := None;
      if !closed && latest && settled && credit.Pending() == 0 && !refining && refined != sequence {
        refining, wanted := true, Some(sequence);
      }
    }

    /** The exact picture is ready. */
    method Refined(generation: nat, picture: nat, settled: bool) returns (frame: Option<nat>)
      requires Valid() && (credit.Pending() == 0 ==> !busy)
      modifies this`refining, this`refined, credit`sequence
      ensures Valid()
      ensures frame.Some? <==>
        !closed && generation == this.generation && picture == sequence && old(credit.Pending()) == 0 && settled
      ensures frame.Some? ==> frame.value == credit.sequence == old(credit.sequence) + 1 && !busy
      ensures frame.None? ==> credit.sequence == old(credit.sequence)
      ensures refining == (old(refining) && (closed || generation != this.generation))
      ensures refined == if frame.Some? then picture else old(refined)
    {
      if closed || generation != this.generation {
        return None;
      }
      refining := false;
      if sequence != picture || credit.Pending() != 0 || !settled {
        return None;
      }
      refined := picture;
      frame := credit.Reserve();
    }

    /** `recover`: everything encoded and all credit is retired, the newest picture is not. */
    method Recover(generation: nat)
      requires Valid() && turn == Rest && !closed
      modifies this
      ensures Valid() && fresh(credit) && this.generation == generation && !closed && !busy && scheduled
      ensures credit.sequence == credit.acknowledged == 0 && credit.capacity == old(credit.capacity)
      ensures latest == old(latest) && sequence == old(sequence) && noted == old(noted) && turn == Rest
      ensures !refining && !failed && encoded == refined == 0
    {
      var renewed := new FrameCredit(credit.capacity);
      this.generation, submitted, credit := generation, [], renewed;
      busy, refining, failed, encoded, refined := false, false, false, 0, 0;
      Schedule();
      assert Awake();
    }

    /** The exact picture could not be made. */
    method RefinementFails(generation: nat)
      requires Valid()
      modifies this`failed
      ensures Valid() && failed == (old(failed) || (!closed && generation == this.generation))
    {
      if !closed && generation == this.generation {
        failed := true;
      }
    }

    method Close()
      requires Valid()
      modifies this`closed, this`scheduled
      ensures Valid() && closed && !scheduled
    {
      closed, scheduled := true, false;
    }
  }

  /** As long as it is open and reported no failure, a picture newer than the last one submitted is never forgotten. */
  lemma NoLostWakeup(m: DesktopMedia)
    requires m.Valid() && m.turn == Rest && !m.noted && !m.closed && !m.failed && m.latest && m.sequence != m.encoded
    ensures m.scheduled || m.busy || m.credit.Pending() == m.credit.capacity
  {
  }

  /** An input that was let through, with the frame whose painting allowed it. */
  datatype Allowed = Allowed(generation: nat, evidence: Painting)

  class HostDesktop {
    const authority: DesktopAuthority
    var media: DesktopMedia?

    ghost var allowed: seq<Allowed>

    ghost predicate Open()
      reads this, media
    {
      media != null && !media.closed
    }

    /**
     Between callbacks: an open media belongs to the authority's generation, what
     it has in flight is exactly what it reserved beyond the last frame sent, and
     what it counts as acknowledged is the last frame painted.
     */
    ghost predicate Valid()
      reads this, authority, media, if media != null then {media.credit} else {}
    {
      && authority.Valid()
      && (media != null ==> media.Valid())
      && (authority.standing == Streaming <==> Open())
      && (Open() ==>
            && media.generation == authority.generation
            && media.credit.sequence == authority.lastSent + |media.submitted|
            && media.credit.acknowledged == authority.lastPainted)
      && (forall f :: 1 <= f <= authority.lastSent ==> Painting(authority.generation, f) in authority.delivered)
      && (forall a :: a in allowed ==>
        a.evidence.generation == a.generation && a.evidence in authority.painted && a.evidence in authority.delivered)
    }

    constructor ()
      ensures Valid() && fresh(authority) && media == null && allowed == []
    {
      authority := new DesktopAuthority();
      media, allowed := null, [];
    }

    /** `stop_media` and `suspend`. */
    method Suspend()
      requires Valid()
      modifies this`media, authority, media
      ensures Valid() && media == null && authority.generation == old(authority.generation) + 1
      ensures old(media) != null ==> old(media).closed
      ensures authority.delivered == old(authority.delivered)
    {
      if media != null {
        media.Close();
        media := null;
      }
      authority.Revoke();
    }

    /** `transition`: a new generation with a capture of its own, or no authority at all. */
    method Transition(control: bool, window: nat, ready: bool, starts: bool) returns (ok: bool)
      requires Valid() && 1 <= window <= 8
      modifies this`media, authority, media
      ensures Valid() && ok == (ready && starts) && authority.generation > old(authority.generation)
      ensures ok ==>
        && Open()
        && fresh(media)
        && fresh(media.credit)
        && authority.lastSent == 0
        && authority.control == control
      ensures !ok ==> media == null
      ensures old(media) != null ==> old(media).closed
      ensures authority.delivered == old(authority.delivered)
    {
      if !ready {
        Suspend();
        return false;
      }
      if media != null {
        media.Close();
        media := null;
      }
      authority.Bind(control);
      media := new DesktopMedia(authority.generation, window);
      ok := starts;
      if !ok {
        Suspend();
      }
    }

    /** `recover_decoder`: the capture stays, everything already encoded or painted stops counting. */
    method RecoverDecoder(ready: bool) returns (ok: bool)
      requires Valid() && (media != null ==> media.turn == Rest)
      modifies this`media, authority, media
      ensures Valid() && ok == (ready && old(Open()))
      ensures ok ==>
        && media == old(media)
        && Open()
        && authority.generation == old(authority.generation) + 1
        && authority.lastPainted == 0
        && media.credit.sequence == 0
      ensures !ready ==> media == null && (old(media) != null ==> old(media).closed)
      ensures ready && !ok ==>
        && media == old(media) && authority.generation == old(authority.generation)
        && (media != null ==> media.credit == old(media.credit)
                              && media.credit.sequence == old(media.credit.sequence))
      ensures ok ==> media.latest == old(media.latest) && media.sequence == old(media.sequence) && fresh(media.credit)
      ensures authority.delivered == old(authority.delivered)
    {
      if !ready {
        Suspend();
        return false;
      }
      if authority.standing != Streaming {
        return false;
      }
      authority.Bind(authority.control);
      media.Recover(authority.generation);
      ok := true;
    }

    /** `pixels`: the frame goes to the viewer, and `sent` never rejects it. */
    method Pixels(generation: nat, frame: nat)
      requires authority.Valid() && frame <= LAST_FRAME
      requires generation == authority.generation && authority.standing == Streaming ==> frame == authority.lastSent + 1
      modifies authority`lastSent, authority`delivered
      ensures authority.Valid()
      ensures if generation == authority.generation && authority.standing == Streaming
        then authority.lastSent == frame &&
          authority.delivered == old(authority.delivered) + [Painting(generation, frame)]
        else authority.lastSent == old(authority.lastSent) && authority.delivered == old(authority.delivered)
    {
      if generation != authority.generation || authority.standing != Streaming {
        return;
      }
      var ok := authority.Sent(frame);
      assert ok;
    }

    /** An encoded frame reaches the main loop. */
    method EncodedFrame(generation: nat, wellFormed: bool)
      requires Valid() && media != null && media.credit.sequence <= LAST_FRAME
      modifies authority, media
      ensures Valid() && media.credit == old(media.credit)
      ensures old(authority.delivered) <= authority.delivered
      ensures old(Open() && generation == media.generation && media.busy) && wellFormed ==>
        authority.delivered == old(authority.delivered) + [Painting(authority.generation, old(authority.lastSent) + 1)]
      ensures !old(Open() && generation == media.generation && media.busy && wellFormed) ==>
        authority.delivered == old(authority.delivered)
    {
      var frame := media.Encoded(generation, wellFormed);
      if frame.Some? {
        Pixels(generation, frame.value);
      }
    }

    /** The exact picture is of the newest one, made for this generation, with nothing on its way to the viewer. */
    ghost predicate Refinable(generation: nat, picture: nat)
      requires media != null && media.credit.acknowledged <= media.credit.sequence
      reads this, media, media.credit
    {
      Open() && generation == media.generation && picture == media.sequence && media.credit.Pending() == 0
    }

    /** An exact picture reaches the main loop. */
    method RefinedFrame(generation: nat, picture: nat, settled: bool)
      requires Valid() && media != null && media.credit.sequence < LAST_FRAME
      modifies authority, media, media.credit
      ensures Valid() && old(authority.delivered) <= authority.delivered
      ensures media.credit == old(media.credit) && media.credit.sequence <= old(media.credit.sequence) + 1
      ensures authority.delivered == old(authority.delivered) +
        if old(Refinable(generation, picture)) && settled
        then [Painting(authority.generation, old(authority.lastSent) + 1)] else []
    {
      if media.closed {
        return;
      }
      var frame := media.Refined(generation, picture, settled);
      if frame.Some? {
        Pixels(generation, frame.value);
      }
    }

    /** `produce`, after the newest picture was read. */
    method Produce(early: bool, sized: bool, encodes: bool)
      requires Valid() && media != null && media.turn.Looked?
      modifies media, media.credit
      ensures Valid() && media == old(media) && media.turn == Rest
      ensures media.submitted != old(media.submitted) <==> old(media.Wanting()) && !early && sized
      ensures media.submitted != old(media.submitted) ==> media.failed == (old(media.failed) || !encodes)
      ensures media.credit == old(media.credit) && media.credit.sequence <= old(media.credit.sequence) + 1
    {
      media.Decide(early, sized, encodes);
    }

    /** The command `frame_ack`. */
    method FrameAck(generation: nat, frame: nat) returns (ok: bool)
      requires Valid()
      modifies authority, media, if media != null then {media.credit} else {}
      ensures Valid()
      ensures ok == old(generation == authority.generation && Open() && 1 <= frame &&
        authority.lastPainted <= frame <= authority.lastSent)
      ensures ok ==> authority.lastPainted == frame && media.scheduled
      ensures media != null ==> media.credit == old(media.credit) && media.credit.sequence == old(media.credit.sequence)
      ensures authority.delivered == old(authority.delivered)
    {
      if generation != authority.generation {
        return false;
      }
      ok := authority.Paint(generation, frame);
      if ok {
        var acknowledged := media.Acknowledge(frame);
      }
    }

    /** The commands that reach the desktop: input, clipboard and lock. */
    method Input(generation: nat, ready: bool) returns (verdict: Verdict)
      requires Valid()
      modifies this, authority, media
      ensures Valid()
      ensures verdict == Accepted <==> old(authority.Input(generation)) == Accepted && ready
      ensures verdict == Accepted ==>
        && allowed == old(allowed) + [Allowed(generation, Painting(generation, authority.lastPainted))]
        && Painting(generation, authority.lastPainted) in authority.delivered
      ensures verdict != Accepted ==> allowed == old(allowed)
      ensures old(authority.Input(generation)) == Accepted && !ready ==> media == null && verdict == Stale
      ensures authority.delivered == old(authority.delivered)
      ensures media == null ||
        (media == old(media) && media.credit == old(media.credit) &&
        media.credit.sequence == old(media.credit.sequence))
    {
      if generation != authority.generation {
        return Stale;
      }
      verdict := authority.Input(generation);
      if verdict == Accepted {
        if ready {
          allowed := allowed + [Allowed(generation, Painting(generation, authority.lastPainted))];
        } else {
          Suspend();
          verdict := Stale;
        }
      }
    }

    ghost function Reserved(): nat
      reads this, media, if media != null then {media.credit} else {}
    {
      if media == null then 0 else media.credit.sequence
    }

    /** Only new objects take the place of the ones this desktop had. */
    twostate predicate Own()
      reads this, media
    {
      || media == null
      || (fresh(media) && fresh(media.credit))
      || (media == old(media) && (media.credit == old(media.credit) || fresh(media.credit)))
    }

    /** What a step of the media does when it finds what it needs. */
    twostate predicate Steps(step: MediaStep)
      requires media != null && media == old(media) && media.credit == old(media.credit)
      requires old(media.credit.acknowledged) <= old(media.credit.sequence)
      reads this, authority, media, media.credit
    {
      match step
      case Captures => old(!media.noted && !media.closed) ==> media.noted && media.sequence == old(media.sequence) + 1
      case Hands => old(media.noted) ==> !media.noted && (media.scheduled || media.closed)
      case Fires => old(media.scheduled && media.turn == Rest) ==> media.turn == Fired
      case Looks => old(media.turn == Fired && !media.closed) ==> media.turn.Looked?
      case Decides(early, sized, encodes) =>
        old(media.turn.Looked?) ==>
          && media.turn == Rest
          && (media.submitted != old(media.submitted) <==> old(media.Wanting()) && !early && sized)
      case Encodes(generation, wellFormed) =>
        old(Open() && generation == media.generation && media.busy) && wellFormed ==>
          |authority.delivered| == |old(authority.delivered)| + 1
      case Ticks(settled) => settled && old(media.Refines()) ==> media.refining
      case Refines(generation, picture, settled) =>
        old(Refinable(generation, picture)) && settled ==>
          |authority.delivered| == |old(authority.delivered)| + 1
      case RefineFails(generation) => old(Open() && generation == media.generation) ==> media.failed
    }

    /** What an event does when it finds what it needs. */
    twostate predicate Happens(e: Event)
      requires old(Valid())
      reads this, authority, media, if media != null then {media.credit} else {}
    {
      match e
      case Connect(control, window, ready, starts) =>
        1 <= window <= 8 ==>
          if ready && starts then
            Open() && authority.generation > old(authority.generation) && authority.control == control
          else media == null
      case Fails => media == null
      case Keyframe(ready) =>
        old(media != null && media.turn == Rest) ==>
          if ready then old(Open()) ==> authority.generation == old(authority.generation) + 1 else media == null
      case Painted(generation, frame) =>
        (old(generation == authority.generation && Open() && 1 <= frame &&
          authority.lastPainted <= frame <= authority.lastSent)) ==> authority.lastPainted == frame
      case Command(generation, ready) =>
        old(authority.Input(generation)) == Accepted ==>
          if ready then |allowed| == |old(allowed)| + 1 else media == null
      case Media(step) =>
        old(media) != null ==> media == old(media) && media.credit == old(media.credit) && Steps(step)
    }

    method Apply(e: Event)
      requires Valid() && Reserved() < LAST_FRAME
      modifies this, authority, media, if media != null then {media.credit} else {}
      ensures Valid() && Own() && Reserved() <= old(Reserved()) + 1
      ensures old(authority.delivered) <= authority.delivered && Happens(e)
    {
      match e {
        case Connect(control, window, ready, starts) =>
          if 1 <= window <= 8 {
            var _ := Transition(control, window, ready, starts);
          }
        case Fails =>
          Suspend();
        case Keyframe(ready) =>
          if media != null && media.turn == Rest {
            var _ := RecoverDecoder(ready);
          }
        case Painted(generation, frame) =>
          var _ := FrameAck(generation, frame);
        case Command(generation, ready) =>
          var _ := Input(generation, ready);
        case Media(step) =>
          if media != null {
            OnMedia(step);
          }
      }
    }

    /** A step of the media, on the main loop or on the capture thread. */
    method OnMedia(step: MediaStep)
      requires Valid() && media != null && Reserved() < LAST_FRAME
      modifies authority, media, media.credit
      ensures Valid() && media == old(media) && media.credit == old(media.credit) && Reserved() <= old(Reserved()) + 1
      ensures old(authority.delivered) <= authority.delivered && Steps(step)
    {
      hide Valid;
      match step
      case Decides(early, sized, encodes) =>
        if media.turn.Looked? {
          Produce(early, sized, encodes);
        }
      case Encodes(generation, wellFormed) =>
        EncodedFrame(generation, wellFormed);
      case Refines(generation, picture, settled) =>
        RefinedFrame(generation, picture, settled);
      case _ =>
        Between(step);
    }

    /** The steps that reserve and deliver nothing. */
    method Between(step: MediaStep)
      requires Valid() && media != null
      modifies media
      ensures Valid() && media.credit == old(media.credit)
      ensures step.Decides? || step.Encodes? || step.Refines? || Steps(step)
    {
      hide DesktopAuthority.Valid;
      match step
      case Captures =>
        if !media.noted {
          media.Note();
        }
      case Hands =>
        if media.noted {
          media.Noted();
        }
      case Fires =>
        if media.scheduled && media.turn == Rest {
          media.Fire();
        }
      case Looks =>
        if media.turn == Fired {
          media.Look();
        }
      case Ticks(settled) =>
        var _ := media.Tick(settled);
      case RefineFails(generation) =>
        media.RefinementFails(generation);
      case _ =>
    }
  }

  datatype MediaStep =
    | Captures
    | Hands
    | Fires
    | Looks
    | Decides(early: bool, sized: bool, encodes: bool)
    | Encodes(generation: nat, wellFormed: bool)
    | Ticks(settled: bool)
    | Refines(generation: nat, picture: nat, settled: bool)
    | RefineFails(generation: nat)

  datatype Event =
    | Connect(control: bool, window: nat, ready: bool, starts: bool)
    | Fails
    | Keyframe(ready: bool)
    | Painted(generation: nat, frame: nat)
    | Command(generation: nat, ready: bool)
    | Media(step: MediaStep)

  /** Every interleaving of the capture thread, the main loop and the viewer's commands. */
  method Run(events: seq<Event>) returns (h: HostDesktop)
    requires |events| < LAST_FRAME
    ensures fresh(h) && h.Valid()
  {
    h := new HostDesktop();
    for i := 0 to |events|
      invariant fresh(h) && fresh(h.authority) && (h.media != null ==> fresh(h.media) && fresh(h.media.credit))
      invariant h.Valid() && h.Reserved() <= i
    {
      hide HostDesktop.Valid;
      h.Apply(events[i]);
    }
  }

  /** Within one generation the frames handed to the viewer have strictly increasing numbers, whatever encoded them. */
  lemma FramesIncrease(h: HostDesktop, i: nat, j: nat)
    requires h.Valid() && i < j < |h.authority.delivered|
    requires h.authority.delivered[i].generation == h.authority.delivered[j].generation
    ensures h.authority.delivered[i].frame < h.authority.delivered[j].frame
  {
  }

  /** Every input that was let through follows a painted frame that had been delivered in its own generation. */
  lemma InputFollowsPaint(h: HostDesktop, a: Allowed)
    requires h.Valid() && a in h.allowed
    ensures a.evidence.generation == a.generation && a.evidence in h.authority.delivered
    ensures a.evidence in h.authority.painted
  {
  }
}
