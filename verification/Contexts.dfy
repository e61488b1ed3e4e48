/**
 Confirmed text under the shared scheduler (desktop_context.py, with the text
 replies of desktop_native.py): one operation at a time, handed over through a
 native marker or through a negotiated Wayland text resource.

 Whether a peer still matches and whether an X11 window has the focus are
 observed from outside and are parameters here. The callback that ends an
 operation is the last thing its method does, so what the scheduler does next
 is a later call.
 */
module Contexts {
  import opened Common
  import opened Markers

  const LAST_SEQUENCE: nat := 0xffff_ffff

  datatype Route = ByMarker(x11: bool) | ByWayland

  /** A context is bound to one native scene: target, focus, connection and surface together. */
  datatype Token = Token(scene: nat, sender: string, surface: nat, route: Route)

  /** The operation in progress, with the text that a Wayland delivery still carries. */
  datatype Operation = Operation(token: Token, sequence: nat, code: nat, text: string, taken: bool, done: bool)

  /** The three requests of one Wayland operation. */
  datatype Phase = Before | Text | After

  datatype Request = Request(number: nat, phase: Phase, sequence: nat, scene: nat)

  datatype End = Success | Failure | Withdrawn

  /** A text that left, when, and the scene that was current then. */
  datatype Delivery = Delivery(at: nat, text: string, scene: Option<nat>)

  datatype Ending = Ending(at: nat, how: End, scene: Option<nat>)

  /** What happened to one operation, and when; `scene` is the one its context was bound to. */
  datatype Story = Story(
    route: Route,
    scene: nat,
    text: string,
    handed: seq<Delivery>,
    done: Option<nat>,
    freed: Option<nat>,
    before: Option<nat>,
    sent: seq<Delivery>,
    dispatched: Option<nat>,
    after: Option<nat>,
    ended: Option<Ending>)

  function Untold(token: Token, text: string): Story {
    Story(token.route, token.scene, text, [], None, None, None, [], None, None, None)
  }

  /** The operation's own text, leaving while the scene of its context is still the current one. */
  ghost predicate Faithful(s: Story, d: Delivery) {
    d.text == s.text && d.scene == Some(s.scene)
  }

  /** What any operation's story looks like up to the time `now`. */
  ghost predicate Sound(s: Story, now: nat) {
    && |s.handed| <= 1 && |s.sent| <= 1
    && (s.handed != [] ==> s.route.ByMarker? && Faithful(s, s.handed[0]) && s.handed[0].at <= now)
    && (s.done.Some? ==> s.handed != [] && s.handed[0].at < s.done.value <= now)
    && (s.freed.Some? ==> s.handed != [] && s.handed[0].at < s.freed.value <= now)
    && (s.before.Some? ==> s.route == ByWayland && s.before.value <= now)
    && (s.sent != [] ==> Faithful(s, s.sent[0]) && s.before.Some? && s.before.value <= s.sent[0].at <= now)
    && (s.dispatched.Some? ==> s.sent != [] && s.sent[0].at < s.dispatched.value <= now)
    && (s.after.Some? ==> s.dispatched.Some? && s.dispatched.value < s.after.value <= now)
    && (s.ended.Some? ==> Ended(s, s.ended.value) && s.ended.value.at <= now)
  }

  /** A success has every receipt its route demands on the scene it was meant for, and nothing happens after the end. */
  ghost predicate Ended(s: Story, end: Ending) {
    && (s.handed != [] ==> s.handed[0].at <= end.at)
    && (s.sent != [] ==> s.sent[0].at <= end.at)
    && (end.how == Success ==>
          && end.scene == Some(s.scene)
          && if s.route.ByMarker? then
               && s.handed != []
               && s.done.Some? && s.done.value <= end.at && s.freed.Some? && s.freed.value <= end.at
             else s.after.Some? && s.after.value <= end.at)
  }

  lemma BeginsSoundly(token: Token, text: string, now: nat)
    ensures Sound(Untold(token, text), now)
  {
  }

  lemma EndsSoundly(s: Story, now: nat, end: Ending)
    requires Sound(s, now) && s.ended.None? && end.at == now && (end.how == Success ==> Ended(s, end))
    ensures Sound(s.(ended := Some(end)), now)
  {
  }

  ghost predicate NoText(t: Table) {
    forall c :: c in t.slots ==> t.slots[c].text.None?
  }

  lemma AfterRevoke(t: Table)
    requires Bounded(t)
    ensures Bounded(Step(t, Revoke).0) && NoText(Step(t, Revoke).0) && Step(t, Revoke).0.slots.Keys == t.slots.Keys
    ensures forall c :: c in t.slots ==> Step(t, Revoke).0.slots[c] == t.slots[c].(text := None)
  {
  }

  lemma AfterGrant(t: Table, text: string, owner: Sender, x11: bool, code: nat)
    requires Bounded(t) && Step(t, Enqueue(text, owner, x11)).1 == Granted(code)
    ensures var u := Step(t, Enqueue(text, owner, x11)).0;
      && Bounded(u) && u.generation == t.generation
      && code in u.slots && u.slots[code] == Transaction(t.generation, Some(text), owner, false)
      && forall c :: c in u.slots && u.slots[c].text.Some? ==> c == code
  {
    BoundedStep(t, Enqueue(text, owner, x11));
  }

  /** A press leaves every other slot alone, and its own slot pressed and empty. */
  lemma AfterPress(t: Table, code: nat, focused: bool, owner: Sender)
    requires Bounded(t)
    ensures var (u, out) := Step(t, Key(code, false, focused, owner));
      && Bounded(u) && u.generation == t.generation && u.slots.Keys == t.slots.Keys
      && (forall c :: c in t.slots && c != code ==> u.slots[c] == t.slots[c])
      && (code in t.slots && t.slots[code].owner != owner ==> u.slots[code] == t.slots[code])
      && (code in t.slots && t.slots[code].owner == owner ==>
            u.slots[code].pressed && u.slots[code].text.None? && u.slots[code].owner == owner)
      && (out.Taken? <==>
            && code in t.slots && t.slots[code].owner == owner && !t.slots[code].pressed && focused
            && t.slots[code].generation == t.generation && t.slots[code].text.Some?)
      && (out.Taken? ==> out.payload == t.slots[code].text.value)
  {
    BoundedStep(t, Key(code, false, focused, owner));
  }

  /** A release frees exactly its owner's pressed slot. */
  lemma AfterRelease(t: Table, code: nat, owner: Sender)
    requires Bounded(t)
    ensures var u := Step(t, Key(code, true, false, owner)).0;
      && Bounded(u) && u.generation == t.generation
      && u.slots == (if code in t.slots && t.slots[code].owner == owner && t.slots[code].pressed
        then t.slots - {code} else t.slots)
  {
    BoundedStep(t, Key(code, true, false, owner));
  }

  lemma HandedSoundly(s: Story, d: Delivery)
    requires Sound(s, d.at) && s.ended.None? && s.route.ByMarker? && s.done.None? && s.freed.None? && s.sent == []
    requires s.handed == [] && Faithful(s, d)
    ensures Sound(s.(handed := s.handed + [d]), d.at)
  {
    assert s.handed + [d] == [d];
  }

  lemma FreedSoundly(s: Story, before: nat, now: nat)
    requires Sound(s, before) && before < now && s.ended.None? && s.handed != []
    ensures Sound(s.(freed := Some(now)), now)
  {
  }

  lemma DoneSoundly(s: Story, before: nat, now: nat)
    requires Sound(s, before) && before < now && s.ended.None? && s.handed != []
    ensures Sound(s.(done := Some(now)), now)
  {
  }

  lemma ArrivedSoundly(s: Story, before: nat, now: nat, phase: Phase)
    requires Sound(s, before) && before < now && s.ended.None? && s.route == ByWayland && WaylandStory(phase, s)
    ensures phase == Before ==> Sound(s.(before := Some(now)), now)
    ensures phase == Text ==> Sound(s.(dispatched := Some(now)), now)
    ensures phase == After ==>
      && Sound(s.(after := Some(now)), now)
      && Ended(s.(after := Some(now)), Ending(now, Success, Some(s.scene)))
  {
  }

  lemma SentSoundly(s: Story, d: Delivery)
    requires Sound(s, d.at) && s.ended.None? && s.before == Some(d.at) && s.sent == [] && s.dispatched.None?
    requires Faithful(s, d)
    ensures Sound(s.(sent := s.sent + [d]), d.at)
  {
    assert s.sent + [d] == [d];
  }

  lemma AfterRefusal(t: Table, text: string, owner: Sender, x11: bool)
    requires Step(t, Enqueue(text, owner, x11)).1 == Refused
    ensures Step(t, Enqueue(text, owner, x11)).0 == t
  {
  }

  class NativeContexts {
    const markers: MarkerTransactions
    var bound: Option<Token>
    var pending: Option<Operation>
    var sequence: nat
    var closed: bool

    /** The native side: the current scene (none once lost), and its one outstanding text request. */
    var scene: Option<nat>
    var request: Option<Request>
    var lastRequest: nat

    ghost var now: nat
    ghost var stories: map<nat, Story>

    constructor ()
      ensures Valid() && fresh(markers) && stories == map[] && pending.None? && !closed
      ensures bound.None? && scene.None? && sequence == lastRequest == now == 0
    {
      markers := new MarkerTransactions();
      bound, pending, sequence, closed, scene, request, lastRequest := None, None, 0, false, None, None, 0;
      now, stories := 0, map[];
    }

    ghost predicate Histories()
      reads this
    {
      && (forall n :: n in stories ==> 0 < n <= sequence && Sound(stories[n], now))
      && (forall n :: n in stories && stories[n].ended.None? ==> pending.Some? && pending.value.sequence == n)
    }

    /** The story so far of the operation in progress, in its route's terms. */
    ghost predicate Current()
      reads this, markers
    {
      pending.Some? ==>
        var op := pending.value;
        && op.sequence == sequence && sequence in stories && bound == Some(op.token)
        && stories[sequence].route == op.token.route && stories[sequence].scene == op.token.scene
        && stories[sequence].text == op.text && stories[sequence].ended.None?
        && match op.token.route
           case ByMarker(_) => MarkerStory(op, stories[sequence], markers.View())
           case ByWayland => !op.done && request.Some? && WaylandStory(request.value.phase, stories[sequence])
    }

    /** Without a marker operation no text is waiting in any slot. */
    ghost predicate NoLooseText()
      reads this, markers
    {
      forall c :: c in markers.slots && markers.slots[c].text.Some? ==>
        pending.Some? && pending.value.token.route.ByMarker? && !pending.value.taken && c == pending.value.code
    }

    /** What holds even when both receipts of a marker operation are in and it has not ended yet. */
    ghost predicate Core()
      reads this, markers
    {
      && Histories() && Current() && NoLooseText()
      && Bounded(markers.View())
      && (request.Some? ==>
            && request.value.number == lastRequest
            && pending.Some? && pending.value.token.route == ByWayland
            && request.value.sequence == sequence && request.value.scene == pending.value.token.scene)
      && (closed ==> pending.None?)
    }

    ghost predicate Valid()
      reads this, markers
    {
      Core() && !Received()
    }

    /** Both receipts of a marker operation are in. */
    ghost predicate Received()
      reads this`pending, markers`slots
    {
      pending.Some? && pending.value.token.route.ByMarker? && pending.value.done && pending.value.code !in markers.slots
    }

    /**
     Whether an operation may go on: its context is the one bound, on the scene
     that is still current. `alive` stands for the checks of the client and of
     its adapter.
     */
    ghost predicate Stands(token: Token, alive: bool)
      reads this`closed, this`bound, this`scene
    {
      !closed && bound == Some(token) && scene == Some(token.scene) && alive
    }

    /** `valid`. */
    method IsValid(token: Token, alive: bool) returns (valid: bool)
      ensures valid == Stands(token, alive)
    {
      valid := !closed && bound == Some(token) && scene == Some(token.scene) && alive;
    }

    /** The story of the current operation is this one now, and every other is as it was. */
    twostate predicate Becomes(s: Story)
      reads this
    {
      sequence == old(sequence) && stories == old(stories)[sequence := s]
    }

    /** All that happened is that the operation in progress ended. */
    twostate predicate Ends(how: End)
      reads this
    {
      && pending.None? && sequence in old(stories)
      && Becomes(old(stories)[sequence].(ended := Some(Ending(now, how, old(scene)))))
    }

    /** Every text is gone, and nothing else has changed about the slots. */
    twostate predicate Tombstones()
      reads markers
    {
      && markers.slots.Keys == old(markers.slots).Keys
      && forall c :: c in markers.slots ==> markers.slots[c] == old(markers.slots)[c].(text := None)
    }

    /** Nothing happened to any operation. */
    twostate predicate Idles()
      reads this
    {
      pending == old(pending) && stories == old(stories) && request == old(request) && lastRequest == old(lastRequest)
    }

    ghost method Tick()
      requires Valid()
      modifies this`now
      ensures Valid() && now == old(now) + 1
      ensures forall n :: n in stories ==> Sound(stories[n], now - 1)
    {
      now := now + 1;
    }

    /** The operation leaves before anyone is told, and no text survives it unread. */
    method Leave(how: End)
      requires Histories() && Bounded(markers.View()) && pending.Some? && pending.value.sequence == sequence
      requires sequence in stories && stories[sequence].ended.None?
      requires how == Success ==> Ended(stories[sequence], Ending(now, Success, scene)) && NoText(markers.View())
      modifies this`pending, this`request, this`stories, markers
      ensures Valid() && request.None? && Ends(how)
      ensures if how == Success then markers.View() == old(markers.View()) else NoText(markers.View()) && Tombstones()
    {
      hide Sound, Bounded, Step;
      if how != Success {
        AfterRevoke(markers.View());
        markers.RevokeAll();
      }
      EndsSoundly(stories[sequence], now, Ending(now, how, scene));
      pending, request := None, None;
      stories := stories[sequence := stories[sequence].(ended := Some(Ending(now, how, scene)))];
    }

    /** `finish`, with no native request left to withdraw. */
    method Finish(how: End)
      requires Histories() && Bounded(markers.View()) && pending.Some? && pending.value.sequence == sequence
      requires sequence in stories && stories[sequence].ended.None?
      requires how == Success ==> Ended(stories[sequence], Ending(now, Success, scene)) && NoText(markers.View())
      modifies this`pending, this`request, this`bound, this`stories, markers
      ensures Valid() && bound.None? && request.None? && Ends(how)
      ensures if how == Success then markers.View() == old(markers.View()) else NoText(markers.View()) && Tombstones()
    {
      Leave(how);
      hide Histories, NoLooseText, Bounded;
      bound := None;
    }

    /** A request that waits at a barrier needs a record to be withdrawn. */
    ghost predicate AtBarrier()
      reads this`request
    {
      request.Some? && request.value.phase != Text
    }

    /**
     `finish` with an error, and `cancel`, while a native request may be
     outstanding. A record that does not fit (`fits`) ends native control, and its
     exception leaves the context bound and whoever waits for the result untold.
     */
    method Retract(how: End, fits: bool) returns (told: bool)
      requires Valid() && pending.Some? && how != Success
      modifies this`pending, this`request, this`bound, this`stories, this`scene, markers
      ensures Valid() && request.None? && Ends(how) && NoText(markers.View()) && Tombstones()
      ensures told == (fits || !old(AtBarrier()))
      ensures if told then bound.None? && scene == old(scene) else bound == old(bound) && scene.None?
    {
      hide Bounded, Sound, Step;
      told := fits || request.None? || request.value.phase == Text;
      Leave(how);
      hide Histories, NoLooseText, Bounded;
      if told {
        bound := None;
      } else {
        scene := None;
      }
    }

    /** `context_for`, once a client or an adapter matches the focused surface. */
    method ContextFor(token: Token, alive: bool) returns (admitted: bool)
      requires Valid()
      modifies this`bound
      ensures Valid()
      ensures admitted == old(pending.None? && !closed && scene == Some(token.scene) && alive)
      ensures bound == if old(pending).Some? then old(bound) else if admitted then Some(token) else None
    {
      admitted := false;
      if pending.None? {
        bound := None;
        if !closed && scene == Some(token.scene) && alive {
          bound, admitted := Some(token), true;
        }
      }
    }

    /** A marker of this route can be granted for this text. */
    ghost predicate Grantable(token: Token, text: string)
      reads markers
    {
      token.route.ByMarker? ==> Step(markers.View(), Enqueue(text, Some(token.sender), token.route.x11)).1.Granted?
    }

    /**
     `commit`. `fits` says whether the native record is sent; a refusal before an
     operation exists leaves the histories alone.
     */
    method Commit(token: Token, text: string, wellFormed: bool, alive: bool, fits: bool) returns (accepted: bool)
      requires Valid()
      modifies this, markers
      ensures Valid() && now == old(now) + 1 && scene == old(scene) && closed == old(closed)
      ensures accepted == old(
        && pending.None? && Stands(token, alive) && wellFormed && sequence < LAST_SEQUENCE && Grantable(token, text))
      ensures !accepted ==>
        && Idles() && sequence == old(sequence)
        && bound == if old(pending.Some? || !Stands(token, alive)) then old(bound) else None
      ensures accepted ==>
        && sequence == old(sequence) + 1 && sequence !in old(stories)
        && stories == old(stories)[sequence := Untold(token, text).(
             ended := if fits then None else Some(Ending(now, Failure, scene)))]
      ensures accepted && fits ==>
        && pending.Some? && pending.value == Operation(token, sequence, pending.value.code, text, false, false)
        && bound == Some(token)
        && (token.route.ByMarker? ==> pending.value.code in markers.slots)
        && (token.route == ByWayland ==> request == Some(Request(lastRequest, Before, sequence, token.scene)))
      ensures accepted && !fits ==> pending.None? && bound.None?
      ensures lastRequest == old(lastRequest) + if accepted && token.route == ByWayland then 1 else 0
    {
      hide Bounded, Step, Sound;
      Tick();
      var valid := IsValid(token, alive);
      if pending.Some? || !valid {
        return false;
      }
      if !wellFormed || sequence >= LAST_SEQUENCE {
        bound := None;
        return false;
      }
      var code := 0;
      if token.route.ByMarker? {
        ghost var before := markers.View();
        var granted := markers.Add(text, Some(token.sender), token.route.x11);
        if granted.None? {
          AfterRefusal(before, text, Some(token.sender), token.route.x11);
          bound := None;
          return false;
        }
        code := granted.value;
        AfterGrant(before, text, Some(token.sender), token.route.x11, code);
      }
      Admit(token, text, code, fits);
      accepted := true;
    }

    /** The part of `commit` that makes the operation, once a marker is granted if it needs one. */
    method Admit(token: Token, text: string, code: nat, fits: bool)
      requires Histories() && pending.None? && request.None? && Stands(token, true)
      requires Bounded(markers.View())
      requires token.route == ByWayland ==> NoText(markers.View())
      requires token.route.ByMarker? ==>
        var t := markers.View();
        && code in t.slots && t.slots[code] == Transaction(t.generation, Some(text), Some(token.sender), false)
        && forall c :: c in t.slots && t.slots[c].text.Some? ==> c == code
      modifies this, markers
      ensures Valid() && now == old(now) && scene == old(scene) && closed == old(closed)
      ensures sequence == old(sequence) + 1 && sequence !in old(stories)
      ensures stories == old(stories)[sequence := Untold(token, text).(
             ended := if fits then None else Some(Ending(now, Failure, scene)))]
      ensures fits ==>
        && pending == Some(Operation(token, sequence, code, text, false, false)) && bound == Some(token)
        && (token.route.ByMarker? ==> code in markers.slots)
        && (token.route == ByWayland ==> request == Some(Request(lastRequest, Before, sequence, token.scene)))
      ensures !fits ==> pending.None? && bound.None?
      ensures lastRequest == old(lastRequest) + if token.route == ByWayland then 1 else 0
    {
      hide Bounded, Step, Sound;
      Begin(token, text, code);
      hide Histories, Current, NoLooseText;
      if token.route == ByWayland {
        Issue(Before, true, fits);
      } else if !fits {
        Finish(Failure);
      }
    }

    method Begin(token: Token, text: string, code: nat)
      requires Histories() && pending.None? && request.None? && bound == Some(token) && !closed
      requires Bounded(markers.View())
      requires token.route == ByWayland ==> NoText(markers.View())
      requires token.route.ByMarker? ==>
        var t := markers.View();
        && code in t.slots && t.slots[code] == Transaction(t.generation, Some(text), Some(token.sender), false)
        && forall c :: c in t.slots && t.slots[c].text.Some? ==> c == code
      modifies this`sequence, this`pending, this`stories
      ensures Histories() && NoLooseText() && (token.route.ByMarker? ==> Valid())
      ensures sequence == old(sequence) + 1 && pending == Some(Operation(token, sequence, code, text, false, false))
      ensures stories == old(stories)[sequence := Untold(token, text)] && sequence !in old(stories)
    {
      hide Bounded, Sound;
      sequence := sequence + 1;
      pending := Some(Operation(token, sequence, code, text, false, false));
      stories := stories[sequence := Untold(token, text)];
      BeginsSoundly(token, text, now);
    }

    /** `issue`: the next native request of a Wayland operation. */
    method Issue(phase: Phase, alive: bool, fits: bool)
      requires Histories() && NoLooseText() && Bounded(markers.View()) && request.None? && !closed
      requires pending.Some? && pending.value.token.route == ByWayland && pending.value.sequence == sequence
      requires sequence in stories && stories[sequence].ended.None? && stories[sequence].route == ByWayland
      requires stories[sequence].scene == pending.value.token.scene && stories[sequence].text == pending.value.text
      requires bound == Some(pending.value.token)
      requires !pending.value.done && Due(phase, stories[sequence], now)
      modifies this`pending, this`request, this`bound, this`stories, this`lastRequest, markers
      ensures Valid()
      ensures old(Stands(pending.value.token, alive)) && fits ==>
        && pending == old(pending) && bound == old(bound) && lastRequest == old(lastRequest) + 1
        && request == Some(Request(lastRequest, phase, sequence, pending.value.token.scene))
        && Becomes(if phase == Text then old(stories)[sequence].(sent := old(stories)[sequence].sent +
                     [Delivery(now, pending.value.text, scene)]) else old(stories)[sequence])
      ensures !(old(Stands(pending.value.token, alive)) && fits) ==> Ends(Failure) && request.None? && bound.None?
      ensures lastRequest == old(lastRequest) + if old(Stands(pending.value.token, alive)) then 1 else 0
    {
      hide Bounded, Step, Sound;
      var valid := IsValid(pending.value.token, alive);
      if !valid {
        Finish(Failure);
        return;
      }
      lastRequest := lastRequest + 1;
      if !fits {
        Finish(Failure);
        return;
      }
      request := Some(Request(lastRequest, phase, sequence, pending.value.token.scene));
      if phase == Text {
        ghost var sending := Delivery(now, pending.value.text, scene);
        SentSoundly(stories[sequence], sending);
        stories := stories[sequence := stories[sequence].(sent := stories[sequence].sent + [sending])];
      }
    }

    // ---- the marker route ---------------------------------------------------------------

    /** The marker in hand is this sender's, with this code. */
    ghost predicate Owned(sender: string, code: nat)
      reads this`pending
    {
      && pending.Some? && pending.value.token.route.ByMarker?
      && pending.value.code == code && pending.value.token.sender == sender
    }

    /** The operation in progress may go on; an X11 operation also needs the focus to be within its window. */
    ghost predicate Admitted(alive: bool, focused: bool)
      reads this
    {
      && pending.Some? && Stands(pending.value.token, alive)
      && (pending.value.token.route == ByMarker(true) ==> focused)
    }

    method IsAdmitted(alive: bool, focused: bool) returns (admitted: bool)
      requires pending.Some?
      ensures admitted == Admitted(alive, focused)
    {
      admitted := IsValid(pending.value.token, alive);
      admitted := admitted && (pending.value.token.route == ByMarker(true) ==> focused);
    }

    /** Whether the key is the marker of the operation in progress, and its text may leave for this surface. */
    method Claims(sender: string, code: nat, surface: nat, alive: bool, focused: bool)
      returns (owned: bool, admitted: bool)
      ensures owned == Owned(sender, code)
      ensures admitted == (owned && Admitted(alive, focused) && surface == pending.value.token.surface)
    {
      admitted := false;
      owned := pending.Some? && pending.value.token.route.ByMarker? && pending.value.code == code
        && pending.value.token.sender == sender;
      if owned {
        admitted := IsAdmitted(alive, focused);
        admitted := admitted && surface == pending.value.token.surface;
      }
    }

    /** `take`: the one moment at which a text leaves for a toolkit. */
    method Take(sender: string, code: nat, surface: nat, alive: bool, focused: bool)
      returns (given: Option<(nat, string)>)
      requires Valid()
      modifies this, markers
      ensures Valid() && sequence == old(sequence) && now == old(now) + 1 && scene == old(scene)
      ensures given.Some? <==>
        && old(Owned(sender, code) && surface == pending.value.token.surface && !pending.value.taken)
        && old(!closed && bound == Some(pending.value.token) && scene == Some(pending.value.token.scene)) && alive
        && (old(pending).value.token.route == ByMarker(true) ==> focused)
      ensures given.Some? ==>
        && given.value == (sequence, old(pending).value.text)
        && pending == Some(old(pending).value.(taken := true)) && bound == old(bound)
        && sequence in old(stories)
        && Becomes(old(stories)[sequence].(handed := old(stories)[sequence].handed +
                     [Delivery(now, given.value.1, scene)]))
      ensures given.None? ==>
        if old(Owned(sender, code) && !(Admitted(alive, focused) && surface == pending.value.token.surface))
          then Ends(Failure) else Idles()
    {
      hide Bounded, Step, Sound;
      Tick();
      ghost var before := markers.View();
      var owned, admitted := Claims(sender, code, surface, alive, focused);
      var text := markers.Press(code, false, admitted, Some(sender));
      AfterPress(before, code, admitted, Some(sender));
      if owned && !admitted {
        Finish(Failure);
      }
      if text.None? || !admitted {
        return None;
      }
      Hand();
      given := Some((sequence, text.value));
    }

    /** The press was the marker's first, and its text has left the slot. */
    method Hand()
      requires Histories() && Bounded(markers.View()) && NoText(markers.View()) && request.None? && !closed
      requires pending.Some? && pending.value.token.route.ByMarker? && !pending.value.taken
      requires pending.value.code in markers.slots && markers.slots[pending.value.code].pressed
      requires markers.slots[pending.value.code].owner == Some(pending.value.token.sender)
      requires pending.value.sequence == sequence && sequence in stories
      requires Stands(pending.value.token, true) && stories[sequence].ended.None? && stories[sequence].handed == []
      requires stories[sequence] == Untold(pending.value.token, pending.value.text) && !pending.value.done
      modifies this`pending, this`stories
      ensures Valid() && pending == Some(old(pending).value.(taken := true))
      ensures Becomes(old(stories)[sequence].(handed := old(stories)[sequence].handed +
                [Delivery(now, old(pending).value.text, scene)]))
    {
      hide Bounded, Step, Sound;
      ghost var handing := Delivery(now, pending.value.text, scene);
      HandedSoundly(stories[sequence], handing);
      pending := Some(pending.value.(taken := true));
      stories := stories[sequence := stories[sequence].(handed := stories[sequence].handed + [handing])];
    }

    /** The release frees the marker of the operation in progress: it is its own, and has been pressed. */
    ghost predicate Frees(sender: string, code: nat)
      reads this, markers
    {
      Owned(sender, code) && code in markers.slots && markers.slots[code].pressed
    }

    /** `released`: the release of the marker's own key, seen after its press, frees the marker. */
    method Released(sender: string, code: nat, alive: bool, focused: bool)
      requires Valid()
      modifies this, markers
      ensures Valid() && sequence == old(sequence) && now == old(now) + 1 && scene == old(scene)
      ensures !old(Frees(sender, code)) ==> Idles()
      ensures old(Frees(sender, code)) ==>
        && sequence in old(stories)
        && var freed := old(stories)[sequence].(freed := Some(now));
           if !old(pending).value.done then pending == old(pending) && Becomes(freed)
           else
             && pending.None?
             && Becomes(freed.(ended :=
                  Some(Ending(now, if old(Admitted(alive, focused)) then Success else Failure, scene))))
    {
      hide Bounded, Step, Sound;
      Tick();
      ghost var before := markers.View();
      var _ := markers.Press(code, true, false, Some(sender));
      AfterRelease(before, code, Some(sender));
      if pending.Some? && pending.value.token.route.ByMarker? && pending.value.code in before.slots &&
        pending.value.code !in markers.slots {
        Free();
      }
      Complete(alive, focused);
    }

    /** The marker of the operation in progress has been freed. */
    ghost method Free()
      requires Histories() && NoLooseText() && Bounded(markers.View()) && request.None? && !closed && now > 0
      requires pending.Some? && pending.value.token.route.ByMarker? && pending.value.sequence == sequence
      requires pending.value.code !in markers.slots && pending.value.taken && bound == Some(pending.value.token)
      requires sequence in stories && Sound(stories[sequence], now - 1) && stories[sequence].ended.None?
      requires stories[sequence].(freed := None, handed := [], done := None) ==
        Untold(pending.value.token, pending.value.text)
      requires stories[sequence].handed != [] && (pending.value.done <==> stories[sequence].done.Some?)
      modifies this`stories
      ensures Core() && Becomes(old(stories)[sequence].(freed := Some(now)))
    {
      hide Bounded, Step, Sound;
      FreedSoundly(stories[sequence], now - 1, now);
      stories := stories[sequence := stories[sequence].(freed := Some(now))];
    }

    /** `done`: the toolkit's receipt counts once, for the operation it took, and only while its target stands. */
    method Done(sender: string, number: nat, alive: bool, focused: bool) returns (counted: bool)
      requires Valid()
      modifies this, markers
      ensures Valid() && sequence == old(sequence) && now == old(now) + 1 && scene == old(scene)
      ensures counted == old(Awaits(sender, number) && !pending.value.done && Admitted(alive, focused))
      ensures counted ==>
        && sequence in old(stories)
        && var done := old(stories)[sequence].(done := Some(now));
           if old(pending).value.code in old(markers.slots)
             then pending == Some(old(pending).value.(done := true)) && Becomes(done)
           else pending.None? && Becomes(done.(ended := Some(Ending(now, Success, scene))))
      ensures !counted && old(Awaits(sender, number) && !pending.value.done) ==> Ends(Failure)
      ensures !old(Awaits(sender, number) && !pending.value.done) ==> Idles()
    {
      hide Bounded, Step, Sound;
      Tick();
      if pending.None? || !pending.value.token.route.ByMarker? || pending.value.token.sender != sender ||
         pending.value.sequence != number || !pending.value.taken || pending.value.done {
        return false;
      }
      var admitted := IsAdmitted(alive, focused);
      if !admitted {
        Finish(Failure);
        return false;
      }
      DoneSoundly(stories[sequence], now - 1, now);
      pending := Some(pending.value.(done := true));
      stories := stories[sequence := stories[sequence].(done := Some(now))];
      Complete(alive, focused);
      counted := true;
    }

    /** This toolkit took the operation with this number, and it is still in progress. */
    ghost predicate Awaits(sender: string, number: nat)
      reads this`pending
    {
      && pending.Some? && pending.value.token.route.ByMarker? && pending.value.token.sender == sender
      && pending.value.sequence == number && pending.value.taken
    }

    /** `complete`: both receipts are in, and the target is checked once more. */
    method Complete(alive: bool, focused: bool)
      requires Core()
      modifies this`pending, this`request, this`bound, this`stories, markers
      ensures Valid()
      ensures !old(Received()) ==> Idles() && markers.slots == old(markers.slots)
      ensures old(Received()) ==> Ends(if old(Admitted(alive, focused)) then Success else Failure)
    {
      hide Bounded, Step;
      if pending.Some? && pending.value.token.route.ByMarker? && pending.value.done &&
        pending.value.code !in markers.slots {
        var admitted := IsAdmitted(alive, focused);
        if admitted {
          Finish(Success);
        } else {
          Finish(Failure);
        }
      }
    }

    /** `failed`. */
    method Failed(sender: string, number: nat) returns (counted: bool)
      requires Valid()
      modifies this, markers
      ensures Valid() && now == old(now) + 1
      ensures counted == old(Awaits(sender, number))
      ensures if counted then Ends(Failure) else Idles()
    {
      Tick();
      counted := pending.Some? && pending.value.token.route.ByMarker? && pending.value.token.sender == sender
        && pending.value.sequence == number && pending.value.taken;
      if counted {
        hide Histories, NoLooseText, Bounded;
        Finish(Failure);
      }
    }

    /** `cancel`: only for the very operation it names. */
    method Cancel(token: Token, fits: bool) returns (told: bool)
      requires Valid()
      modifies this, markers
      ensures Valid() && now == old(now) + 1
      ensures told == !old(pending.Some? && pending.value.token == token && AtBarrier() && !fits)
      ensures if old(pending.Some? && pending.value.token == token) then Ends(Withdrawn) else Idles()
      ensures bound == if told && old(bound) == Some(token) then None else old(bound)
    {
      Tick();
      told := true;
      if pending.Some? && pending.value.token == token {
        told := Retract(Withdrawn, fits);
      }
      if told && bound == Some(token) {
        bound := None;
      }
    }

    /** `unregister`: nothing of a gone sender can be consumed or released later, unless a withdrawal raises first. */
    method Unregister(sender: string, fits: bool) returns (told: bool)
      requires Valid()
      modifies this, markers
      ensures Valid()
      ensures told == !old(pending.Some? && pending.value.token.sender == sender && AtBarrier() && !fits)
      ensures told ==> forall c :: c in markers.slots ==> markers.slots[c].owner != Some(sender)
      ensures !told ==> Tombstones() && bound == old(bound)
      ensures if old(pending.Some? && pending.value.token.sender == sender) then Ends(Failure) else Idles()
      ensures told && old(bound.Some? && bound.value.sender == sender) ==> bound.None?
      ensures old(bound.Some? ==> bound.value.sender != sender) ==> bound == old(bound)
      ensures told ==> forall c :: c in markers.slots <==>
        c in old(markers.slots) && old(markers.slots)[c].owner != Some(sender)
    {
      hide Bounded, Sound;
      Tick();
      told := true;
      if pending.Some? && pending.value.token.sender == sender {
        told := Retract(Failure, fits);
        if !told {
          return;
        }
      }
      if bound.Some? && bound.value.sender == sender {
        bound := None;
      }
      BoundedStep(markers.View(), RemoveOwner(Some(sender)));
      markers.Remove(Some(sender));
    }

    // ---- the Wayland route ------------------------------------------------------------

    /**
     A text reply of the compositor. Only the outstanding request's number is
     heard; a reply of the wrong kind ends the channel.
     */
    method TextReply(number: nat, barrier: bool, good: bool, alive: bool, fits: bool)
      requires Valid()
      modifies this, markers
      ensures Valid() && sequence == old(sequence) && now == old(now) + 1
      ensures !old(Expected(number)) ==> Idles() && scene == old(scene)
      ensures old(Expected(number)) && barrier != (old(request.value.phase) != Text) ==>
        && pending.None? && request.None? && scene.None? && sequence in old(stories)
        && Becomes(old(stories)[sequence].(ended := Some(Ending(now, Failure, None))))
      ensures old(Expected(number)) && barrier == (old(request.value.phase) != Text) ==>
        && scene == old(scene) && pending.Some? == (
             && good && old(Stands(pending.value.token, alive)) && old(request.value.phase) != After && fits)
        && if good && old(Stands(pending.value.token, alive)) then Moves(old(request.value.phase), fits)
           else Ends(Failure)
    {
      hide Bounded, Step, Sound;
      Tick();
      if request.None? || request.value.number != number {
        return;
      }
      if barrier != (request.value.phase != Text) {
        Lost();
        return;
      }
      var phase := request.value.phase;
      request := None;
      var valid := IsValid(pending.value.token, alive);
      if !good || !valid {
        Finish(Failure);
        return;
      }
      Arrived(phase, alive, fits);
    }

    ghost predicate Expected(number: nat)
      reads this`request
    {
      request.Some? && request.value.number == number
    }

    /**
     A good reply to the request of this phase was the last thing missing of it:
     the next request is out, or there is none left and the operation succeeded,
     or the next record did not fit.
     */
    twostate predicate Moves(phase: Phase, fits: bool)
      reads this
    {
      && sequence in old(stories) && old(pending).Some?
      && lastRequest == old(lastRequest) + (if phase == After then 0 else 1)
      && var moved := Seen(old(stories)[sequence], phase, now);
         if phase == After then
           pending.None? && request.None? && Becomes(moved.(ended := Some(Ending(now, Success, scene))))
         else if !fits then
           pending.None? && request.None? && Becomes(moved.(ended := Some(Ending(now, Failure, scene))))
         else
           && pending == old(pending)
           && request == Some(Request(lastRequest, if phase == Before then Text else After, sequence,
                                      pending.value.token.scene))
           && Becomes(if phase == Text then moved else
                moved.(sent := moved.sent + [Delivery(now, pending.value.text, scene)]))
    }

    /** `arrived`, for a good reply: the operation moves on, or succeeds. */
    method Arrived(phase: Phase, alive: bool, fits: bool)
      requires Histories() && NoLooseText() && Bounded(markers.View()) && request.None? && !closed
      requires pending.Some? && pending.value.token.route == ByWayland && pending.value.sequence == sequence
      requires sequence in stories && stories[sequence].ended.None? && stories[sequence].route == ByWayland
      requires stories[sequence].scene == pending.value.token.scene && stories[sequence].text == pending.value.text
      requires Stands(pending.value.token, alive) && !pending.value.done && WaylandStory(phase, stories[sequence])
      requires now > 0 && Sound(stories[sequence], now - 1)
      modifies this`pending, this`request, this`bound, this`stories, this`lastRequest, markers
      ensures Valid() && Moves(phase, fits)
      ensures pending.Some? == (phase != After && fits)
    {
      hide Bounded, Step, Sound;
      ArrivedSoundly(stories[sequence], now - 1, now, phase);
      match phase
      case Before =>
        stories := stories[sequence := stories[sequence].(before := Some(now))];
        Issue(Text, alive, fits);
      case Text =>
        stories := stories[sequence := stories[sequence].(dispatched := Some(now))];
        Issue(After, alive, fits);
      case After =>
        stories := stories[sequence := stories[sequence].(after := Some(now))];
        Finish(Success);
    }

    /** The compositor's connection ends. */
    method Lost()
      requires Valid()
      modifies this`scene, this`pending, this`request, this`bound, this`stories, markers
      ensures Valid() && scene.None? && request.None?
      ensures if old(request).Some? then
          pending.None? && sequence in old(stories) &&
          Becomes(old(stories)[sequence].(ended := Some(Ending(now, Failure, None))))
        else pending == old(pending) && stories == old(stories) && bound == old(bound)
    {
      scene := None;
      if request.Some? {
        Finish(Failure);
      }
    }

    /**
     The native scene, its focus or its connection is replaced; the scheduler cancels
     what was bound to the old one.
     */
    method SceneMoves(next: Option<nat>)
      requires Valid()
      modifies this`scene
      ensures Valid() && scene == next
    {
      scene := next;
    }

    /** `native_changed`: a Wayland context whose text resource is gone is given up. */
    method NativeChanged(alive: bool, fits: bool) returns (told: bool)
      requires Valid()
      modifies this, markers
      ensures Valid() && now == old(now) + 1
      ensures told == !old(Stranded(alive) && AtBarrier() && !fits)
      ensures bound == if told && old(Stranded(alive)) then None else old(bound)
      ensures if old(Stranded(alive) && pending.Some?) then Ends(Failure) else Idles() && scene == old(scene)
    {
      hide Bounded, Sound, Step;
      Tick();
      told := true;
      if bound.Some? && bound.value.route == ByWayland {
        var valid := IsValid(bound.value, alive);
        if !valid {
          if pending.Some? {
            told := Retract(Failure, fits);
          } else {
            hide Histories, NoLooseText;
            bound := None;
          }
        }
      }
    }

    /** A Wayland context is bound that is not valid any more. */
    ghost predicate Stranded(alive: bool)
      reads this`closed, this`bound, this`scene
    {
      bound.Some? && bound.value.route == ByWayland && !Stands(bound.value, alive)
    }

    /** `close`. */
    method Close(fits: bool) returns (told: bool)
      requires Valid()
      modifies this, markers
      ensures Valid() && closed && now == old(now) + 1
      ensures told == (fits || !old(AtBarrier()))
      ensures bound == if told then None else old(bound)
      ensures if old(pending).Some? then Ends(Failure) else Idles()
    {
      hide Bounded, Step, Sound;
      Tick();
      told := true;
      if pending.Some? {
        told := Retract(Failure, fits);
      }
      hide Histories, NoLooseText;
      closed := true;
      if told {
        bound := None;
      }
    }
  }

  /** The story once the answer to the request of this phase was seen. */
  function Seen(s: Story, phase: Phase, now: nat): Story {
    match phase
    case Before => s.(before := Some(now))
    case Text => s.(dispatched := Some(now))
    case After => s.(after := Some(now))
  }

  ghost predicate MarkerStory(op: Operation, s: Story, t: Table) {
    && s.before.None? && s.sent == [] && s.dispatched.None? && s.after.None?
    && (op.taken <==> s.handed != [])
    && (op.done <==> s.done.Some?) && (op.done ==> op.taken)
    && (op.code !in t.slots ==> op.taken && s.freed.Some?)
    && (op.code in t.slots ==>
          && s.freed.None? && t.slots[op.code].owner == Some(op.token.sender)
          && (op.taken ==> t.slots[op.code].pressed)
          && (!op.taken ==> t.slots[op.code] == Transaction(t.generation, Some(s.text), Some(op.token.sender), false)))
  }

  /** The request a Wayland operation is to make next. */
  ghost predicate Due(phase: Phase, s: Story, now: nat) {
    && s.handed == [] && s.done.None? && s.freed.None? && s.after.None?
    && (phase == Before ==> s.before.None? && s.sent == [] && s.dispatched.None?)
    && (phase == Text ==> s.before == Some(now) && s.sent == [] && s.dispatched.None?)
    && (phase == After ==> s.dispatched.Some?)
  }

  ghost predicate WaylandStory(phase: Phase, s: Story) {
    && s.handed == [] && s.done.None? && s.freed.None? && s.after.None?
    && (phase == Before ==> s.before.None? && s.sent == [] && s.dispatched.None?)
    && (phase == Text ==> s.before.Some? && s.sent != [] && s.dispatched.None?)
    && (phase == After ==> s.dispatched.Some?)
  }

  // ---- runs ------------------------------------------------------------------------------

  /**
   What a success means. On the marker route the text was handed over exactly
   once, then the toolkit's receipt and the release of the marker were both
   seen. On the Wayland route the barrier before the text, the one dispatch of
   the text and the barrier after it were seen, in that order.
   */
  lemma SuccessMeans(c: NativeContexts, n: nat)
    requires c.Valid() && n in c.stories && c.stories[n].ended.Some? && c.stories[n].ended.value.how == Success
    ensures var (s, end) := (c.stories[n], c.stories[n].ended.value);
      && end.scene == Some(s.scene)
      && match s.route
         case ByMarker(_) =>
           && |s.handed| == 1 && s.handed[0].text == s.text && s.handed[0].scene == Some(s.scene)
           && s.done.Some? && s.freed.Some?
           && s.handed[0].at < s.done.value <= end.at && s.handed[0].at < s.freed.value <= end.at
         case ByWayland =>
           && s.before.Some? && s.dispatched.Some? && s.after.Some?
           && |s.sent| == 1 && s.sent[0].text == s.text && s.sent[0].scene == Some(s.scene)
           && s.before.value <= s.sent[0].at < s.dispatched.value < s.after.value <= end.at
  {
    assert Sound(c.stories[n], c.now);
  }

  /**
   However an operation ends, its own text was handed over or sent at most once,
   on the scene its context was bound to, and never after the end.
   */
  lemma AtMostOnce(c: NativeContexts, n: nat)
    requires c.Valid() && n in c.stories
    ensures var s := c.stories[n];
      && |s.handed| + |s.sent| <= 1
      && forall d :: d in s.handed + s.sent ==>
           && d.text == s.text && d.scene == Some(s.scene)
           && (s.ended.Some? ==> d.at <= s.ended.value.at)
  {
    assert Sound(c.stories[n], c.now);
  }

  /** Operations do not overlap: every one but the operation in progress has ended. */
  lemma OneAtATime(c: NativeContexts, n: nat)
    requires c.Valid() && n in c.stories && (c.pending.None? || c.pending.value.sequence != n)
    ensures c.stories[n].ended.Some?
  {
  }

  datatype Event =
    | Admit(token: Token, text: string, wellFormed: bool, alive: bool, fits: bool)
    | TakeMarker(sender: string, code: nat, surface: nat, alive: bool, focused: bool)
    | MarkerReleased(sender: string, code: nat, alive: bool, focused: bool)
    | Receipt(sender: string, number: nat, alive: bool, focused: bool)
    | Problem(sender: string, number: nat)
    | Withdraw(token: Token, fits: bool)
    | Gone(sender: string, fits: bool)
    | Reply(number: nat, barrier: bool, good: bool, alive: bool, fits: bool)
    | Moves(scene: Option<nat>)
    | ContextsChange(alive: bool, fits: bool)
    | ChannelLost
    | Shut(fits: bool)

  /** Every run keeps every story sound, in whatever order toolkits, the compositor and the scheduler call. */
  method Run(events: seq<Event>) returns (c: NativeContexts)
    ensures fresh(c) && fresh(c.markers) && c.Valid()
  {
    c := new NativeContexts();
    for i := 0 to |events|
      invariant fresh(c) && fresh(c.markers) && c.Valid()
    {
      hide NativeContexts.Valid;
      match events[i] {
        case Admit(token, text, wellFormed, alive, fits) =>
          var admitted := c.ContextFor(token, alive);
          if admitted {
            var _ := c.Commit(token, text, wellFormed, alive, fits);
          }
        case TakeMarker(sender, code, surface, alive, focused) =>
          var _ := c.Take(sender, code, surface, alive, focused);
        case MarkerReleased(sender, code, alive, focused) =>
          c.Released(sender, code, alive, focused);
        case Receipt(sender, number, alive, focused) =>
          var _ := c.Done(sender, number, alive, focused);
        case Problem(sender, number) =>
          var _ := c.Failed(sender, number);
        case Withdraw(token, fits) =>
          var _ := c.Cancel(token, fits);
        case Gone(sender, fits) =>
          var _ := c.Unregister(sender, fits);
        case Reply(number, barrier, good, alive, fits) =>
          c.TextReply(number, barrier, good, alive, fits);
        case Moves(scene) =>
          c.SceneMoves(scene);
        case ContextsChange(alive, fits) =>
          var _ := c.NativeChanged(alive, fits);
        case ChannelLost =>
          c.Lost();
        case Shut(fits) =>
          var _ := c.Close(fits);
      }
    }
  }
}
