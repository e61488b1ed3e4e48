/**
 The ordered input of one viewer: the bounded scheduler (input_order.py), the
 viewer's paint authority and replies (desktop_attachment.py) and the native
 delivery they share (desktop_native.py).

 The three objects call back into each other while they work: a full control
 channel ends native input, which reports a scene change, which retires the
 input that was being delivered; a full viewer is closed, which detaches it.
 Methods that can end in an exception return `ok`; `!ok` is the exception.
 */
module InputPipeline {
  import opened Common

  const MAX_QUEUE: nat := 256

  /** Every native scene has a fresh generation, so equality is identity. */
  datatype Target = Target(window: nat, generation: nat)

  datatype Route = Marker | Wayland | Selection

  /** What a confirmed-text adapter does when it is asked to commit. */
  datatype Behaviour = Stays | Answers(failed: bool) | Raises

  /** The compositor's answer a Wayland delivery waits for: to a client barrier, to its text, to a last barrier. */
  datatype Waiting = Nothing | AtFirst | AtText | AtLast

  function Stage(w: Waiting): nat {
    match w
    case Nothing => 0
    case AtFirst => 1
    case AtText => 2
    case AtLast => 3
  }

  /** What a delivery waits for once it is committed. */
  function Asked(route: Route): Waiting {
    if route == Wayland then AtFirst else Nothing
  }

  /** An operation, with what the native side will make of it. */
  datatype Work =
    | Deliver(valid: bool)
    | CloseWindow(known: bool)
    | Confirm(context: bool, route: Route, behaviour: Behaviour)

  datatype Operation = Operation(target: Option<Target>, request: nat, work: Work)

  datatype Ticket = Ticket(request: nat, target: Target, route: Route)

  /** `Requested` is said of windows only; input that was discarded on request is `Discarded`. */
  datatype What = Painted | Requested | Submitted | Completed | Refused | Described | Discarded

  datatype Reply = Reply(id: nat, what: What)

  /**
   An input record as the compositor receives it, with what was true when it was
   sent. A Wayland delivery sends three; every other request sends one, step 0.
   */
  datatype Command = Command(request: nat, step: nat, target: Target, current: Option<Target>, controls: bool,
    painted: bool)

  /** Whether the capture child is working for someone, can start, or is gone. */
  datatype Capturing = Busy | Ready | Broken

  datatype Frame = Frame(sequence: nat, target: Target)

  /** The finding of `validate_input` and `valid_text` on a requested operation. */
  datatype Check = Fine | TextInvalid | OperationInvalid

  /** A viewer's request. `addressed` is the scene it names, when it names one under this connection. */
  datatype Method =
    | Status
    | FrameAck(frame: Option<nat>)
    | Configure(mode: Option<nat>)
    | Refresh
    | Input(addressed: Option<Target>, check: Check, work: Work)
    | ReleaseInput(wellFormed: bool, addressed: Option<Target>)
    | SelectWindow(wellFormed: bool, known: bool)
    | CloseRequest(wellFormed: bool, known: bool)
    | Terminate(wellFormed: bool, supported: bool, works: bool)
    | Unknown

  /** What a capture came back with. */
  datatype Picture = NoPicture | SameAsBefore | Image

  /** What a viewer's attachment, its scheduler and the native side hold between two events. */
  datatype Snapshot = Snapshot(
    attached: bool, controls: bool, failed: bool, lastRequest: nat,
    ready: Option<Target>, awaiting: seq<Frame>, frameSequence: nat, framePending: bool, capacity: nat,
    dirty: bool, capture: Option<Target>, queue: seq<Operation>, pending: Option<Ticket>,
    closed: bool, room: nat, target: Option<Target>, generation: nat, waiting: Waiting, capturing: Capturing)

  // ---- what the histories mean ----------------------------------------------------

  function Requests(queue: seq<Operation>): seq<nat> {
    if queue == [] then [] else [queue[0].request] + Requests(queue[1..])
  }

  lemma {:induction false} RequestsAppend(queue: seq<Operation>, op: Operation)
    ensures Requests(queue + [op]) == Requests(queue) + [op.request]
  {
    if queue == [] {
      assert [op][1..] == [];
    } else {
      assert (queue + [op])[1..] == queue[1..] + [op];
      RequestsAppend(queue[1..], op);
    }
  }

  function Ids(replies: seq<Reply>): multiset<nat> {
    if replies == [] then multiset{} else Ids(replies[..|replies| - 1]) + multiset{replies[|replies| - 1].id}
  }

  lemma StillTold(before: seq<Reply>, after: seq<Reply>, r: Reply)
    requires before <= after && r in before
    ensures r in after
  {
  }

  /** The window requests that were told so, in order. */
  function Granted(replies: seq<Reply>): seq<nat> {
    if replies == [] then []
    else
      var last := replies[|replies| - 1];
      Granted(replies[..|replies| - 1]) + if last.what == Requested then [last.id] else []
  }

  /** Exactly the window requests whose records were sent were told so, but for one whose reply is next. */
  ghost predicate Matched(windows: seq<nat>, replies: seq<Reply>, owing: Option<nat>) {
    windows == Granted(replies) + if owing.Some? then [owing.value] else []
  }

  lemma MatchedMore(windows: seq<nat>, replies: seq<Reply>, owing: Option<nat>, r: Reply)
    requires Matched(windows, replies, owing) && (r.what == Requested ==> owing == Some(r.id))
    ensures Matched(windows, replies + [r], if r.what == Requested then None else owing)
  {
    assert (replies + [r])[..|replies|] == replies;
    assert Granted(replies + [r]) + [] == Granted(replies + [r]);
  }

  lemma MatchedAsked(windows: seq<nat>, replies: seq<Reply>, id: nat)
    requires Matched(windows, replies, None)
    ensures Matched(windows + [id], replies, Some(id))
  {
  }

  function Refusals(ids: seq<nat>): (r: seq<Reply>)
    ensures |r| == |ids| && forall i :: 0 <= i < |ids| ==> r[i] == Reply(ids[i], Refused)
  {
    seq(|ids|, i requires 0 <= i < |ids| => Reply(ids[i], Refused))
  }

  lemma RefusalsAppend(ids: seq<nat>, id: nat)
    ensures Refusals(ids + [id]) == Refusals(ids) + [Reply(id, Refused)] && Refusals([]) == []
  {
  }

  lemma IdsAppend(replies: seq<Reply>, r: Reply)
    ensures Ids(replies + [r]) == Ids(replies) + multiset{r.id}
  {
    assert (replies + [r])[..|replies|] == replies;
  }

  ghost predicate Rising(ids: seq<nat>, bound: nat) {
    && (forall i, j :: 0 <= i < j < |ids| ==> ids[i] < ids[j])
    && (forall i :: 0 <= i < |ids| ==> ids[i] < bound)
  }

  /** Window requests name no target; everything else names one this viewer has painted. */
  ghost predicate Admissible(queue: seq<Operation>, painted: set<Target>) {
    forall op :: op in queue ==>
      (op.target.None? <==> op.work.CloseWindow?) && (op.target.Some? ==> op.target.value in painted)
  }

  ghost predicate AllShown(awaiting: seq<Frame>, shown: set<Target>) {
    forall f :: f in awaiting ==> f.target in shown
  }

  predicate Authorized(c: Command) {
    c.controls && c.painted && c.current == Some(c.target) && c.step < 3
  }

  ghost predicate AllAuthorized(sent: seq<Command>) {
    forall c :: c in sent ==> Authorized(c)
  }

  /** The place of a command among all commands: by request, then by step. */
  function Place(c: Command): nat {
    3 * c.request + c.step
  }

  /** Commands reach the compositor in the order of their requests and steps, each at most once. */
  ghost predicate InOrder(sent: seq<Command>, bound: nat) {
    && (forall i, j :: 0 <= i < j < |sent| ==> Place(sent[i]) < Place(sent[j]))
    && Behind(sent, 3 * bound)
  }

  ghost predicate Behind(sent: seq<Command>, place: nat) {
    forall c :: c in sent ==> Place(c) < place
  }

  lemma BehindMore(sent: seq<Command>, place: nat, later: nat)
    requires Behind(sent, place) && place <= later
    ensures Behind(sent, later)
  {
  }

  function Following(admissions: seq<nat>): nat {
    if admissions == [] then 0 else admissions[|admissions| - 1] + 1
  }

  ghost predicate Reached(sent: seq<Command>, request: nat) {
    exists c :: c in sent && c.request == request
  }

  /**
   `submitted` is only ever said of a record that was sent, and `completed` of a
   delivery that its adapter completed.
   */
  ghost predicate Meant(replies: seq<Reply>, sent: seq<Command>, confirmed: set<nat>) {
    forall r :: r in replies ==>
      (r.what == Submitted ==> Reached(sent, r.id)) && (r.what == Completed ==> r.id in confirmed)
  }

  lemma MeantMore(replies: seq<Reply>, sent: seq<Command>, c: Command, confirmed: set<nat>, request: nat)
    requires Meant(replies, sent, confirmed)
    ensures Meant(replies, sent + [c], confirmed)
    ensures Meant(replies, sent, confirmed + {request})
    ensures Reached(sent + [c], c.request)
  {
    forall r | r in replies && r.what == Submitted ensures Reached(sent + [c], r.id) {
      var d :| d in sent && d.request == r.id;
      assert d in sent + [c];
    }
    assert c in sent + [c];
  }

  lemma MeantReply(replies: seq<Reply>, sent: seq<Command>, confirmed: set<nat>, r: Reply)
    requires Meant(replies, sent, confirmed)
    requires (r.what == Submitted ==> Reached(sent, r.id)) && (r.what == Completed ==> r.id in confirmed)
    ensures Meant(replies + [r], sent, confirmed)
  {
  }

  // ---- what a drain comes to ------------------------------------------------------------

  /**
   What becomes of the operation at the head of the queue, when `room` more
   records fit: it is over and the next one follows, it waits for its adapter, it
   fails and retires the rest, or it needs a record that does not fit. Then its
   own reply is lost if nothing was sent before the release of held keys, and
   the exception leaves the drain unless an adapter's caller swallows it.
   */
  datatype Turned =
    | Goes(room: nat)
    | Waits(room: nat)
    | Retires(room: nat)
    | Overflows(victim: bool, raised: bool)

  /** An operation that cannot be carried out; `tried` when its own record was the one too many. */
  ghost function Failing(room: nat, tried: bool, raised: bool): (t: Turned)
    ensures t.Retires? || t.Overflows?
  {
    if room > 0 then Retires(room - 1) else Overflows(!tried, !tried && raised)
  }

  ghost function Turn(op: Operation, room: nat, ready: Option<Target>, target: Option<Target>): Turned {
    if op.target.Some? && (target != op.target || ready != op.target) then Goes(room)
    else
      match op.work
      case CloseWindow(known) => if known && room > 0 then Goes(room - 1) else Failing(room, known, true)
      case Deliver(valid) => if valid && room > 0 then Goes(room - 1) else Failing(room, valid, true)
      case Confirm(context, _, behaviour) =>
        if !context then Failing(room, room == 0, false)
        else
          match behaviour
          case Stays => if room > 0 then Waits(room - 1) else Overflows(false, false)
          case Raises => Failing(room, false, true)
          case Answers(failed) => if failed then Failing(room, false, false) else Goes(room)
  }

  /** Where serving a queue stops: at its end, or at the first operation that does not simply go. */
  datatype Served = Empties(room: nat) | Stops(op: Operation, rest: seq<Operation>, turned: Turned)

  ghost function Serving(queue: seq<Operation>, room: nat, ready: Option<Target>, target: Option<Target>): (s: Served)
    ensures s.Stops? ==> !s.turned.Goes?
  {
    if queue == [] then Empties(room)
    else
      var t := Turn(queue[0], room, ready, target);
      if t.Goes? then Serving(queue[1..], t.room, ready, target) else Stops(queue[0], queue[1..], t)
  }

  /** The delivery an operation asks for. */
  function TicketOf(op: Operation): Option<Ticket> {
    if op.target.Some? && op.work.Confirm? then Some(Ticket(op.request, op.target.value, op.work.route)) else None
  }

  ghost function Skipped(skipped: bool, request: nat): multiset<nat> {
    if skipped then multiset{request} else multiset{}
  }

  /** The one request whose reply serving a queue skips, if any. */
  ghost function Victims(s: Served): multiset<nat> {
    if s.Stops? && s.turned.Overflows? && s.turned.victim then multiset{s.op.request} else multiset{}
  }

  ghost predicate Raising(s: Served) {
    s.Stops? && s.turned.Overflows? && s.turned.raised
  }

  /** With a record's room for each operation, serving them neither skips a reply nor raises. */
  lemma {:induction false} ServingFits(queue: seq<Operation>, room: nat, ready: Option<Target>, target: Option<Target>)
    requires room >= |queue|
    ensures var s := Serving(queue, room, ready, target); Victims(s) == multiset{} && !Raising(s)
  {
    if queue != [] {
      var t := Turn(queue[0], room, ready, target);
      if t.Goes? {
        ServingFits(queue[1..], t.room, ready, target);
      }
    }
  }

  /** A text whose adapter takes it and answers later. */
  ghost predicate Patient(work: Work) {
    work.Confirm? && work.context && work.behaviour == Stays
  }

  lemma StayingWaits(op: Operation, room: nat, ready: Option<Target>, target: Option<Target>)
    requires op.target.Some? && target == op.target && ready == op.target
    requires Patient(op.work) && room > 0
    ensures Turn(op, room, ready, target) == Waits(room - 1)
    ensures Serving([op], room, ready, target) == Stops(op, [], Waits(room - 1))
  {
  }

  /** A picture is due: this viewer has room for it, and none is asked for yet. */
  ghost predicate Due(v: Snapshot) {
    v.attached && v.target.Some? && v.dirty && v.capture.None? && |v.awaiting| < v.capacity && !v.framePending
  }

  /** Asking for a picture if one is due; nothing is known here when the child is gone or its record does not fit. */
  ghost function Asking(v: Snapshot): Option<Snapshot> {
    if !Due(v) then Some(v)
    else if v.capturing == Busy then Some(v.(capture := v.target, dirty := false))
    else if v.capturing == Ready && v.room > 0 then Some(v.(capture := v.target, dirty := false, room := v.room - 1))
    else None
  }

  /** The records that retiring this viewer's input sends: the release, and before it a barrier's withdrawal. */
  ghost function Retirement(v: Snapshot): nat {
    1 + if v.pending.Some? && (v.waiting == AtFirst || v.waiting == AtLast) then 1 else 0
  }

  /** Nothing is painted, awaited, queued or in flight any more. */
  ghost function Retired(v: Snapshot): Snapshot
    requires v.room >= Retirement(v)
  {
    v.(ready := None, awaiting := [], queue := [], pending := None, room := v.room - Retirement(v),
       waiting := if v.pending.Some? then Nothing else v.waiting)
  }

  /** The capture child answers for the current target; nothing is known here when it failed. */
  ghost function Developed(v: Snapshot, target: Target, picture: Picture): Option<Snapshot> {
    match picture
    case NoPicture => None
    case SameAsBefore => Asking(v)
    case Image =>
      var numbered := v.(frameSequence := v.frameSequence + 1);
      if v.framePending then Some(numbered.(dirty := true))
      else Some(numbered.(framePending := true, awaiting := v.awaiting + [Frame(numbered.frameSequence, target)]))
  }

  /** The capture child answers for this target. */
  ghost function Pictured(v: Snapshot, target: Target, picture: Picture): Option<Snapshot> {
    if v.capture != Some(target) then Some(v)
    else if !v.attached || v.target != Some(target) then Asking(v.(capture := None, dirty := true))
    else Developed(v.(capture := None), target, picture)
  }

  /** The oldest frame awaited is acknowledged, or nothing is. */
  ghost function Acknowledged(v: Snapshot, frame: Option<nat>): Option<Snapshot> {
    if !v.attached || v.awaiting == [] || frame != Some(v.awaiting[0].sequence)
       || v.target != Some(v.awaiting[0].target) then Some(v)
    else if v.ready != v.target && v.room == 0 then None
    else
      Asking(v.(ready := v.target, awaiting := v.awaiting[1..],
                room := if v.ready == v.target then v.room else v.room - 1))
  }

  /** Either side reads what was buffered for it, and damage is noted. */
  ghost function Progressed(v: Snapshot, viewerReads: Option<nat>, compositorReads: Option<nat>, damaged: bool):
    Option<Snapshot>
  {
    var d := v.(framePending := v.framePending && viewerReads.None?, dirty := v.dirty || damaged,
                room := if compositorReads.Some? then compositorReads.value else v.room);
    if viewerReads.None? && !damaged then Some(d) else Asking(d)
  }

  /**
   What these requests come to when every record fits: of what only asks or
   paints, of input refused, queued or taken up at rest, of a close behind it.
   */
  ghost function SmoothRequest(v: Snapshot, id: nat, m: Method): Option<Snapshot> {
    match m
    case Status => if v.attached then Some(v) else None
    case Unknown => if v.attached then Some(v) else None
    case Refresh => if v.attached then Asking(v.(dirty := true)) else None
    case FrameAck(frame) => if v.attached then Acknowledged(v, frame) else None
    case Input(addressed, check, work) =>
      var op := Operation(addressed, id, work);
      if !v.attached then None
      else if v.failed || !v.controls || addressed.None? || v.ready != addressed || v.target != addressed then Some(v)
      else if check != Fine then None
      else if v.pending.Some? then
        if |v.queue| < MAX_QUEUE then Some(v.(queue := v.queue + [op])) else None
      else if v.queue == [] && v.room > 0 && Patient(work) then
        Some(v.(pending := TicketOf(op), room := v.room - 1, waiting := Asked(work.route)))
      else None
    case CloseRequest(wellFormed, known) =>
      if !v.attached || v.failed || !v.controls || !wellFormed || v.pending.None? || |v.queue| >= MAX_QUEUE then None
      else Some(v.(queue := v.queue + [Operation(None, id, CloseWindow(known))]))
    case _ => None
  }

  /** What an event comes to when nothing fails, of those whose outcome is that of one record or of none. */
  ghost function Smooth(v: Snapshot, e: Event): Option<Snapshot> {
    match e
    case CaptureChild(capturing) => Some(v.(capturing := capturing))
    case Scene(window) =>
      if !v.attached || v.closed || v.room < Retirement(v) then None
      else
        var target := if window.Some? then Some(Target(window.value, v.generation + 1)) else None;
        Asking(Retired(v).(target := target, generation := v.generation + 1, dirty := true))
    case Arrived(target, picture) => Pictured(v, target, picture)
    case Environment(viewerReads, compositorReads, damaged) => Progressed(v, viewerReads, compositorReads, damaged)
    case Control(gained) =>
      if gained then Some(v.(controls := true))
      else if !v.attached || v.closed || v.room < Retirement(v) then None
      else Some(Retired(v).(controls := false))
    case Message(id, m) => if id > v.lastRequest then SmoothRequest(v.(lastRequest := id), id, m) else None
    case _ => None
  }

  // ---- the native side ---------------------------------------------------------------

  /** `NativeDesktop` behind its `NativeChannel`. */
  class NativeDesktop {
    var closed: bool
    /** How many more records fit the bounded control buffer. */
    var room: nat
    var target: Option<Target>
    var generation: nat
    /** The outstanding text request, if any. */
    var waiting: Waiting
    var capturing: Capturing

    ghost var sent: seq<Command>
    /** The window requests sent, which need neither a target nor its paint. */
    ghost var windows: seq<nat>

    constructor (room: nat)
      ensures !closed && target.None? && sent == [] && windows == [] && generation == 0 && waiting == Nothing
      ensures capturing == Ready && this.room == room
    {
      closed, target, generation, waiting, capturing, sent, windows := false, None, 0, Nothing, Ready, [], [];
      this.room := room;
    }

    /** Withdrawing the text request needs a record only while it is a barrier. */
    predicate Barrier()
      reads this`waiting
    {
      waiting == AtFirst || waiting == AtLast
    }

    /** `NativeChannel.send`: a record that does not fit ends native control. */
    method Send(a: DesktopAttachment) returns (ok: bool)
      requires a.native == this && a.Inv() && a.Quiet()
      modifies this, a, a.order
      ensures a.Inv() && a.Quiet() && a.Steady() && a.lost == old(a.lost)
      ensures a.attached ==> a.Account() == old(a.Account())
      ensures ok == old(!closed && room > 0)
      ensures ok ==>
        && unchanged(a)
        && unchanged(a.order)
        && unchanged(this`closed, this`target, this`generation, this`waiting, this`sent, this`windows, this`capturing)
      ensures ok ==> room == old(room) - 1
      ensures !ok ==> closed
      ensures old(closed) ==> unchanged(a) && unchanged(a.order) && unchanged(this)
      ensures !ok && !old(closed) ==> a.order.Idle() && a.ready.None? && a.awaiting == []
      decreases a.Life(), a.Drains(), 2
    {
      if closed {
        return false;
      }
      if room == 0 {
        Lost(a);
        return false;
      }
      room := room - 1;
      ok := true;
    }

    /** The record of a window request. */
    method Ask(a: DesktopAttachment, request: nat) returns (ok: bool)
      requires a.native == this && a.Inv() && a.Quiet()
      modifies this, a, a.order
      ensures a.Inv() && a.lost == old(a.lost)
      ensures ok == old(!closed && room > 0)
      ensures ok ==>
        && unchanged(a.order) && a.Account() == old(a.Account())
        && unchanged(this`closed, this`target, this`generation, this`waiting, this`sent, this`capturing)
        && room == old(room) - 1
      ensures ok ==>
        if old(a.attached) then a.Unanswered(request) && windows == old(windows) + [request]
        else unchanged(a) && windows == old(windows)
      ensures !ok ==> a.Quiet() && a.Steady() && closed && (a.attached ==> a.Account() == old(a.Account()))
      ensures old(closed) ==> unchanged(a) && unchanged(a.order) && unchanged(this)
      ensures !ok && !old(closed) ==> a.order.Idle()
      decreases a.Life(), a.Drains(), 3
    {
      hide DesktopAttachment.Core, DesktopAttachment.Account;
      ok := Send(a);
      if ok && a.attached {
        Note(a, request);
      }
    }

    ghost method Note(a: DesktopAttachment, request: nat)
      requires a.native == this && a.Inv() && a.owing.None?
      modifies this`windows, a`owing
      ensures a.Inv() && windows == old(windows) + [request] && a.owing == Some(request)
    {
      hide OrderedInput.Ordered, Meant, Matched;
      MatchedAsked(windows, a.replies, request);
      windows, a.owing := windows + [request], Some(request);
    }

    /** `submit`: only for the exact current target. */
    method Submit(a: DesktopAttachment, request: nat, step: nat, target: Target) returns (ok: bool)
      requires a.native == this && a.Inv() && a.Quiet() && a.controls && target in a.painted
      requires step < 3 && Behind(sent, 3 * request + step) && Following(a.order.admissions) == request + 1
      requires a.order.pending.Some? && waiting != Nothing ==> step < Stage(waiting)
      modifies this, a, a.order
      ensures a.Inv() && a.Quiet() && a.Steady() && a.lost == old(a.lost)
      ensures a.attached ==> a.Account() == old(a.Account())
      ensures ok == old(!closed && room > 0 && this.target == Some(target))
      ensures ok ==>
        && unchanged(a)
        && unchanged(a.order)
        && unchanged(this`closed, this`target, this`generation, this`waiting, this`windows, this`capturing)
      ensures ok ==> Reached(sent, request) && room == old(room) - 1
      ensures ok ==> sent == old(sent) + [Command(request, step, target, Some(target), true, true)]
      ensures !ok && old(closed || this.target != Some(target)) ==>
        && unchanged(a)
        && unchanged(a.order)
        && unchanged(this)
      ensures !ok && !old(closed || this.target != Some(target)) ==> closed && a.order.Idle()
      decreases a.Life(), a.Drains(), 3
    {
      hide DesktopAttachment.Core, DesktopAttachment.Account;
      if closed || this.target != Some(target) {
        return false;
      }
      ok := Send(a);
      if ok {
        Log(a, request, step, target);
      }
    }

    ghost method Log(a: DesktopAttachment, request: nat, step: nat, target: Target)
      requires a.native == this && a.Inv() && a.controls && target in a.painted && this.target == Some(target)
      requires step < 3 && Behind(sent, 3 * request + step) && Following(a.order.admissions) == request + 1
      requires a.order.pending.Some? && waiting != Nothing ==> step < Stage(waiting)
      modifies this`sent
      ensures a.Inv() && Reached(sent, request)
      ensures sent == old(sent) + [Command(request, step, target, Some(target), true, true)]
    {
      hide Requests, Ids, Rising, Admissible, AllShown, Meant;
      ghost var command := Command(request, step, target, this.target, a.controls, target in a.painted);
      MeantMore(a.replies, sent, command, a.order.confirmed, request);
      sent := sent + [command];
    }

    /** The text request the compositor is to answer next, if any. */
    method Watch(a: DesktopAttachment, next: Waiting)
      requires a.native == this && a.Inv()
      requires next != Nothing && a.order.pending.Some? ==>
        Behind(sent, 3 * a.order.pending.value.request + Stage(next))
      modifies this`waiting
      ensures a.Inv() && waiting == next
    {
      hide OrderedInput.Ordered, Meant;
      waiting := next;
    }

    /** `cancel_text_operation`: only an outstanding barrier needs a record to be withdrawn. */
    method CancelText(a: DesktopAttachment) returns (ok: bool)
      requires a.native == this && a.Inv() && a.Quiet()
      modifies this, a, a.order
      ensures a.Inv() && a.Quiet() && a.Steady() && a.lost == old(a.lost)
      ensures a.attached ==> a.Account() == old(a.Account())
      ensures ok == old(closed || !Barrier() || room > 0)
      ensures ok ==>
        && unchanged(a)
        && unchanged(a.order)
        && unchanged(this`closed, this`target, this`sent, this`generation, this`capturing)
      ensures ok ==> waiting == Nothing && room == old(room) - if old(!closed && Barrier()) then 1 else 0
      ensures !ok ==> closed && a.order.Idle()
      decreases a.Life(), a.Drains(), 3
    {
      hide DesktopAttachment.Core, DesktopAttachment.Account;
      ok := true;
      var barrier := Barrier();
      Watch(a, Nothing);
      if barrier && !closed {
        ok := Send(a);
      }
    }

    /** `lost`: native input ends; what was in flight is failed or cancelled, never left waiting. */
    method Lost(a: DesktopAttachment)
      requires a.native == this && a.Inv() && a.Quiet() && !closed
      modifies this, a, a.order
      ensures a.Inv() && a.Quiet() && a.Steady() && a.lost == old(a.lost)
      ensures closed && a.order.Idle() && a.ready.None? && a.awaiting == []
      ensures a.attached ==> a.Account() == old(a.Account())
      ensures a.attached ==> a.failed == old(a.failed || a.order.Awaited(waiting))
      decreases a.Life(), a.Drains(), 1
    {
      hide DesktopAttachment.Core, DesktopAttachment.Account;
      var asked := waiting != Nothing;
      Cut(a);
      var pending := a.order.pending;
      if pending.Some? && (pending.value.route == Selection || (pending.value.route == Wayland && asked)) {
        var _ := a.order.Finish(a, pending.value, true);
      }
      var _ := a.SceneChanged();
    }

    method Cut(a: DesktopAttachment)
      requires a.native == this && a.Inv()
      modifies this`closed, this`target, this`waiting
      ensures a.Inv() && closed && target.None? && waiting == Nothing
    {
      hide OrderedInput.Ordered, Meant;
      closed, target, waiting := true, None, Nothing;
    }
  }

  // ---- the scheduler -----------------------------------------------------------------

  /** `OrderedInput`, for the one viewer of its attachment. */
  class OrderedInput {
    var queue: seq<Operation>
    var pending: Option<Ticket>
    var closed: bool
    var draining: bool

    /** The operation being admitted; every operation admitted and ended so far, in order. */
    ghost var hand: Option<nat>
    ghost var admissions: seq<nat>
    ghost var endings: seq<nat>
    /** Every request ever enqueued is below this. */
    ghost var claimed: nat
    /** Requests whose adapter completed them without failure. */
    ghost var confirmed: set<nat>

    constructor ()
      ensures queue == [] && pending.None? && !closed && !draining && hand.None? && admissions == []
      ensures endings == [] && claimed == 0 && confirmed == {}
    {
      queue, pending, closed, draining, hand, admissions, endings, claimed, confirmed :=
        [], None, false, false, None, [], [], 0, {};
    }

    ghost predicate Idle()
      reads this`queue, this`pending
    {
      queue == [] && pending.None?
    }

    /**
     Operations are admitted in the order of their requests, and one is admitted
     only after every earlier admission has ended.
     */
    ghost predicate Ordered()
      reads this
    {
      && Rising(admissions + Requests(queue), claimed)
      && endings <= admissions
      && |admissions| == |endings| + (if pending.Some? || hand.Some? then 1 else 0)
      && (pending.Some? ==> hand.None? && admissions[|admissions| - 1] == pending.value.request)
      && (hand.Some? ==> draining && admissions[|admissions| - 1] == hand.value)
      && |queue| <= MAX_QUEUE
      && (closed ==> queue == [] && pending.None?)
    }

    /** The delivery in flight waits for native control itself, and fails with it; any other is only cancelled. */
    ghost predicate Awaited(waiting: Waiting)
      reads this`pending
    {
      && pending.Some?
      && (pending.value.route == Selection || (pending.value.route == Wayland && waiting != Nothing))
    }

    ghost function Owed(): multiset<nat>
      reads this`queue, this`pending
    {
      multiset(Requests(queue)) + if pending.Some? then multiset{pending.value.request} else multiset{}
    }

    /** The requests that wait for a reply: the one in flight, then the queue. */
    function Named(): (ids: seq<nat>)
      reads this`queue, this`pending
      ensures multiset(ids) == Owed()
    {
      (if pending.Some? then [pending.value.request] else []) + Requests(queue)
    }

    /** `drain`. Nothing is admitted while a delivery is pending or another drain is at work. */
    method Drain(a: DesktopAttachment) returns (ok: bool)
      requires a.order == this && a.Inv() && a.Quiet()
      modifies this, a, a.native
      ensures a.Inv() && a.Quiet() && a.Steady()
      ensures a.attached ==> a.Account() == old(a.Account())
      ensures old(Blocked()) ==> ok && unchanged(this) && unchanged(a) && unchanged(a.native)
      ensures a.attached && old(!Blocked() && !a.native.closed) ==> a.Ended(old(a.Prospect()), old(a.lost), ok)
      ensures old(!Blocked() && !a.native.closed && Turn(queue[0], a.native.room, a.ready, a.native.target).Waits?) ==>
        && unchanged(a) && pending.Some? && draining == old(draining)
        && unchanged(a.native`closed, a.native`target, a.native`generation, a.native`capturing)
      ensures old(a.native.closed) ==> ok && a.lost == old(a.lost)
      decreases a.Life(), a.Drains(), 5
    {
      hide DesktopAttachment.Core, DesktopAttachment.Account, DesktopAttachment.After;
      if draining || closed || queue == [] || pending.Some? {
        return true;
      }
      SetDraining(a, true);
      ok := Serve(a);
      SetDraining(a, false);
    }

    /** Nothing can be admitted now. */
    ghost predicate Blocked()
      reads this
    {
      draining || closed || queue == [] || pending.Some?
    }

    method SetDraining(a: DesktopAttachment, busy: bool)
      requires a.order == this && a.Inv() && (busy || hand.None?)
      modifies this`draining
      ensures old(!draining) ==> hand.None?
      ensures a.Inv() && draining == busy && (old(a.Quiet()) ==> a.Quiet()) && a.Account() == old(a.Account())
    {
      hide Rising, Meant, InOrder, Requests;
      draining := busy;
    }

    method Serve(a: DesktopAttachment) returns (ok: bool)
      requires a.order == this && a.Inv() && a.Quiet() && draining && hand.None? && queue != [] && pending.None?
      modifies this, a, a.native
      ensures a.Inv() && a.Quiet() && a.Steady()
      ensures a.attached ==> a.Account() == old(a.Account())
      ensures a.attached && old(!a.native.closed) ==> a.Ended(old(a.Prospect()), old(a.lost), ok)
      ensures old(!a.native.closed && Turn(queue[0], a.native.room, a.ready, a.native.target).Waits?) ==>
        && unchanged(a) && pending.Some?
        && unchanged(a.native`closed, a.native`target, a.native`generation, a.native`capturing)
      ensures old(a.native.closed) ==> ok && a.lost == old(a.lost)
      decreases a.Life(), a.Drains(), 20
    {
      hide DesktopAttachment.Core, DesktopAttachment.Account, DesktopAttachment.Quiet, Turn;
      ghost var prospect, was := a.Prospect(), a.lost;
      ok := Next(a);
      while ok && queue != [] && pending.None?
        invariant a.Inv() && a.Quiet() && a.Steady()
        invariant a.attached ==> a.Account() == old(a.Account())
        invariant a.attached && old(!a.native.closed) ==> a.Going(prospect, was, ok) || a.Ended(prospect, was, ok)
        invariant old(!a.native.closed && Turn(queue[0], a.native.room, a.ready, a.native.target).Waits?) ==>
          && unchanged(a) && pending.Some?
          && unchanged(a.native`closed, a.native`target, a.native`generation, a.native`capturing)
        invariant old(a.native.closed) ==> ok && a.lost == old(a.lost)
        decreases if ok then |queue| + 1 else 0
      {
        ok := Next(a);
      }
    }

    /** One turn of the loop in `drain`. */
    method Next(a: DesktopAttachment) returns (ok: bool)
      requires a.order == this && a.Inv() && a.Quiet() && draining && hand.None? && queue != [] && pending.None?
      modifies this, a, a.native
      ensures a.Inv() && a.Quiet() && a.Steady()
      ensures a.attached ==> a.Account() == old(a.Account())
      ensures |queue| < old(|queue|)
      ensures a.attached && old(!a.native.closed) ==>
        a.After(old(Turn(queue[0], a.native.room, a.ready, a.native.target)), old(queue)[0], old(queue)[1..],
          old(a.lost), ok)
      ensures a.attached && old(!a.native.closed && Turn(queue[0], a.native.room, a.ready, a.native.target).Goes?) ==>
        a.ready == old(a.ready)
      ensures old(!a.native.closed && Turn(queue[0], a.native.room, a.ready, a.native.target).Waits?) ==>
        && unchanged(a) && pending.Some?
        && unchanged(a.native`closed, a.native`target, a.native`generation, a.native`capturing)
      ensures old(a.native.closed) ==> ok && a.lost == old(a.lost)
      decreases a.Life(), a.Drains(), 19
    {
      hide DesktopAttachment.Core, DesktopAttachment.Account;
      var op := Pop(a);
      ok := true;
      var delivery: Option<Ticket> := None;
      if a.Available() {
        ok, delivery := a.Admit(op);
      }
      Settle(a, op, delivery);
      if delivery.Some? {
        ok := a.Commit(op, delivery.value);
      }
    }

    method Pop(a: DesktopAttachment) returns (op: Operation)
      requires a.order == this && a.Inv() && a.Quiet() && draining && hand.None? && queue != [] && pending.None?
      modifies this`queue, this`admissions, this`hand
      ensures a.Inv() && a.Quiet() && a.controls && a.Available() && !closed
      ensures Behind(a.native.sent, 3 * op.request) && Following(admissions) == op.request + 1
      ensures op == old(queue)[0] && queue == old(queue)[1..] && hand == Some(op.request)
      ensures (op.target.None? <==> op.work.CloseWindow?) && (op.target.Some? ==> op.target.value in a.painted)
      ensures old(a.Account()) == a.Account() + multiset{op.request}
    {
      hide Rising, Meant, InOrder, Behind, Matched, AllShown, AllAuthorized;
      op := queue[0];
      Popped(admissions, queue, a.native.sent, claimed);
      assert op in queue;
      queue := queue[1..];
      admissions, hand := admissions + [op.request], Some(op.request);
    }

    /** What `admit` returned becomes the one delivery in flight, or the operation has ended. */
    method Settle(a: DesktopAttachment, op: Operation, delivery: Option<Ticket>)
      requires a.order == this && a.Inv() && a.Quiet() && hand == Some(op.request)
      requires delivery.Some? ==>
        && !closed
        && a.Available()
        && a.controls
        && delivery.value.request == op.request
        && delivery.value.target in a.painted
      requires delivery.Some? ==> Behind(a.native.sent, 3 * op.request)
      modifies this`pending, this`endings, this`hand
      ensures a.Inv() && a.Quiet() && pending == delivery && hand.None?
      ensures a.Account() == old(a.Account()) + if delivery.Some? then multiset{op.request} else multiset{}
    {
      hide Requests, Rising, Meant, Behind, Admissible, AllShown, AllAuthorized, InOrder, Matched;
      if delivery.Some? {
        BehindMore(a.native.sent, 3 * op.request, 3 * op.request + Stage(a.native.waiting));
      }
      hide Stage;
      hand, pending := None, delivery;
      if delivery.None? {
        assert endings + [op.request] == admissions;
        endings := endings + [op.request];
      }
    }

    /** `completed`: an answer for anything but the delivery in flight changes nothing. */
    method Finish(a: DesktopAttachment, ticket: Ticket, failed: bool) returns (ok: bool)
      requires a.order == this && a.Inv() && a.Quiet()
      requires !failed && pending == Some(ticket) ==> ticket.request in confirmed
      modifies this, a, a.native
      ensures a.Inv() && a.Quiet() && a.Steady()
      ensures a.attached ==> a.Account() == old(a.Account())
      ensures old(pending) != Some(ticket) ==> ok && unchanged(this) && unchanged(a) && unchanged(a.native)
      ensures failed && old(pending) == Some(ticket) ==> Idle()
      ensures failed && old(pending) == Some(ticket) && old(a.native.closed) ==> a.failed
      ensures failed && old(pending) == Some(ticket) && a.attached && old(!a.native.closed) ==>
        a.Retreated(ticket.request, old(a.native.room), old(1 + if a.native.Barrier() then 1 else 0), old(a.lost), ok)
      ensures !failed && old(pending) == Some(ticket) && a.attached && old(!a.native.closed) ==>
        if old(draining || closed)
          then
            && ok && unchanged(a.native) && queue == old(queue) && pending.None?
            && a.lost == old(a.lost) && a.ready == old(a.ready)
          else a.Ended(old(a.Prospect()), old(a.lost), ok)
      ensures old(pending) == Some(ticket) && a.attached ==> a.Told(ticket.request, failed)
      ensures old(a.native.closed) ==> ok && a.lost == old(a.lost)
      decreases a.Life(), a.Drains(), 13
    {
      hide DesktopAttachment.Core, DesktopAttachment.Account, DesktopAttachment.Ended, DesktopAttachment.Retreated;
      if pending != Some(ticket) {
        return true;
      }
      End(a);
      ok := Report(a, ticket.request, failed);
    }

    /** The delivery in flight leaves the scheduler. */
    method End(a: DesktopAttachment)
      requires a.order == this && a.Inv() && a.Quiet() && pending.Some?
      modifies this`pending, this`endings
      ensures a.Inv() && a.Quiet() && a.Available() && pending.None?
      ensures old(a.Account()) == a.Account() + multiset{old(pending).value.request}
    {
      hide Requests, Rising, Meant, Behind;
      var ticket := pending.value;
      pending, endings := None, endings + [ticket.request];
    }

    /** The adapter says that it has delivered this request's text. */
    ghost method Confirm(a: DesktopAttachment, request: nat, failed: bool)
      requires a.order == this && a.Inv() && !failed
      modifies this`confirmed
      ensures a.Inv() && confirmed == old(confirmed) + {request}
    {
      hide Rising, Requests, Meant;
      MeantMore(a.replies, a.native.sent, Command(0, 0, Target(0, 0), None, false, false), confirmed, request);
      confirmed := confirmed + {request};
    }

    /** The rest of `completed`, once the delivery has left the scheduler. */
    method Report(a: DesktopAttachment, request: nat, failed: bool) returns (ok: bool)
      requires a.order == this && a.Inv() && a.Quiet() && a.Available() && pending.None?
      requires !failed ==> request in confirmed
      modifies this, a, a.native
      ensures a.Inv() && a.Quiet() && a.Steady()
      ensures a.attached ==> a.Account() == old(a.Account()) + multiset{request}
      ensures failed ==> Idle()
      ensures failed && old(a.native.closed) ==> a.failed
      ensures failed && a.attached && old(!a.native.closed) ==>
        a.Retreated(request, old(a.native.room), old(1 + if a.native.Barrier() then 1 else 0), old(a.lost), ok)
      ensures !failed && a.attached && old(!a.native.closed) ==>
        if old(draining || closed)
          then
            && ok && unchanged(a.native) && queue == old(queue) && pending.None?
            && a.lost == old(a.lost) && a.ready == old(a.ready)
          else a.Ended(old(a.Prospect()), old(a.lost), ok)
      ensures a.attached ==> a.Told(request, failed)
      ensures old(a.native.closed) ==> ok && a.lost == old(a.lost)
      decreases a.Life(), a.Drains(), 12
    {
      hide DesktopAttachment.Core, DesktopAttachment.Account, DesktopAttachment.Quiet, DesktopAttachment.After;
      ok := Outcome(a, request, failed);
      if ok {
        ghost var told := a.replies;
        ok := Drain(a);
        if a.attached {
          StillTold(told, a.replies, Reply(request, if failed then Refused else Completed));
        }
      } else {
        a.Lose(multiset{request});
      }
    }

    /** The adapter is cancelled after a failure, and the viewer is told the result. */
    method Outcome(a: DesktopAttachment, request: nat, failed: bool) returns (ok: bool)
      requires a.order == this && a.Inv() && a.Quiet() && a.Available() && pending.None?
      requires !failed ==> request in confirmed
      modifies this, a, a.native
      ensures a.Inv() && a.Quiet() && a.Steady() && a.lost == old(a.lost)
      ensures a.attached ==> a.Account() == old(a.Account()) + if ok then multiset{request} else multiset{}
      ensures failed ==> Idle()
      ensures failed && old(a.native.closed) ==> a.failed
      ensures failed && a.attached && old(!a.native.closed) ==>
        && ok == old(a.native.room >= 1 + if a.native.Barrier() then 1 else 0) && a.native.closed == !ok
        && (ok ==> a.native.room == old(a.native.room - 1 - if a.native.Barrier() then 1 else 0))
      ensures !failed && a.attached ==> ok && unchanged(a.native) && unchanged(this) && a.ready == old(a.ready)
      ensures a.attached && ok ==> Reply(request, if failed then Refused else Completed) in a.replies
      ensures old(a.native.closed) ==> ok
      ensures !ok ==> a.native.closed
      decreases a.Life(), a.Drains(), 11
    {
      hide DesktopAttachment.Core, DesktopAttachment.Account, DesktopAttachment.Quiet;
      ok := true;
      if failed {
        ok := a.native.CancelText(a);
      }
      if ok && a.Available() {
        ok := a.InputResult(request, failed);
      }
    }

    /** `cancel_pending`, reached only with the queue already emptied. */
    method CancelPending(a: DesktopAttachment) returns (ok: bool)
      requires a.order == this && a.Core() && a.Clear() && queue == []
      modifies this, a, a.native
      ensures a.Inv() && a.Quiet() && a.Steady() && Idle() && a.lost == old(a.lost)
      ensures a.attached ==> a.Account() == old(a.Settled())
      ensures ok == old(a.native.closed || pending.None? || !a.native.Barrier() || a.native.room > 0)
      ensures ok ==>
        && unchanged(a)
        && unchanged(a.native`closed, a.native`target, a.native`sent, a.native`generation, a.native`capturing)
      ensures ok ==> a.native.room == old(a.native.room) - if old(a.native.closed) then 0 else old(a.Records()) - 1
      ensures ok ==> a.native.waiting == if old(pending).Some? then Nothing else old(a.native.waiting)
      ensures !ok ==> a.native.closed
      ensures old(pending.None?) ==> unchanged(a.native)
      decreases a.Life(), a.Drains(), 4
    {
      hide DesktopAttachment.Core, DesktopAttachment.Account;
      ok := true;
      if pending.Some? {
        Forget(a);
        ok := a.native.CancelText(a);
      } else {
        Forget(a);
      }
    }

    /** Whatever is in flight ends without a word to anyone. */
    method Forget(a: DesktopAttachment)
      requires a.order == this && a.Core() && a.Clear() && queue == []
      modifies this`pending, this`endings
      ensures a.Inv() && a.Quiet() && Idle() && a.Account() == old(a.Settled())
      ensures old(pending).None? ==> unchanged(this)
    {
      hide Rising, Meant;
      if pending.Some? {
        pending, endings := None, endings + [pending.value.request];
      }
    }

    /** `invalidate`: everything of the viewer leaves the scheduler, and its requests are named for their replies. */
    method Invalidate(a: DesktopAttachment) returns (ok: bool, sequence: Option<nat>, cancelled: seq<Operation>)
      requires a.order == this && a.Core() && a.Clear()
      modifies this, a, a.native
      ensures a.Inv() && a.Quiet() && a.Steady() && Idle() && a.lost == old(a.lost)
      ensures a.attached ==> a.Account() + old(Owed()) == old(a.Account())
      ensures ok == old(a.native.closed || pending.None? || !a.native.Barrier() || a.native.room > 0)
      ensures ok ==>
        && unchanged(a)
        && unchanged(a.native`closed, a.native`target, a.native`sent, a.native`generation, a.native`capturing)
      ensures ok ==> a.native.room == old(a.native.room) - if old(a.native.closed) then 0 else old(a.Records()) - 1
      ensures ok ==> a.native.waiting == if old(pending).Some? then Nothing else old(a.native.waiting)
      ensures !ok ==> a.native.closed
      ensures old(pending.None?) ==> unchanged(a.native)
      ensures cancelled == old(queue)
      ensures sequence == if old(pending).Some? then Some(old(pending).value.request) else None
      decreases a.Life(), a.Drains(), 6
    {
      hide Meant, Matched, InOrder, Behind, AllShown, AllAuthorized, DesktopAttachment.Ended, Serving, Rising;
      cancelled, sequence, ok := queue, None, true;
      Emptied(admissions, queue, claimed);
      queue := [];
      if pending.Some? {
        sequence := Some(pending.value.request);
      }
      ok := CancelPending(a);
      if ok {
        ok := Drain(a);
      }
    }

    /** `enqueue`: a full queue closes the viewer; anything not available is ignored. */
    method Enqueue(a: DesktopAttachment, op: Operation) returns (ok: bool)
      requires a.order == this && a.Inv() && a.Quiet() && a.controls && claimed <= op.request <= a.lastRequest
      requires (op.target.None? <==> op.work.CloseWindow?) && (op.target.Some? ==> op.target.value in a.painted)
      modifies this, a, a.native
      ensures a.Inv() && a.Quiet() && a.Carried() && a.painted == old(a.painted) && a.shown == old(a.shown)
      ensures claimed <= a.lastRequest + 1
      ensures old(closed || !a.Available()) ==> ok && unchanged(this) && unchanged(a) && unchanged(a.native)
      ensures old(!closed && a.Available() && |queue| >= MAX_QUEUE) ==> !a.attached
      ensures old(!closed && a.Available()) && a.attached ==> a.Account() == old(a.Account()) + multiset{op.request}
      ensures old(!closed && a.Available() && |queue| < MAX_QUEUE) && a.keepsUp ==> a.attached
      ensures old(!closed && a.Available() && |queue| < MAX_QUEUE && (draining || pending.Some?)) ==>
        ok && a.lost == old(a.lost) && a.Joins(op)
      ensures (&& old(!closed && a.Available() && |queue| < MAX_QUEUE && !draining && pending.None?)
               && old(!a.native.closed) && a.attached) ==>
        a.Ended(old(a.Coming(op)), old(a.lost), ok)
      ensures old(!closed && a.Available() && !draining && a.native.closed) ==> ok && a.lost == old(a.lost)
      ensures old(!closed && a.Available() && !draining && !a.native.closed && a.AtRest()) && a.Staying(op) ==>
        && ok
        && a.Starts(op)
    {
      hide DesktopAttachment.Core, DesktopAttachment.Account, DesktopAttachment.Quiet, Turn;
      if closed || !a.Available() {
        return true;
      }
      if |queue| >= MAX_QUEUE {
        ok := a.Detach();
        return;
      }
      Append(a, op);
      if old(queue) == [] && a.Staying(op) && a.native.room > 0 {
        StayingWaits(op, a.native.room, a.ready, a.native.target);
        assert queue == [op];
      }
      ok := Drain(a);
    }

    method Append(a: DesktopAttachment, op: Operation)
      requires a.order == this && a.Inv() && a.Quiet() && a.Available() && a.controls && !closed
      requires claimed <= op.request <= a.lastRequest && |queue| < MAX_QUEUE
      requires (op.target.None? <==> op.work.CloseWindow?) && (op.target.Some? ==> op.target.value in a.painted)
      modifies this`queue, this`claimed
      ensures a.Inv() && a.Quiet() && queue == old(queue) + [op] && claimed == op.request + 1
      ensures a.Account() == old(a.Account()) + multiset{op.request}
    {
      hide Meant, InOrder, Behind, AllShown, Ids;
      Appended(admissions, queue, claimed, op);
      assert Admissible([op], a.painted);
      StillAdmissible(queue, op, a.painted);
      hide Requests, Rising, Admissible, DesktopAttachment.Settled;
      ghost var others := if pending.Some? then multiset{pending.value.request} else multiset{};
      Joined(a.Settled(), multiset(Requests(queue)), multiset(Requests(queue + [op])), others, op.request);
      queue, claimed := queue + [op], op.request + 1;
    }

    /** `expired`: only the delivery in flight can run out of time. */
    method Expired(a: DesktopAttachment, ticket: Ticket) returns (ok: bool)
      requires a.order == this && a.Inv() && a.Quiet()
      modifies this, a, a.native
      ensures a.Inv() && a.Quiet() && a.Steady()
      ensures a.attached ==> a.Account() == old(a.Account())
      ensures old(pending) != Some(ticket) ==> ok && unchanged(this) && unchanged(a) && unchanged(a.native)
      ensures old(pending) == Some(ticket) ==> Idle()
      ensures old(pending) == Some(ticket) && a.attached && old(!a.native.closed) ==>
        a.Retreated(ticket.request, old(a.native.room), old(1 + if a.native.Barrier() then 1 else 0), old(a.lost), ok)
      ensures old(pending) == Some(ticket) && a.attached ==> a.Told(ticket.request, true)
      ensures old(a.native.closed) ==> ok && a.lost == old(a.lost)
    {
      hide DesktopAttachment.Core, DesktopAttachment.Account, DesktopAttachment.Retreated;
      ok := true;
      if pending == Some(ticket) {
        ok := Finish(a, ticket, true);
      }
    }

    /** `close`. */
    method Close(a: DesktopAttachment) returns (ok: bool)
      requires a.order == this && a.Inv() && a.Quiet() && !a.attached
      modifies this, a, a.native
      ensures a.Inv() && a.Quiet() && closed && Idle() && draining == old(draining) && hand == old(hand)
      ensures ok && unchanged(a) && a.native.closed == old(a.native.closed) && a.native.sent == old(a.native.sent)
    {
      closed, queue := true, [];
      ok := CancelPending(a);
    }
  }

  lemma Popped(admissions: seq<nat>, queue: seq<Operation>, sent: seq<Command>, claimed: nat)
    requires queue != [] && Rising(admissions + Requests(queue), claimed) && InOrder(sent, Following(admissions))
    ensures admissions + [queue[0].request] + Requests(queue[1..]) == admissions + Requests(queue)
    ensures Behind(sent, 3 * queue[0].request) && InOrder(sent, queue[0].request + 1)
  {
    hide InOrder, Behind, Rising;
    var all, n := admissions + Requests(queue), |admissions|;
    assert all[n] == queue[0].request;
    assert all[..n] == admissions;
    LastBefore(admissions, all, claimed);
    SentBefore(sent, Following(admissions), queue[0].request);
  }

  lemma LastBefore(admissions: seq<nat>, all: seq<nat>, claimed: nat)
    requires Rising(all, claimed) && |admissions| < |all| && all[..|admissions|] == admissions
    ensures Following(admissions) <= all[|admissions|]
  {
    if admissions != [] {
      assert all[..|admissions|][|admissions| - 1] == all[|admissions| - 1];
    }
  }

  lemma SentBefore(sent: seq<Command>, bound: nat, request: nat)
    requires InOrder(sent, bound) && bound <= request
    ensures Behind(sent, 3 * request) && InOrder(sent, request + 1)
  {
  }

  lemma Joined(settled: multiset<nat>, before: multiset<nat>, after: multiset<nat>, others: multiset<nat>, id: nat)
    requires after == before + multiset{id}
    ensures settled + (after + others) == settled + (before + others) + multiset{id}
  {
  }

  lemma StillAdmissible(queue: seq<Operation>, op: Operation, painted: set<Target>)
    requires Admissible(queue, painted) && Admissible([op], painted)
    ensures Admissible(queue + [op], painted)
  {
  }

  lemma Appended(admissions: seq<nat>, queue: seq<Operation>, claimed: nat, op: Operation)
    requires Rising(admissions + Requests(queue), claimed) && claimed <= op.request
    ensures Requests(queue + [op]) == Requests(queue) + [op.request]
    ensures Rising(admissions + Requests(queue + [op]), op.request + 1)
    ensures multiset(Requests(queue + [op])) == multiset(Requests(queue)) + multiset{op.request}
  {
    RequestsAppend(queue, op);
    assert admissions + Requests(queue + [op]) == admissions + Requests(queue) + [op.request];
  }

  lemma Emptied(admissions: seq<nat>, queue: seq<Operation>, claimed: nat)
    requires Rising(admissions + Requests(queue), claimed)
    ensures Rising(admissions + Requests([]), claimed)
  {
    var all := admissions + Requests(queue);
    assert admissions + Requests([]) == admissions;
    assert forall i :: 0 <= i < |admissions| ==> admissions[i] == all[i];
  }

  // ---- the viewer's attachment ----------------------------------------------------------

  /** `DesktopAttachment`, and the connection it answers on. */
  class DesktopAttachment {
    const native: NativeDesktop
    const order: OrderedInput
    /** Whether this viewer reads everything in time; one that does is never full. */
    const keepsUp: bool

    var attached: bool
    /** `can_control`: whether this viewer is the application's controller. */
    var controls: bool
    /** How many more messages the viewer's bounded output takes. */
    var viewerRoom: nat
    var framePending: bool
    var lastRequest: nat
    var failed: bool
    var ready: Option<Target>
    var awaiting: seq<Frame>
    var mode: Option<nat>
    var capacity: nat
    var frameSequence: nat
    var dirty: bool
    var capture: Option<Target>

    /** Requests taken, replies given for them, and requests whose reply an exception skipped. */
    ghost var accepted: seq<nat>
    ghost var replies: seq<Reply>
    /** How many frames and notices, which answer no request, were sent. */
    ghost var notices: nat
    ghost var lost: multiset<nat>
    /** The window request whose record was sent, while its reply is the next thing to do. */
    ghost var owing: Option<nat>
    /** Targets a frame was sent for, and targets such a frame was acknowledged for. */
    ghost var shown: set<Target>
    ghost var painted: set<Target>

    constructor (native: NativeDesktop, viewerRoom: nat, keepsUp: bool, controls: bool)
      requires !native.closed && native.sent == [] && native.windows == []
      ensures this.native == native && this.keepsUp == keepsUp && this.viewerRoom == viewerRoom && fresh(order)
      ensures Balanced() && accepted == [] && replies == [] && lost == multiset{} && painted == shown == {}
      ensures order.admissions == [] && order.endings == [] && order.confirmed == {}
      ensures Now() == Snapshot(true, controls, false, 0, None, [], 0, false, 1, true, None, [], None,
                                native.closed, native.room, native.target, native.generation,
                                native.waiting, native.capturing)
    {
      this.native := native;
      order := new OrderedInput();
      this.keepsUp := keepsUp;
      attached, this.controls, this.viewerRoom, framePending, lastRequest, failed :=
        true, controls, viewerRoom, false, 0, false;
      ready, awaiting, mode, capacity, frameSequence, dirty, capture := None, [], None, 1, 0, true, None;
      accepted, replies, notices, lost, owing, shown, painted := [], [], 0, multiset{}, None, {}, {};
      new;
      hide Balanced, OrderedInput.Ordered;
      StartsBalanced();
    }

    lemma StartsBalanced()
      requires attached && !failed && awaiting == [] && ready.None? && owing.None? && painted == shown == {}
      requires accepted == [] && replies == [] && lost == multiset{} && order.Idle() && order.Ordered()
      requires order.claimed == 0 && order.admissions == [] && !order.draining && order.hand.None? && !order.closed
      requires !native.closed && native.sent == [] && native.windows == []
      ensures Balanced()
    {
      hide OrderedInput.Ordered;
    }

    /** What holds even while a detached or failed viewer's work has not yet left the scheduler. */
    ghost predicate Core()
      reads this`lastRequest, this`ready, this`awaiting, this`painted, this`shown, this`replies, order
      reads this`owing, native`closed, native`target, native`sent, native`waiting, native`windows
    {
      && order.Ordered()
      && order.claimed <= lastRequest + 1
      && Admissible(order.queue, painted)
      && (order.pending.Some? ==> order.pending.value.target in painted)
      && (ready.Some? ==> ready.value in painted)
      && painted <= shown
      && AllShown(awaiting, shown)
      && (native.closed ==> native.target.None?)
      && AllAuthorized(native.sent)
      && InOrder(native.sent, Following(order.admissions))
      && (order.pending.Some? && native.waiting != Nothing ==>
        Behind(native.sent, 3 * order.pending.value.request + Stage(native.waiting)))
      && Meant(replies, native.sent, order.confirmed)
      && Matched(native.windows, replies, owing)
    }

    /** Only an attached controller has anything queued or pending. */
    ghost predicate Inv()
      reads this`attached, this`controls, this`owing, this`lastRequest, this`ready, this`awaiting, this`painted
      reads this`shown, this`replies
      reads order, native`closed, native`target, native`sent, native`waiting, native`windows
    {
      Core() && (order.Idle() || (attached && controls))
    }

    /** A failed viewer has nothing queued or pending, and no window request waits for its reply. */
    ghost predicate Quiet()
      reads this`failed, this`attached, this`owing, order`queue, order`pending
    {
      Clear() && (failed ==> order.Idle())
    }

    ghost predicate Clear()
      reads this`attached, this`owing
    {
      attached ==> owing.None?
    }

    /** All that has changed about the viewer is that this window request now waits for its reply. */
    twostate predicate Unanswered(request: nat)
      reads this
    {
      && owing == Some(request)
      && unchanged(this`attached, this`controls, this`viewerRoom, this`framePending, this`lastRequest, this`failed)
      && unchanged(this`ready, this`awaiting, this`mode, this`capacity, this`frameSequence, this`dirty, this`capture)
      && unchanged(this`accepted, this`replies, this`notices, this`lost, this`shown, this`painted)
    }

    ghost function Settled(): multiset<nat>
      reads this`replies, this`lost
    {
      Ids(replies) + lost
    }

    /** Every request taken is answered, owed by the scheduler, or lost. */
    ghost function Account(): multiset<nat>
      reads this`replies, this`lost, order`queue, order`pending
    {
      Settled() + order.Owed()
    }

    /** What no step changes, and what only grows. */
    twostate predicate Carried()
      reads this, order, native
    {
      && (old(native.closed) ==> native.closed)
      && (attached ==> old(attached))
      && controls == old(controls) && lastRequest == old(lastRequest) && accepted == old(accepted)
      && order.draining == old(order.draining) && order.hand == old(order.hand) && order.closed == old(order.closed)
      && (failed || !old(failed))
      && old(lost) <= lost && old(replies) <= replies && old(notices) <= notices
      && (native.closed == old(native.closed) ==> lost == old(lost) && native.target == old(native.target))
    }

    /** Nothing is newly enqueued, shown or painted inside a call, and a viewer that keeps up stays. */
    twostate predicate Steady()
      reads this, order, native
    {
      && Carried()
      && (keepsUp ==> attached == old(attached))
      && painted == old(painted) && shown == old(shown)
      && (ready == old(ready) || ready.None?) && (awaiting == old(awaiting) || awaiting == [])
      && order.claimed == old(order.claimed)
      && |order.queue| <= |old(order.queue)|
      && Fixed()
    }

    /** What only the viewer, the compositor and the capture child change. */
    twostate predicate Fixed()
      reads this, native
    {
      && mode == old(mode) && capacity == old(capacity)
      && frameSequence == old(frameSequence) && framePending == old(framePending)
      && native.generation == old(native.generation) && native.capturing == old(native.capturing)
    }

    /** The state after an operation had this turn, with `rest` queued behind it. */
    ghost predicate After(t: Turned, op: Operation, rest: seq<Operation>, was: multiset<nat>, ok: bool)
      reads this`lost, order`queue, order`pending, native`closed, native`room, native`waiting
    {
      match t
      case Goes(room) =>
        ok && order.queue == rest && order.pending.None? && !native.closed && native.room == room && lost == was
      case Waits(room) =>
        && ok && order.queue == rest && TicketOf(op).Some? && order.pending == TicketOf(op)
        && !native.closed && native.room == room && lost == was
        && native.waiting == Asked(order.pending.value.route)
      case Retires(room) => ok && order.Idle() && !native.closed && native.room == room && lost == was
      case Overflows(victim, raised) =>
        ok == !raised && order.Idle() && native.closed && lost == was + Skipped(victim, op.request)
    }

    /** The state after a failure whose records needed this much room. */
    ghost predicate Retreated(request: nat, room: nat, need: nat, was: multiset<nat>, ok: bool)
      reads this`lost, order`queue, order`pending, native`closed, native`room
    {
      && ok == (room >= need) && order.Idle() && native.closed == (room < need)
      && (room >= need ==> native.room == room - need)
      && lost == was + Skipped(room < need, request)
    }

    /** The state after a drain that was to come to `s`. */
    ghost predicate Ended(s: Served, was: multiset<nat>, ok: bool)
      reads this`lost, order`queue, order`pending, native`closed, native`room, native`waiting
    {
      match s
      case Empties(room) => ok && order.Idle() && !native.closed && native.room == room && lost == was
      case Stops(op, rest, turned) => After(turned, op, rest, was, ok)
    }

    /** A drain that is to come to `s` has not stopped yet. */
    ghost predicate Going(s: Served, was: multiset<nat>, ok: bool)
      reads this`lost, this`ready, order`queue, order`pending, native`closed, native`room, native`target
    {
      ok && order.pending.None? && !native.closed && lost == was && Prospect() == s
    }

    /** What serving the queue as it is would come to. */
    ghost function Prospect(): Served
      reads this`ready, order`queue, native`room, native`target
    {
      Serving(order.queue, native.room, ready, native.target)
    }

    ghost function Life(): nat
      reads this, native
    {
      (if native.closed then 0 else 1) + if attached then 1 else 0
    }

    ghost function Drains(): nat
      reads order
    {
      if order.draining then 0 else 1
    }

    /** What is held now. */
    ghost function Now(): Snapshot
      reads this, order, native
    {
      Snapshot(attached, controls, failed, lastRequest, ready, awaiting, frameSequence, framePending, capacity,
               dirty, capture, order.queue, order.pending,
               native.closed, native.room, native.target, native.generation, native.waiting, native.capturing)
    }

    /** The state is the one foreseen; where none was, retiring its input has left the viewer with nothing. */
    ghost predicate Becomes(foreseen: Option<Snapshot>)
      reads this, order, native
    {
      if foreseen.Some? then Now() == foreseen.value else order.Idle() && ready.None? && awaiting == []
    }

    /** The result of this delivery was told, unless its reply was skipped. */
    ghost predicate Told(request: nat, failed: bool)
      reads this`replies, this`lost
    {
      Reply(request, if failed then Refused else Completed) in replies || request in lost
    }

    /** For a viewer that keeps up, a request whose outcome is known raises nothing and has come to that. */
    ghost predicate Foretold(foreseen: Option<Snapshot>, ok: bool)
      reads this, order, native
    {
      keepsUp && foreseen.Some? ==> ok && Now() == foreseen.value
    }

    lemma Unmoved()
      ensures Becomes(Some(Now()))
    {
    }

    predicate Available()
      reads this`attached, this`failed
    {
      attached && !failed
    }

    predicate Controllable()
      reads this`attached, this`failed, this`controls
    {
      Available() && controls
    }

    /** The withdrawn barrier's record does not fit: the exception skips every reply that follows. */
    ghost predicate BarrierStuck()
      reads native`closed, native`waiting, native`room, order`pending
    {
      !native.closed && order.pending.Some? && native.Barrier() && native.room == 0
    }

    /** The requests whose replies that exception skips. */
    ghost function Stranded(): multiset<nat>
      reads native`closed, native`waiting, native`room, order`queue, order`pending
    {
      if BarrierStuck() then order.Owed() else multiset{}
    }

    /** How many records retiring this viewer's input sends. */
    ghost function Records(): nat
      reads native`waiting, order`pending
    {
      1 + if order.pending.Some? && native.Barrier() then 1 else 0
    }

    ghost predicate Retirable()
      reads native`closed, native`waiting, native`room, order`pending
    {
      native.closed || native.room >= Records()
    }

    /** The exception that is on its way skips the replies to these requests. */
    ghost method Lose(requests: multiset<nat>)
      modifies this`lost
      ensures lost == old(lost) + requests
      ensures Account() == old(Account()) + requests
    {
      lost := lost + requests;
    }

    /** `reply`: a full viewer is closed, and a closed one is told nothing. */
    method Answer(id: nat, what: What) returns (ok: bool)
      requires Inv() && (what == Submitted ==> Reached(native.sent, id))
      requires (what == Completed ==> id in order.confirmed) && (attached && what == Requested ==> owing == Some(id))
      modifies this, order, native
      ensures Inv() && Steady() && lost == old(lost)
      ensures !old(attached) ==> ok && unchanged(this) && unchanged(order) && unchanged(native)
      ensures attached ==> ok && unchanged(order) && unchanged(native)
      ensures attached ==> unchanged(this`failed, this`ready, this`awaiting, this`dirty, this`capture, this`capacity,
        this`framePending)
      ensures attached == old(attached && (keepsUp || viewerRoom > 0))
      ensures attached ==> viewerRoom == if old(viewerRoom) > 0 then old(viewerRoom) - 1 else 0
      ensures attached ==> replies == old(replies) + [Reply(id, what)]
      ensures attached ==> Account() == old(Account()) + multiset{id}
      ensures old(native.closed) ==> ok
      ensures old(Quiet()) ==> Quiet()
      ensures old(Clear()) ==> Clear()
      ensures what == Requested && old(failed ==> order.Idle()) ==> Quiet()
      ensures !ok ==> native.closed
      ensures old(order.Idle()) ==> order.Idle()
      decreases Life(), Drains(), 2
    {
      hide Account, Core;
      ok := true;
      if !attached {
        return;
      }
      if !keepsUp && viewerRoom == 0 {
        ok := Detach();
        return;
      }
      Post(Reply(id, what));
    }

    method Post(reply: Reply)
      requires Inv() && (reply.what == Submitted ==> Reached(native.sent, reply.id))
      requires (reply.what == Completed ==> reply.id in order.confirmed)
      requires reply.what == Requested ==> owing == Some(reply.id)
      modifies this`viewerRoom, this`replies, this`owing
      ensures Inv() && replies == old(replies) + [reply]
      ensures owing == if reply.what == Requested then None else old(owing)
      ensures viewerRoom == if old(viewerRoom) > 0 then old(viewerRoom) - 1 else 0
      ensures Account() == old(Account()) + multiset{reply.id}
    {
      hide Requests, Ids, Meant, Reached, Matched, OrderedInput.Ordered, OrderedInput.Owed;
      hide Admissible, AllShown, AllAuthorized, InOrder, Behind, Following, OrderedInput.Idle;
      IdsAppend(replies, reply);
      MatchedMore(native.windows, replies, owing, reply);
      MeantReply(replies, native.sent, order.confirmed, reply);
      if viewerRoom > 0 {
        viewerRoom := viewerRoom - 1;
      }
      replies := replies + [reply];
      if reply.what == Requested {
        owing := None;
      }
    }

    /** An event to the viewer. */
    method Tell() returns (ok: bool)
      requires Inv()
      modifies this, order, native
      ensures Inv() && Steady() && lost == old(lost)
      ensures !old(attached) ==> ok && unchanged(this) && unchanged(order) && unchanged(native)
      ensures attached ==> ok && unchanged(order) && unchanged(native)
      ensures attached ==> unchanged(this`failed, this`ready, this`awaiting, this`dirty, this`capture, this`capacity,
        this`framePending, this`replies)
      ensures attached == old(attached && (keepsUp || viewerRoom > 0))
      ensures attached ==> viewerRoom == if old(viewerRoom) > 0 then old(viewerRoom) - 1 else 0
      ensures attached ==> notices == old(notices) + 1
      ensures old(native.closed) ==> ok
      ensures old(Quiet()) ==> Quiet()
      ensures !ok ==> native.closed
      decreases Life(), Drains(), 2
    {
      hide Core;
      ok := true;
      if !attached {
        return;
      }
      if !keepsUp && viewerRoom == 0 {
        ok := Detach();
        return;
      }
      if viewerRoom > 0 {
        viewerRoom := viewerRoom - 1;
      }
      notices := notices + 1;
    }

    /** `detach`. */
    method Detach() returns (ok: bool)
      requires Inv()
      modifies this, order, native
      ensures Inv() && Quiet() && Carried() && painted == old(painted) && shown == old(shown)
      ensures order.claimed == old(order.claimed) && order.Idle() && !attached && lost == old(lost) && Fixed()
      ensures old(native.closed) ==> ok
      ensures if old(attached) then ready.None? && awaiting == []
        else unchanged(this) && unchanged(order) && unchanged(native)
      ensures !ok ==> native.closed
      decreases Life(), Drains(), 1
    {
      hide Core;
      ok := true;
      if attached {
        attached := false;
        Revoke();
        var sequence, cancelled;
        ok, sequence, cancelled := order.Invalidate(this);
      }
    }

    /** The scene moved on, or was not painted, since the operation was queued. */
    ghost predicate Stale(op: Operation)
      reads this, native
    {
      op.target.Some? && (native.target != op.target || ready != op.target)
    }

    ghost predicate Deliverable(op: Operation)
      reads this, native
    {
      op.work.Deliver? && op.work.valid && !Stale(op) && !native.closed && native.room > 0
    }

    /** `admit`: authority is checked again at the head of the queue. */
    method Admit(op: Operation) returns (ok: bool, delivery: Option<Ticket>)
      requires Inv() && Quiet() && Available() && controls && order.draining && order.pending.None?
      requires order.hand == Some(op.request)
      requires (op.target.None? <==> op.work.CloseWindow?) && (op.target.Some? ==> op.target.value in painted)
      requires Behind(native.sent, 3 * op.request) && Following(order.admissions) == op.request + 1
      modifies this, order, native
      ensures Inv() && Quiet() && Steady()
      ensures delivery.Some? ==>
        && ok && unchanged(this) && unchanged(order) && unchanged(native)
        && delivery == TicketOf(op) && op.work.context && !Stale(op)
      ensures delivery.None? && attached ==> Account() == old(Account()) + multiset{op.request}
      ensures old(Stale(op)) && attached ==>
        && replies == old(replies) + [Reply(op.request, Refused)]
        && unchanged(native)
        && !failed
      ensures old(Deliverable(op)) && attached ==>
        && native.sent == old(native.sent) + [Command(op.request, 0, op.target.value, op.target, true, true)]
        && replies == old(replies) + [Reply(op.request, Submitted)] && !failed
      ensures old(!Stale(op)) && op.work.Confirm? && op.work.context ==> delivery.Some?
      ensures old(!Stale(op) && !Deliverable(op)) && (op.work.Deliver? || (op.work.Confirm? && !op.work.context)) ==>
        && delivery.None?
        && (attached ==> failed)
        && order.Idle()
      ensures delivery.None? && attached && old(!native.closed) ==>
        After(old(Turn(op, native.room, ready, native.target)), op, old(order.queue), old(lost), ok)
      ensures attached && old(!native.closed && Turn(op, native.room, ready, native.target).Goes?) ==>
        ready == old(ready)
      ensures delivery.None? ==> !old(Turn(op, native.room, ready, native.target).Waits?)
      ensures old(native.closed) ==> ok && lost == old(lost)
      decreases Life(), Drains(), 18
    {
      hide Core, Account, Quiet, After, Failing;
      ok, delivery := true, None;
      if op.target.Some? && (native.target != op.target || ready != op.target) {
        ok := RefuseStale(op);
        return;
      }
      match op.work
      case CloseWindow(known) =>
        ok := CloseNow(op, known);
      case Confirm(context, route, _) =>
        if context {
          delivery := TicketOf(op);
        } else {
          ok := WithoutContext(op);
        }
      case Deliver(valid) =>
        ok := DeliverNow(op, valid);
    }

    method RefuseStale(op: Operation) returns (ok: bool)
      requires Inv() && Quiet() && attached && order.pending.None?
      modifies this, order, native
      ensures Inv() && Quiet() && Steady()
      ensures attached ==> Account() == old(Account()) + multiset{op.request}
      ensures attached ==>
        && replies == old(replies) + [Reply(op.request, Refused)]
        && unchanged(native) && failed == old(failed) && ready == old(ready)
      ensures attached && old(!native.closed) ==> After(Goes(old(native.room)), op, old(order.queue), old(lost), ok)
      ensures old(native.closed) ==> ok && lost == old(lost)
      decreases Life(), Drains(), 14
    {
      hide Core, Account, Quiet;
      ok := Conclude(op.request, true, Refused);
    }

    /** `close_window`, at the head of the queue. */
    method CloseNow(op: Operation, known: bool) returns (ok: bool)
      requires Inv() && Quiet() && attached && order.pending.None? && op.work == CloseWindow(known)
      modifies this, order, native
      ensures Inv() && Quiet() && Steady()
      ensures attached ==> Account() == old(Account()) + multiset{op.request}
      ensures attached && old(!native.closed) ==>
        After(if known && old(native.room) > 0 then Goes(old(native.room) - 1)
              else Failing(old(native.room), known, true),
              op, old(order.queue), old(lost), ok)
      ensures attached && known && old(!native.closed && native.room > 0) ==>
        && ready == old(ready) && failed == old(failed) && replies == old(replies) + [Reply(op.request, Requested)]
        && native.windows == old(native.windows) + [op.request]
      ensures attached && ok && !(known && old(!native.closed && native.room > 0)) ==>
        failed && replies != [] && replies[|replies| - 1] == Reply(op.request, Refused)
      ensures old(native.closed) ==> ok && lost == old(lost)
      decreases Life(), Drains(), 14
    {
      hide Core, Account;
      var sent := false;
      if known {
        sent := native.Ask(this, op.request);
      }
      ok := Conclude(op.request, sent, Requested);
    }

    /** A text for which no context is bound: it fails, and is failed once more if telling so raises. */
    method WithoutContext(op: Operation) returns (ok: bool)
      requires Inv() && Quiet() && attached && order.pending.None?
      modifies this, order, native
      ensures Inv() && Quiet() && Steady() && order.Idle() && (attached ==> failed)
      ensures attached ==> Account() == old(Account()) + multiset{op.request}
      ensures attached ==> ok && lost == old(lost)
      ensures attached && old(!native.closed) ==>
        After(Failing(old(native.room), old(native.room) == 0, false), op, old(order.queue), old(lost), ok)
      ensures old(native.closed) ==> ok && lost == old(lost)
      decreases Life(), Drains(), 14
    {
      hide Core, Account, Quiet;
      ok := InputResult(op.request, true);
      if !ok {
        ok := Conclude(op.request, false, Refused);
      }
    }

    /** `deliver`, for ordinary input. */
    method DeliverNow(op: Operation, valid: bool) returns (ok: bool)
      requires Inv() && Quiet() && Available() && controls && order.draining && order.pending.None?
      requires op.work == Deliver(valid) && op.target.Some? && op.target.value in painted && native.target == op.target
      requires Behind(native.sent, 3 * op.request) && Following(order.admissions) == op.request + 1
      modifies this, order, native
      ensures Inv() && Quiet() && Steady()
      ensures attached ==> Account() == old(Account()) + multiset{op.request}
      ensures valid && attached && old(!native.closed && native.room > 0) ==>
        && native.sent == old(native.sent) + [Command(op.request, 0, op.target.value, op.target, true, true)]
        && replies == old(replies) + [Reply(op.request, Submitted)] && !failed && ready == old(ready)
      ensures !(valid && old(!native.closed && native.room > 0)) ==> (attached ==> failed) && order.Idle()
      ensures attached && old(!native.closed) ==>
        After(if valid && old(native.room) > 0 then Goes(old(native.room) - 1)
              else Failing(old(native.room), valid, true),
              op, old(order.queue), old(lost), ok)
      ensures old(native.closed) ==> ok && lost == old(lost)
      decreases Life(), Drains(), 14
    {
      hide Core, Account, Quiet;
      var sent := false;
      if valid {
        sent := native.Submit(this, op.request, 0, op.target.value);
      }
      ok := Conclude(op.request, sent, Submitted);
    }

    /** The end of `admit`: a reply, or a failure reported through `input_result`. */
    method Conclude(request: nat, done: bool, what: What) returns (ok: bool)
      requires Inv() && if done && what == Requested
        then (failed ==> order.Idle()) && (attached ==> owing == Some(request)) else Quiet()
      requires what != Completed && (done && what == Submitted ==> Reached(native.sent, request))
      modifies this, order, native
      ensures Inv() && Quiet() && Steady()
      ensures attached ==> Account() == old(Account()) + multiset{request}
      ensures done && attached ==>
        && ok && lost == old(lost) && ready == old(ready)
        && replies == old(replies) + [Reply(request, what)]
        && failed == old(failed)
        && unchanged(order)
        && unchanged(native)
      ensures !done && old(attached) ==> failed && order.Idle()
      ensures !done && attached ==>
        && ok == old(Retirable()) && native.closed == old(native.closed || !Retirable())
        && (!native.closed ==> native.room == old(native.room) - old(Records()))
        && lost == old(lost) + old(Stranded()) + Skipped(!old(Retirable()), request)
        && (ok ==> replies != [] && replies[|replies| - 1] == Reply(request, Refused))
      ensures old(native.closed) ==> ok && lost == old(lost)
      decreases Life(), Drains(), 12
    {
      hide Core, Account;
      if done {
        ok := Answer(request, what);
        if ok {
          return;
        }
      }
      ok := Fail(request);
    }

    /** A failure that cannot be told is a reply lost. */
    method Fail(request: nat) returns (ok: bool)
      requires Inv() && Quiet()
      modifies this, order, native
      ensures Inv() && Quiet() && Steady()
      ensures attached ==> Account() == old(Account()) + multiset{request}
      ensures old(attached) ==> failed
      ensures order.Idle()
      ensures attached ==>
        && ok == old(Retirable()) && native.closed == old(native.closed || !Retirable())
        && (!native.closed ==> native.room == old(native.room) - old(Records()))
        && lost == old(lost) + old(Stranded()) + Skipped(!old(Retirable()), request)
        && (ok ==> replies != [] && replies[|replies| - 1] == Reply(request, Refused))
      ensures old(native.closed) ==> ok && lost == old(lost)
      decreases Life(), Drains(), 11
    {
      hide Core, Account, Retirable, Records, Stranded;
      ok := InputResult(request, true);
      if !ok {
        Lose(multiset{request});
      }
    }

    /**
     `commit`, as the scheduler sees it. What the adapter raises before it answers
     is a failed delivery, and what telling that raises leaves the drain; what an
     answer raises inside the adapter does not.
     */
    method Commit(op: Operation, ticket: Ticket) returns (ok: bool)
      requires Inv() && Quiet() && order.pending == Some(ticket) && TicketOf(op) == Some(ticket)
      requires op.work.context && !Stale(op)
      requires order.draining && controls && ticket.target in painted
      requires Behind(native.sent, 3 * ticket.request) && Following(order.admissions) == ticket.request + 1
      modifies this, order, native
      ensures Inv() && Quiet() && Steady()
      ensures attached ==> Account() == old(Account())
      ensures attached && old(!native.closed) ==>
        After(old(Turn(op, native.room, ready, native.target)), op, old(order.queue), old(lost), ok)
      ensures attached && old(!native.closed) && op.work.behaviour == Answers(false) ==> ready == old(ready)
      ensures op.work.behaviour == Stays && old(!native.closed && native.room > 0) ==>
        && unchanged(this) && order.pending.Some?
        && unchanged(native`closed, native`target, native`generation, native`capturing)
      ensures old(native.closed) ==> ok && lost == old(lost)
      decreases Life(), Drains(), 18
    {
      hide Core, Account, Quiet, After, Failing;
      native.Watch(this, Nothing);
      match op.work.behaviour
      case Raises =>
        ok := CommitFails(op, ticket);
      case Answers(failed) =>
        ok := CommitAnswers(op, ticket, failed);
      case Stays =>
        ok := CommitStays(op, ticket);
    }

    method CommitFails(op: Operation, ticket: Ticket) returns (ok: bool)
      requires Inv() && Quiet() && order.pending == Some(ticket) && ticket.request == op.request
      requires native.waiting == Nothing
      modifies this, order, native
      ensures Inv() && Quiet() && Steady()
      ensures attached ==> Account() == old(Account())
      ensures attached && old(!native.closed) ==>
        After(Failing(old(native.room), false, true), op, old(order.queue), old(lost), ok)
      ensures old(native.closed) ==> ok && lost == old(lost)
      decreases Life(), Drains(), 17
    {
      hide Core, Account, Quiet;
      ok := order.Finish(this, ticket, true);
    }

    method CommitAnswers(op: Operation, ticket: Ticket, failed: bool) returns (ok: bool)
      requires Inv() && Quiet() && order.pending == Some(ticket) && ticket.request == op.request
      requires native.waiting == Nothing && order.draining
      modifies this, order, native
      ensures Inv() && Quiet() && Steady()
      ensures attached ==> Account() == old(Account())
      ensures attached && old(!native.closed) ==>
        After(if failed then Failing(old(native.room), false, false) else Goes(old(native.room)),
              op, old(order.queue), old(lost), ok)
      ensures attached && !failed && old(!native.closed) ==> ready == old(ready)
      ensures old(native.closed) ==> ok && lost == old(lost)
      decreases Life(), Drains(), 17
    {
      hide Core, Account, Quiet;
      ok := true;
      if !failed {
        order.Confirm(this, ticket.request, failed);
      }
      var _ := order.Finish(this, ticket, failed);
    }

    method CommitStays(op: Operation, ticket: Ticket) returns (ok: bool)
      requires Inv() && Quiet() && order.pending == Some(ticket) && TicketOf(op) == Some(ticket)
      requires native.target == op.target
      requires controls && ticket.target in painted
      requires Behind(native.sent, 3 * ticket.request) && Following(order.admissions) == ticket.request + 1
      requires native.waiting == Nothing
      modifies this, order, native
      ensures Inv() && Quiet() && Steady()
      ensures attached ==> Account() == old(Account())
      ensures attached && old(!native.closed) ==>
        After(if old(native.room) > 0 then Waits(old(native.room) - 1) else Overflows(false, false),
              op, old(order.queue), old(lost), ok)
      ensures old(!native.closed && native.room > 0) ==>
        && unchanged(this) && order.pending.Some?
        && unchanged(native`closed, native`target, native`generation, native`capturing)
      ensures old(native.closed) ==> ok && lost == old(lost)
      decreases Life(), Drains(), 17
    {
      hide Core, Account, Quiet;
      ok := true;
      if ticket.route == Wayland {
        BehindMore(native.sent, 3 * ticket.request, 3 * ticket.request + 1);
        native.Watch(this, AtFirst);
      }
      var sent := native.Submit(this, ticket.request, 0, ticket.target);
      if !sent {
        var _ := order.Finish(this, ticket, true);
      }
    }

    /** The state after this request was failed: no input is left, and the viewer is told unless retiring raised. */
    twostate predicate Rejected(request: nat, ok: bool)
      reads this, order, native
    {
      && failed && order.Idle() && lost == old(lost) + old(Stranded())
      && (attached ==>
            && Account() == old(Account()) + (if ok then multiset{request} else multiset{})
            && ok == old(Retirable()) && native.closed == old(native.closed || !Retirable())
            && (!native.closed ==> native.room == old(native.room) - old(Records()))
            && ready.None? && awaiting == []
            && (ok ==> replies != [] && replies[|replies| - 1] == Reply(request, Refused)))
    }

    /** `input_result`: a failed delivery retires this viewer's input for good. */
    method InputResult(request: nat, failed: bool) returns (ok: bool)
      requires Inv() && Quiet()
      requires !failed ==> request in order.confirmed
      modifies this, order, native
      ensures Inv() && Quiet() && Steady()
      ensures !old(attached) ==> ok && unchanged(this) && unchanged(order) && unchanged(native)
      ensures failed && old(attached) ==> Rejected(request, ok)
      ensures !failed ==> lost == old(lost)
      ensures !failed && attached ==>
        && ok && unchanged(order) && unchanged(native) && ready == old(ready) && this.failed == old(this.failed)
        && replies == old(replies) + [Reply(request, Completed)] && Account() == old(Account()) + multiset{request}
      ensures old(native.closed) ==> ok
      ensures !ok ==> native.closed
      decreases Life(), Drains(), 10
    {
      hide Core, Account, Rejected;
      ok := true;
      if attached {
        if failed {
          ok := FailedResult(request);
        } else {
          ok := Answer(request, Completed);
        }
      }
    }

    method FailedResult(request: nat) returns (ok: bool)
      requires Inv() && Quiet() && attached
      modifies this, order, native
      ensures Inv() && Quiet() && Steady() && Rejected(request, ok)
      ensures old(native.closed) ==> ok
      ensures !ok ==> native.closed
      decreases Life(), Drains(), 9
    {
      hide Core, Account, Settled, Retirable, Records, OrderedInput.Owed;
      failed := true;
      ok := RetireInput();
      if ok {
        ok := Answer(request, Refused);
      }
    }

    /** `retire_input`. */
    method RetireInput() returns (ok: bool)
      requires Inv() && Clear()
      modifies this, order, native
      ensures Inv() && Quiet() && Steady() && order.Idle()
      ensures attached ==> Account() == old(Account())
      ensures attached ==> ok == old(Retirable())
      ensures lost == old(lost) + old(Stranded())
      ensures old(native.closed) ==> ok && lost == old(lost)
      ensures !ok ==> native.closed
      ensures ready.None? && awaiting == []
      ensures attached ==> native.closed == old(native.closed || !Retirable())
      ensures attached && !native.closed ==> native.room == old(native.room) - old(Records())
      ensures attached && ok ==> dirty == old(dirty) && capture == old(capture) && failed == old(failed)
      ensures attached && ok ==> native.waiting == if old(order.pending).Some? then Nothing else old(native.waiting)
      ensures !old(attached) ==> ok
      ensures attached && ok ==> lost == old(lost)
      decreases Life(), Drains(), 8
    {
      hide Core, Account, Retirable, Records, Stranded;
      Revoke();
      ok := CancelInput();
    }

    /** No target is painted, and no frame is awaited, any more. */
    method Revoke()
      requires Core()
      modifies this`ready, this`awaiting
      ensures Core() && ready.None? && awaiting == [] && (old(Inv()) ==> Inv())
    {
      hide OrderedInput.Ordered;
      ready, awaiting := None, [];
    }

    /** `cancel_input`: every cancelled request is answered before the held keys are released. */
    method CancelInput() returns (ok: bool)
      requires Inv() && Clear()
      modifies this, order, native
      ensures Inv() && Quiet() && Steady() && order.Idle()
      ensures attached ==> Account() == old(Account())
      ensures attached ==> ok == old(Retirable())
      ensures lost == old(lost) + old(Stranded())
      ensures old(native.closed) ==> ok && lost == old(lost)
      ensures !ok ==> native.closed
      ensures attached && ok ==> replies == old(replies) + Refusals(old(order.Named()))
      ensures attached ==> native.closed == old(native.closed || !Retirable())
      ensures attached && !native.closed ==> native.room == old(native.room) - old(Records())
      ensures attached && ok ==> dirty == old(dirty) && capture == old(capture) && failed == old(failed)
      ensures attached && ok ==> ready == old(ready) && awaiting == old(awaiting)
      ensures attached && ok ==> native.waiting == if old(order.pending).Some? then Nothing else old(native.waiting)
      ensures !old(attached) ==> ok
      ensures attached && ok ==> lost == old(lost)
      decreases Life(), Drains(), 7
    {
      hide Account, Core, OrderedInput.Owed, OrderedInput.Named;
      ok := true;
      if !attached {
        return;
      }
      ghost var owed := order.Owed();
      var requests;
      ok, requests := Withdraw();
      if ok {
        ok := Dismiss(requests);
      } else {
        Lose(owed);
      }
    }

    /** Everything of this viewer leaves the scheduler: the requests that are owed a reply. */
    method Withdraw() returns (ok: bool, requests: seq<nat>)
      requires Inv() && Clear()
      modifies this, order, native
      ensures Inv() && Quiet() && Steady() && order.Idle() && lost == old(lost) && requests == old(order.Named())
      ensures attached ==>
        && Account() + multiset(requests) == old(Account())
        && Account() + old(order.Owed()) == old(Account())
      ensures ok == !old(BarrierStuck())
      ensures ok ==>
        && unchanged(this)
        && unchanged(native`closed, native`target, native`sent, native`generation, native`capturing)
      ensures ok && !native.closed ==> native.room == old(native.room - Records() + 1)
      ensures ok ==> native.waiting == if old(order.pending).Some? then Nothing else old(native.waiting)
      ensures !ok ==> native.closed
      ensures old(order.pending.None?) ==> unchanged(native)
      decreases Life(), Drains(), 7, 0
    {
      hide Account, Core, Requests;
      var sequence, cancelled;
      ok, sequence, cancelled := order.Invalidate(this);
      requests := (if sequence.Some? then [sequence.value] else []) + Requests(cancelled);
    }

    /** The rest of `cancel_input`: the replies, then the release of held keys. */
    method Dismiss(requests: seq<nat>) returns (ok: bool)
      requires Inv() && Quiet() && order.Idle()
      modifies this, order, native
      ensures Inv() && Quiet() && Steady() && order.Idle() && lost == old(lost)
      ensures attached ==> Account() == old(Account()) + multiset(requests)
      ensures attached ==> ok == old(native.closed || native.room >= 1)
      ensures old(native.closed) ==> ok
      ensures !ok ==> native.closed
      ensures attached && ok ==> replies == old(replies) + Refusals(requests)
      ensures attached ==> native.closed == old(native.closed || native.room == 0)
      ensures attached && !native.closed ==> native.room == old(native.room) - 1
      ensures attached && ok ==> dirty == old(dirty) && capture == old(capture) && failed == old(failed)
      ensures attached && ok ==> ready == old(ready) && awaiting == old(awaiting)
      ensures attached && ok ==> native.waiting == old(native.waiting)
      decreases Life(), Drains(), 6
    {
      hide Inv, Core, Account;
      ok := AnswerAll(requests);
      if ok && attached && !native.closed {
        ok := native.Send(this);
      }
    }

    method AnswerAll(requests: seq<nat>) returns (ok: bool)
      requires Inv() && Quiet() && order.Idle()
      modifies this, order, native
      ensures Inv() && Quiet() && Steady() && order.Idle() && lost == old(lost)
      ensures attached ==>
        && ok
        && unchanged(order)
        && unchanged(native)
        && unchanged(this`ready, this`awaiting, this`failed, this`dirty, this`capture)
      ensures attached ==> Account() == old(Account()) + multiset(requests)
      ensures old(native.closed) ==> ok
      ensures !ok ==> native.closed
      ensures attached ==> replies == old(replies) + Refusals(requests)
      decreases Life(), Drains(), 4
    {
      hide Core;
      ok := true;
      RefusalsAppend([], 0);
      var i := 0;
      while ok && i < |requests|
        invariant i <= |requests|
        invariant Inv() && Quiet() && Steady() && order.Idle() && lost == old(lost)
        invariant attached ==>
          && ok
          && unchanged(order)
          && unchanged(native)
          && unchanged(this`ready, this`awaiting, this`failed, this`dirty, this`capture)
        invariant attached ==> Answered(old(Account()), old(replies), requests[..i])
        invariant old(native.closed) ==> ok
        invariant !ok ==> native.closed
        decreases if ok then |requests| - i + 1 else 0
      {
        hide Answered;
        ok := AnswerNext(old(Account()), old(replies), requests, i);
        i := i + 1;
      }
      assert requests[..|requests|] == requests;
    }

    /** These requests have been answered since the account and the replies were as given. */
    ghost predicate Answered(account: multiset<nat>, told: seq<Reply>, ids: seq<nat>)
      reads this`replies, this`lost, order`queue, order`pending
    {
      Account() == account + multiset(ids) && replies == told + Refusals(ids)
    }

    method AnswerNext(ghost account: multiset<nat>, ghost told: seq<Reply>, requests: seq<nat>, i: nat)
      returns (ok: bool)
      requires Inv() && Quiet() && order.Idle() && i < |requests|
      requires (attached ==> Answered(account, told, requests[..i]))
      modifies this, order, native
      ensures Inv() && Quiet() && Steady() && order.Idle() && lost == old(lost)
      ensures attached ==>
        && ok
        && unchanged(order)
        && unchanged(native)
        && unchanged(this`ready, this`awaiting, this`failed, this`dirty, this`capture)
      ensures attached ==> Answered(account, told, requests[..i + 1])
      ensures old(native.closed) ==> ok
      ensures !ok ==> native.closed
      decreases Life(), Drains(), 3
    {
      hide Core, Account, Refusals;
      ok := Answer(requests[i], Refused);
      assert requests[..i + 1] == requests[..i] + [requests[i]];
      RefusalsAppend(requests[..i], requests[i]);
      var last := [Reply(requests[i], Refused)];
      assert told + Refusals(requests[..i]) + last == told + (Refusals(requests[..i]) + last);
    }

    /** `scene_changed`. */
    method SceneChanged() returns (ok: bool)
      requires Inv() && Clear()
      modifies this, order, native
      ensures Inv() && Quiet() && Steady() && order.Idle()
      ensures attached ==> Account() == old(Account())
      ensures old(native.closed) ==> ok
      ensures attached ==> ok == old(Retirable())
      ensures lost == old(lost) + old(Stranded())
      ensures !ok ==> native.closed
      ensures ready.None? && awaiting == []
      ensures old(attached) && attached && ok ==> notices > old(notices)
      ensures attached && old(native.closed) ==> failed == old(failed)
      ensures keepsUp && old(attached && !native.closed && Retirable()) ==>
        Becomes(old(Asking(Retired(Now()).(dirty := true))))
      decreases Life(), Drains(), 13
    {
      hide Account, Core, Quiet, Stranded, OrderedInput.Owed;
      ok := RetireInput();
      if ok {
        ok := Renew();
      }
    }

    /** The viewer is told of the scene, and asks for a picture of it. */
    method Renew() returns (ok: bool)
      requires Inv() && Quiet() && order.Idle()
      modifies this, order, native
      ensures Inv() && Quiet() && Steady() && order.Idle() && lost == old(lost)
      ensures attached ==> Account() == old(Account())
      ensures (!ok ==> native.closed) && (attached || old(native.closed) ==> ok)
      ensures old(attached) && attached ==> notices > old(notices)
      ensures attached && old(native.closed) ==> failed == old(failed)
      ensures keepsUp && attached ==> Becomes(old(Asking(Now().(dirty := true))))
      decreases Life(), Drains(), 12, 2
    {
      hide Account, Core, Asking, OrderedInput.Owed;
      ok := Tell();
      if ok {
        ClosedIsSettled();
        Damage();
      }
    }

    /** Nothing is due on a channel that has ended. */
    lemma ClosedIsSettled()
      requires Core()
      ensures native.closed ==> Asking(Now().(dirty := true)) == Some(Now().(dirty := true))
    {
    }

    ghost predicate Pumpable()
      reads this, native
    {
      attached && native.target.Some? && dirty && capture.None? && |awaiting| < capacity && !framePending
    }

    /**
     The replies a pump would skip: the capture child is gone, so this viewer's
     input is retired, and the record that withdraws its barrier does not fit.
     */
    ghost function Wasted(dirty: bool, capture: Option<Target>, waits: nat, capacity: nat, framePending: bool,
      room: int): multiset<nat>
      reads this`attached, order, native`target, native`capturing, native`closed, native`waiting
    {
      if attached && native.target.Some? && dirty && capture.None? && waits < capacity && !framePending
         && native.capturing == Broken && !native.closed && order.pending.Some? && native.Barrier() && room == 0
      then order.Owed() else multiset{}
    }

    /** `pump`: asks for a picture of the current target; no exception leaves it. */
    method Pump()
      requires Inv() && Quiet()
      modifies this, order, native
      ensures Inv() && Quiet() && Steady()
      ensures attached ==> Account() == old(Account())
      ensures old(order.Idle()) ==> order.Idle() && lost == old(lost)
      ensures lost == old(lost) + old(Wasted(dirty, capture, |awaiting|, capacity, framePending, native.room))
      ensures !old(Pumpable()) ==> unchanged(this) && unchanged(order) && unchanged(native)
      ensures Becomes(old(Asking(Now()))) && (old(Asking(Now())).Some? ==> unchanged(order))
      decreases Life(), Drains(), if Pumpable() then 12 else 0, 0
    {
      hide Account, Core, Quiet, OrderedInput.Owed;
      if !attached || native.target.None? || !dirty || capture.Some? || |awaiting| >= capacity || framePending {
        return;
      }
      Open();
      Shoot(native.target.value);
    }

    method Shoot(target: Target)
      requires Inv() && Quiet() && attached && native.target == Some(target) && dirty && capture.None? && !native.closed
      modifies this, order, native
      ensures Inv() && Quiet() && Steady()
      ensures attached ==> Account() == old(Account())
      ensures old(order.Idle()) ==> order.Idle()
      ensures lost == old(lost) + if old(native.capturing) == Broken then old(Stranded()) else multiset{}
      ensures old(native.capturing == Busy) ==>
        unchanged(order) && unchanged(native) && Now() == old(Now().(capture := Some(target), dirty := false))
      ensures old(native.capturing == Ready && native.room > 0) ==>
        && unchanged(order)
        && Now() == old(Now().(capture := Some(target), dirty := false, room := native.room - 1))
      ensures old(native.capturing == Broken || (native.capturing == Ready && native.room == 0)) ==>
        order.Idle() && ready.None? && awaiting == []
      decreases Life(), Drains(), 11, 1
    {
      hide Account, Core, Quiet, Inv, Stranded, OrderedInput.Idle, Becomes, Pictured;
      capture, dirty := Some(target), false;
      var started := false;
      if native.capturing == Busy {
        started := true;
      } else if native.capturing == Ready {
        started := native.Send(this);
      }
      if !started {
        CannotCapture(target);
      }
    }

    /** `damage`. */
    method Damage()
      requires Inv() && Quiet()
      modifies this, order, native
      ensures Inv() && Quiet() && Steady()
      ensures attached ==> Account() == old(Account())
      ensures old(order.Idle()) ==> order.Idle()
      ensures lost == old(lost) + old(Wasted(true, capture, |awaiting|, capacity, framePending, native.room))
      ensures Becomes(old(Asking(Now().(dirty := true))))
      decreases Life(), Drains(), if attached && native.target.Some? then 12 else 0, 1
    {
      hide Account, Core, Wasted;
      dirty := true;
      Pump();
    }

    /** The capture could not start: it fails at once, unless its ticket is already stale. */
    method CannotCapture(target: Target)
      requires Inv() && Quiet() && (native.closed || native.target == Some(target))
      modifies this, order, native
      ensures Inv() && Quiet() && Steady()
      ensures attached ==> Account() == old(Account())
      ensures old(order.Idle()) ==> order.Idle()
      ensures lost == old(lost) + if old(attached && capture == Some(target)) then old(Stranded()) else multiset{}
      ensures Becomes(old(Pictured(Now(), target, NoPicture)))
      ensures old(attached && capture == Some(target) == native.target) ==>
        order.Idle() && ready.None? && awaiting == []
      decreases Life(), Drains(), 11, 0
    {
      hide Account, Core, Quiet, OrderedInput.Owed, OrderedInput.Idle;
      if capture == Some(target) {
        capture := None;
        if !attached || native.target != Some(target) {
          if native.target.Some? {
            Open();
          }
          Damage();
        } else {
          var _ := CaptureFailed();
        }
      }
    }

    /** The error half of `captured`. */
    method CaptureFailed() returns (ok: bool)
      requires Inv() && Quiet()
      modifies this, order, native
      ensures Inv() && Quiet() && Steady() && order.Idle()
      ensures attached ==> Account() == old(Account())
      ensures lost == old(lost) + old(Stranded())
      ensures !ok ==> native.closed
      ensures ready.None? && awaiting == []
      ensures attached ==> ok == old(Retirable())
      ensures old(attached) && attached && ok ==> notices > old(notices)
      decreases Life(), Drains(), 9
    {
      hide Account, Core, Stranded;
      ok := RetireInput();
      if ok {
        ok := Tell();
      }
    }

    /** The replies that are skipped when the capture child answers for this target. */
    ghost function PictureSkips(target: Target, picture: Picture): multiset<nat>
      reads this, native, order
    {
      if capture != Some(target) then multiset{}
      else if !attached || native.target != Some(target)
        then Wasted(true, None, |awaiting|, capacity, framePending, native.room)
      else CurrentSkips(picture)
    }

    ghost function CurrentSkips(picture: Picture): multiset<nat>
      reads this, native, order
    {
      match picture
      case NoPicture => Stranded()
      case SameAsBefore => Wasted(dirty, None, |awaiting|, capacity, framePending, native.room)
      case Image => multiset{}
    }

    /** `captured`: a picture of the exact current target is sent, and awaits its acknowledgement. */
    method Captured(target: Target, picture: Picture) returns (ok: bool)
      requires Inv() && Quiet()
      modifies this, order, native
      ensures Inv() && Quiet() && Carried() && painted == old(painted) && order.claimed == old(order.claimed)
      ensures attached ==> Account() == old(Account())
      ensures keepsUp ==> attached == old(attached)
      ensures lost == old(lost) + old(PictureSkips(target, picture))
      ensures shown == old(shown) || shown == old(shown) + {target}
      ensures target in shown && target !in old(shown) ==> old(native.target) == Some(target) && picture.Image?
      ensures keepsUp ==> Becomes(old(Pictured(Now(), target, picture)))
      ensures !ok ==> native.closed
    {
      hide Account, Core, Quiet, Inv, Wasted, Stranded, Asking, Developed, Becomes;
      ok := true;
      if capture != Some(target) {
        Unmoved();
        return;
      }
      if !attached || native.target != Some(target) {
        Outdated();
      } else {
        ok := Develop(target, picture);
      }
    }

    /** A picture of a target that is not the current one any more: another one is due. */
    method Outdated()
      requires Inv() && Quiet() && (attached ==> native.target != capture)
      modifies this, order, native
      ensures Inv() && Quiet() && Steady()
      ensures attached ==> Account() == old(Account())
      ensures lost == old(lost) + old(Wasted(true, None, |awaiting|, capacity, framePending, native.room))
      ensures Becomes(old(Asking(Now().(capture := None, dirty := true))))
    {
      hide Account, Core, Quiet, Inv, Wasted, Asking, Becomes;
      capture := None;
      Damage();
    }

    method Develop(target: Target, picture: Picture) returns (ok: bool)
      requires Inv() && Quiet() && attached && capture == Some(target) == native.target
      modifies this, order, native
      ensures Inv() && Quiet() && Carried() && painted == old(painted) && order.claimed == old(order.claimed)
      ensures attached ==> Account() == old(Account())
      ensures keepsUp ==> attached
      ensures lost == old(lost) + old(CurrentSkips(picture))
      ensures shown == old(shown) || (shown == old(shown) + {target} && picture.Image?)
      ensures keepsUp ==> Becomes(old(Developed(Now().(capture := None), target, picture)))
      ensures !ok ==> native.closed
    {
      hide Account, Core, Quiet, Inv, Wasted, Asking, OrderedInput.Idle, Stranded;
      ok := true;
      capture := None;
      match picture
      case NoPicture =>
        ok := CaptureFailed();
      case SameAsBefore =>
        Pump();
      case Image =>
        ok := Show(target);
    }

    method Show(target: Target) returns (ok: bool)
      requires Inv() && Quiet() && attached
      modifies this, order, native
      ensures Inv() && Quiet() && Carried() && painted == old(painted) && order.claimed == old(order.claimed)
      ensures attached ==> Account() == old(Account())
      ensures keepsUp ==> attached
      ensures lost == old(lost)
      ensures shown == old(shown) || shown == old(shown) + {target}
      ensures (!ok ==> native.closed) && (attached && !old(framePending) ==> notices > old(notices))
      ensures keepsUp ==>
        Now() == if old(framePending) then old(Now()).(frameSequence := old(frameSequence) + 1, dirty := true)
                 else old(Now()).(frameSequence := old(frameSequence) + 1, framePending := true,
                                  awaiting := old(awaiting) + [Frame(old(frameSequence) + 1, target)])
    {
      hide Account, Quiet, Core;
      ok := true;
      frameSequence := frameSequence + 1;
      if framePending {
        dirty := true;
        return;
      }
      ok := Tell();
      if ok && attached {
        Note(target);
      } else if ok {
        dirty := true;
      }
    }

    /** The frame was sent: it is awaited, and no other is asked for until the viewer has read it. */
    method Note(target: Target)
      requires Inv() && Quiet() && attached
      modifies this, order, native
      ensures Inv() && Quiet() && unchanged(order) && unchanged(native) && shown == old(shown) + {target}
      ensures unchanged(this`painted, this`replies, this`notices, this`lost, this`accepted)
      ensures Now() == old(Now()).(framePending := true, awaiting := old(awaiting) + [Frame(frameSequence, target)])
    {
      hide Account, Core, Quiet, Wasted;
      Await(target);
      Pump();
    }

    method Await(target: Target)
      requires Inv() && Quiet()
      modifies this`framePending, this`awaiting, this`shown
      ensures Inv() && Quiet() && shown == old(shown) + {target} && framePending
      ensures awaiting == old(awaiting) + [Frame(frameSequence, target)]
    {
      hide Account, Quiet, OrderedInput.Ordered;
      framePending, awaiting, shown := true, awaiting + [Frame(frameSequence, target)], shown + {target};
    }

    /** The viewer painted the oldest frame it still owed. */
    method Paint()
      requires Inv() && Quiet() && awaiting != []
      modifies this`ready, this`painted, this`awaiting
      ensures Inv() && Quiet() && awaiting == old(awaiting)[1..]
      ensures ready == Some(old(awaiting)[0].target) && painted == old(painted) + {old(awaiting)[0].target}
    {
      hide Account, Quiet, OrderedInput.Ordered;
      var target := awaiting[0].target;
      assert awaiting[0] in awaiting;
      ready, painted, awaiting := Some(target), painted + {target}, awaiting[1..];
    }

    // ---- requests ---------------------------------------------------------------------

    /** `matches_target`. */
    predicate Matches(addressed: Option<Target>)
      reads this`attached, this`failed, this`ready, native`target
    {
      Available() && ready.Some? && native.target == ready && addressed == ready
    }

    /** This viewer controls the application, and names the target it painted last, which is still current. */
    ghost predicate Entitled(addressed: Option<Target>)
      reads this`attached, this`failed, this`controls, this`ready, native`target
    {
      attached && !failed && controls && ready.Some? && addressed == ready && native.target == ready
    }

    /** The oldest frame still awaited is named, and its target is still the current one. */
    ghost predicate Acks(frame: Option<nat>)
      reads this`attached, this`awaiting, native`target
    {
      attached && awaiting != [] && frame == Some(awaiting[0].sequence) && native.target == Some(awaiting[0].target)
    }

    /** The records an acknowledgement sends: the first frame painted of a target asks for its clipboard. */
    ghost function Syncs(): nat
      reads this`ready, this`awaiting
    {
      if awaiting != [] && ready == Some(awaiting[0].target) then 0 else 1
    }

    ghost function AckSkips(frame: Option<nat>): multiset<nat>
      reads this`attached, this`ready, this`awaiting, this`dirty, this`capture, this`capacity
      reads this`framePending, native, order
    {
      if Acks(frame) && native.room >= Syncs()
      then Wasted(dirty, capture, |awaiting| - 1, capacity, framePending, native.room - Syncs()) else multiset{}
    }

    /** `frame_ack`: painting the oldest frame still awaited, of the exact current target, confers authority. */
    method Acknowledge(id: nat, frame: Option<nat>) returns (ok: bool)
      requires Inv() && Quiet() && !order.draining
      modifies this, order, native
      ensures Inv() && Quiet() && Carried() && order.claimed == old(order.claimed)
      ensures attached && ok ==> Account() == old(Account()) + multiset{id}
      ensures painted == if old(Acks(frame)) then old(painted) + {old(awaiting)[0].target} else old(painted)
      ensures keepsUp && old(attached) ==> (attached && ok) == !old(Acks(frame) && native.room < Syncs())
      ensures attached && ok ==> lost == old(lost) + old(AckSkips(frame))
      ensures attached && ok ==> Reply(id, if old(Acks(frame)) then Painted else Refused) in replies
      ensures keepsUp ==> Becomes(old(Acknowledged(Now(), frame)))
    {
      hide Account, Core, Quiet, Wasted, OrderedInput.Idle, Asking, Becomes, Syncs;
      if !attached || awaiting == [] || frame != Some(awaiting[0].sequence)
         || native.target != Some(awaiting[0].target) {
        ok := Answer(id, Refused);
        Unmoved();
        return;
      }
      ok := Confer(id);
    }

    /** The oldest frame awaited was painted. */
    method Confer(id: nat) returns (ok: bool)
      requires Inv() && Quiet() && !order.draining && attached && awaiting != []
      requires native.target == Some(awaiting[0].target)
      modifies this, order, native
      ensures Inv() && Quiet() && Carried() && order.claimed == old(order.claimed)
      ensures attached && ok ==> Account() == old(Account()) + multiset{id}
      ensures painted == old(painted) + {old(awaiting)[0].target}
      ensures keepsUp ==> (attached && ok) == old(native.room >= Syncs())
      ensures attached && ok ==> lost == old(lost) + old(Wasted(dirty, capture, |awaiting| - 1, capacity, framePending,
                                                                native.room - Syncs()))
      ensures attached && ok ==> Reply(id, Painted) in replies && old(native.room >= Syncs())
      ensures keepsUp ==> Becomes(old(Acknowledged(Now(), Some(awaiting[0].sequence))))
    {
      hide Account, Core, Quiet, Wasted, OrderedInput.Idle, Asking, Becomes, Acknowledged;
      var first := ready != Some(awaiting[0].target);
      Paints();
      Open();
      ok := Acquit(id);
      if ok && attached {
        ghost var told := replies;
        ok := Sync(first);
        StillTold(told, replies, Reply(id, Painted));
      }
    }

    method Acquit(id: nat) returns (ok: bool)
      requires Inv() && Quiet() && attached && awaiting != []
      modifies this, order, native
      ensures Inv() && Quiet() && Carried() && order.claimed == old(order.claimed)
      ensures painted == old(painted) + {old(awaiting)[0].target}
      ensures keepsUp ==> attached
      ensures attached ==>
        && ok && lost == old(lost) && Account() == old(Account()) + multiset{id}
        && unchanged(native) && unchanged(order)
        && replies == old(replies) + [Reply(id, Painted)]
        && Now() == old(Now()).(ready := Some(old(awaiting)[0].target), awaiting := old(awaiting)[1..])
    {
      hide Account, Core, Quiet, OrderedInput.Idle;
      Paint();
      ok := Answer(id, Painted);
    }

    lemma Paints()
      requires attached && awaiting != [] && native.target == Some(awaiting[0].target)
      ensures Acknowledged(Now(), Some(awaiting[0].sequence)) ==
        if native.room < Syncs() then None
        else Asking(Now().(ready := native.target, awaiting := awaiting[1..], room := native.room - Syncs()))
    {
    }

    /** The rest of `frame_ack`, once the viewer has been answered. */
    method Sync(first: bool) returns (ok: bool)
      requires Inv() && Quiet() && attached && !native.closed
      modifies this, order, native
      ensures Inv() && Quiet() && Steady()
      ensures attached ==> Account() == old(Account())
      ensures ok == old(!first || native.room > 0)
      ensures lost == old(lost) + if ok
        then old(Wasted(dirty, capture, |awaiting|, capacity, framePending, native.room - if first then 1 else 0))
          else multiset{}
      ensures Becomes(if ok then old(Asking(Now().(room := native.room - if first then 1 else 0))) else None)
    {
      hide Account, Core, Quiet, OrderedInput.Owed;
      ok := true;
      if first {
        ok := native.Send(this);
      }
      if ok {
        Pump();
      }
    }

    /** A scene that is announced belongs to a channel that is still open. */
    lemma Open()
      requires Core() && native.target.Some?
      ensures !native.closed
    {
    }

    /** What admitting this operation behind the queue would come to. */
    ghost function Coming(op: Operation): Served
      reads this`ready, order`queue, native`room, native`target
    {
      Serving(order.queue + [op], native.room, ready, native.target)
    }

    /** Queueing this operation closes the viewer: the queue is full, or nothing is in flight and serving it raises. */
    ghost predicate ClosesQueued(op: Operation)
      reads this`ready, native, order
    {
      |order.queue| >= MAX_QUEUE || (order.pending.None? && !native.closed && Raising(Coming(op)))
    }

    ghost function SkipsQueued(op: Operation): multiset<nat>
      reads this`ready, native, order
    {
      if order.pending.None? && !native.closed then Victims(Coming(op)) else multiset{}
    }

    /** `enqueue_input`: the controller's operation, on the target it has painted. */
    method EnqueueInput(id: nat, addressed: Option<Target>, check: Check, work: Work) returns (ok: bool)
      requires Inv() && Quiet() && !order.closed && !order.draining && order.claimed <= id <= lastRequest
      requires !work.CloseWindow?
      modifies this, order, native
      ensures Inv() && Quiet() && Carried() && painted == old(painted) && order.claimed <= lastRequest + 1
      ensures attached && ok ==> Account() == old(Account()) + multiset{id}
      ensures !old(Entitled(addressed)) && attached ==>
        && replies == old(replies) + [Reply(id, Refused)]
        && unchanged(order)
        && unchanged(native)
        && Now() == old(Now())
      ensures old(Entitled(addressed)) && check != Fine && attached && ok ==>
        && failed
        && order.Idle()
        && replies != []
        && replies[|replies| - 1] == Reply(id, Refused)
      ensures keepsUp && old(attached) ==> (attached && ok) == !old(Closes(id, Input(addressed, check, work)))
      ensures attached && ok ==> lost == old(lost) + old(Skips(id, Input(addressed, check, work)))
      ensures keepsUp && check == Fine && old(Entitled(addressed) && AtRest()) && Patient(work) ==>
        ok && Starts(Operation(addressed, id, work))
      ensures (&& keepsUp && check == Fine
               && old(Entitled(addressed) && order.pending.Some? && |order.queue| < MAX_QUEUE)) ==>
        ok && Joins(Operation(addressed, id, work))
      ensures check == Fine && old(Entitled(addressed)) ==> Serves(Operation(addressed, id, work), ok)
    {
      hide Account, Core, Starts, Joins, Serves, Stranded, Retirable, ClosesQueued, SkipsQueued;
      if !Controllable() || !Matches(addressed) {
        ok := Answer(id, Refused);
      } else if check != Fine {
        ok := BadInput(id);
      } else {
        ok := GoodInput(id, work);
      }
    }

    /** Input that validates waits its turn. */
    method GoodInput(id: nat, work: Work) returns (ok: bool)
      requires Inv() && Quiet() && !order.closed && !order.draining && order.claimed <= id <= lastRequest
      requires Controllable() && ready.Some? && native.target == ready && !work.CloseWindow?
      modifies this, order, native
      ensures Inv() && Quiet() && Carried() && painted == old(painted) && order.claimed <= lastRequest + 1
      ensures attached && ok ==> Account() == old(Account()) + multiset{id}
      ensures keepsUp ==> (attached && ok) == !old(ClosesQueued(Operation(ready, id, work)))
      ensures attached && ok ==> lost == old(lost) + old(SkipsQueued(Operation(ready, id, work)))
      ensures keepsUp && old(AtRest()) && Patient(work) ==> ok && Starts(Operation(old(ready), id, work))
      ensures keepsUp && old(order.pending.Some? && |order.queue| < MAX_QUEUE) ==>
        ok && Joins(Operation(old(ready), id, work))
      ensures Serves(Operation(old(ready), id, work), ok)
    {
      hide Account, Core, Turn, Coming, Starts, Joins;
      ReadyPainted();
      Open();
      ok := order.Enqueue(this, Operation(ready, id, work));
    }

    /** Input that does not validate is a failed delivery. */
    method BadInput(id: nat) returns (ok: bool)
      requires Inv() && Quiet() && attached
      modifies this, order, native
      ensures Inv() && Quiet() && Steady() && order.Idle()
      ensures attached && ok ==>
        && Account() == old(Account()) + multiset{id} && lost == old(lost) && failed
        && replies != [] && replies[|replies| - 1] == Reply(id, Refused)
      ensures attached ==> ok == old(Retirable())
    {
      hide Account, Core;
      ok := InputResult(id, true);
    }

    lemma ReadyPainted()
      requires Core() && ready.Some?
      ensures ready.value in painted
    {
    }

    /** All that has changed is that this operation waits behind the others. */
    twostate predicate Joins(op: Operation)
      reads this, order, native
    {
      Now() == old(Now()).(queue := old(order.queue) + [op])
    }

    /** With nothing in flight, queueing this operation has come to what serving the queue with it comes to. */
    twostate predicate Serves(op: Operation, ok: bool)
      reads this, order, native
    {
      old(order.pending.None? && |order.queue| < MAX_QUEUE && !native.closed) && attached ==>
        Ended(old(Coming(op)), old(lost), ok)
    }

    /** The operation that this request has to queue, if it is one of those. */
    ghost function Queued(id: nat, m: Method): Option<Operation>
      reads this`attached, this`failed, this`controls, this`ready, native`target
    {
      match m
      case Input(addressed, check, work) =>
        if Entitled(addressed) && check == Fine then Some(Operation(addressed, id, work)) else None
      case CloseRequest(wellFormed, known) =>
        if attached && !failed && controls && wellFormed then Some(Operation(None, id, CloseWindow(known))) else None
      case _ => None
    }

    /** All that has changed is that this text is in flight. */
    twostate predicate Starts(op: Operation)
      reads this, order, native
    {
      && op.work.Confirm?
      && Now() == old(Now()).(pending := TicketOf(op), room := native.room, waiting := Asked(op.work.route))
      && native.room == old(native.room) - 1
    }

    /** A text for the painted target whose adapter takes it and answers later. */
    twostate predicate Staying(op: Operation)
      reads this, native
    {
      Patient(op.work) && op.target.Some? && old(ready) == op.target && old(native.target) == op.target
    }

    /** Nothing is queued or in flight, and a record fits. */
    ghost predicate AtRest()
      reads this, native, order
    {
      order.queue == [] && order.pending.None? && native.room > 0
    }

    /** `select_window` and `close_window`: never silently, and a close waits its turn behind earlier input. */
    method OnWindow(id: nat, close: bool, wellFormed: bool, known: bool) returns (ok: bool)
      requires Inv() && Quiet() && !order.closed && !order.draining && order.claimed <= id <= lastRequest
      modifies this, order, native
      ensures Inv() && Quiet() && Carried() && painted == old(painted) && order.claimed <= lastRequest + 1
      ensures attached && ok ==> Account() == old(Account()) + multiset{id}
      ensures !(close && wellFormed && old(!failed && attached && controls)) && attached ==>
        && replies != []
        && replies[|replies| - 1] ==
             Reply(id, if wellFormed && old(controls && Askable(!close, known)) then Requested else Refused)
        && (wellFormed && old(controls) ==>
              && native.closed == old(native.closed || native.room < Needed(!close, known))
              && (!native.closed ==> native.room == old(native.room - Needed(!close, known))))
      ensures !close && wellFormed && old(attached && controls) ==> ready.None? && awaiting == []
      ensures keepsUp && old(attached) ==>
        (attached && ok) == !(close && old(Closes(id, CloseRequest(wellFormed, known))))
      ensures attached && ok ==>
        lost == old(lost) + old(Skips(id, if close then CloseRequest(wellFormed, known)
          else SelectWindow(wellFormed, known)))
      ensures (&& keepsUp && close && wellFormed
               && old(attached && controls && !failed && order.pending.Some? && |order.queue| < MAX_QUEUE)) ==>
        ok && Joins(Operation(None, id, CloseWindow(known)))
      ensures close && wellFormed && old(attached && controls && !failed) ==>
        Serves(Operation(None, id, CloseWindow(known)), ok)
    {
      hide Account, Core, ClosesQueued, SkipsQueued, Stranded, Joins, Serves;
      if !attached || !wellFormed || !controls {
        ok := Answer(id, Refused);
      } else if close && !failed {
        ok := CloseLater(id, known);
      } else {
        ok := WindowNow(id, !close, known);
      }
    }

    /** A window is closed when every earlier operation is over. */
    method CloseLater(id: nat, known: bool) returns (ok: bool)
      requires Inv() && Quiet() && !order.closed && !order.draining && order.claimed <= id <= lastRequest
      requires attached && controls && !failed
      modifies this, order, native
      ensures Inv() && Quiet() && Carried() && painted == old(painted) && order.claimed <= lastRequest + 1
      ensures attached && ok ==> Account() == old(Account()) + multiset{id}
      ensures keepsUp ==> (attached && ok) == !old(ClosesQueued(Operation(None, id, CloseWindow(known))))
      ensures attached && ok ==> lost == old(lost) + old(SkipsQueued(Operation(None, id, CloseWindow(known))))
      ensures keepsUp && old(order.pending.Some? && |order.queue| < MAX_QUEUE) ==>
        && ok
        && Joins(Operation(None, id, CloseWindow(known)))
      ensures Serves(Operation(None, id, CloseWindow(known)), ok)
    {
      hide Account, Core, Coming, Turn, Joins;
      ok := order.Enqueue(this, Operation(None, id, CloseWindow(known)));
    }

    /** A window request that does not wait; whatever it raises is only refused. */
    method WindowNow(id: nat, retire: bool, known: bool) returns (ok: bool)
      requires Inv() && Quiet() && attached
      modifies this, order, native
      ensures Inv() && Quiet() && Steady()
      ensures attached ==>
        && ok && Account() == old(Account()) + multiset{id}
        && replies != []
        && replies[|replies| - 1] == Reply(id, if old(Askable(retire, known)) then Requested else Refused)
        && native.closed == old(native.closed || native.room < Needed(retire, known))
        && (!native.closed ==> native.room == old(native.room - Needed(retire, known)))
      ensures lost == old(lost) + if retire then old(Stranded()) else multiset{}
      ensures retire ==> ready.None? && awaiting == []
      ensures !retire && attached && !native.closed ==> ready == old(ready) && awaiting == old(awaiting)
    {
      hide Account, Core, Stranded, Records, Inv, Needed, Askable, Retirable, OrderedInput.Owed;
      var done := Claim(id, retire, known);
      ok := Answer(id, if done then Requested else Refused);
    }

    /** The records of a window request: those of the retirement, if it comes first, then its own. */
    method Claim(id: nat, retire: bool, known: bool) returns (done: bool)
      requires Inv() && Quiet() && attached
      modifies this, order, native
      ensures Inv() && Steady() && (failed ==> order.Idle())
      ensures if done && attached then owing == Some(id) else Quiet()
      ensures lost == old(lost) + if retire then old(Stranded()) else multiset{}
      ensures retire ==> ready.None? && awaiting == []
      ensures attached ==>
        && Account() == old(Account()) && done == old(Askable(retire, known))
        && native.closed == old(native.closed || native.room < Needed(retire, known))
        && (!native.closed ==> native.room == old(native.room - Needed(retire, known)))
      ensures !retire && attached && !native.closed ==> ready == old(ready) && awaiting == old(awaiting)
    {
      hide Account, Core, Stranded, Records, Inv, OrderedInput.Owed;
      done := true;
      if retire {
        done := RetireInput();
      }
      if done {
        done := false;
        if known {
          done := native.Ask(this, id);
        }
      }
    }

    /** How many records a window request sends, after the retirement of input if it comes first. */
    ghost function Needed(retire: bool, known: bool): nat
      reads native`waiting, order`pending
    {
      (if retire then Records() else 0) + if known then 1 else 0
    }

    /** The window exists, and its record and those before it fit. */
    ghost predicate Askable(retire: bool, known: bool)
      reads native`waiting, native`closed, native`room, order`pending
    {
      known && !native.closed && native.room >= Needed(retire, known)
    }

    /** `release_input` and `terminate_application`: pending input is discarded first. */
    method Discard(id: nat, retire: bool, works: bool) returns (ok: bool)
      requires Inv() && Quiet()
      modifies this, order, native
      ensures Inv() && Quiet() && Carried() && painted == old(painted) && order.claimed == old(order.claimed)
      ensures attached && ok ==> Account() == old(Account()) + multiset{id}
      ensures order.Idle()
      ensures attached && ok ==>
        replies != [] && replies[|replies| - 1] == Reply(id, if works then Discarded else Refused)
      ensures keepsUp && old(attached) ==> attached && ok == old(Retirable())
      ensures attached && ok ==> lost == old(lost)
      ensures attached && ok ==>
        if retire then ready.None? && awaiting == [] else ready == old(ready) && awaiting == old(awaiting)
    {
      hide Core, Account, Inv, Retirable, Records, Stranded;
      if retire {
        ok := RetireInput();
      } else {
        ok := CancelInput();
      }
      if ok {
        ok := Answer(id, if works then Discarded else Refused);
      }
    }

    /** The same, for a request that may not be in order. */
    method Dispose(id: nat, admitted: bool, retire: bool, works: bool) returns (ok: bool)
      requires Inv() && Quiet()
      modifies this, order, native
      ensures Inv() && Quiet() && Carried() && painted == old(painted) && order.claimed == old(order.claimed)
      ensures attached && ok ==> Account() == old(Account()) + multiset{id}
      ensures keepsUp && old(attached) ==> attached && ok == !(admitted && !old(Retirable()))
      ensures attached && ok ==> lost == old(lost)
      ensures attached && ok ==> Reply(id, if admitted && works then Discarded else Refused) in replies
      ensures attached && ok && admitted && retire ==> ready.None? && awaiting == []
      ensures attached && ok && !(admitted && retire) ==> ready == old(ready) && awaiting == old(awaiting)
    {
      hide Core, Account, Quiet, Inv, Retirable;
      if admitted {
        ok := Discard(id, retire, works);
      } else {
        ok := Answer(id, Refused);
      }
    }

    /** `configure_stream` and `refresh`: pacing only, never authority. */
    method Pace(id: nat, mode: Option<nat>, valid: bool) returns (ok: bool)
      requires Inv() && Quiet()
      modifies this, order, native
      ensures Inv() && Quiet() && Carried() && painted == old(painted) && order.claimed == old(order.claimed)
      ensures attached && ok ==> Account() == old(Account()) + multiset{id}
      ensures attached && ok ==>
        replies != [] && replies[|replies| - 1] == Reply(id, if valid then Described else Refused)
      ensures keepsUp && old(attached) ==> attached && ok
      ensures lost == old(lost) + if valid && (mode.None? || mode != old(this.mode))
        then old(Wasted(true, capture, |awaiting|, if mode.Some? then 2 else capacity, framePending, native.room))
          else multiset{}
      ensures keepsUp && old(attached) ==>
        Becomes(if valid && (mode.None? || mode != old(this.mode))
                then old(Asking(Now().(capacity := if mode.Some? then 2 else capacity, dirty := true)))
                else Some(old(Now())))
    {
      hide Account, Core, Wasted, Quiet, Asking, OrderedInput.Idle;
      if valid && (mode.None? || mode != this.mode) {
        Repace(mode);
      }
      ok := Answer(id, if valid then Described else Refused);
    }

    /** The viewer takes pictures at another pace, and asks for one. */
    method Repace(mode: Option<nat>)
      requires Inv() && Quiet()
      modifies this, order, native
      ensures Inv() && Quiet() && Carried() && painted == old(painted) && order.claimed == old(order.claimed)
      ensures keepsUp ==> attached == old(attached)
      ensures attached ==> Account() == old(Account())
      ensures this.mode == if mode.Some? then mode else old(this.mode)
      ensures capacity == if mode.Some? then 2 else old(capacity)
      ensures lost == old(lost) +
        old(Wasted(true, capture, |awaiting|, if mode.Some? then 2 else capacity, framePending, native.room))
      ensures Becomes(old(Asking(Now().(capacity := if mode.Some? then 2 else capacity, dirty := true))))
    {
      hide Account, Core, Wasted, Quiet, Asking, Becomes, OrderedInput.Idle;
      Configured(mode);
      Damage();
    }

    method Configured(mode: Option<nat>)
      requires Inv() && Quiet()
      modifies this`mode, this`capacity
      ensures Inv() && Quiet() && capacity == if mode.Some? then 2 else old(capacity)
      ensures this.mode == if mode.Some? then mode else old(this.mode)
    {
      hide Core;
      if mode.Some? {
        this.mode, capacity := mode, 2;
      }
    }

    /** Whether an exception of this request closes a viewer that keeps up. */
    ghost predicate Closes(id: nat, m: Method)
      reads this`attached, this`failed, this`controls, this`ready, this`awaiting, native, order
    {
      match m
      case FrameAck(frame) => Acks(frame) && native.room < Syncs()
      case Input(addressed, check, work) =>
        && Entitled(addressed)
        && if check == Fine then ClosesQueued(Operation(ready, id, work)) else !Retirable()
      case CloseRequest(wellFormed, known) =>
        && wellFormed && attached && controls && !failed
        && ClosesQueued(Operation(None, id, CloseWindow(known)))
      case ReleaseInput(wellFormed, addressed) => wellFormed && Entitled(addressed) && !Retirable()
      case Terminate(wellFormed, supported, _) =>
        wellFormed && attached && !failed && controls && supported && !Retirable()
      case _ => false
    }

    /** The accepted requests whose replies this request, if it leaves the viewer attached, causes to be skipped. */
    ghost function Skips(id: nat, m: Method): multiset<nat>
      reads this`attached, this`failed, this`controls, this`ready, this`awaiting, this`mode, this`dirty, this`capture
      reads this`capacity, this`framePending, native, order
    {
      match m
      case FrameAck(frame) => AckSkips(frame)
      case Configure(mode) =>
        if mode.Some? && mode != this.mode then Wasted(true, capture, |awaiting|, 2, framePending, native.room)
          else multiset{}
      case Refresh => Wasted(true, capture, |awaiting|, capacity, framePending, native.room)
      case Input(addressed, check, work) =>
        if Entitled(addressed) && check == Fine then SkipsQueued(Operation(ready, id, work))
          else multiset{}
      case CloseRequest(wellFormed, known) =>
        if wellFormed && attached && controls && !failed
        then SkipsQueued(Operation(None, id, CloseWindow(known))) else multiset{}
      case SelectWindow(wellFormed, _) => if wellFormed && attached && controls then Stranded() else multiset{}
      case _ => multiset{}
    }

    /** What a request is told that is answered at once; the others are answered from the queue. */
    ghost function ReplyTo(m: Method): Option<What>
      reads this`attached, this`failed, this`controls, this`ready, this`awaiting
      reads native`target, native`waiting, native`closed, native`room, order`pending
    {
      match m
      case Status => Some(Described)
      case FrameAck(frame) => Some(if Acks(frame) then Painted else Refused)
      case Configure(mode) => Some(if mode.Some? then Described else Refused)
      case Refresh => Some(Described)
      case Input(addressed, check, _) => if Entitled(addressed) && check == Fine then None else Some(Refused)
      case ReleaseInput(wellFormed, addressed) => Some(if wellFormed && Entitled(addressed) then Discarded else Refused)
      case SelectWindow(wellFormed, known) =>
        Some(if wellFormed && controls && Askable(true, known) then Requested else Refused)
      case CloseRequest(wellFormed, known) =>
        if wellFormed && controls && !failed then None
        else Some(if wellFormed && controls && Askable(false, known) then Requested else Refused)
      case Terminate(wellFormed, supported, works) =>
        Some(if wellFormed && attached && !failed && controls && supported && works then Discarded else Refused)
      case Unknown => Some(Refused)
    }

    /** Whether this request, once carried out, has taken back what the viewer painted. */
    ghost predicate Revokes(m: Method)
      reads this`attached, this`failed, this`controls
    {
      || (m.SelectWindow? && m.wellFormed && attached && controls)
      || (m.Terminate? && m.wellFormed && m.supported && attached && !failed && controls)
    }

    /** Whether a request is about what the viewer sees; the others are about what it does. */
    ghost predicate Watching(m: Method) {
      m.Status? || m.Configure? || m.Refresh? || m.Unknown?
    }

    /**
     A request has been carried out: it is in the account, answered or queued as it
     has to be, and skipped what it had to.
     */
    twostate predicate Handled(id: nat, m: Method, ok: bool)
      reads this, order, native
    {
      && (keepsUp && old(attached) ==> (attached && ok) == !old(Closes(id, m)))
      && (old(Queued(id, m)).Some? ==> Serves(old(Queued(id, m)).value, ok))
      && (attached && ok ==>
            && Account() == old(Account()) + multiset{id}
            && lost == old(lost) + old(Skips(id, m))
            && (old(ReplyTo(m)).Some? ==> Reply(id, old(ReplyTo(m)).value) in replies)
            && (old(Revokes(m)) ==> ready.None? && awaiting == [])
            && (!old(Revokes(m)) && (m.ReleaseInput? || m.Terminate?) ==>
                  ready == old(ready) && awaiting == old(awaiting)))
    }

    method Handle(id: nat, m: Method) returns (ok: bool)
      requires Inv() && Quiet() && !order.draining && !order.closed && order.claimed <= id <= lastRequest
      requires m.Input? ==> !m.work.CloseWindow?
      modifies this, order, native
      ensures Inv() && Quiet() && Carried() && order.claimed <= lastRequest + 1
      ensures Handled(id, m, ok)
      ensures Foretold(old(SmoothRequest(Now(), id, m)), ok)
    {
      hide Account, Core, Quiet, Inv, Carried, Handled, SmoothRequest, Foretold;
      match m
      case Input(addressed, check, work) =>
        ok := HandleInput(id, addressed, check, work);
      case ReleaseInput(_, _) =>
        ok := HandleEnd(id, m);
      case Terminate(_, _, _) =>
        ok := HandleEnd(id, m);
      case SelectWindow(_, _) =>
        ok := HandleWindow(id, m);
      case CloseRequest(_, _) =>
        ok := HandleWindow(id, m);
      case FrameAck(frame) =>
        ok := HandleAck(id, frame);
      case _ =>
        ok := HandleView(id, m);
    }

    method HandleAck(id: nat, frame: Option<nat>) returns (ok: bool)
      requires Inv() && Quiet() && !order.draining && order.claimed <= id <= lastRequest
      modifies this, order, native
      ensures Inv() && Quiet() && Carried() && order.claimed <= lastRequest + 1
      ensures Handled(id, FrameAck(frame), ok)
      ensures Foretold(old(SmoothRequest(Now(), id, FrameAck(frame))), ok)
    {
      hide Account, Core, Quiet, Inv, Wasted, AckSkips, OrderedInput.Idle, Asking;
      ok := Acknowledge(id, frame);
    }

    method HandleView(id: nat, m: Method) returns (ok: bool)
      requires Inv() && Quiet() && !order.draining && order.claimed <= id <= lastRequest && Watching(m)
      modifies this, order, native
      ensures Inv() && Quiet() && Carried() && order.claimed <= lastRequest + 1
      ensures Handled(id, m, ok)
      ensures Foretold(old(SmoothRequest(Now(), id, m)), ok)
    {
      hide Account, Core, Quiet, Inv, Wasted, AckSkips, OrderedInput.Idle, Asking, Serves, Ended;
      match m
      case Status =>
        ok := Answer(id, Described);
      case Configure(mode) =>
        ok := Pace(id, mode, mode.Some?);
      case Refresh =>
        assert Now().(capacity := capacity, dirty := true) == Now().(dirty := true);
        ok := Pace(id, None, true);
      case Unknown =>
        ok := Answer(id, Refused);
    }

    method HandleInput(id: nat, addressed: Option<Target>, check: Check, work: Work) returns (ok: bool)
      requires Inv() && Quiet() && !order.draining && !order.closed && order.claimed <= id <= lastRequest
      requires !work.CloseWindow?
      modifies this, order, native
      ensures Inv() && Quiet() && Carried() && order.claimed <= lastRequest + 1
      ensures Handled(id, Input(addressed, check, work), ok)
      ensures Foretold(old(SmoothRequest(Now(), id, Input(addressed, check, work))), ok)
    {
      hide Account, Core, Quiet, Inv, SkipsQueued, ClosesQueued, Stranded, Retirable, OrderedInput.Idle, Serves;
      ok := EnqueueInput(id, addressed, check, work);
    }

    /** Requests that discard what is pending. */
    method HandleEnd(id: nat, m: Method) returns (ok: bool)
      requires Inv() && Quiet() && !order.draining && !order.closed && order.claimed <= id <= lastRequest
      requires m.ReleaseInput? || m.Terminate?
      modifies this, order, native
      ensures Inv() && Quiet() && Carried() && order.claimed <= lastRequest + 1
      ensures Handled(id, m, ok)
      ensures Foretold(old(SmoothRequest(Now(), id, m)), ok)
    {
      hide Account, Core, Quiet, Inv, Stranded, Retirable, OrderedInput.Idle;
      match m
      case ReleaseInput(wellFormed, addressed) =>
        ok := Dispose(id, wellFormed && Controllable() && Matches(addressed), false, true);
      case Terminate(wellFormed, supported, works) =>
        ok := Dispose(id, wellFormed && Controllable() && supported, true, works);
    }

    method HandleWindow(id: nat, m: Method) returns (ok: bool)
      requires Inv() && Quiet() && !order.draining && !order.closed && order.claimed <= id <= lastRequest
      requires m.SelectWindow? || m.CloseRequest?
      modifies this, order, native
      ensures Inv() && Quiet() && Carried() && order.claimed <= lastRequest + 1
      ensures Handled(id, m, ok)
      ensures Foretold(old(SmoothRequest(Now(), id, m)), ok)
    {
      hide Account, Core, Quiet, Inv, SkipsQueued, ClosesQueued, Stranded, Retirable, Askable, Carried, Serves;
      hide OrderedInput.Idle, OrderedInput.Owed, Wasted, AckSkips;
      match m
      case SelectWindow(wellFormed, known) =>
        ok := OnWindow(id, false, wellFormed, known);
      case CloseRequest(wellFormed, known) =>
        ok := OnWindow(id, true, wellFormed, known);
    }

    // ---- runs -------------------------------------------------------------------------

    /** Between events: every request taken is accounted for, and none is lost while native control is open. */
    ghost predicate Balanced()
      reads this, order, native
    {
      && Inv() && Quiet() && !order.draining && order.hand.None?
      && Rising(accepted, lastRequest + 1)
      && (attached ==> Account() == multiset(accepted))
      && (!native.closed ==> lost == multiset{})
      && (order.closed ==> !attached)
    }

    // What the events below use and restore, without looking into `Balanced`.

    lemma Sound()
      requires Balanced()
      ensures Inv() && Quiet() && !order.draining && order.hand.None? && order.claimed <= lastRequest + 1
      ensures (order.closed ==> !attached) && (!native.closed ==> lost == multiset{})
    {
    }

    twostate lemma StillBalanced()
      requires old(Balanced()) && Inv() && Quiet()
      requires order.draining == old(order.draining) && order.hand == old(order.hand)
      requires accepted == old(accepted) && lastRequest == old(lastRequest)
      requires attached ==> old(attached) && Account() == old(Account())
      requires order.closed ==> old(order.closed) || !attached
      requires !native.closed ==> !old(native.closed) && lost == old(lost)
      ensures Balanced()
    {
    }

    /**
     The accepted requests that are skipped for good by this event, if it leaves
     the viewer attached. Nothing is skipped once native control has ended.
     */
    ghost function Doomed(e: Event): multiset<nat>
      reads this, native, order
    {
      if !attached || native.closed then multiset{}
      else
        match e
        case Message(id, m) => if id > lastRequest then Skips(id, m) else multiset{}
        case Scene(_) => Stranded()
        case Adapter(ticket, failed) =>
          if order.pending != Some(ticket) then multiset{}
          else if failed then Skipped(native.room == 0, ticket.request)
          else Victims(Prospect())
        case GivesUp(ticket) =>
          Skipped(order.pending == Some(ticket) && native.room == Records() - 1, ticket.request)
        case TextMoves(ticket) =>
          Skipped(Moving(ticket) && native.target != Some(ticket.target) && native.room == 0, ticket.request)
        case Timeout(ticket) =>
          Skipped(order.pending == Some(ticket) && native.room < Records(), ticket.request)
        case Environment(viewerReads, compositorReads, damaged) =>
          if viewerReads.None? && !damaged then multiset{}
          else Wasted(dirty || damaged, capture, |awaiting|, capacity, framePending && viewerReads.None?,
                      if compositorReads.Some? then compositorReads.value else native.room)
        case Arrived(target, picture) => PictureSkips(target, picture)
        case Control(gained) => if gained then multiset{} else Stranded()
        case _ => multiset{}
    }

    // What an attached viewer loses; after the end of native control each of these is nothing.

    lemma DoomedMessage(id: nat, m: Method)
      requires attached
      ensures Doomed(Message(id, m)) == if id > lastRequest then Skips(id, m) else multiset{}
    {
    }

    lemma DoomedRetirement(e: Event)
      requires attached && (e.Scene? || e == Control(false))
      ensures Doomed(e) == Stranded() && (native.closed ==> Doomed(e) == multiset{})
    {
    }

    lemma DoomedPicture(target: Target, picture: Picture)
      requires attached
      ensures Doomed(Arrived(target, picture)) == PictureSkips(target, picture)
    {
    }

    lemma DoomedProgress(viewerReads: Option<nat>, compositorReads: Option<nat>, damaged: bool)
      requires attached
      ensures Doomed(Environment(viewerReads, compositorReads, damaged)) ==
        if viewerReads.None? && !damaged then multiset{} else
        Wasted(dirty || damaged, capture, |awaiting|, capacity, framePending && viewerReads.None?,
               if compositorReads.Some? then compositorReads.value else native.room)
    {
    }

    lemma NoneDoomed(e: Event)
      requires e.CaptureChild? || e.Closed? || e.Left? || e.Shut? || e == Control(true)
      ensures Doomed(e) == multiset{}
    {
    }

    /** Whether this event closes a viewer that keeps up. */
    ghost predicate Fatal(e: Event)
      reads this, native, order
    {
      match e
      case Message(id, m) => id > lastRequest && Closes(id, m)
      case Left => true
      case Shut => true
      case _ => false
    }

    /** Where nothing fails, the state after this event is the one that `Smooth` computes. */
    twostate predicate Smoothly(e: Event)
      reads this, order, native
    {
      keepsUp && old(attached && Smooth(Now(), e).Some?) ==> Now() == old(Smooth(Now(), e)).value
    }

    twostate lemma Foreseen(e: Event)
      requires keepsUp && old(attached && Smooth(Now(), e).Some?) ==> Becomes(old(Smooth(Now(), e)))
      ensures Smoothly(e)
    {
    }

    /** The compositor has answered this delivery's barrier or its text. */
    predicate Moving(ticket: Ticket)
      reads native`waiting, order`pending
    {
      order.pending == Some(ticket) && (native.waiting == AtFirst || native.waiting == AtText)
    }

    /** One message of the viewer. An exception closes the viewer; a request out of sequence is only refused. */
    method Receive(id: nat, m: Method)
      requires Balanced() && (m.Input? ==> !m.work.CloseWindow?)
      modifies this, order, native
      ensures Balanced()
      ensures accepted == if old(attached && id > lastRequest) then old(accepted) + [id] else old(accepted)
      ensures attached ==> lost == old(lost) + old(Doomed(Message(id, m)))
      ensures keepsUp ==> attached == old(attached && !Fatal(Message(id, m)))
      ensures Smoothly(Message(id, m))
    {
      hide Core, Account, Quiet, Doomed, Skips, Closes, SmoothRequest;
      if attached {
        DoomedMessage(id, m);
      }
      if !attached {
        return;
      }
      if id <= lastRequest {
        var _ := Tell();
      } else {
        Accept(id);
        Request(id, m);
      }
    }

    /** An accepted request. */
    method Request(id: nat, m: Method)
      requires Inv() && Quiet() && !order.draining && order.hand.None? && !order.closed && attached
      requires order.claimed <= id == lastRequest && (m.Input? ==> !m.work.CloseWindow?)
      requires !native.closed ==> lost == multiset{}
      modifies this, order, native
      ensures Inv() && Quiet() && Carried()
      ensures attached ==> Account() == old(Account()) + multiset{id}
      ensures attached ==> lost == old(lost) + old(Skips(id, m))
      ensures attached && old(ReplyTo(m)).Some? ==> Reply(id, old(ReplyTo(m)).value) in replies
      ensures keepsUp ==> attached == !old(Closes(id, m))
      ensures Foretold(old(SmoothRequest(Now(), id, m)), true)
    {
      hide Core, Account, Skips, Closes, SmoothRequest, ReplyTo;
      var ok := Handle(id, m);
      if !ok {
        ok := Detach();
      }
    }

    method Accept(id: nat)
      requires Balanced() && attached && id > lastRequest
      modifies this`lastRequest, this`accepted
      ensures Inv() && Quiet() && order.claimed <= id && lastRequest == id
      ensures accepted == old(accepted) + [id] && Rising(accepted, id + 1)
      ensures Account() == old(Account()) && multiset(accepted) == old(multiset(accepted)) + multiset{id}
    {
      hide Account, OrderedInput.Ordered;
      lastRequest, accepted := id, accepted + [id];
    }

    /** `DesktopApplication.takeover`: the previous controller's input is retired before it stops being one. */
    method LoseControl()
      requires Balanced()
      modifies this, order, native
      ensures Balanced() && accepted == old(accepted) && order.Idle()
      ensures attached ==> controls == old(controls && !Retirable())
      ensures !old(attached) ==> !controls
      ensures keepsUp ==> attached == old(attached)
      ensures attached ==> lost == old(lost) + old(Doomed(Control(false)))
      ensures Smoothly(Control(false))
    {
      hide Core, Account, Quiet, Doomed, Stranded, Balanced, Smoothly, Becomes, Retirable;
      if attached {
        DoomedRetirement(Control(false));
      }
      Sound();
      Relinquish();
      StillBalanced();
      Foreseen(Control(false));
    }

    method Relinquish()
      requires Inv() && Quiet()
      modifies this, order, native
      ensures Inv() && Quiet() && order.Idle() && accepted == old(accepted) && lastRequest == old(lastRequest)
      ensures order.draining == old(order.draining) && order.hand == old(order.hand)
      ensures order.closed == old(order.closed)
      ensures (attached ==> old(attached)) && (keepsUp ==> attached == old(attached))
      ensures attached ==> controls == old(controls && !Retirable()) && Account() == old(Account())
      ensures !old(attached) ==> !controls
      ensures lost == old(lost) + old(Stranded()) && (!native.closed ==> !old(native.closed) && lost == old(lost))
      ensures keepsUp && old(attached && !native.closed && native.room >= Retirement(Now())) ==>
        Becomes(Some(old(Retired(Now())).(controls := false)))
    {
      hide Account, Core, Stranded;
      var ok := RetireInput();
      if ok {
        controls := false;
      }
    }

    /** The compositor announces another scene. */
    method ObserveScene(window: Option<nat>)
      requires Balanced()
      modifies this, order, native
      ensures Balanced() && accepted == old(accepted)
      ensures !old(native.closed) ==> order.Idle() && ready.None? && awaiting == []
      ensures !native.closed ==>
        native.target == if window.Some? then Some(Target(window.value, old(native.generation) + 1)) else None
      ensures keepsUp ==> attached == old(attached)
      ensures attached ==> lost == old(lost) + old(Doomed(Scene(window)))
      ensures Smoothly(Scene(window))
    {
      hide Core, Account, Quiet, Inv, Doomed, Stranded, Balanced, Smoothly, Becomes, Asking;
      if attached {
        DoomedRetirement(Scene(window));
      }
      Sound();
      if !native.closed {
        Rescene(window);
      }
      StillBalanced();
      Foreseen(Scene(window));
    }

    method Rescene(window: Option<nat>)
      requires Inv() && Quiet() && !native.closed
      modifies this, order, native
      ensures Inv() && Quiet() && order.Idle() && accepted == old(accepted) && lastRequest == old(lastRequest)
      ensures order.draining == old(order.draining) && order.hand == old(order.hand)
      ensures order.closed == old(order.closed)
      ensures (attached ==> old(attached) && Account() == old(Account())) && (keepsUp ==> attached == old(attached))
      ensures lost == old(lost) + old(Stranded()) && (!native.closed ==> lost == old(lost))
      ensures ready.None? && awaiting == []
      ensures !native.closed ==>
        native.target == if window.Some? then Some(Target(window.value, old(native.generation) + 1)) else None
      ensures keepsUp && old(attached) ==> Becomes(old(Smooth(Now(), Scene(window))))
    {
      hide Account, Core, Quiet, Stranded, Asking;
      Announce(window);
      var _ := SceneChanged();
    }

    method Announce(window: Option<nat>)
      requires Inv() && Quiet() && !native.closed
      modifies native`generation, native`target
      ensures Inv() && Quiet() && native.generation == old(native.generation) + 1
      ensures native.target == if window.Some? then Some(Target(window.value, native.generation)) else None
    {
      native.generation := native.generation + 1;
      native.target := if window.Some? then Some(Target(window.value, native.generation)) else None;
    }

    /** A drain skips the replies its simulation says. */
    lemma EndedSkips(s: Served, was: multiset<nat>, ok: bool)
      requires Ended(s, was, ok)
      ensures lost == was + Victims(s)
    {
    }

    lemma RetreatedSkips(request: nat, room: nat, need: nat, was: multiset<nat>, ok: bool)
      requires Retreated(request, room, need, was, ok)
      ensures lost == was + Skipped(room < need, request)
    {
    }

    /** The adapter answers for a delivery; whatever it was waiting for has come or is not needed any more. */
    method AdapterAnswers(ticket: Ticket, failed: bool)
      requires Balanced()
      modifies this, order, native
      ensures Balanced() && accepted == old(accepted)
      ensures old(order.pending) != Some(ticket) ==> unchanged(this) && unchanged(order) && unchanged(native)
      ensures old(order.pending) == Some(ticket) && attached ==> Told(ticket.request, failed)
      ensures keepsUp ==> attached == old(attached)
      ensures attached ==> lost == old(lost) + old(Doomed(Adapter(ticket, failed)))
    {
      hide Core, Account, Quiet, Stranded, Ended, Retreated, Victims, Skips, Wasted, PictureSkips, Balanced;
      Sound();
      if order.pending == Some(ticket) {
        ghost var was, open, room := lost, !native.closed, native.room;
        native.Watch(this, Nothing);
        ghost var prospect := Prospect();
        if !failed {
          order.Confirm(this, ticket.request, failed);
        }
        var ok := order.Finish(this, ticket, failed);
        if attached && open {
          if failed {
            RetreatedSkips(ticket.request, room, 1, was, ok);
          } else {
            EndedSkips(prospect, was, ok);
          }
        }
      }
      StillBalanced();
    }

    /**
     The adapter gives up on a delivery by itself: it withdraws its own barrier
     first, and answers only if that does not raise.
     */
    method AdapterGivesUp(ticket: Ticket)
      requires Balanced()
      modifies this, order, native
      ensures Balanced() && accepted == old(accepted)
      ensures old(order.pending) != Some(ticket) ==> unchanged(this) && unchanged(order) && unchanged(native)
      ensures old(order.pending) == Some(ticket) ==> order.Idle()
      ensures keepsUp ==> attached == old(attached)
      ensures attached ==> lost == old(lost) + old(Doomed(GivesUp(ticket)))
    {
      hide Core, Account, Quiet, Stranded, Skips, Wasted, PictureSkips, Balanced;
      Sound();
      if order.pending == Some(ticket) {
        var ok := native.CancelText(this);
        if ok {
          ok := order.Finish(this, ticket, true);
        }
      }
      StillBalanced();
    }

    /** The compositor answered a Wayland delivery's barrier or its text: the next record of the delivery is sent. */
    method TextProceeds(ticket: Ticket)
      requires Balanced()
      modifies this, order, native
      ensures Balanced() && accepted == old(accepted)
      ensures !old(Moving(ticket)) ==> unchanged(this) && unchanged(order) && unchanged(native)
      ensures old(Moving(ticket) && native.target == Some(ticket.target) && native.room > 0) ==>
        && unchanged(this) && unchanged(order)
        && Stage(native.waiting) == old(Stage(native.waiting)) + 1
        && native.sent == old(native.sent) +
          [Command(ticket.request, old(Stage(native.waiting)), ticket.target, Some(ticket.target), true, true)]
      ensures old(Moving(ticket) && (native.target != Some(ticket.target) || native.room == 0)) ==> order.Idle()
      ensures keepsUp ==> attached == old(attached)
      ensures attached ==> lost == old(lost) + old(Doomed(TextMoves(ticket)))
    {
      hide Core, Account, Quiet, Stranded, Skips, Wasted, PictureSkips, Balanced;
      Sound();
      if Moving(ticket) {
        if native.target.Some? {
          Open();
        }
        var ok := Proceed(ticket);
        if !ok && order.pending == Some(ticket) {
          ok := order.Finish(this, ticket, true);
        }
      }
      StillBalanced();
    }

    /** `issue`. The answered request is no longer outstanding, so a refused one leaves no barrier behind. */
    method Proceed(ticket: Ticket) returns (ok: bool)
      requires Inv() && Quiet() && Moving(ticket)
      modifies this, order, native
      ensures Inv() && Quiet() && Steady() && lost == old(lost)
      ensures attached ==> Account() == old(Account())
      ensures ok == old(!native.closed && native.room > 0 && native.target == Some(ticket.target))
      ensures ok ==>
        && unchanged(this) && unchanged(order)
        && Stage(native.waiting) == old(Stage(native.waiting)) + 1
        && native.sent == old(native.sent) +
          [Command(ticket.request, old(Stage(native.waiting)), ticket.target, Some(ticket.target), true, true)]
      ensures !ok && old(!native.closed && native.target == Some(ticket.target)) ==> native.closed && order.Idle()
      ensures !ok && !old(!native.closed && native.target == Some(ticket.target)) ==>
        && unchanged(this) && unchanged(order) && native.waiting == Nothing
        && unchanged(native`closed, native`room, native`target, native`sent)
    {
      hide Account, Inv, Quiet;
      var step := Stage(native.waiting);
      InFlight(ticket);
      if native.target != Some(ticket.target) || native.closed {
        native.Watch(this, Nothing);
        return false;
      }
      BehindMore(native.sent, 3 * ticket.request + step, 3 * ticket.request + step + 1);
      native.Watch(this, if native.waiting == AtFirst then AtText else AtLast);
      ok := native.Submit(this, ticket.request, step, ticket.target);
    }

    /** A delivery in flight is the last admission, of an attached controller, on a painted target. */
    lemma InFlight(ticket: Ticket)
      requires Inv() && order.pending == Some(ticket)
      ensures attached && controls && ticket.target in painted && Following(order.admissions) == ticket.request + 1
      ensures native.waiting != Nothing ==> Behind(native.sent, 3 * ticket.request + Stage(native.waiting))
    {
    }

    /** `close`. */
    method Close()
      requires Balanced()
      modifies this, order, native
      ensures Balanced() && accepted == old(accepted) && !attached && order.closed && order.Idle()
    {
      hide Core, Account, Quiet, Balanced;
      Sound();
      var ok := Detach();
      ok := order.Close(this);
      StillBalanced();
    }

    /** Time runs out for a delivery. */
    method TimesOut(ticket: Ticket)
      requires Balanced()
      modifies this, order, native
      ensures Balanced() && accepted == old(accepted)
      ensures old(order.pending) != Some(ticket) ==> unchanged(this) && unchanged(order) && unchanged(native)
      ensures old(order.pending) == Some(ticket) ==> order.Idle() && (attached ==> Told(ticket.request, true))
      ensures keepsUp ==> attached == old(attached)
      ensures attached ==> lost == old(lost) + old(Doomed(Timeout(ticket)))
    {
      hide Core, Account, Quiet, Stranded, Skips, Wasted, PictureSkips, Balanced;
      Sound();
      var _ := order.Expired(this, ticket);
      StillBalanced();
    }

    /** The capture child answers. */
    method PictureArrives(target: Target, picture: Picture)
      requires Balanced()
      modifies this, order, native
      ensures Balanced() && accepted == old(accepted)
      ensures keepsUp ==> attached == old(attached)
      ensures attached ==> lost == old(lost) + old(Doomed(Arrived(target, picture)))
      ensures Smoothly(Arrived(target, picture))
    {
      hide Core, Account, Quiet, Doomed, PictureSkips, Balanced;
      if attached {
        DoomedPicture(target, picture);
      }
      Sound();
      var _ := Captured(target, picture);
      StillBalanced();
    }

    /** The compositor's connection ends. */
    method ChannelEnds()
      requires Balanced()
      modifies this, order, native
      ensures Balanced() && accepted == old(accepted) && native.closed && lost == old(lost)
      ensures (attached ==> old(attached))
      ensures keepsUp ==> attached == old(attached)
    {
      hide Core, Account, Quiet, Balanced;
      Sound();
      if !native.closed {
        native.Lost(this);
      }
      StillBalanced();
    }

    /** The viewer's connection ends. */
    method Leave()
      requires Balanced()
      modifies this, order, native
      ensures Balanced() && accepted == old(accepted) && !attached && order.Idle()
    {
      hide Core, Account, Quiet, Balanced;
      Sound();
      var _ := Detach();
      StillBalanced();
    }

    /** Either side reads what was buffered for it, and damage is noted; both but the compositor's reading pump. */
    method Progress(viewerReads: Option<nat>, compositorReads: Option<nat>, damaged: bool)
      requires Balanced()
      modifies this, order, native
      ensures Balanced() && accepted == old(accepted)
      ensures keepsUp ==> attached == old(attached)
      ensures attached ==> lost == old(lost) + old(Doomed(Environment(viewerReads, compositorReads, damaged)))
      ensures Smoothly(Environment(viewerReads, compositorReads, damaged))
    {
      hide Core, Account, Quiet, Inv, Doomed, Wasted, Balanced, Asking, Becomes, Smoothly;
      hide OrderedInput.Owed, OrderedInput.Ordered;
      if viewerReads.None? && !damaged {
        Relieve(compositorReads);
        return;
      }
      if attached {
        DoomedProgress(viewerReads, compositorReads, damaged);
      }
      Sound();
      Refresh(viewerReads, compositorReads, damaged);
      StillBalanced();
      Foreseen(Environment(viewerReads, compositorReads, damaged));
    }

    /** The compositor reads what was buffered for it, and nothing else happens. */
    method Relieve(compositorReads: Option<nat>)
      requires Balanced()
      modifies this, order, native
      ensures Balanced() && accepted == old(accepted) && attached == old(attached) && lost == old(lost)
      ensures attached ==> old(Doomed(Environment(None, compositorReads, false))) == multiset{}
      ensures Smoothly(Environment(None, compositorReads, false))
    {
      hide Core, Account, Quiet, Inv, Doomed, Wasted, Balanced, Asking, Becomes, Smoothly;
      if attached {
        DoomedProgress(None, compositorReads, false);
      }
      Sound();
      Drained(None, compositorReads, false);
      Unmoved();
      StillBalanced();
      Foreseen(Environment(None, compositorReads, false));
    }

    method Refresh(viewerReads: Option<nat>, compositorReads: Option<nat>, damaged: bool)
      requires Inv() && Quiet() && (viewerReads.Some? || damaged)
      modifies this, order, native
      ensures Inv() && Quiet() && Carried()
      ensures keepsUp ==> attached == old(attached)
      ensures attached ==> Account() == old(Account())
      ensures lost == old(lost) +
        old(Wasted(dirty || damaged, capture, |awaiting|, capacity, framePending && viewerReads.None?,
                   if compositorReads.Some? then compositorReads.value else native.room))
      ensures Becomes(old(Progressed(Now(), viewerReads, compositorReads, damaged)))
    {
      hide Core, Account, Quiet, Inv, Wasted, Pumpable, Asking, Becomes, OrderedInput.Idle, Fixed;
      Drained(viewerReads, compositorReads, damaged);
      Pump();
    }

    method Drained(viewerReads: Option<nat>, compositorReads: Option<nat>, damaged: bool)
      modifies this`viewerRoom, this`framePending, this`dirty, native`room
      ensures Now() == old(Now()).(framePending := old(framePending) && viewerReads.None?,
                                   dirty := old(dirty) || damaged,
                                   room := if compositorReads.Some? then compositorReads.value else old(native.room))
      ensures viewerRoom == if viewerReads.Some? then viewerReads.value else old(viewerRoom)
    {
      if viewerReads.Some? {
        viewerRoom, framePending := viewerReads.value, false;
      }
      if compositorReads.Some? {
        native.room := compositorReads.value;
      }
      dirty := dirty || damaged;
    }

    /** Control gained, and the state of the capture child. */
    method Settings(control: bool, capturing: Capturing)
      requires Balanced() && (controls ==> control)
      modifies this`controls, native`capturing
      ensures Balanced() && Now() == old(Now()).(controls := control, capturing := capturing) && lost == old(lost)
    {
      hide Core, Account, Quiet;
      controls, native.capturing := control, capturing;
    }

    twostate lemma NotSmooth(e: Event)
      requires || old(Smooth(Now(), e)).None?
               || (e.CaptureChild? && Now() == old(Now()).(capturing := e.capturing))
               || (e == Control(true) && Now() == old(Now()).(controls := true))
      ensures Smoothly(e)
    {
    }

    /**
     Any event keeps the viewer balanced. It skips exactly the replies of `Doomed`
     and closes a viewer that keeps up exactly when it is `Fatal`: both are said
     of the state before it, by the room left for records and the work waiting.
     */
    method Apply(e: Event)
      requires Balanced() && (e.Message? && e.m.Input? ==> !e.m.work.CloseWindow?)
      modifies this, order, native
      ensures Balanced()
      ensures accepted == if e.Message? && old(attached && e.id > lastRequest) then old(accepted) + [e.id]
        else old(accepted)
      ensures attached ==> lost == old(lost) + old(Doomed(e))
      ensures keepsUp ==> attached == old(attached && !Fatal(e))
      ensures Smoothly(e) && (e.Closed? ==> native.closed)
    {
      hide Balanced, Doomed, Smoothly;
      if e.CaptureChild? || e.Closed? || e.Left? || e.Shut? || e == Control(true) {
        NoneDoomed(e);
      }
      match e {
      case Message(id, m) =>
        Receive(id, m);
      case Scene(window) =>
        ObserveScene(window);
      case Adapter(ticket, failed) =>
        AdapterAnswers(ticket, failed);
      case GivesUp(ticket) =>
        AdapterGivesUp(ticket);
      case TextMoves(ticket) =>
        TextProceeds(ticket);
      case Timeout(ticket) =>
        TimesOut(ticket);
      case Environment(viewerReads, compositorReads, damaged) =>
        Progress(viewerReads, compositorReads, damaged);
      case CaptureChild(capturing) =>
        Settings(controls, capturing);
      case Arrived(target, picture) =>
        PictureArrives(target, picture);
      case Control(gained) =>
        if gained {
          Settings(true, native.capturing);
        } else {
          LoseControl();
        }
      case Closed =>
        ChannelEnds();
      case Left =>
        Leave();
      case Shut =>
        Close();
      }
      if !e.Scene? && !e.Arrived? && !e.Message? && !e.Environment? && e != Control(false) {
        NotSmooth(e);
      }
    }
  }

  datatype Event =
    | Message(id: nat, m: Method)
    | Scene(window: Option<nat>)
    | Adapter(ticket: Ticket, failed: bool)
    | GivesUp(ticket: Ticket)
    | TextMoves(ticket: Ticket)
    | Timeout(ticket: Ticket)
    | Environment(viewerReads: Option<nat>, compositorReads: Option<nat>, damaged: bool)
    | CaptureChild(capturing: Capturing)
    | Arrived(target: Target, picture: Picture)
    | Control(gained: bool)
    | Closed
    | Left
    | Shut

  // ---- what a viewer can rely on --------------------------------------------------------

  function Messages(events: seq<Event>): nat {
    if events == [] then 0 else (if events[0].Message? then 1 else 0) + Messages(events[1..])
  }

  lemma MessagesFrom(events: seq<Event>, i: nat)
    requires i < |events|
    ensures Messages(events[i..]) == (if events[i].Message? then 1 else 0) + Messages(events[i + 1..])
  {
    assert events[i..][1..] == events[i + 1..];
  }

  lemma {:induction false} AtMostOnce(ids: seq<nat>, bound: nat, id: nat)
    requires Rising(ids, bound)
    ensures multiset(ids)[id] == if id in ids then 1 else 0
  {
    if ids != [] {
      var n := |ids| - 1;
      assert ids == ids[..n] + [ids[n]];
      AtMostOnce(ids[..n], bound, id);
    }
  }

  /**
   While native control is open, every request taken from an attached viewer has
   exactly one reply, or is still owed exactly one by the scheduler; and no
   other request was ever answered.
   */
  lemma ExactlyOneReply(a: DesktopAttachment, id: nat)
    requires a.Balanced() && a.attached
    ensures Ids(a.replies)[id] + a.order.Owed()[id] + a.lost[id] == if id in a.accepted then 1 else 0
    ensures !a.native.closed ==> a.lost[id] == 0
    ensures id in a.accepted && a.order.Idle() && a.lost == multiset{} ==> Ids(a.replies)[id] == 1
  {
    AtMostOnce(a.accepted, a.lastRequest + 1, id);
    assert a.Account()[id] == multiset(a.accepted)[id];
  }

  /**
   Every command that reached the compositor was sent for the controller, for the
   scene that was current, after this viewer painted a frame it was shown of it;
   commands kept the order of their requests and none was sent twice.
   */
  lemma CommandsAuthorized(a: DesktopAttachment, i: nat)
    requires a.Balanced() && i < |a.native.sent|
    ensures var c := a.native.sent[i];
      c.controls && c.current == Some(c.target) && c.painted
    ensures forall j :: i < j < |a.native.sent| ==> Place(a.native.sent[i]) < Place(a.native.sent[j])
  {
    assert a.native.sent[i] in a.native.sent;
  }

  /** A viewer that is not the controller has nothing queued and nothing in flight. */
  lemma OnlyTheController(a: DesktopAttachment)
    requires a.Balanced() && !(a.attached && a.controls && !a.failed)
    ensures a.order.queue == [] && a.order.pending.None?
  {
  }

  /** Deliveries never overlap: whatever is in flight is the only admission without an end. */
  lemma OneDeliveryAtATime(a: DesktopAttachment, i: nat)
    requires a.Balanced() && i < |a.order.admissions|
    ensures (i < |a.order.endings| && a.order.endings[i] == a.order.admissions[i])
         || (i == |a.order.admissions| - 1 && a.order.pending.Some? &&
           a.order.pending.value.request == a.order.admissions[i])
    ensures forall op :: op in a.order.queue ==> a.order.admissions[i] < op.request
  {
    hide Admissible, AllShown, AllAuthorized, InOrder, Behind, Meant, Matched;
    var admissions, queue := a.order.admissions, a.order.queue;
    forall op | op in queue ensures admissions[i] < op.request {
      InRequests(queue, op);
      var all := admissions + Requests(queue);
      var k :| 0 <= k < |Requests(queue)| && Requests(queue)[k] == op.request;
      assert all[|admissions| + k] == op.request && all[i] == admissions[i];
    }
  }

  lemma {:induction false} InRequests(queue: seq<Operation>, op: Operation)
    requires op in queue
    ensures op.request in Requests(queue)
  {
    if op != queue[0] {
      InRequests(queue[1..], op);
    }
  }

  /**
   How much room is always enough: a record for each operation queued and two
   more. Then no event skips a reply, and none closes a viewer that keeps up but
   its own leaving and the 257th operation.
   */
  lemma RoomIsEnough(a: DesktopAttachment, e: Event)
    requires a.Balanced() && a.native.room >= |a.order.queue| + 2
    requires e.Environment? && e.compositorReads.Some? ==> e.compositorReads.value > 0
    ensures a.Doomed(e) == multiset{}
    ensures a.Fatal(e) ==> e.Left? || e.Shut? || (e.Message? && |a.order.queue| == MAX_QUEUE)
  {
    hide DesktopAttachment.Core, DesktopAttachment.Account, Serving, Turn;
    var queue, room, ready, target := a.order.queue, a.native.room, a.ready, a.native.target;
    ServingFits(queue, room, ready, target);
    if e.Message? && e.m.Input? {
      ServingFits(queue + [Operation(ready, e.id, e.m.work)], room, ready, target);
    }
    if e.Message? && e.m.CloseRequest? {
      ServingFits(queue + [Operation(None, e.id, CloseWindow(e.m.known))], room, ready, target);
    }
    AtMostFull(a);
  }

  lemma AtMostFull(a: DesktopAttachment)
    requires a.Balanced()
    ensures |a.order.queue| <= MAX_QUEUE
  {
  }

  /** What the replies say was so: submitted means sent, completed means its adapter completed it. */
  lemma RepliesMean(a: DesktopAttachment, r: Reply)
    requires a.Balanced() && r in a.replies
    ensures r.what == Submitted ==> Reached(a.native.sent, r.id)
    ensures r.what == Completed ==> r.id in a.order.confirmed
  {
  }

  lemma {:induction false} GrantedIds(replies: seq<Reply>, id: nat)
    ensures id in Granted(replies) <==> Reply(id, Requested) in replies
    ensures multiset(Granted(replies))[id] <= Ids(replies)[id]
  {
    if replies != [] {
      var most, last := replies[..|replies| - 1], replies[|replies| - 1];
      assert replies == most + [last];
      GrantedIds(most, id);
    }
  }

  /**
   The window requests that reached the compositor are exactly those that were told
   so, in the order they were told, each once.
   */
  lemma WindowsAsked(a: DesktopAttachment, id: nat)
    requires a.Balanced() && a.attached
    ensures a.native.windows == Granted(a.replies)
    ensures Reply(id, Requested) in a.replies <==> id in a.native.windows
    ensures multiset(a.native.windows)[id] <= 1
  {
    assert Granted(a.replies) + [] == Granted(a.replies);
    GrantedIds(a.replies, id);
    ExactlyOneReply(a, id);
  }

  /** Any run of a viewer's attachment, through every re-entrant failure. */
  method Run(room: nat, viewerRoom: nat, keepsUp: bool, controls: bool, events: seq<Event>)
    returns (a: DesktopAttachment)
    requires forall e :: e in events && e.Message? && e.m.Input? ==> !e.m.work.CloseWindow?
    ensures fresh(a) && fresh(a.order) && fresh(a.native) && a.Balanced()
    ensures |a.accepted| <= Messages(events)
  {
    var native := new NativeDesktop(room);
    a := new DesktopAttachment(native, viewerRoom, keepsUp, controls);
    var i := 0;
    while i < |events|
      invariant i <= |events|
      invariant fresh(a) && fresh(a.order) && fresh(a.native) && a.Balanced()
      invariant |a.accepted| + Messages(events[i..]) <= Messages(events)
    {
      hide DesktopAttachment.Balanced, DesktopAttachment.Doomed, DesktopAttachment.Fatal, DesktopAttachment.Smoothly;
      MessagesFrom(events, i);
      hide Messages;
      assert events[i] in events;
      a.Apply(events[i]);
      i := i + 1;
    }
  }

  // ---- three replies that are skipped ---------------------------------------------------

  const SCENE := Target(1, 1)

  /**
   A controller that keeps up has painted its first frame; two records have gone
   out, and the compositor reads none.
   */
  method Painting(room: nat) returns (a: DesktopAttachment)
    requires room >= 2
    ensures fresh(a) && fresh(a.order) && fresh(a.native) && a.Balanced() && a.attached && a.keepsUp
    ensures a.accepted == [1]
    ensures a.Now() == Snapshot(true, true, false, 1, Some(SCENE), [], 1, true, 1, false, None, [], None,
                                false, room - 2, Some(SCENE), 1, Nothing, Busy)
  {
    hide DesktopAttachment.Balanced, DesktopAttachment.Doomed, DesktopAttachment.Closes;
    var native := new NativeDesktop(room);
    a := new DesktopAttachment(native, 0, true, true);
    Step(a, CaptureChild(Busy));
    Step(a, Scene(Some(1)));
    Step(a, Arrived(SCENE, Image));
    Step(a, Message(1, FrameAck(Some(1))));
  }

  /** The same viewer, with a text in flight. */
  method Delivering(room: nat, route: Route) returns (a: DesktopAttachment)
    requires room >= 3
    ensures fresh(a) && fresh(a.order) && fresh(a.native) && a.Balanced() && a.attached && a.keepsUp
    ensures a.accepted == [1, 2]
    ensures a.Now() == Snapshot(true, true, false, 2, Some(SCENE), [], 1, true, 1, false, None,
                                [], Some(Ticket(2, SCENE, route)),
                                false, room - 3, Some(SCENE), 1, Asked(route), Busy)
  {
    hide DesktopAttachment.Balanced, DesktopAttachment.Doomed, DesktopAttachment.Closes;
    a := Painting(room);
    Step(a, Message(2, Input(Some(SCENE), Fine, Confirm(true, route, Stays))));
  }

  /** An event that fails nothing. */
  method Step(a: DesktopAttachment, e: Event)
    requires a.Balanced() && a.attached && a.keepsUp && Smooth(a.Now(), e).Some?
    requires e.Message? && e.m.Input? ==> !e.m.work.CloseWindow?
    modifies a, a.order, a.native
    ensures a.Balanced() && a.Now() == old(Smooth(a.Now(), e)).value
    ensures a.accepted == old(a.accepted) + if e.Message? then [e.id] else []
  {
    hide DesktopAttachment.Balanced, DesktopAttachment.Doomed, DesktopAttachment.Closes;
    a.Apply(e);
  }

  /** Request `id` of an attached viewer that keeps up was accepted, is not owed a reply any more and never got one. */
  ghost predicate NeverAnswered(a: DesktopAttachment, id: nat)
    reads a, a.order, a.native
  {
    && a.Balanced() && a.attached && a.keepsUp && id in a.accepted
    && id in a.lost && id !in Ids(a.replies) && id !in a.order.Owed()
  }

  lemma LostIsUnanswered(a: DesktopAttachment, id: nat)
    requires a.Balanced() && a.attached && a.keepsUp && id in a.lost
    ensures NeverAnswered(a, id)
  {
    ExactlyOneReply(a, id);
  }

  /** The text's adapter fails it, and there is no room for the release of held keys. */
  method SkippedReply() returns (a: DesktopAttachment)
    ensures fresh(a) && NeverAnswered(a, 2)
  {
    hide DesktopAttachment.Balanced, DesktopAttachment.Closes, NeverAnswered;
    a := Delivering(3, Marker);
    a.Apply(Adapter(Ticket(2, SCENE, Marker), true));
    LostIsUnanswered(a, 2);
  }

  /** The text succeeds, and closing an unknown window behind it fails without room to say so. */
  method SkippedBehind() returns (a: DesktopAttachment)
    ensures fresh(a) && NeverAnswered(a, 3)
  {
    hide DesktopAttachment.Balanced, DesktopAttachment.Closes, NeverAnswered;
    a := Delivering(3, Marker);
    Step(a, Message(3, CloseRequest(true, false)));
    assert a.order.queue == [Operation(None, 3, CloseWindow(false))];
    a.Apply(Adapter(Ticket(2, SCENE, Marker), false));
    LostIsUnanswered(a, 3);
  }

  /** The adapter gives the text up: the last record that fits withdraws its barrier, and the release does not fit. */
  method SkippedWithdrawal() returns (a: DesktopAttachment)
    ensures fresh(a) && NeverAnswered(a, 2)
  {
    hide DesktopAttachment.Balanced, DesktopAttachment.Closes, NeverAnswered;
    a := Delivering(4, Wayland);
    a.Apply(GivesUp(Ticket(2, SCENE, Wayland)));
    LostIsUnanswered(a, 2);
  }
}
