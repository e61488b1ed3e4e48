/**
 Browser-side composition of delta frames across asynchronous decodes
 (desktop_frames.js, `FloeDesktopFrames`).
 */
module Frames {
  import opened Common

  type Pixel = int

  /** Frame metadata; absent numbers are zero and `typed` is whether every number present is an integer. */
  datatype Meta = Meta(known: bool, typed: bool, width: int, height: int, x: int, y: int,
                       regionWidth: int, regionHeight: int, base: int, sequence: int) {
    const w: int := if regionWidth == 0 then width else regionWidth
    const h: int := if regionHeight == 0 then height else regionHeight

    predicate Complete() {
      x == 0 && y == 0 && w == width && h == height
    }
  }

  datatype Packet = Packet(meta: Meta, bytes: seq<byte>)

  /** A decoded bitmap. */
  datatype Image = Image(width: int, height: int, at: (int, int) -> Pixel)

  datatype Canvas = Canvas(width: int, height: int, pixels: map<(int, int), Pixel>)

  const SAFE: int := 9007199254740991
  const BLACK: Pixel := 0

  function Blank(width: int, height: int): Canvas {
    Canvas(width, height, map i, j | 0 <= i < width && 0 <= j < height :: (i, j) := BLACK)
  }

  ghost predicate Covers(m: Meta, i: int, j: int) {
    m.x <= i < m.x + m.w && m.y <= j < m.y + m.h
  }

  /** `drawImage`: the bitmap's rectangle replaces what it covers. */
  function Draw(c: Canvas, m: Meta, image: Image): Canvas {
    c.(pixels := map k | k in c.pixels ::
          if m.x <= k.0 < m.x + m.w && m.y <= k.1 < m.y + m.h then image.at(k.0 - m.x, k.1 - m.y) else c.pixels[k])
  }

  /**
   What a frame must be to be decoded: a known kind, whole numbers, at most 4096
   pixels each way, within the canvas it announces, newer than what is shown; and
   unless it is complete, a change to exactly what is shown.
   */
  ghost predicate Acceptable(m: Meta, sequence: int, c: Canvas) {
    && m.known && m.typed
    && 0 < m.w <= 4096 && 0 < m.h <= 4096 && 0 < m.width <= 4096 && 0 < m.height <= 4096
    && 0 <= m.x <= SAFE && 0 <= m.y <= SAFE && 0 <= m.base <= SAFE
    && -SAFE <= m.sequence <= SAFE && m.sequence > sequence
    && (m.Complete() ==> m.base == 0)
    && m.x + m.w <= m.width && m.y + m.h <= m.height
    && (!m.Complete() ==> m.base != 0 && m.base == sequence && c.width == m.width && c.height == m.height)
  }

  // ---- chains -----------------------------------------------------------------

  datatype Paint = Paint(meta: Meta, image: Image)

  /** A complete frame followed by partial frames, each naming its predecessor. */
  ghost predicate Chain(chain: seq<Paint>) {
    && chain != []
    && chain[0].meta.Complete()
    && (forall k :: 0 < k < |chain| ==>
          && !chain[k].meta.Complete()
          && chain[k].meta.base == chain[k - 1].meta.sequence
          && chain[k - 1].meta.sequence < chain[k].meta.sequence
          && chain[k].meta.width == chain[0].meta.width
          && chain[k].meta.height == chain[0].meta.height)
  }

  ghost function Drawing(chain: seq<Paint>): Canvas
    requires chain != []
  {
    var last := chain[|chain| - 1];
    var under := if |chain| == 1 then Blank(last.meta.width, last.meta.height) else Drawing(chain[..|chain| - 1]);
    Draw(under, last.meta, last.image)
  }

  /** Drawing a complete frame leaves nothing of what was there before. */
  lemma CompleteCovers(c: Canvas, d: Canvas, m: Meta, image: Image)
    requires m.Complete() && c.width == d.width == m.width && c.height == d.height == m.height
    requires OnGrid(c) && OnGrid(d)
    ensures Draw(c, m, image) == Draw(d, m, image)
  {
    assert c.pixels.Keys == d.pixels.Keys;
  }

  ghost predicate OnGrid(c: Canvas) {
    forall k :: k in c.pixels <==> 0 <= k.0 < c.width && 0 <= k.1 < c.height
  }

  /**
   What a chain shows at one point: the pixel of the last frame in it that covers the
   point, and the complete frame it starts with covers every point.
   */
  lemma {:induction false} PointShown(chain: seq<Paint>, i: int, j: int) returns (k: int)
    requires Chain(chain) && 0 <= i < chain[0].meta.width && 0 <= j < chain[0].meta.height
    ensures Shows(chain, k, i, j) && (i, j) in Drawing(chain).pixels
    ensures Drawing(chain).pixels[(i, j)] == chain[k].image.at(i - chain[k].meta.x, j - chain[k].meta.y)
    decreases |chain|
  {
    var n := |chain| - 1;
    hide Draw, Blank;
    if n == 0 {
      k := 0;
      FirstShown(chain, i, j);
    } else {
      var prior, last := chain[..n], chain[n];
      ChainPrefix(chain);
      k := PointShown(prior, i, j);
      hide Chain, Covers;
      assert Drawing(chain) == Draw(Drawing(prior), last.meta, last.image);
      DrawnPoint(Drawing(prior), last.meta, last.image, i, j);
      if Covers(last.meta, i, j) {
        k := n;
      } else {
        StillShown(chain, i, j);
      }
    }
  }

  lemma ChainPrefix(chain: seq<Paint>)
    requires Chain(chain) && |chain| > 1
    ensures Chain(chain[..|chain| - 1]) && chain[..|chain| - 1][0] == chain[0]
  {
  }

  ghost predicate Shows(chain: seq<Paint>, k: int, i: int, j: int) {
    && 0 <= k < |chain| && Covers(chain[k].meta, i, j)
    && (forall l :: k < l < |chain| ==> !Covers(chain[l].meta, i, j))
  }

  lemma FirstShown(chain: seq<Paint>, i: int, j: int)
    requires Chain(chain) && |chain| == 1 && 0 <= i < chain[0].meta.width && 0 <= j < chain[0].meta.height
    ensures (i, j) in Drawing(chain).pixels && Covers(chain[0].meta, i, j)
    ensures Drawing(chain).pixels[(i, j)] == chain[0].image.at(i - chain[0].meta.x, j - chain[0].meta.y)
  {
    var m := chain[0].meta;
    DrawnPoint(Blank(m.width, m.height), m, chain[0].image, i, j);
  }

  lemma DrawnPoint(c: Canvas, m: Meta, image: Image, i: int, j: int)
    requires (i, j) in c.pixels
    ensures (i, j) in Draw(c, m, image).pixels
    ensures Draw(c, m, image).pixels[(i, j)] == if Covers(m, i, j) then image.at(i - m.x, j - m.y) else c.pixels[(i, j)]
  {
  }

  lemma StillShown(chain: seq<Paint>, i: int, j: int)
    requires |chain| > 1 && !Covers(chain[|chain| - 1].meta, i, j)
    ensures forall k :: Shows(chain[..|chain| - 1], k, i, j) ==>
      Shows(chain, k, i, j) && chain[k] == chain[..|chain| - 1][k]
  {
    var n := |chain| - 1;
    forall k | Shows(chain[..n], k, i, j) ensures Shows(chain, k, i, j) {
      assert forall l :: 0 <= l < n ==> chain[..n][l] == chain[l];
    }
  }

  lemma {:induction false} DrawingOnGrid(chain: seq<Paint>)
    requires Chain(chain)
    ensures OnGrid(Drawing(chain))
    ensures Drawing(chain).width == chain[0].meta.width && Drawing(chain).height == chain[0].meta.height
    decreases |chain|
  {
    if |chain| > 1 {
      DrawingOnGrid(chain[..|chain| - 1]);
    }
  }

  lemma DrawKeepsGrid(c: Canvas, m: Meta, image: Image)
    requires OnGrid(c)
    ensures OnGrid(Draw(c, m, image)) && Draw(c, m, image).width == c.width && Draw(c, m, image).height == c.height
  {
  }

  lemma BlankOnGrid(width: int, height: int)
    ensures OnGrid(Blank(width, height)) && Blank(width, height).width == width && Blank(width, height).height == height
  {
  }

  lemma CompleteStarts(under: Canvas, m: Meta, image: Image)
    requires m.Complete() && OnGrid(under) && under.width == m.width && under.height == m.height
    ensures var chain := [Paint(m, image)];
            Chain(chain) && Drawing(chain) == Draw(under, m, image) && OnGrid(Draw(under, m, image))
  {
    BlankOnGrid(m.width, m.height);
    DrawKeepsGrid(under, m, image);
    CompleteCovers(under, Blank(m.width, m.height), m, image);
    hide Draw, Blank, OnGrid;
  }

  lemma PartialExtends(chain: seq<Paint>, m: Meta, image: Image)
    requires Chain(chain) && Acceptable(m, chain[|chain| - 1].meta.sequence, Drawing(chain)) && !m.Complete()
    ensures var longer := chain + [Paint(m, image)];
            Chain(longer) && Drawing(longer) == Draw(Drawing(chain), m, image) && OnGrid(Drawing(longer))
  {
    var longer := chain + [Paint(m, image)];
    assert longer[..|chain|] == chain;
    DrawingOnGrid(chain);
    DrawKeepsGrid(Drawing(chain), m, image);
    hide Draw, Blank, OnGrid;
  }

  // ---- the composer -------------------------------------------------------------

  /** What a consumer's callback may do before it returns. */
  datatype Reaction = Receive(packet: Packet) | Invalidate

  /** Callbacks in the order they were made; a paint records the epochs it started and ended in. */
  datatype Event = Failed(packet: Packet) | Resized(packet: Packet) | Painted(packet: Packet, started: nat, ended: nat)

  /** The paints of a log, in order. */
  ghost function Paintings(log: seq<Event>): seq<Event> {
    if log == [] then []
    else Paintings(log[..|log| - 1]) + if log[|log| - 1].Painted? then [log[|log| - 1]] else []
  }

  lemma PaintingsAppend(log: seq<Event>, e: Event)
    ensures Paintings(log + [e]) == Paintings(log) + if e.Painted? then [e] else []
  {
    assert (log + [e])[..|log|] == log;
  }

  // ---- what a callback comes to -------------------------------------------------------

  /** Everything but the canvas: what decides how callbacks, reports and the queue go. */
  datatype Outlook = Outlook(script: seq<seq<Reaction>>, answers: seq<bool>, queue: seq<Packet>,
                                   job: Option<Packet>, jobEpoch: nat, epoch: nat, sequence: int, log: seq<Event>) {
    const current: bool := job.Some? && jobEpoch == epoch
    const full: bool := |queue| + (if current then 1 else 0) >= 2
    const yes: bool := answers == [] || answers[0]

    ghost function Invalidated(): Outlook {
      this.(queue := [], epoch := epoch + 1, sequence := 0)
    }

    ghost function Asked(): Outlook {
      this.(answers := if answers == [] then [] else answers[1..])
    }

    ghost function Logged(event: Event): Outlook {
      this.(log := log + [event])
    }
  }

  /** A callback is logged and plays the next entry of the script. */
  ghost function Called(s: Outlook, event: Event): (r: Outlook)
    ensures |r.script| <= |s.script| && (|r.script| == |s.script| ==> r == s.Logged(event))
    decreases |s.script|, 0
  {
    if s.script == [] then s.Logged(event) else Reacted(s.Logged(event).(script := s.script[1..]), s.script[0])
  }

  ghost function Reacted(s: Outlook, reactions: seq<Reaction>): (r: Outlook)
    ensures |r.script| <= |s.script|
    decreases |s.script|, |reactions|
  {
    if reactions == [] then s
    else
      match reactions[0]
      case Invalidate => Reacted(s.Invalidated(), reactions[1..])
      case Receive(packet) =>
        if !s.yes then Reacted(s.Asked(), reactions[1..])
        else if s.full then Reacted(Called(s.Asked(), Failed(packet)), reactions[1..])
        else Reacted(s.Asked().(queue := s.queue + [packet]), reactions[1..])
  }

  lemma PlaysScript(s: Outlook, event: Event)
    ensures Called(s, event) ==
      if s.script == [] then s.Logged(event) else Reacted(s.Logged(event).(script := s.script[1..]), s.script[0])
  {
  }

  /** A received packet is not wanted, is one too many, or waits. */
  ghost function Received(s: Outlook, packet: Packet): Outlook {
    if !s.yes then s.Asked()
    else if s.full then Called(s.Asked(), Failed(packet))
    else s.Asked().(queue := s.queue + [packet])
  }

  ghost function After(s: Outlook, reaction: Reaction): Outlook {
    if reaction.Invalidate? then s.Invalidated() else Received(s, reaction.packet)
  }

  lemma FirstReaction(s: Outlook, reactions: seq<Reaction>)
    requires reactions != []
    ensures Reacted(s, reactions) == Reacted(After(s, reactions[0]), reactions[1..])
  {
  }

  lemma NextReaction(s: Outlook, reactions: seq<Reaction>, i: nat)
    requires i < |reactions|
    ensures Reacted(s, reactions[i..]) == Reacted(After(s, reactions[i]), reactions[i + 1..])
  {
    hide Reacted, After;
    FirstReaction(s, reactions[i..]);
    assert reactions[i..][1..] == reactions[i + 1..];
  }

  /** A failed decode is reported, and what waits behind it dropped, unless its target is gone. */
  ghost function Reported(s: Outlook, packet: Packet): Outlook {
    if s.jobEpoch != s.epoch then s
    else if !s.yes then s.Asked()
    else Called(s.Asked().(queue := []), Failed(packet))
  }

  /** One turn of the queue: the first packet is unwanted, refused, or being decoded. */
  ghost function Taken(s: Outlook, canvas: Canvas): (r: Outlook)
    requires s.queue != []
    ensures |r.script| < |s.script| || (|r.script| == |s.script| && |r.queue| < |s.queue|)
  {
    var packet := s.queue[0];
    var t := s.(queue := s.queue[1..], job := Some(packet), jobEpoch := s.epoch);
    if !t.yes then t.Asked().(job := None)
    else if Acceptable(packet.meta, t.sequence, canvas) then t.Asked()
    else Reported(t.Asked(), packet).(job := None)
  }

  /** The queue is served until a decode is in flight. */
  ghost function Drained(s: Outlook, canvas: Canvas): Outlook
    decreases |s.script|, |s.queue|
  {
    if s.queue == [] || s.job.Some? then s else Drained(Taken(s, canvas), canvas)
  }

  /** A packet from outside waits behind a decode in flight, or is taken up at once. */
  ghost function Arrived(s: Outlook, packet: Packet, canvas: Canvas): Outlook {
    if s.job.Some? then Received(s, packet)
    else if !s.yes then s.Asked()
    else Drained(s.Asked().(queue := s.queue + [packet]), canvas)
  }

  ghost predicate SizeDiffers(canvas: Canvas, m: Meta) {
    canvas.width != m.width || canvas.height != m.height
  }

  /** What comes of a decode: a report, nothing at all, or a paint behind a resize when the size differs. */
  ghost function Finished(s: Outlook, decoded: Option<Image>, canvas: Canvas): Outlook
    requires s.job.Some?
  {
    var packet := s.job.value;
    if decoded.None? then Reported(s, packet)
    else if s.jobEpoch != s.epoch then s
    else if !s.yes then s.Asked()
    else if decoded.value.width != packet.meta.w || decoded.value.height != packet.meta.h then
      Reported(s.Asked(), packet)
    else
      var t := if SizeDiffers(canvas, packet.meta) then Called(s.Asked(), Resized(packet)) else s.Asked();
      Called(t.(sequence := packet.meta.sequence), Painted(packet, s.jobEpoch, t.epoch))
  }

  class FloeDesktopFrames {
    var queue: seq<Packet>
    var job: Option<Packet>
    var jobEpoch: nat
    var epoch: nat
    var sequence: int
    var canvas: Canvas

    // The consumer: its answers to `isValid` and its reactions to callbacks.
    var answers: seq<bool>
    var script: seq<seq<Reaction>>

    ghost var chain: seq<Paint>
    ghost var log: seq<Event>

    /** What holds inside every callback as well as between calls. */
    ghost predicate Inv()
      reads this
    {
      && OnGrid(canvas)
      && |queue| + (if job.Some? && jobEpoch == epoch then 1 else 0) <= 2
      && (chain != [] ==> Chain(chain) && canvas == Drawing(chain))
      && sequence >= 0
      && (sequence != 0 ==> chain != [] && chain[|chain| - 1].meta.sequence == sequence)
      && (job.Some? ==> jobEpoch <= epoch)
      && (forall e :: e in log && e.Painted? && e.started != e.ended ==> Resized(e.packet) in log)
    }

    /** A decode in flight still refers to what is on the canvas, unless it was invalidated. */
    ghost predicate Referenced()
      reads this
    {
      job.Some? && jobEpoch == epoch ==> Acceptable(job.value.meta, sequence, canvas)
    }

    /** Between events: a packet waits only behind a decode in flight. */
    ghost predicate Idle()
      reads this
    {
      Inv() && Referenced() && (queue != [] ==> job.Some?)
    }

    constructor (width: nat, height: nat)
      ensures Idle() && chain == [] && canvas == Blank(width, height)
      ensures View() == Outlook([], [], [], None, 0, 0, 0, [])
    {
      queue, job, jobEpoch, epoch, sequence := [], None, 0, 0, 0;
      canvas := Blank(width, height);
      answers, script, chain, log := [], [], [], [];
      new;
      BlankOnGrid(width, height);
      hide OnGrid, Drawing, Chain, Acceptable, Blank;
    }

    ghost predicate NextAnswer()
      reads this
    {
      answers == [] || answers[0]
    }

    method IsValid() returns (valid: bool)
      modifies this`answers
      ensures valid == old(NextAnswer())
      ensures answers == if old(answers) == [] then [] else old(answers)[1..]
    {
      if answers == [] {
        return true;
      }
      valid, answers := answers[0], answers[1..];
    }

    ghost function View(): Outlook
      reads this
    {
      Outlook(script, answers, queue, job, jobEpoch, epoch, sequence, log)
    }

    /** What no callback ever changes. */
    twostate predicate CallbackKeeps()
      reads this
    {
      && job == old(job) && jobEpoch == old(jobEpoch) && canvas == old(canvas) && chain == old(chain)
      && old(epoch) <= epoch && (epoch == old(epoch) ==> sequence == old(sequence))
      && (sequence == old(sequence) || sequence == 0)
      && old(log) <= log && |script| <= |old(script)|
    }

    /** Runs a consumer callback: it may receive and invalidate before returning. */
    method Callback(event: Event)
      requires Inv() && job.Some?
      requires event.Painted? && event.started != event.ended ==> Resized(event.packet) in log
      modifies this
      ensures Inv() && CallbackKeeps() && |log| > |old(log)| && log[|old(log)|] == event
      ensures View() == Called(old(View()), event)
      ensures Paintings(log) == Paintings(old(log)) + if event.Painted? then [event] else []
      decreases |script|, 1
    {
      hide OnGrid, Drawing, Chain, Acceptable, Paintings, Called;
      PaintingsAppend(log, event);
      log := log + [event];
      PlaysScript(old(View()), event);
      if script == [] {
        return;
      }
      var reactions := script[0];
      script := script[1..];
      label start:
      for i := 0 to |reactions|
        invariant Inv() && CallbackKeeps@start() && |script| <= |old@start(script)|
        invariant log[..|old@start(log)|] == old@start(log) && |log| >= |old@start(log)|
        invariant Reacted(View(), reactions[i..]) == Reacted(old@start(View()), reactions)
        invariant Paintings(log) == Paintings(old@start(log))
      {
        NextReaction(View(), reactions, i);
        hide Reacted, Received;
        match reactions[i] {
          case Invalidate => Invalidate();
          case Receive(packet) => Receive(packet);
        }
      }
    }

    /** `invalidate`. A decode in flight keeps its place until it settles. */
    method Invalidate()
      requires Inv()
      modifies this`epoch, this`queue, this`sequence
      ensures Inv() && Referenced() && epoch == old(epoch) + 1 && queue == [] && sequence == 0
      ensures View() == old(View()).Invalidated()
    {
      epoch := epoch + 1;
      queue := [];
      sequence := 0;
    }

    /** `receive` while a decode is in flight, or from a callback: the packet waits or is refused. */
    method Receive(packet: Packet)
      requires Inv() && job.Some?
      modifies this
      ensures Inv() && CallbackKeeps() && Paintings(log) == Paintings(old(log))
      ensures View() == Received(old(View()), packet)
      decreases |script|, 2
    {
      hide OnGrid, Drawing, Chain, Acceptable, Called, Paintings;
      var valid := IsValid();
      if !valid {
        return;
      }
      if |queue| + (if job.Some? && jobEpoch == epoch then 1 else 0) >= 2 {
        Callback(Failed(packet));
        return;
      }
      queue := queue + [packet];
    }

    /** The catch block: report, unless the packet has lost its target meanwhile. */
    method Report(packet: Packet)
      requires Inv() && job.Some?
      modifies this
      ensures Inv() && CallbackKeeps() && Paintings(log) == Paintings(old(log))
      ensures View() == Reported(old(View()), packet)
      decreases |script|, 2
    {
      hide OnGrid, Drawing, Chain, Acceptable, Called, Paintings;
      if jobEpoch == epoch {
        var valid := IsValid();
        if valid {
          queue := [];
          Callback(Failed(packet));
        }
      }
    }

    /** One turn of the drain loop up to its decode. */
    method Begin()
      requires Inv() && job.None? && queue != []
      modifies this
      ensures Inv() && Referenced() && canvas == old(canvas) && chain == old(chain) && old(log) <= log
      ensures Paintings(log) == Paintings(old(log)) && View() == Taken(old(View()), canvas)
    {
      hide OnGrid, Drawing, Chain, Acceptable, Paintings, Called, Reported;
      var packet := queue[0];
      queue := queue[1..];
      job, jobEpoch := Some(packet), epoch;
      var valid := IsValid();
      if !valid {
        job := None;
        return;
      }
      var sound := Check(packet.meta);
      if !sound {
        Report(packet);
        job := None;
      }
    }

    /** The region and reference checks made before decoding. */
    method Check(m: Meta) returns (sound: bool)
      ensures sound <==> Acceptable(m, sequence, canvas)
    {
      if !m.known || !m.typed
         || m.w <= 0 || m.w > 4096 || m.h <= 0 || m.h > 4096
         || m.width <= 0 || m.width > 4096 || m.height <= 0 || m.height > 4096
         || m.x < 0 || m.x > SAFE || m.y < 0 || m.y > SAFE || m.base < 0 || m.base > SAFE
         || m.sequence < -SAFE || m.sequence > SAFE || m.sequence <= sequence || (m.Complete() && m.base != 0)
         || m.x + m.w > m.width || m.y + m.h > m.height
      {
        return false;
      }
      sound := m.Complete() ||
        (m.base != 0 && m.base == sequence && canvas.width == m.width && canvas.height == m.height);
    }

    /** `drain` from the point where no decode is in flight. */
    method Drain()
      requires Inv() && job.None?
      modifies this
      ensures Idle() && canvas == old(canvas) && chain == old(chain) && old(log) <= log
      ensures Paintings(log) == Paintings(old(log)) && View() == Drained(old(View()), canvas)
    {
      while queue != [] && job.None?
        invariant Inv() && Referenced() && canvas == old(canvas) && chain == old(chain) && old(log) <= log
        invariant Paintings(log) == Paintings(old(log)) && Drained(View(), canvas) == Drained(old(View()), canvas)
        decreases |script|, |queue|
      {
        hide OnGrid, Drawing, Chain, Acceptable, Paintings, Taken;
        Begin();
      }
    }

    /** `receive` from outside: when nothing is in flight the packet is taken up at once. */
    method Arrive(packet: Packet)
      requires Idle()
      modifies this
      ensures Idle() && canvas == old(canvas) && chain == old(chain)
      ensures Paintings(log) == Paintings(old(log)) && View() == Arrived(old(View()), packet, canvas)
    {
      hide OnGrid, Drawing, Chain, Acceptable, Paintings, Received, Drained;
      if job.Some? {
        Receive(packet);
        return;
      }
      var valid := IsValid();
      if valid {
        queue := queue + [packet];
        Drain();
      }
    }

    /** What a settled decode amounts to. */
    ghost predicate Paints(decoded: Option<Image>)
      requires job.Some?
      reads this
    {
      && decoded.Some? && jobEpoch == epoch && (answers == [] || answers[0])
      && decoded.value.width == job.value.meta.w && decoded.value.height == job.value.meta.h
    }

    /** The epoch a paint ends in: only the reactions to a resize can move it. */
    ghost function EndsIn(): nat
      reads this
      requires job.Some?
    {
      if SizeDiffers(canvas, job.value.meta) then Called(View().Asked(), Resized(job.value)).epoch else epoch
    }

    /** The rest of a drain turn once its decode has settled. */
    method Finish(decoded: Option<Image>) returns (painted: bool)
      requires Idle() && job.Some?
      modifies this
      ensures Inv() && job == old(job) && jobEpoch == old(jobEpoch)
      ensures View() == Finished(old(View()), decoded, old(canvas))
      ensures painted == old(Paints(decoded))
      ensures Paintings(log) ==
        Paintings(old(log)) + if painted then [Painted(job.value, jobEpoch, old(EndsIn()))] else []
      ensures !painted ==> canvas == old(canvas) && chain == old(chain)
      ensures painted ==>
        var p := Paint(job.value.meta, decoded.value);
        && chain == (if p.meta.Complete() then [p] else old(chain) + [p])
        && (old(sequence) == 0 ==> p.meta.Complete())
    {
      hide OnGrid, Drawing, Chain, Called, Paintings, Reported;
      var packet := job.value;
      painted := false;
      if decoded.None? {
        Report(packet);
        return;
      }
      if jobEpoch != epoch {
        return;
      }
      var valid := IsValid();
      if !valid {
        return;
      }
      var image, m := decoded.value, packet.meta;
      if image.width != m.w || image.height != m.h {
        Report(packet);
        return;
      }
      Compose(packet, image);
      Callback(Painted(packet, jobEpoch, epoch));
      painted := true;
    }

    /** Puts a checked bitmap on the canvas. */
    method Compose(packet: Packet, image: Image)
      requires Inv() && job == Some(packet) && jobEpoch == epoch && Acceptable(packet.meta, sequence, canvas)
      modifies this
      ensures Inv() && job == old(job) && jobEpoch == old(jobEpoch) && old(epoch) <= epoch
      ensures epoch != old(epoch) ==> Resized(packet) in log
      ensures var resized := if SizeDiffers(old(canvas), packet.meta) then Called(old(View()), Resized(packet))
                             else old(View());
              View() == resized.(sequence := packet.meta.sequence)
      ensures Paintings(log) == Paintings(old(log))
      ensures var p := Paint(packet.meta, image);
              && chain == (if p.meta.Complete() then [p] else old(chain) + [p])
              && (old(sequence) == 0 ==> p.meta.Complete())
    {
      hide Draw, Blank, OnGrid, Drawing, Chain, Called, Paintings;
      var m := packet.meta;
      ghost var before := chain;
      if chain != [] {
        DrawingOnGrid(chain);
      }
      if canvas.width != m.width || canvas.height != m.height {
        Callback(Resized(packet));
        canvas := Blank(m.width, m.height);
        BlankOnGrid(m.width, m.height);
      }
      ghost var under := canvas;
      canvas := Draw(canvas, m, image);
      if m.Complete() {
        chain := [Paint(m, image)];
        CompleteStarts(under, m, image);
      } else {
        chain := before + [Paint(m, image)];
        PartialExtends(before, m, image);
      }
      sequence := m.sequence;
    }

    /** The decode in flight settles; its bitmap is released and the queue goes on. */
    method Settle(decoded: Option<Image>)
      requires Idle() && job.Some?
      modifies this
      ensures Idle()
      ensures Paintings(log) == Paintings(old(log)) +
        if old(Paints(decoded)) then [Painted(old(job).value, old(epoch), old(EndsIn()))] else []
      ensures View() == Drained(Finished(old(View()), decoded, old(canvas)).(job := None), canvas)
      ensures !old(Paints(decoded)) ==> canvas == old(canvas) && chain == old(chain)
      ensures old(Paints(decoded)) ==>
        var p := Paint(old(job).value.meta, decoded.value);
        chain == if p.meta.Complete() then [p] else old(chain) + [p]
    {
      hide OnGrid, Drawing, Chain, Acceptable, Called, Paintings, Finished, Drained;
      var _ := Finish(decoded);
      job := None;
      Drain();
    }
  }

  // ---- runs -----------------------------------------------------------------------

  /** One thing that happens to the composer, with the consumer's answers and reactions during it. */
  datatype Happening =
    | Arrives(packet: Packet, answers: seq<bool>, script: seq<seq<Reaction>>)
    | Invalidates
    | Settles(decoded: Option<Image>, answers: seq<bool>, script: seq<seq<Reaction>>)

  /**
   Every run from a new composer: the canvas is always the drawing of one chain,
   packets wait only behind a decode in flight, and a frame that was invalidated
   while its decode ran is never painted unless its own resize callback did it.
   */
  method Run(width: nat, height: nat, happenings: seq<Happening>) returns (frames: FloeDesktopFrames)
    ensures fresh(frames) && frames.Idle()
    ensures frames.chain != [] ==> Chain(frames.chain) && frames.canvas == Drawing(frames.chain)
    ensures frames.queue != [] ==> frames.job.Some?
    ensures forall e :: e in frames.log && e.Painted? && e.started != e.ended ==> Resized(e.packet) in frames.log
  {
    hide OnGrid, Drawing, Chain, Acceptable;
    frames := new FloeDesktopFrames(width, height);
    for i := 0 to |happenings|
      invariant fresh(frames) && frames.Idle()
    {
      match happenings[i] {
        case Arrives(packet, answers, script) =>
          frames.answers, frames.script := answers, script;
          frames.Arrive(packet);
        case Invalidates =>
          frames.Invalidate();
        case Settles(decoded, answers, script) =>
          frames.answers, frames.script := answers, script;
          if frames.job.Some? {
            frames.Settle(decoded);
          }
      }
    }
  }

  const PACKET := Packet(Meta(true, true, 1, 1, 0, 0, 0, 0, 0, 1), [])
  const DOT := Image(1, 1, (i, j) => BLACK)

  /**
   A frame that was invalidated and is painted all the same: the first frame of
   a new canvas resizes it, and the consumer invalidates in that very callback.
   */
  method PaintedAfterInvalidate() returns (frames: FloeDesktopFrames)
    ensures fresh(frames) && frames.Idle() && Paintings(frames.log) == [Painted(PACKET, 0, 1)]
    ensures frames.chain == [Paint(PACKET.meta, DOT)]
  {
    hide OnGrid, Drawing, Chain;
    frames := new FloeDesktopFrames(0, 0);
    frames.answers := [true, true];
    ghost var waiting := frames.View().Asked().(queue := [] + [PACKET]);
    assert Acceptable(waiting.queue[0].meta, waiting.sequence, frames.canvas);
    assert Drained(Taken(waiting, frames.canvas), frames.canvas) == Taken(waiting, frames.canvas);
    frames.Arrive(PACKET);
    assert frames.job == Some(PACKET);
    frames.answers, frames.script := [], [[Invalidate]];
    FirstReaction(frames.View().Asked().Logged(Resized(PACKET)).(script := []), [Invalidate]);
    assert frames.EndsIn() == 1;
    frames.Settle(Some(DOT));
  }
}
