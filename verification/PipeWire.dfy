/**
 The PipeWire capture callback (host_desktop_pipewire.py, `_buffer`): damage
 rectangles and sequence numbers used to avoid copying and comparing pictures.
 */
module PipeWire {
  import opened Common
  import opened Pixels

  type Image = seq<byte>

  datatype Rect = Rect(x: int, y: int, w: nat, h: nat)

  /** One metadata record; `Malformed` is any record whose payload is missing or of the wrong size. */
  datatype Meta =
    | Header(corrupted: bool, discontinuous: bool, sequence: nat)
    | Damage(rects: seq<Rect>)
    | Crop(whole: bool)
    | Transform(identity: bool)
    | Cursor
    | Malformed
    | Other

  datatype Chunk = Chunk(corrupted: bool, size: nat, offset: nat, stride: int)

  /**
   A dequeued buffer. `cursorReadable` is whether the cursor metadata decodes,
   `placement` what it decodes to, and the two interruptions are whether the
   capture was closed while a picture, or its cursor composition, waited for a
   pooled frame.
   */
  datatype Buffer = Buffer(
    metas: seq<Meta>, single: bool, mappable: bool, memory: seq<byte>, chunk: Option<Chunk>,
    cursorReadable: bool, placement: int, interrupted: bool, paintInterrupted: bool)

  /** The stream's fixed parameters and the retained state. */
  datatype Capture = Capture(
    width: nat, height: nat, swapped: bool, embedded: bool,
    previous: Option<Image>, previousSequence: Option<nat>, placement: Option<int>, closed: bool)

  datatype Out = Rejected | Skipped | Processed(fired: Option<Image>)

  // ---- metadata -------------------------------------------------------------

  /** The damage hint up to its terminator; `None` when a rectangle leaves the stream. */
  function Hint(rects: seq<Rect>, width: nat, height: nat): (r: Option<seq<Rect>>)
    ensures r.Some? ==> forall k :: 0 <= k < |r.value| ==> Bounded(r.value[k], width, height)
  {
    if rects == [] || rects[0].w == 0 || rects[0].h == 0 then Some([])
    else if !Bounded(rects[0], width, height) then None
    else
      match Hint(rects[1..], width, height)
      case None => None
      case Some(rest) => Some([rects[0]] + rest)
  }

  predicate Bounded(r: Rect, width: nat, height: nat) {
    r.x >= 0 && r.y >= 0 && r.x + r.w <= width && r.y + r.h <= height
  }

  datatype Scan =
    | Unsupported
    | Corrupted
    | Usable(cursor: bool, damage: Option<seq<Rect>>, sequence: Option<nat>, discontinuous: bool)

  function ScanMetas(metas: seq<Meta>, s: Scan, width: nat, height: nat): Scan
    requires s.Usable?
  {
    if metas == [] then s
    else
      var rest := metas[1..];
      match metas[0]
      case Header(corrupted, discontinuous, sequence) =>
        if corrupted then Corrupted
        else ScanMetas(rest, s.(sequence := Some(sequence), discontinuous := discontinuous), width, height)
      case Damage(rects) => ScanMetas(rest, s.(damage := Hint(rects, width, height)), width, height)
      case Crop(whole) => if whole then ScanMetas(rest, s, width, height) else Unsupported
      case Transform(identity) => if identity then ScanMetas(rest, s, width, height) else Unsupported
      case Cursor => ScanMetas(rest, s.(cursor := true), width, height)
      case Malformed => Unsupported
      case Other => ScanMetas(rest, s, width, height)
  }

  ghost predicate HintInside(s: Scan, width: nat, height: nat) {
    s.Usable? && s.damage.Some? ==> forall k :: 0 <= k < |s.damage.value| ==> Bounded(s.damage.value[k], width, height)
  }

  lemma {:induction false} ScanHint(metas: seq<Meta>, s: Scan, width: nat, height: nat)
    requires s.Usable? && HintInside(s, width, height)
    ensures HintInside(ScanMetas(metas, s, width, height), width, height)
    decreases |metas|
  {
    if metas != [] {
      var rest := metas[1..];
      match metas[0]
      case Header(corrupted, discontinuous, sequence) =>
        ScanHint(rest, s.(sequence := Some(sequence), discontinuous := discontinuous), width, height);
      case Damage(rects) =>
        var t := s.(damage := Hint(rects, width, height));
        assert ScanMetas(metas, s, width, height) == ScanMetas(rest, t, width, height);
        ScanHint(rest, t, width, height);
      case Crop(_) => ScanHint(rest, s, width, height);
      case Transform(_) => ScanHint(rest, s, width, height);
      case Cursor => ScanHint(rest, s.(cursor := true), width, height);
      case Malformed =>
      case Other => ScanHint(rest, s, width, height);
    }
  }

  /** What a buffer's metadata and chunk header decide before any pixel is looked at. */
  function Admit(c: Capture, b: Buffer): (s: Scan)
    ensures HintInside(s, c.width, c.height)
    ensures s.Usable? ==> b.chunk.Some? && c.width >= 1
  {
    if c.width == 0 || !(1 <= |b.metas| <= 64) || !b.single then Unsupported
    else
      var start := Usable(false, None, None, false);
      var s := ScanMetas(b.metas, start, c.width, c.height);
      ScanHint(b.metas, start, c.width, c.height);
      if !s.Usable? then s
      else if !s.cursor || b.chunk.None? then Unsupported
      else if b.chunk.value.corrupted then Corrupted
      else if !b.cursorReadable then Unsupported
      else s
  }

  // ---- what the records of a buffer say -------------------------------------------

  /** A record that does not stop the scan. */
  predicate Passes(m: Meta) {
    && (m.Header? ==> !m.corrupted) && (m.Crop? ==> m.whole) && (m.Transform? ==> m.identity)
    && !m.Malformed?
  }

  /** The first record that stops the scan, if any, says the buffer is corrupted. */
  ghost predicate SpoiltBy(metas: seq<Meta>) {
    exists k ::
      && 0 <= k < |metas| && metas[k].Header? && metas[k].corrupted
      && forall j :: 0 <= j < k ==> Passes(metas[j])
  }

  ghost predicate AllPass(metas: seq<Meta>) {
    forall m :: m in metas ==> Passes(m)
  }

  function LastHeader(metas: seq<Meta>): (m: Option<Meta>)
    ensures m.Some? ==> m.value.Header?
  {
    if metas == [] then None
    else if metas[|metas| - 1].Header? then Some(metas[|metas| - 1])
    else LastHeader(metas[..|metas| - 1])
  }

  function LastDamage(metas: seq<Meta>): (m: Option<Meta>)
    ensures m.Some? ==> m.value.Damage?
  {
    if metas == [] then None
    else if metas[|metas| - 1].Damage? then Some(metas[|metas| - 1])
    else LastDamage(metas[..|metas| - 1])
  }

  lemma {:induction false} LastBehind(first: Meta, rest: seq<Meta>)
    ensures LastHeader([first] + rest) ==
      if LastHeader(rest).Some? then LastHeader(rest) else if first.Header? then Some(first) else None
    ensures LastDamage([first] + rest) ==
      if LastDamage(rest).Some? then LastDamage(rest) else if first.Damage? then Some(first) else None
  {
    var all := [first] + rest;
    if rest == [] {
      assert all[..0] == [];
    } else {
      LastBehind(first, rest[..|rest| - 1]);
      assert all[..|all| - 1] == [first] + rest[..|rest| - 1];
      assert all[|all| - 1] == rest[|rest| - 1];
    }
  }

  /** The scan has no opinions of its own: its verdict and its findings are those of the records. */
  lemma {:induction false} ScanMeans(metas: seq<Meta>, s: Scan, width: nat, height: nat)
    requires s.Usable?
    ensures var r := ScanMetas(metas, s, width, height);
      && (r.Corrupted? <==> SpoiltBy(metas))
      && (r.Usable? <==> AllPass(metas))
      && (r.Usable? ==> r == Usable(
            s.cursor || Cursor in metas,
            if LastDamage(metas).Some? then Hint(LastDamage(metas).value.rects, width, height) else s.damage,
            if LastHeader(metas).Some? then Some(LastHeader(metas).value.sequence) else s.sequence,
            if LastHeader(metas).Some? then LastHeader(metas).value.discontinuous else s.discontinuous))
    decreases |metas|
  {
    if metas != [] {
      var m, rest := metas[0], metas[1..];
      assert metas == [m] + rest;
      LastBehind(m, rest);
      SpoiltBehind(m, rest);
      assert AllPass(metas) <==> Passes(m) && AllPass(rest);
      if Passes(m) {
        ScanMeans(rest, Noted(m, s, width, height), width, height);
      }
    }
  }

  /** What one passing record adds. */
  function Noted(m: Meta, s: Scan, width: nat, height: nat): Scan
    requires s.Usable?
  {
    match m
    case Header(_, discontinuous, sequence) => s.(sequence := Some(sequence), discontinuous := discontinuous)
    case Damage(rects) => s.(damage := Hint(rects, width, height))
    case Cursor => s.(cursor := true)
    case _ => s
  }

  lemma SpoiltBehind(m: Meta, rest: seq<Meta>)
    ensures SpoiltBy([m] + rest) <==> (m.Header? && m.corrupted) || (Passes(m) && SpoiltBy(rest))
  {
    var all := [m] + rest;
    if m.Header? && m.corrupted {
      assert all[0] == m;
    }
    if Passes(m) && SpoiltBy(rest) {
      var k :| 0 <= k < |rest| && rest[k].Header? && rest[k].corrupted && forall j :: 0 <= j < k ==> Passes(rest[j]);
      assert all[k + 1] == rest[k];
      assert forall j :: 0 <= j < k + 1 ==> Passes(all[j]);
    }
    if SpoiltBy(all) {
      var k :| 0 <= k < |all| && all[k].Header? && all[k].corrupted && forall j :: 0 <= j < k ==> Passes(all[j]);
      if k > 0 {
        assert Passes(all[0]) && rest[k - 1] == all[k];
        assert forall j :: 0 <= j < k - 1 ==> Passes(rest[j]) by {
          forall j | 0 <= j < k - 1 ensures Passes(rest[j]) {
            assert rest[j] == all[j + 1];
          }
        }
      }
    }
  }

  /** A buffer whose records and chunk can be looked at at all. */
  predicate WellShaped(c: Capture, b: Buffer) {
    c.width > 0 && 1 <= |b.metas| <= 64 && b.single
  }

  /** The buffer says of itself that it is corrupted, before anything else is wrong with it. */
  ghost predicate Spoilt(c: Capture, b: Buffer) {
    && WellShaped(c, b)
    && (SpoiltBy(b.metas)
        || (AllPass(b.metas) && Cursor in b.metas && b.chunk.Some? && b.chunk.value.corrupted))
  }

  /** Nothing is wrong with the buffer up to its pixels. */
  ghost predicate Sane(c: Capture, b: Buffer) {
    && WellShaped(c, b) && AllPass(b.metas) && Cursor in b.metas && b.cursorReadable
    && b.chunk.Some? && !b.chunk.value.corrupted
  }

  /** Which buffers are looked at, dropped and refused, in terms of their records alone. */
  lemma AdmitMeans(c: Capture, b: Buffer)
    ensures Admit(c, b).Usable? <==> Sane(c, b)
    ensures Admit(c, b).Corrupted? <==> Spoilt(c, b)
    ensures Sane(c, b) ==> Admit(c, b) == Usable(
      true,
      if LastDamage(b.metas).Some? then Hint(LastDamage(b.metas).value.rects, c.width, c.height) else None,
      if LastHeader(b.metas).Some? then Some(LastHeader(b.metas).value.sequence) else None,
      LastHeader(b.metas).Some? && LastHeader(b.metas).value.discontinuous)
  {
    if WellShaped(c, b) {
      ScanMeans(b.metas, Usable(false, None, None, false), c.width, c.height);
      SpoiltNotSane(b.metas);
    }
  }

  lemma SpoiltNotSane(metas: seq<Meta>)
    ensures !(SpoiltBy(metas) && AllPass(metas))
  {
    if SpoiltBy(metas) {
      var k :| 0 <= k < |metas| && metas[k].Header? && metas[k].corrupted;
      assert metas[k] in metas;
    }
  }

  // ---- pictures -------------------------------------------------------------

  function LayoutOf(c: Capture, chunk: Chunk): Layout
    requires chunk.stride >= 0
  {
    Layout(c.width, c.height, if chunk.stride == 0 then c.width * 4 else chunk.stride)
  }

  /** Whether the announced rows lie inside the mapped memory. */
  predicate Readable(c: Capture, b: Buffer) {
    && b.chunk.Some? && b.chunk.value.stride >= 0
    && (var l := LayoutOf(c, b.chunk.value);
        && b.mappable && l.width >= 1 && l.height >= 1 && l.row <= l.stride <= l.row + 65536
        && l.Stored() <= 256 * 1024 * 1024
        && b.chunk.value.offset + l.Stored() <= |b.memory|
        && l.Stored() <= b.chunk.value.size)
  }

  function Mapped(c: Capture, b: Buffer): (m: seq<byte>)
    requires Readable(c, b)
    ensures |m| == LayoutOf(c, b.chunk.value).Stored()
  {
    var o := b.chunk.value.offset;
    b.memory[o..o + LayoutOf(c, b.chunk.value).Stored()]
  }

  /** The complete picture a readable buffer carries, in the retained format. */
  function Picture(c: Capture, b: Buffer): (p: Image)
    requires Readable(c, b)
    ensures |p| == c.width * 4 * c.height
  {
    var l := LayoutOf(c, b.chunk.value);
    var packed := Pack(Mapped(c, b), l);
    if c.swapped then (assert l.Packed() == 4 * (c.width * c.height); Swizzle(packed)) else packed
  }

  /** The rows a chunk announces lie inside its memory and within the limits of the format. */
  ghost predicate Fits(c: Capture, b: Buffer) {
    && b.chunk.Some? && b.mappable && c.width > 0 && c.height > 0
    && var stride := if b.chunk.value.stride == 0 then 4 * c.width else b.chunk.value.stride;
       var length := (c.height - 1) * stride + 4 * c.width;
       && 4 * c.width <= stride <= 4 * c.width + 65536
       && length <= 256 * 1024 * 1024
       && length <= b.chunk.value.size
       && b.chunk.value.offset + length <= |b.memory|
  }

  lemma ReadableMeans(c: Capture, b: Buffer)
    ensures Readable(c, b) <==> Fits(c, b)
  {
  }

  /** Red and blue of a pixel are exchanged in the formats that store them the other way round. */
  function Channel(swapped: bool, channel: nat): nat {
    if swapped && channel == 0 then 2 else if swapped && channel == 2 then 0 else channel
  }

  /** Every byte of a picture: row by row, pixel by pixel, from its own place in the buffer. */
  lemma PictureBytes(c: Capture, b: Buffer, x: nat, y: nat, channel: nat)
    requires Readable(c, b) && x < c.width && y < c.height && channel < 4
    ensures var stride := if b.chunk.value.stride == 0 then 4 * c.width else b.chunk.value.stride;
      var from := b.chunk.value.offset + y * stride + 4 * x + Channel(c.swapped, channel);
      var to := y * (c.width * 4) + 4 * x + channel;
      && 0 <= from < |b.memory| && 0 <= to < |Picture(c, b)|
      && Picture(c, b)[to] == b.memory[from]
  {
    PictureByte(c, b, x, y, channel);
    hide Picture;
  }

  lemma PictureOf(c: Capture, b: Buffer)
    requires Readable(c, b)
    ensures b.chunk.Some?
    ensures var packed := Pack(Mapped(c, b), LayoutOf(c, b.chunk.value));
      && LayoutOf(c, b.chunk.value).Valid() && |packed| % 4 == 0 && |packed| == c.width * 4 * c.height
      && Picture(c, b) == if c.swapped then Swizzle(packed) else packed
  {
    assert LayoutOf(c, b.chunk.value).Packed() == 4 * (c.width * c.height);
  }

  lemma PictureByte(c: Capture, b: Buffer, x: nat, y: nat, channel: nat)
    requires Readable(c, b) && x < c.width && y < c.height && channel < 4
    ensures var l := LayoutOf(c, b.chunk.value);
      var from := b.chunk.value.offset + y * l.stride + (4 * x + Channel(c.swapped, channel));
      var to := y * l.row + (4 * x + channel);
      && 0 <= from < |b.memory| && 0 <= to < |Picture(c, b)|
      && Picture(c, b)[to] == b.memory[from]
  {
    hide Pack, Mapped, Picture, Readable, Swizzle;
    PackedByte(c, b, 4 * x + channel, y);
    PackedByte(c, b, 4 * x + Channel(c.swapped, channel), y);
    PictureOf(c, b);
    if c.swapped {
      SwizzledByte(Pack(Mapped(c, b), LayoutOf(c, b.chunk.value)), c.width, c.height, x, y, channel);
    }
  }

  lemma SwizzledByte(packed: Image, width: nat, height: nat, x: nat, y: nat, channel: nat)
    requires |packed| == width * 4 * height && |packed| % 4 == 0 && x < width && y < height && channel < 4
    requires 0 <= y * (width * 4) + (4 * x + channel) < |packed|
    requires 0 <= y * (width * 4) + (4 * x + Channel(true, channel)) < |packed|
    ensures Swizzle(packed)[y * (width * 4) + (4 * x + channel)] ==
      packed[y * (width * 4) + (4 * x + Channel(true, channel))]
  {
    var pixel := y * width + x;
    assert y * (width * 4) + 4 * x == 4 * pixel;
    assert Partner(4 * pixel + channel) == 4 * pixel + Channel(true, channel);
  }

  lemma PackedByte(c: Capture, b: Buffer, within: nat, y: nat)
    requires Readable(c, b) && within < 4 * c.width && y < c.height
    ensures var l := LayoutOf(c, b.chunk.value);
      var from := b.chunk.value.offset + y * l.stride + within;
      && 0 <= y * l.row + within < l.Packed() && 0 <= from < |b.memory|
      && Pack(Mapped(c, b), l)[y * l.row + within] == b.memory[from]
  {
    var l := LayoutOf(c, b.chunk.value);
    RowBound(l, y, within);
    PlaceUnique(l, y, within);
    assert Mapped(c, b)[y * l.stride + within] == b.memory[b.chunk.value.offset + (y * l.stride + within)];
  }

  function Heights(regions: seq<Rect>): nat {
    if regions == [] then 0 else Heights(regions[..|regions| - 1]) + regions[|regions| - 1].h
  }

  predicate RowMatches(mapped: seq<byte>, prior: Image, l: Layout, r: Rect, y: nat)
    requires l.Valid() && |mapped| == l.Stored() && |prior| == l.Packed()
    requires Bounded(r, l.width, l.height) && y < l.height
  {
    RowBound(l, y, r.x * 4);
    RowBound(l, y, (r.x + r.w) * 4);
    mapped[y * l.stride + r.x * 4..y * l.stride + (r.x + r.w) * 4]
    == prior[y * l.row + r.x * 4..y * l.row + (r.x + r.w) * 4]
  }

  ghost predicate RegionMatches(mapped: seq<byte>, prior: Image, l: Layout, r: Rect)
    requires l.Valid() && |mapped| == l.Stored() && |prior| == l.Packed()
    requires Bounded(r, l.width, l.height)
  {
    forall y :: r.y <= y < r.y + r.h ==> RowMatches(mapped, prior, l, r, y)
  }

  ghost predicate RegionsMatch(mapped: seq<byte>, prior: Image, l: Layout, regions: seq<Rect>)
    requires l.Valid() && |mapped| == l.Stored() && |prior| == l.Packed()
    requires forall k :: 0 <= k < |regions| ==> Bounded(regions[k], l.width, l.height)
  {
    forall k :: 0 <= k < |regions| ==> RegionMatches(mapped, prior, l, regions[k])
  }

  // ---- the step -------------------------------------------------------------

  predicate Sized(c: Capture) {
    c.previous.Some? ==> |c.previous.value| == c.width * 4 * c.height
  }

  predicate Continuous(c: Capture, s: Scan)
    requires s.Usable?
  {
    s.sequence.Some? && c.previousSequence.Some? && s.sequence.value == c.previousSequence.value + 1 && !s.discontinuous
  }

  /** Whether the retained baseline may stand for the new picture without copying it. */
  ghost predicate Unchanged(c: Capture, b: Buffer, s: Scan)
    requires Readable(c, b) && Sized(c) && s.Usable?
    requires HintInside(s, c.width, c.height)
  {
    var l := LayoutOf(c, b.chunk.value);
    var regions := if c.previous.Some? && Continuous(c, s) then s.damage else None;
    || regions == Some([])
    || (c.previous.Some? && !c.swapped &&
        if regions.Some? && Heights(regions.value) <= 128
          then RegionsMatch(Mapped(c, b), c.previous.value, l, regions.value)
        else l.stride == l.row && Mapped(c, b) == c.previous.value)
  }

  /** Whether the capture callback fires, given the picture to keep and whether it changed. */
  predicate Fires(c: Capture, b: Buffer, pixels: Option<Image>, changed: bool) {
    pixels.Some? && (changed || (c.embedded && c.placement != Some(b.placement)))
  }

  /** The end of the callback: report if due, then retain. */
  function Retain(c: Capture, b: Buffer, pixels: Option<Image>, changed: bool, sequence: Option<nat>): (Capture, Out) {
    if Fires(c, b, pixels, changed) && c.embedded && b.paintInterrupted then (c.(closed := true), Skipped)
    else
      (c.(previous := pixels, placement := Some(b.placement), previousSequence := sequence),
       Processed(if Fires(c, b, pixels, changed) then pixels else None))
  }

  /** `_buffer` as written, with its shortcuts. */
  ghost function Step(c: Capture, b: Buffer): (Capture, Out)
    requires Sized(c)
  {
    var s := Admit(c, b);
    if c.closed then (c, Skipped)
    else match s
    case Unsupported => (c, Rejected)
    case Corrupted => (c.(previousSequence := None), Skipped)
    case Usable(_, _, sequence, _) =>
      if b.chunk.value.size == 0 then
        Retain(c, b, c.previous, false, if Continuous(c, s) then sequence else None)
      else if !Readable(c, b) then (c, Rejected)
      else if Unchanged(c, b, s) then Retain(c, b, c.previous, false, sequence)
      else if b.interrupted then (c.(closed := true), Skipped)
      else Retain(c, b, Some(Picture(c, b)), c.previous != Some(Picture(c, b)), sequence)
  }

  /** The same callback without shortcuts: take every picture and compare every byte of it. */
  function Plain(c: Capture, b: Buffer): (Capture, Out) {
    if c.closed then (c, Skipped)
    else match Admit(c, b)
    case Unsupported => (c, Rejected)
    case Corrupted => (c, Skipped)
    case Usable(_, _, _, _) =>
      if b.chunk.value.size == 0 then Retain(c, b, c.previous, false, None)
      else if !Readable(c, b) then (c, Rejected)
      else Retain(c, b, Some(Picture(c, b)), c.previous != Some(Picture(c, b)), None)
  }

  // ---- the callback as a class --------------------------------------------------

  class PipeWireCapture {
    const width: nat
    const height: nat
    const swapped: bool
    const embedded: bool
    var previous: Option<Image>
    var previousSequence: Option<nat>
    var previousPlacement: Option<int>
    var closed: bool

    ghost function View(): Capture
      reads this
    {
      Capture(width, height, swapped, embedded, previous, previousSequence, previousPlacement, closed)
    }

    constructor (width: nat, height: nat, swapped: bool, embedded: bool)
      ensures View() == Capture(width, height, swapped, embedded, None, None, None, false)
    {
      this.width, this.height, this.swapped, this.embedded := width, height, swapped, embedded;
      previous, previousSequence, previousPlacement, closed := None, None, None, false;
    }

    /** The nested comparison over damaged rows. */
    method CompareRegions(mapped: seq<byte>, prior: Image, l: Layout, regions: seq<Rect>) returns (same: bool)
      requires l.Valid() && |mapped| == l.Stored() && |prior| == l.Packed()
      requires forall k :: 0 <= k < |regions| ==> Bounded(regions[k], l.width, l.height)
      ensures same <==> RegionsMatch(mapped, prior, l, regions)
    {
      for k := 0 to |regions|
        invariant forall j :: 0 <= j < k ==> RegionMatches(mapped, prior, l, regions[j])
      {
        var r := regions[k];
        for y := r.y to r.y + r.h
          invariant forall z :: r.y <= z < y ==> RowMatches(mapped, prior, l, r, z)
        {
          RowBound(l, y, r.x * 4);
          RowBound(l, y, (r.x + r.w) * 4);
          var equal := EqualPixels(mapped[y * l.stride + r.x * 4..y * l.stride + (r.x + r.w) * 4],
                                   prior[y * l.row + r.x * 4..y * l.row + (r.x + r.w) * 4]);
          if !equal {
            assert !RowMatches(mapped, prior, l, r, y);
            return false;
          }
        }
      }
      same := true;
    }

    /** Decides from damage, or from the whole picture, whether the baseline may be kept. */
    method Shortcut(b: Buffer, s: Scan) returns (kept: bool)
      requires Readable(View(), b) && Sized(View()) && s.Usable?
      requires HintInside(s, width, height)
      ensures kept <==> Unchanged(View(), b, s)
    {
      var c := Capture(width, height, swapped, embedded, previous, previousSequence, previousPlacement, closed);
      var trusted := previous.Some? && Continuous(c, s);
      var regions := if trusted then s.damage else None;
      kept := regions == Some([]);
      if !kept && previous.Some? && !swapped {
        var l := LayoutOf(c, b.chunk.value);
        var mapped := Mapped(c, b);
        if regions.Some? && Heights(regions.value) <= 128 {
          kept := CompareRegions(mapped, previous.value, l, regions.value);
        } else if l.stride == l.row {
          kept := EqualPixels(mapped, previous.value);
        }
      }
    }

    /** `_buffer`. */
    method OnBuffer(b: Buffer) returns (out: Out)
      requires Sized(View())
      modifies this
      ensures View() == Step(old(View()), b).0 && out == Step(old(View()), b).1
      ensures Sized(View())
      ensures old(closed) ==> out == Skipped && View() == old(View())
      ensures !old(closed) && Spoilt(old(View()), b) ==>
        out == Skipped && View() == old(View()).(previousSequence := None)
      ensures !old(closed) && !Spoilt(old(View()), b) ==>
        if Sane(old(View()), b) && (b.chunk.value.size == 0 || Fits(old(View()), b)) then out != Rejected
        else out == Rejected && View() == old(View())
    {
      AdmitMeans(View(), b);
      ReadableMeans(View(), b);
      hide Admit, Fits, Spoilt, Sane;
      var c := Capture(width, height, swapped, embedded, previous, previousSequence, previousPlacement, closed);
      if closed {
        return Skipped;
      }
      var s := Admit(c, b);
      if s.Unsupported? {
        return Rejected;
      }
      if s.Corrupted? {
        previousSequence := None;
        return Skipped;
      }
      var pixels, changed := previous, false;
      var continuous := Continuous(c, s);
      if b.chunk.value.size != 0 {
        if !Readable(c, b) {
          return Rejected;
        }
        var kept := Shortcut(b, s);
        if !kept {
          if b.interrupted {
            closed := true;
            return Skipped;
          }
          pixels := Some(Picture(c, b));
          changed := previous.None?;
          if previous.Some? {
            var equal := EqualPixels(pixels.value, previous.value);
            changed := !equal;
          }
        }
      }
      var fired: Option<Image> := None;
      if pixels.Some? && (changed || (embedded && previousPlacement != Some(b.placement))) {
        if embedded && b.paintInterrupted {
          closed := true;
          return Skipped;
        }
        fired := pixels;
      }
      previous, previousPlacement := pixels, Some(b.placement);
      previousSequence := if b.chunk.value.size != 0 || continuous then s.sequence else None;
      out := Processed(fired);
    }
  }

  // ---- the shortcuts are sound ----------------------------------------------------

  /** Byte `i` of a packed picture lies in some damaged rectangle. */
  predicate Damaged(i: nat, regions: seq<Rect>, l: Layout)
    requires l.Valid() && i < l.Packed()
  {
    var (y, b) := Place(l, i);
    exists k :: 0 <= k < |regions| && regions[k].y <= y < regions[k].y + regions[k].h
                && regions[k].x * 4 <= b < (regions[k].x + regions[k].w) * 4
  }

  /** Two pictures agree outside the damage. */
  ghost predicate AgreeOutside(a: Image, b: Image, regions: seq<Rect>, l: Layout)
    requires l.Valid()
  {
    && |a| == |b| == l.Packed()
    && forall i :: 0 <= i < l.Packed() && !Damaged(i, regions, l) ==> a[i] == b[i]
  }

  /** Equal damaged rows and agreement elsewhere make the whole pictures equal. */
  lemma DamageSuffices(mapped: seq<byte>, prior: Image, l: Layout, regions: seq<Rect>)
    requires l.Valid() && |mapped| == l.Stored() && |prior| == l.Packed()
    requires forall k :: 0 <= k < |regions| ==> Bounded(regions[k], l.width, l.height)
    requires RegionsMatch(mapped, prior, l, regions)
    requires AgreeOutside(prior, Pack(mapped, l), regions, l)
    ensures Pack(mapped, l) == prior
  {
    forall i | 0 <= i < l.Packed() ensures Pack(mapped, l)[i] == prior[i] {
      if Damaged(i, regions, l) {
        var (y, b) := Place(l, i);
        var k :| 0 <= k < |regions| && regions[k].y <= y < regions[k].y + regions[k].h
                 && regions[k].x * 4 <= b < (regions[k].x + regions[k].w) * 4;
        var r := regions[k];
        assert RegionMatches(mapped, prior, l, r);
        ByteOfRow(mapped, prior, l, r, y, b);
      }
    }
  }

  lemma ByteOfRow(mapped: seq<byte>, prior: Image, l: Layout, r: Rect, y: nat, b: nat)
    requires l.Valid() && |mapped| == l.Stored() && |prior| == l.Packed()
    requires Bounded(r, l.width, l.height) && y < l.height && r.x * 4 <= b < (r.x + r.w) * 4
    requires RowMatches(mapped, prior, l, r, y)
    ensures b < l.row && 0 <= y * l.stride + b < |mapped| && 0 <= y * l.row + b < |prior|
    ensures mapped[y * l.stride + b] == prior[y * l.row + b]
  {
    RowBound(l, y, b);
    RowBound(l, y, r.x * 4);
    RowBound(l, y, (r.x + r.w) * 4);
    var m := mapped[y * l.stride + r.x * 4..y * l.stride + (r.x + r.w) * 4];
    var p := prior[y * l.row + r.x * 4..y * l.row + (r.x + r.w) * 4];
    assert m[b - r.x * 4] == p[b - r.x * 4];
  }

  /**
   What the producer promises about one buffer: it carries the picture its
   sequence number names and, unless it is marked discontinuous, an empty chunk
   changes no pixel and a usable damage hint covers every change since the
   picture numbered one before.
   */
  ghost predicate Honest(truth: nat -> Image, c: Capture, b: Buffer) {
    var s := Admit(c, b);
    s.Usable? && s.sequence.Some? ==>
      var n := s.sequence.value;
      && (b.chunk.value.size != 0 && Readable(c, b) ==> Picture(c, b) == truth(n))
      && (n > 0 && !s.discontinuous && b.chunk.value.size == 0 ==> truth(n) == truth(n - 1))
      && (n > 0 && !s.discontinuous && s.damage.Some? && Frame(c).Valid() ==>
        AgreeOutside(truth(n - 1), truth(n), s.damage.value, Frame(c)))
  }

  function Frame(c: Capture): Layout {
    Layout(c.width, c.height, c.width * 4)
  }

  /** The retained sequence number always names the retained picture. */
  ghost predicate Sound(truth: nat -> Image, c: Capture) {
    && Sized(c)
    && (c.previousSequence.Some? ==> c.previous == Some(truth(c.previousSequence.value)))
  }

  /** What a capture keeps that the plain version keeps too. */
  function Baseline(c: Capture): Capture {
    c.(previousSequence := None)
  }

  lemma PlaceIgnoresStride(l: Layout, m: Layout, i: nat)
    requires l.Valid() && m.Valid() && l.width == m.width && l.height == m.height && i < l.Packed()
    ensures Place(l, i) == Place(m, i)
  {
  }

  /** Taking a shortcut is justified: the picture in the buffer is the retained one. */
  lemma ShortcutSound(truth: nat -> Image, c: Capture, b: Buffer)
    requires Sound(truth, c) && Honest(truth, c, b)
    requires Admit(c, b).Usable? && b.chunk.value.size != 0 && Readable(c, b)
    requires Unchanged(c, b, Admit(c, b))
    ensures c.previous == Some(Picture(c, b))
  {
    var s := Admit(c, b);
    if c.previous.Some? && Continuous(c, s) && s.damage.Some? &&
      (s.damage.value == [] || Heights(s.damage.value) <= 128) {
      DamagedShortcut(truth, c, b, s);
    } else {
      WholeShortcut(c, b);
    }
  }

  lemma DamagedShortcut(truth: nat -> Image, c: Capture, b: Buffer, s: Scan)
    requires Sound(truth, c) && Honest(truth, c, b) && s == Admit(c, b)
    requires s.Usable? && b.chunk.value.size != 0 && Readable(c, b) && Unchanged(c, b, s)
    requires c.previous.Some? && Continuous(c, s) && s.damage.Some?
    requires s.damage.value == [] || Heights(s.damage.value) <= 128
    ensures c.previous == Some(Picture(c, b))
  {
    var n, l := s.sequence.value, LayoutOf(c, b.chunk.value);
    assert AgreeOutside(truth(n - 1), truth(n), s.damage.value, Frame(c));
    assert c.previous.value == truth(n - 1) && Picture(c, b) == truth(n);
    hide Admit, Picture;
    if s.damage.value == [] {
      NoDamage(truth(n - 1), truth(n), Frame(c));
    } else {
      AgreeAnyStride(truth(n - 1), truth(n), s.damage.value, Frame(c), l);
      PictureWhenStraight(c, b);
      DamageSuffices(Mapped(c, b), c.previous.value, l, s.damage.value);
    }
  }

  lemma NoDamage(a: Image, b: Image, l: Layout)
    requires l.Valid() && AgreeOutside(a, b, [], l)
    ensures a == b
  {
    assert forall i :: 0 <= i < l.Packed() ==> !Damaged(i, [], l);
  }

  lemma AgreeAnyStride(a: Image, b: Image, regions: seq<Rect>, l: Layout, m: Layout)
    requires l.Valid() && m.Valid() && l.width == m.width && l.height == m.height
    requires AgreeOutside(a, b, regions, l)
    ensures AgreeOutside(a, b, regions, m)
  {
    forall i | 0 <= i < m.Packed() ensures Damaged(i, regions, l) == Damaged(i, regions, m) {
      PlaceIgnoresStride(l, m, i);
    }
  }

  lemma PictureWhenStraight(c: Capture, b: Buffer)
    requires Readable(c, b) && !c.swapped
    ensures Picture(c, b) == Pack(Mapped(c, b), LayoutOf(c, b.chunk.value))
  {
  }

  lemma WholeShortcut(c: Capture, b: Buffer)
    requires Readable(c, b) && c.previous.Some? && !c.swapped
    requires LayoutOf(c, b.chunk.value).stride == LayoutOf(c, b.chunk.value).row
    requires Mapped(c, b) == c.previous.value
    ensures c.previous == Some(Picture(c, b))
  {
    var l := LayoutOf(c, b.chunk.value);
    PackWhenPacked(Mapped(c, b), l);
    assert Mapped(c, b)[..l.Packed()] == Mapped(c, b);
  }

  /**
   One buffer: unless the capture was closed meanwhile, the shortcut version and the
   plain version report the same thing and retain the same picture, and the retained
   number stays right.
   */
  lemma StepRefines(truth: nat -> Image, c: Capture, b: Buffer)
    requires Sound(truth, c) && Honest(truth, c, b)
    ensures Step(c, b).0.closed || Step(c, b).1 == Plain(c, b).1
    ensures Step(c, b).0.closed || Baseline(Step(c, b).0) == Baseline(Plain(c, b).0)
    ensures Sound(truth, Step(c, b).0)
  {
    var s := Admit(c, b);
    if s.Usable? && b.chunk.value.size != 0 && Readable(c, b) && Unchanged(c, b, s) {
      ShortcutSound(truth, c, b);
    }
    if s.Usable? && Readable(c, b) {
      PictureSized(c, b);
    }
    hide Admit, Picture, Readable, Unchanged;
  }

  lemma PictureSized(c: Capture, b: Buffer)
    requires Readable(c, b)
    ensures |Picture(c, b)| == c.width * 4 * c.height
  {
  }

  /** The state after a run of buffers, and what each of them reported. */
  ghost function Run(c: Capture, bs: seq<Buffer>): (r: (Capture, seq<Out>))
    requires Sized(c)
    ensures Sized(r.0) && Same(r.0, c)
  {
    if bs == [] then (c, [])
    else
      var (d, outs) := Run(c, bs[..|bs| - 1]);
      var (e, out) := Step(d, bs[|bs| - 1]);
      (e, outs + [out])
  }

  function PlainRun(c: Capture, bs: seq<Buffer>): (Capture, seq<Out>) {
    if bs == [] then (c, [])
    else
      var (d, outs) := PlainRun(c, bs[..|bs| - 1]);
      var (e, out) := Plain(d, bs[|bs| - 1]);
      (e, outs + [out])
  }

  predicate Same(c: Capture, d: Capture) {
    c.width == d.width && c.height == d.height && c.swapped == d.swapped && c.embedded == d.embedded
  }

  lemma PlainIgnoresSequence(c: Capture, d: Capture, b: Buffer)
    requires Baseline(c) == Baseline(d)
    ensures Plain(c, b).1 == Plain(d, b).1 && Baseline(Plain(c, b).0) == Baseline(Plain(d, b).0)
  {
    SameDecisions(c, d, b);
    hide Admit, Picture, Readable;
  }

  lemma SameDecisions(c: Capture, d: Capture, b: Buffer)
    requires Same(c, d)
    ensures Admit(c, b) == Admit(d, b) && Readable(c, b) == Readable(d, b)
    ensures Readable(c, b) ==> Picture(c, b) == Picture(d, b)
  {
  }

  /**
   Every run of an honest producer, across gaps, corrupted buffers, discontinuities,
   padding and out-of-range hints: as long as the capture is open, the damage-driven
   callback reports exactly what copying and comparing every picture reports.
   */
  lemma {:induction false} RunRefines(truth: nat -> Image, c: Capture, bs: seq<Buffer>)
    requires Sound(truth, c) && !c.closed
    requires forall k :: 0 <= k < |bs| ==> Honest(truth, c, bs[k])
    ensures Sound(truth, Run(c, bs).0)
    ensures Run(c, bs).0.closed || Run(c, bs).1 == PlainRun(c, bs).1
    ensures Run(c, bs).0.closed || Baseline(Run(c, bs).0) == Baseline(PlainRun(c, bs).0)
    decreases |bs|
  {
    if bs != [] {
      var most, last := bs[..|bs| - 1], bs[|bs| - 1];
      RunRefines(truth, c, most);
      var d, p := Run(c, most).0, PlainRun(c, most).0;
      HonestElsewhere(truth, c, d, last);
      StepRefines(truth, d, last);
      if !Run(c, bs).0.closed {
        PlainIgnoresSequence(d, p, last);
      }
    }
  }

  /** A producer's honesty concerns the stream, not what the consumer retained. */
  lemma HonestElsewhere(truth: nat -> Image, c: Capture, d: Capture, b: Buffer)
    requires Same(c, d) && Honest(truth, c, b)
    ensures Honest(truth, d, b)
  {
    SameDecisions(c, d, b);
  }

  /**
   With a separate cursor, an accepted picture is reported exactly when it differs
   from the retained one, and is what is retained from then on.
   */
  lemma ReportedExactlyWhenChanged(truth: nat -> Image, c: Capture, b: Buffer)
    requires Sound(truth, c) && Honest(truth, c, b) && !c.embedded && !c.closed
    requires Admit(c, b).Usable? && b.chunk.value.size != 0 && Readable(c, b)
    ensures var (d, out) := Step(c, b);
            d.closed || (d.previous == Some(Picture(c, b)) &&
                         out == Processed(if c.previous == Some(Picture(c, b)) then None else Some(Picture(c, b))))
  {
    StepRefines(truth, c, b);
  }

  /**
   With an embedded cursor it is also reported when only the cursor moved or
   changed, drawn at its new place.
   */
  lemma EmbeddedReports(truth: nat -> Image, c: Capture, b: Buffer)
    requires Sound(truth, c) && Honest(truth, c, b) && c.embedded && !c.closed
    requires Sane(c, b) && b.chunk.value.size != 0 && Readable(c, b)
    ensures var (d, out) := Step(c, b);
      var still := c.previous == Some(Picture(c, b)) && c.placement == Some(b.placement);
      || (d.closed && out == Skipped && (b.interrupted || b.paintInterrupted))
      || (d.previous == Some(Picture(c, b)) && d.placement == Some(b.placement)
          && out == Processed(if still then None else Some(Picture(c, b))))
  {
    AdmitMeans(c, b);
    StepRefines(truth, c, b);
  }

  /** A buffer without pixels keeps the picture, and reports it only for an embedded cursor that changed. */
  lemma EmptyReports(c: Capture, b: Buffer)
    requires Sized(c) && !c.closed && Sane(c, b) && b.chunk.value.size == 0
    ensures var (d, out) := Step(c, b);
      var redrawn := c.embedded && c.previous.Some? && c.placement != Some(b.placement);
      if redrawn && b.paintInterrupted then d == c.(closed := true) && out == Skipped
      else
        && d.previous == c.previous && d.placement == Some(b.placement) && !d.closed
        && out == Processed(if redrawn then c.previous else None)
  {
    AdmitMeans(c, b);
  }

  /** The header's number follows the retained one, with nothing lost in between. */
  ghost predicate Follows(c: Capture, b: Buffer) {
    && LastHeader(b.metas).Some? && c.previousSequence.Some?
    && LastHeader(b.metas).value.sequence == c.previousSequence.value + 1
    && !LastHeader(b.metas).value.discontinuous
  }

  /** Which number is retained: that of the picture just looked at, or of an empty buffer that follows it. */
  lemma NumberRetained(c: Capture, b: Buffer)
    requires Sized(c) && Step(c, b).1.Processed?
    ensures Sane(c, b)
    ensures Step(c, b).0.previousSequence ==
      if LastHeader(b.metas).Some? && (b.chunk.value.size != 0 || Follows(c, b))
        then Some(LastHeader(b.metas).value.sequence) else None
  {
    AdmitMeans(c, b);
  }
}
