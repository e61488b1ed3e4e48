/**
 One latest cursor image, pulled in chunks while revisions change underneath
 (desktop_cursor.py, `observe`, `pump`, `invalidate`).

 Unlike a selection, which is published once, the image is kept as the current
 cursor until the scene or a newer revision takes it away.
 */
module Cursor {
  import opened Common

  type Bytes = seq<byte>

  const LIMIT: nat := 1024
  const CHUNK: nat := 1024

  datatype Scene = Scene(connection: nat, window: nat, generation: nat)

  /** What a `cursor-state` record announces: an image of so many pixels, or a cursor without one. */
  datatype Shape = Image(width: nat, height: nat) | Plain

  datatype Announcement = Announcement(revision: nat, about: Scene, shape: Shape)

  datatype Transfer = Transfer(target: Scene, of: Announcement, data: Bytes)

  datatype Read = Read(revision: nat, offset: nat)

  /** The cursor shown to viewers, with its pixels when it has any. */
  datatype Shown = Shown(of: Announcement, pixels: Bytes)

  function Size(s: Shape): nat {
    if s.Image? then s.width * s.height * 4 else 0
  }

  ghost predicate WellFormed(s: Shape) {
    s.Image? ==> 1 <= s.width <= LIMIT && 1 <= s.height <= LIMIT
  }

  lemma PositiveSize(s: Shape)
    requires s.Image? && WellFormed(s)
    ensures Size(s) > 0
  {
  }

  class NativeCursor {
    var revision: nat
    var current: Option<Shown>
    var pending: Option<Transfer>
    var request: Option<Read>
    var closed: bool
    /** The native scene under its connection, when input has one. */
    var scene: Option<Scene>

    /**
     The pixels each announced image stands for, the reads asked and answered, and
     whether every chunk was the announced one.
     */
    ghost var contents: map<nat, Bytes>
    ghost var asked: seq<Read>
    ghost var answered: nat
    ghost var honest: bool

    /** What holds even while an unfinished transfer has not yet asked for its next chunk. */
    ghost predicate Asking()
      reads this
    {
      && (forall r :: r in contents ==> r <= revision)
      && (pending.Some? ==>
            var (of, data) := (pending.value.of, pending.value.data);
            && of.revision == revision && of.shape.Image? && revision in contents
            && |data| < Size(of.shape) == |contents[revision]|
            && (honest ==> data == contents[revision][..|data|]))
      && (closed ==> pending.None? && request.None? && current.None?)
      && (request.Some? ==>
            && request.value.revision <= revision
            && (pending.Some? && request.value.revision == revision ==> request.value.offset == |pending.value.data|))
      && (!closed ==> |asked| == answered + if request.Some? then 1 else 0)
      && (current.Some? ==> current.value.of.revision <= revision)
      && (honest && current.Some? && current.value.of.shape.Image? ==>
            current.value.of.revision in contents && current.value.pixels == contents[current.value.of.revision])
    }

    ghost predicate Valid()
      reads this
    {
      Asking() && (pending.Some? ==> request.Some?)
    }

    constructor ()
      ensures Valid() && !closed && honest && current.None? && asked == [] && revision == 0 && scene.None?
    {
      revision, current, pending, request, closed, scene := 0, None, None, None, false, None;
      contents, asked, answered, honest := map[], [], 0, true;
    }

    /** `pump`. A full control channel ends the exchange. */
    method Pump(room: bool) returns (raised: bool)
      requires Asking()
      modifies this`request, this`asked, this`closed, this`pending, this`current
      ensures Valid()
      ensures raised == (old(pending.Some? && request.None?) && !room)
      ensures raised ==> closed && asked == old(asked) + [Read(revision, old(|pending.value.data|))]
      ensures !raised ==> closed == old(closed) && pending == old(pending) && current == old(current)
      ensures !raised && old(pending.Some? && request.None?) ==>
        request == Some(Read(revision, |pending.value.data|)) && asked == old(asked) + [request.value]
      ensures !old(pending.Some? && request.None?) ==> request == old(request) && asked == old(asked)
    {
      raised := false;
      if !closed && pending.Some? && request.None? {
        request := Some(Read(pending.value.of.revision, |pending.value.data|));
        asked := asked + [request.value];
        if !room {
          Close();
          raised := true;
        }
      }
    }

    /** `close`, which also follows every protocol error: the channel that raised closes everything on it. */
    method Close()
      requires Asking()
      modifies this`closed, this`request, this`pending, this`current
      ensures Valid() && closed
    {
      closed, request := true, None;
      pending, current := None, None;
    }

    /** `invalidate`: the transfer and the cursor go, the read in flight stays in flight. */
    method Invalidate()
      requires Valid()
      modifies this`pending, this`current
      ensures Valid() && pending.None? && current.None?
    {
      pending, current := None, None;
    }

    /** A `cursor-state` record. `content` is what the announced image consists of. */
    method ObserveState(a: Announcement, ghost content: Bytes, room: bool) returns (raised: bool)
      requires Valid() && |content| == Size(a.shape)
      modifies this
      ensures Valid() && scene == old(scene) && honest == old(honest)
      ensures raised <==> !old(closed) && (a.revision <= old(revision) || !WellFormed(a.shape)
                                           || (scene == Some(a.about) && a.shape.Image? && old(request.None?) && !room))
      ensures old(closed) ==> revision == old(revision) && contents == old(contents)
      ensures closed <==> old(closed) || raised
      ensures !old(closed) && !raised ==>
        && revision == a.revision && contents == old(contents)[a.revision := content]
        && (scene != Some(a.about) ==> current.None? && pending.None?)
        && (scene == Some(a.about) && a.shape.Plain? ==> current == Some(Shown(a, [])) && pending.None?)
        && (scene == Some(a.about) && a.shape.Image? ==>
          current == old(current) && pending == Some(Transfer(a.about, a, [])) && request.Some?)
    {
      raised := false;
      if closed {
        return;
      }
      if a.revision <= revision
         || (a.shape.Image? &&
             (a.shape.width < 1 || a.shape.width > LIMIT || a.shape.height < 1 || a.shape.height > LIMIT))
      {
        Close();
        return true;
      }
      revision, pending, contents := a.revision, None, contents[a.revision := content];
      if scene != Some(a.about) {
        current := None;
      } else if a.shape.Image? {
        PositiveSize(a.shape);
        pending := Some(Transfer(a.about, a, []));
        raised := Pump(room);
      } else {
        current := Some(Shown(a, []));
      }
    }

    /** The chunk an honest compositor returns to the outstanding read; none when the revision is gone. */
    ghost predicate Announced(chunk: Option<Bytes>)
      reads this`request, this`contents
    {
      request.Some? && chunk.Some? ==>
        && request.value.revision in contents
        && var all, o := contents[request.value.revision], request.value.offset;
           o < |all| && chunk.value == all[o..if o + CHUNK <= |all| then o + CHUNK else |all|]
    }

    /** The reply belongs to the image being pulled, and its scene is still the current one. */
    ghost predicate Current(r: nat)
      reads this`pending, this`scene
    {
      pending.Some? && pending.value.of.revision == r && scene == Some(pending.value.target)
    }

    /** The bytes are not what the image being pulled expects next: a full chunk, or exactly the rest. */
    ghost predicate Misfits(offset: nat, chunk: Bytes)
      requires pending.Some? && |pending.value.data| <= Size(pending.value.of.shape)
      reads this`pending
    {
      var left := Size(pending.value.of.shape) - |pending.value.data|;
      offset != |pending.value.data| || |chunk| != if CHUNK <= left then CHUNK else left
    }

    /** The reply was not asked for, is no chunk, or does not continue the image. */
    ghost predicate Refuses(r: nat, offset: nat, chunk: Option<Bytes>)
      requires Asking()
      reads this
    {
      || request != Some(Read(r, offset))
      || (chunk.Some? && !(1 <= |chunk.value| <= CHUNK))
      || (Current(r) && chunk.Some? && Misfits(offset, chunk.value))
    }

    /** An image is still to be pulled once this reply has been consumed. */
    ghost predicate Continues(r: nat, chunk: Option<Bytes>)
      reads this`pending, this`scene
    {
      pending.Some? &&
      if pending.value.of.revision != r then true
      else
        Current(r) && chunk.Some? && |pending.value.data + chunk.value| != Size(pending.value.of.shape)
    }

    /**
     A `cursor-data` record. Replies to superseded reads are consumed without
     effect; a chunk for a scene that is gone, or a withdrawn revision, takes the
     cursor away; a complete image becomes the cursor.
     */
    method ObserveData(r: nat, offset: nat, chunk: Option<Bytes>, room: bool) returns (raised: bool)
      requires Valid()
      modifies this
      ensures Valid() && scene == old(scene) && revision == old(revision) && contents == old(contents)
      ensures honest == (old(honest) && (old(closed) || old(request) != Some(Read(r, offset)) || old(Announced(chunk))))
      ensures raised == (!old(closed) && (old(Refuses(r, offset, chunk)) || (old(Continues(r, chunk)) && !room)))
      ensures old(honest && Announced(chunk)) && old(request) == Some(Read(r, offset)) && room ==> !raised
      ensures closed == (old(closed) || raised)
      ensures !raised && !old(closed) ==> answered == old(answered) + 1
      ensures !raised && !old(closed) ==> Takes(r, chunk)
    {
      hide Announced, Size, Misfits, Continues;
      Fits(r, offset, chunk);
      raised := false;
      if closed {
        return;
      }
      if request != Some(Read(r, offset)) {
        Close();
        return true;
      }
      honest := honest && Announced(chunk);
      if chunk.Some? && !(1 <= |chunk.value| <= CHUNK) {
        Close();
        return true;
      }
      raised := Consume(r, chunk, room);
    }

    /** What a reply comes to. */
    twostate predicate Takes(r: nat, chunk: Option<Bytes>)
      reads this
    {
      if old(pending.None? || pending.value.of.revision != r) then current == old(current) && pending == old(pending)
      else
        var was := old(pending).value;
        if scene != Some(was.target) || chunk.None? then pending.None? && current.None?
        else if |was.data + chunk.value| == Size(was.of.shape)
          then pending.None? && current == Some(Shown(was.of, was.data + chunk.value))
        else pending == Some(was.(data := was.data + chunk.value)) && current == old(current)
    }

    /** A reply that was asked for. */
    method Consume(r: nat, chunk: Option<Bytes>, room: bool) returns (raised: bool)
      requires Valid() && !closed && request.Some? && request.value.revision == r && (honest ==> Announced(chunk))
      modifies this`pending, this`current, this`request, this`answered, this`asked, this`closed
      ensures Valid() && closed == raised
      ensures raised == old((Current(r) && chunk.Some? && Misfits(request.value.offset, chunk.value)) ||
                            (Continues(r, chunk) && !room))
      ensures !raised ==> Takes(r, chunk) && answered == old(answered) + 1
    {
      hide Announced, Size, Misfits;
      if pending.Some? && pending.value.of.revision == r {
        raised := Collect(chunk);
        if raised {
          return;
        }
      } else {
        request, answered := None, answered + 1;
      }
      raised := Pump(room);
    }

    lemma Fits(r: nat, offset: nat, chunk: Option<Bytes>)
      requires Valid()
      ensures honest && Announced(chunk) && request == Some(Read(r, offset)) ==> !Refuses(r, offset, chunk)
    {
      hide Size;
    }

    /** The chunk of the transfer in progress. */
    method Collect(chunk: Option<Bytes>) returns (raised: bool)
      requires Valid() && !closed && pending.Some? && request.Some?
      requires request.value.revision == pending.value.of.revision
      requires honest ==> Announced(chunk)
      modifies this`pending, this`current, this`request, this`answered, this`closed
      ensures Asking() && closed == raised
      ensures raised == old(scene == Some(pending.value.target) && chunk.Some? &&
                            Misfits(request.value.offset, chunk.value))
      ensures !raised ==> request.None? && answered == old(answered) + 1
      ensures !raised ==> Takes(old(request.value.revision), chunk)
    {
      hide Size;
      raised := false;
      var was, offset := pending.value, request.value.offset;
      ghost var all := contents[revision];
      request, answered := None, answered + 1;
      if scene != Some(was.target) || chunk.None? {
        pending, current := None, None;
        return;
      }
      var left := Size(was.of.shape) - |was.data|;
      if offset != |was.data| || |chunk.value| != (if CHUNK <= left then CHUNK else left) {
        Close();
        return true;
      }
      var data := was.data + chunk.value;
      assert honest ==> data == all[..|data|];
      if |data| == Size(was.of.shape) {
        assert all[..|data|] == all;
        pending, current := None, Some(Shown(was.of, data));
      } else {
        pending := Some(was.(data := data));
      }
    }
  }

  datatype Event =
    | State(a: Announcement, content: Bytes, room: bool)
    | Data(revision: nat, offset: nat, chunk: Option<Bytes>, room: bool)
    | SceneChanged(scene: Option<Scene>)

  /**
   Every run: with honest chunks the cursor's pixels are exactly those announced
   for its one revision, and no more than one read is ever outstanding.
   */
  method Run(events: seq<Event>) returns (c: NativeCursor)
    ensures fresh(c) && c.Valid()
    ensures c.honest && c.current.Some? && c.current.value.of.shape.Image? ==>
      c.current.value.of.revision in c.contents && c.current.value.pixels == c.contents[c.current.value.of.revision]
    ensures !c.closed ==> |c.asked| <= c.answered + 1
  {
    c := new NativeCursor();
    for i := 0 to |events|
      invariant fresh(c) && c.Valid()
    {
      match events[i] {
        case State(a, content, room) =>
          if |content| == Size(a.shape) {
            var _ := c.ObserveState(a, content, room);
          }
        case Data(revision, offset, chunk, room) =>
          var _ := c.ObserveData(revision, offset, chunk, room);
        case SceneChanged(scene) =>
          c.scene := scene;
          c.Invalidate();
      }
    }
  }
}
