/**
 Pulling the native selection in bounded chunks while revisions change underneath
 (desktop_clipboard.py, `observe`, `pump`, `invalidate`).
 */
module Clipboard {
  import opened Common

  type Bytes = seq<byte>

  const LIMIT: int := 16000
  const CHUNK: nat := 1024

  /** A native scene under one connection epoch; the clipboard token is bound to exactly this. */
  datatype Scene = Scene(epoch: nat, window: nat, generation: nat)

  datatype Reading = Reading(revision: nat, token: Scene, size: nat, data: Bytes)

  /** What is handed to viewers: the selection's bytes, or none when it is unavailable. */
  datatype Publication = Publication(revision: nat, token: Scene, text: Option<Bytes>)

  datatype Read = Read(revision: nat, offset: nat)

  class NativeClipboard {
    var revision: nat
    var reading: Option<Reading>
    var request: Option<Read>
    var closed: bool
    /** The native scene that is current, if input has one. */
    var scene: Option<Scene>

    /** The selection each announced revision stands for, everything asked, and everything published. */
    ghost var contents: map<nat, Bytes>
    ghost var asked: seq<Read>
    ghost var answered: nat
    ghost var published: seq<Publication>
    /** Whether every chunk so far was the announced one. */
    ghost var honest: bool

    /** What holds even while an unfinished transfer has not yet asked for its next chunk. */
    ghost predicate Asking()
      reads this
    {
      && (closed ==> reading.None? && request.None?)
      && (forall r :: r in contents ==> r <= revision)
      && (reading.Some? ==>
            var r := reading.value;
            && r.revision == revision && revision in contents
            && |r.data| < r.size == |contents[revision]| && r.size <= LIMIT
            && (honest ==> r.data == contents[revision][..|r.data|]))
      && (request.Some? ==>
            && asked != [] && asked[|asked| - 1] == request.value
            && request.value.revision <= revision
            && (reading.Some? && request.value.revision == revision ==> request.value.offset == |reading.value.data|))
      && (!closed ==> |asked| == answered + if request.Some? then 1 else 0)
      && (honest ==> forall p :: p in published && p.text.Some? ==>
        p.revision in contents && p.text.value == contents[p.revision])
    }

    /** At most one read is outstanding, and an unfinished transfer always has one outstanding. */
    ghost predicate Valid()
      reads this
    {
      Asking() && (reading.Some? ==> request.Some?)
    }

    constructor ()
      ensures Valid() && !closed && honest && published == [] && asked == [] && revision == 0 && scene.None?
    {
      revision, reading, request, closed, scene := 0, None, None, false, None;
      contents, asked, answered, published, honest := map[], [], 0, [], true;
    }

    /** `pump`. A full control channel ends the exchange. */
    method Pump(room: bool) returns (raised: bool)
      requires Asking()
      modifies this
      ensures Valid() && revision == old(revision) && contents == old(contents) && published == old(published)
      ensures honest == old(honest) && scene == old(scene) && answered == old(answered)
      ensures raised == (old(reading.Some? && request.None? && !closed) && !room)
      ensures raised ==> closed
      ensures !raised ==> reading == old(reading) && closed == old(closed)
      ensures !raised && old(reading.Some? && request.None? && !closed) ==>
        request == Some(Read(reading.value.revision, |reading.value.data|)) && asked == old(asked) + [request.value]
      ensures !raised && !old(reading.Some? && request.None? && !closed) ==>
        && request == old(request)
        && asked == old(asked)
    {
      raised := false;
      if reading.Some? && request.None? && !closed {
        request := Some(Read(reading.value.revision, |reading.value.data|));
        asked := asked + [request.value];
        if !room {
          Close();
          raised := true;
        }
      }
    }

    /** `close`, which also follows every protocol error on the control channel. */
    method Close()
      requires Asking()
      modifies this`closed, this`reading, this`request
      ensures Valid() && closed
    {
      closed, reading, request := true, None, None;
    }

    /** `invalidate`: the outstanding read stays outstanding, its transfer does not. */
    method Invalidate()
      requires Valid()
      modifies this`reading
      ensures Valid() && reading == None
    {
      reading := None;
    }

    method Publish(token: Scene, text: Option<Bytes>)
      requires Asking() && (text.Some? && honest ==> revision in contents && text.value == contents[revision])
      modifies this`published
      ensures Asking() && published == old(published) + [Publication(revision, token, text)]
    {
      published := published + [Publication(revision, token, text)];
    }

    /** A `clipboard-state` record announcing `content`, of `size` bytes (negative when it cannot be read). */
    method ObserveState(announced: nat, about: Scene, size: int, ghost content: Bytes, room: bool)
      returns (raised: bool)
      requires Valid() && (size >= 0 ==> |content| == size)
      modifies this
      ensures Valid() && scene == old(scene) && honest == old(honest)
      ensures raised <==> !old(closed) && (announced <= old(revision) || size < -1 || size > LIMIT
                                           || (scene == Some(about) && size > 0 && old(request.None?) && !room))
      ensures closed <==> old(closed) || raised
      ensures closed ==> published == old(published)
      ensures !raised && !old(closed) ==>
        && !closed && revision == announced && contents == old(contents)[announced := content]
        && published == old(published) +
             (if scene == Some(about) && size <= 0
               then [Publication(announced, about, if size == 0 then Some([]) else None)] else [])
        && reading == (if scene == Some(about) && size > 0 then Some(Reading(announced, about, size, [])) else None)
    {
      raised := false;
      if closed {
        return;
      }
      if announced <= revision || !(-1 <= size <= LIMIT) {
        Close();
        return true;
      }
      revision, reading := announced, None;
      contents := contents[announced := content];
      if scene != Some(about) {
        return;
      }
      if size <= 0 {
        Publish(about, if size == 0 then Some([]) else None);
      } else {
        reading := Some(Reading(announced, about, size, []));
        raised := Pump(room);
      }
    }

    /** The chunk an honest compositor returns to the outstanding read; none when the revision is gone. */
    ghost predicate Announced(chunk: Option<Bytes>)
      reads this`request, this`contents
    {
      request.Some? && chunk.Some? ==>
        && request.value.revision in contents
        && var all, o := contents[request.value.revision], request.value.offset;
           o < |all| && chunk.value == all[o..if o + CHUNK <= |all| then o + CHUNK else |all|]
    }

    /** The reply belongs to the transfer in progress, and its scene is still the current one. */
    ghost predicate Current(r: nat)
      reads this`reading, this`scene
    {
      reading.Some? && r == reading.value.revision && scene == Some(reading.value.token)
    }

    /** The bytes are not what the transfer in progress expects next: a full chunk, or exactly the rest. */
    ghost predicate Misfits(offset: nat, chunk: Bytes)
      requires reading.Some? && |reading.value.data| <= reading.value.size
      reads this`reading
    {
      var left := reading.value.size - |reading.value.data|;
      offset != |reading.value.data| || |chunk| != if CHUNK <= left then CHUNK else left
    }

    /** The reply was not asked for, is no chunk, or does not continue the transfer. */
    ghost predicate Refuses(r: nat, offset: nat, chunk: Option<Bytes>)
      requires Asking()
      reads this
    {
      || request != Some(Read(r, offset))
      || (chunk.Some? && !(1 <= |chunk.value| <= CHUNK))
      || (Current(r) && chunk.Some? && Misfits(offset, chunk.value))
    }

    /** A selection is still to be read once this reply has been consumed. */
    ghost predicate Continues(r: nat, chunk: Option<Bytes>)
      reads this`reading, this`scene
    {
      reading.Some? &&
      if r != reading.value.revision then true
      else Current(r) && chunk.Some? && |reading.value.data + chunk.value| != reading.value.size
    }

    lemma Fits(r: nat, offset: nat, chunk: Option<Bytes>)
      requires Valid()
      ensures honest && Announced(chunk) && request == Some(Read(r, offset)) ==> !Refuses(r, offset, chunk)
    {
    }

    /** What a reply comes to. */
    twostate predicate Takes(r: nat, chunk: Option<Bytes>, decodable: bool)
      reads this
    {
      if old(reading.None? || reading.value.revision != r) then
        reading == old(reading) && published == old(published)
      else
        var was := old(reading).value;
        if scene != Some(was.token) then reading.None? && published == old(published)
        else if chunk.None? then reading.None? && published == old(published) + [Publication(r, was.token, None)]
        else if |was.data + chunk.value| == was.size then
          reading.None? && published == old(published) +
            [Publication(r, was.token, if decodable then Some(was.data + chunk.value) else None)]
        else reading == Some(was.(data := was.data + chunk.value)) && published == old(published)
    }

    /**
     A `clipboard-data` record. `decodable` is whether the finished bytes are text.
     Honest replies are never refused, replies to superseded reads are consumed
     without effect, and a finished transfer publishes what it collected.
     */
    method ObserveData(r: nat, offset: nat, chunk: Option<Bytes>, decodable: bool, room: bool) returns (raised: bool)
      requires Valid()
      modifies this
      ensures Valid() && scene == old(scene) && revision == old(revision) && contents == old(contents)
      ensures honest == (old(honest) && (old(closed) || old(request) != Some(Read(r, offset)) || old(Announced(chunk))))
      ensures raised == (!old(closed) && (old(Refuses(r, offset, chunk)) || (old(Continues(r, chunk)) && !room)))
      ensures old(honest && Announced(chunk)) && old(request) == Some(Read(r, offset)) && room ==> !raised
      ensures closed == (old(closed) || raised) && (closed ==> published == old(published))
      ensures !closed ==> Takes(r, chunk, decodable) && answered == old(answered) + 1
    {
      hide Announced, Misfits, Continues;
      Fits(r, offset, chunk);
      raised := false;
      if closed {
        return;
      }
      if request != Some(Read(r, offset)) {
        Close();
        return true;
      }
      honest := honest && Announced(chunk);
      if chunk.Some? && !(1 <= |chunk.value| <= CHUNK) {
        Close();
        return true;
      }
      raised := Consume(r, chunk, decodable, room);
    }

    /** A reply that was asked for. */
    method Consume(r: nat, chunk: Option<Bytes>, decodable: bool, room: bool) returns (raised: bool)
      requires Valid() && !closed && request.Some? && request.value.revision == r && (honest ==> Announced(chunk))
      modifies this
      ensures Valid() && scene == old(scene) && revision == old(revision) && contents == old(contents)
      ensures honest == old(honest) && closed == raised
      ensures raised == old((Current(r) && chunk.Some? && Misfits(request.value.offset, chunk.value)) ||
                            (Continues(r, chunk) && !room))
      ensures raised ==> published == old(published)
      ensures !raised ==> Takes(r, chunk, decodable) && answered == old(answered) + 1
    {
      hide Announced, Misfits;
      if reading.Some? && r == reading.value.revision {
        raised := Collect(chunk, decodable);
        if raised {
          return;
        }
      } else {
        request := None;
        answered := answered + 1;
      }
      raised := Pump(room);
    }

    /** The chunk of the transfer in progress: collected, published when it was the last, or refused. */
    method Collect(chunk: Option<Bytes>, decodable: bool) returns (raised: bool)
      requires Valid() && !closed && reading.Some? && request.Some? && request.value.revision == reading.value.revision
      requires honest ==> Announced(chunk)
      modifies this
      ensures Asking() && scene == old(scene) && revision == old(revision) && contents == old(contents)
      ensures honest == old(honest)
      ensures raised == old(scene == Some(reading.value.token) && chunk.Some? &&
                            Misfits(request.value.offset, chunk.value))
      ensures closed == raised && (raised ==> published == old(published))
      ensures !raised ==> request.None? && asked == old(asked) && answered == old(answered) + 1
      ensures !raised ==> Takes(old(request.value.revision), chunk, decodable)
    {
      raised := false;
      var was, offset := reading.value, request.value.offset;
      ghost var all := contents[revision];
      request, answered := None, answered + 1;
      var current := scene == Some(was.token);
      if !current || chunk.None? {
        reading := None;
        if current {
          Publish(was.token, None);
        }
        return;
      }
      if offset != |was.data| || |chunk.value| != (if CHUNK <= was.size - offset then CHUNK else was.size - offset) {
        Close();
        return true;
      }
      var data := was.data + chunk.value;
      assert honest ==> data == all[..|data|];
      if |data| == was.size {
        assert all[..|data|] == all;
        reading := None;
        Publish(was.token, if decodable then Some(data) else None);
      } else {
        reading := Some(was.(data := data));
      }
    }
  }

  // ---- runs ---------------------------------------------------------------------------

  datatype Event =
    | State(revision: nat, about: Scene, size: int, content: Bytes, room: bool)
    | Data(revision: nat, offset: nat, chunk: Option<Bytes>, decodable: bool, room: bool)
    | SceneChanged(scene: Option<Scene>)

  /**
   Every run: whatever is published as text is exactly the bytes announced for one
   revision, never spliced from two, as long as the compositor answered honestly;
   and no more than one read was ever outstanding.
   */
  method Run(events: seq<Event>) returns (clipboard: NativeClipboard)
    ensures fresh(clipboard) && clipboard.Valid()
    ensures clipboard.honest ==> forall p :: p in clipboard.published && p.text.Some? ==>
      p.revision in clipboard.contents && p.text.value == clipboard.contents[p.revision]
    ensures !clipboard.closed ==> |clipboard.asked| <= clipboard.answered + 1
  {
    clipboard := new NativeClipboard();
    for i := 0 to |events|
      invariant fresh(clipboard) && clipboard.Valid()
    {
      match events[i] {
        case State(revision, about, size, content, room) =>
          if size < 0 || |content| == size {
            var _ := clipboard.ObserveState(revision, about, size, content, room);
          }
        case Data(revision, offset, chunk, decodable, room) =>
          var _ := clipboard.ObserveData(revision, offset, chunk, decodable, room);
        case SceneChanged(scene) =>
          clipboard.scene := scene;
          clipboard.Invalidate();
      }
    }
  }
}
