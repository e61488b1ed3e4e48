/**
 The preparation manager (manager.go): one operation at a time, started and
 steered by callers under the lock, carried on by one worker, and recorded on
 disk by a write that can fail at every point.

 Each method is one section under the lock. What a file, the network, an
 archive or the validator answers is a parameter, as is whether the record was
 written.
 */
module Manager {
  import opened Common

  type Digest = nat
  type Bytes = seq<byte>

  datatype State =
    | Available | Checking | Downloading | Receiving | Verifying | Installing | Validating
    | Ready | Failed | Cancelled | Interrupted

  predicate Active(s: State) {
    s.Checking? || s.Downloading? || s.Receiving? || s.Verifying? || s.Installing? || s.Validating?
  }

  datatype Source = Download | Upload | Cache | OtherSource

  datatype Operation = Operation(
    installed: Option<Digest>,
    owner: string,
    request: string,
    source: Source,
    uploadSize: int,
    state: State,
    id: Option<nat>,
    received: nat,
    expected: int)

  /** Where the worker is. Each place but `Publish` ends with its own section under the lock. */
  datatype Place =
    | Prepare | Check | Plan | Begin | Fetch
    | Receive
    | Install | Unpack | Announce | Validate | Mark | Publish

  /** How much work is left, counted in places. */
  function Rank(p: Place): nat {
    match p
    case Prepare => 11
    case Check => 10
    case Plan => 9
    case Begin => 8
    case Fetch => 7
    case Receive => 7
    case Install => 6
    case Unpack => 5
    case Announce => 4
    case Validate => 3
    case Mark => 2
    case Publish => 1
  }

  /** Where the worker goes from a place when nothing goes wrong there. */
  ghost function Next(p: Place): Place {
    match p
    case Prepare => Check
    case Check => Plan
    case Plan => Begin
    case Begin => Fetch
    case Fetch => Install
    case Receive => Install
    case Install => Unpack
    case Unpack => Announce
    case Announce => Validate
    case Validate => Mark
    case Mark => Publish
    case Publish => Publish
  }

  /** The state that a place announces and records; the other places do their work outside the lock. */
  ghost function Announced(p: Place): Option<State> {
    match p
    case Check => Some(Checking)
    case Begin => Some(Downloading)
    case Install => Some(Installing)
    case Announce => Some(Validating)
    case _ => None
  }

  /** The worker moved on, or reported progress where it was. */
  ghost predicate Closer(before: Option<Place>, after: Option<Place>, progress: Option<nat>) {
    before.Some? && after.Some? &&
      (Rank(after.value) < Rank(before.value) || (progress.Some? && after == Some(Fetch) == before))
  }

  ghost predicate Places(p: Place, s: State) {
    match p
    case Prepare => s.Downloading?
    case Check => s.Downloading?
    case Plan => s.Checking?
    case Begin => s.Checking?
    case Fetch => s.Downloading?
    case Receive => s.Verifying?
    case Install => s.Downloading? || s.Verifying?
    case Unpack => s.Installing?
    case Announce => s.Installing?
    case Validate => s.Validating?
    case Mark => s.Validating?
    case Publish => s.Validating?
  }

  datatype Answer = Invalid | Forbidden | Busy | Existing | Refreshed | Broken | Begun

  /** A record that is due at most every quarter second is otherwise skipped. */
  datatype Write = Written | Skipped | Lost

  datatype Ending = Ending(id: nat, state: State)

  class Manager {
    const target: Digest
    const packageSize: nat

    var op: Operation
    var closed: bool
    /** The context of the operation: whether it can be cancelled, and whether it was. */
    var cancellable: bool
    var cancelled: bool
    /** Whether `done` is open. */
    var done: bool
    var upload: Option<Bytes>
    var worker: Option<Place>
    /** Digests whose directory resolves, and the record as it is on disk. */
    var resolves: set<Digest>
    var disk: Operation

    /** Operations started, which stands for the fresh identity of each. */
    var started: nat
    /** How each operation ended, in order; digests a directory was validated for. */
    ghost var endings: seq<Ending>
    ghost var validated: set<Digest>
    /** The validator's last verdict on a staged tree. */
    ghost var passed: bool

    constructor (target: Digest, packageSize: nat, saved: Operation, resolves: set<Digest>)
      requires !Active(saved.state) && (saved.id.None? || saved.id.value == 0)
      ensures Valid() && op == saved == disk && !closed && !cancelled && started == 0 && endings == [] && !passed
      ensures this.target == target && this.packageSize == packageSize && this.resolves == resolves && validated == {}
    {
      this.target, this.packageSize := target, packageSize;
      op, closed, cancellable, cancelled, done, upload, worker := saved, false, false, false, false, None, None;
      this.resolves, disk := resolves, saved;
      started, endings, validated, passed := 0, [], {}, false;
    }

    /**
     An operation is active exactly while `done` is open, uploads exactly while
     receiving, and otherwise has its one worker; every operation started
     before it has ended exactly once, in order; and what is installed is what
     the record on disk says.
     */
    ghost predicate Valid()
      reads this
    {
      && (Active(op.state) <==> done)
      && (upload.Some? <==> op.state == Receiving)
      && (worker.Some? <==> done && op.state != Receiving)
      && (worker.Some? ==> Places(worker.value, op.state))
      && (cancellable <==> done)
      && (done ==> op.id == Some(started) && 0 < started)
      && (op.id.Some? ==> op.id.value == started)
      && (upload.Some? ==> |upload.value| == op.received <= op.expected && op.expected == op.uploadSize)
      && op.installed == disk.installed
      && Endings(endings, started - if done then 1 else 0)
      && (worker == Some(Mark) || worker == Some(Publish) ==> passed)
      && (closed && done ==> worker.Some? && cancelled)
    }

    /** An operation about to take its terminal transition. */
    ghost predicate Finishing()
      reads this
    {
      && done && op.id == Some(started) && 0 < started && op.installed == disk.installed
      && upload.None? && Endings(endings, started - 1)
    }

    /** `publishLocked`. */
    method Record(written: bool) returns (ok: bool)
      modifies this`disk
      ensures ok == written && disk == if written then op else old(disk)
    {
      ok := written;
      if ok {
        disk := op;
      }
    }

    /** `finishLocked` and `completeLocked`: the one terminal transition of an operation. */
    method Finish(state: State, written: bool)
      requires Finishing() && !Active(state)
      modifies this`op, this`disk, this`cancellable, this`done, this`worker, this`endings
      ensures Valid() && !done && worker.None?
      ensures op == old(op).(state := if written then state else Failed)
      ensures disk == if written then op else old(disk)
      ensures endings == old(endings) + [Ending(started, op.state)]
    {
      op := op.(state := state);
      var ok := Record(written);
      if !ok {
        op := op.(state := Failed);
      }
      Complete();
    }

    method Complete()
      requires Finishing() && !Active(op.state)
      modifies this`cancellable, this`done, this`worker, this`endings
      ensures Valid() && !done && worker.None? && endings == old(endings) + [Ending(started, op.state)]
    {
      cancellable, done, worker := false, false, None;
      endings := endings + [Ending(started, op.state)];
    }

    /** `cancelLocked`: an upload ends at once, a worker when it next looks. */
    method Stop(state: State, written: bool)
      requires Valid() && !Active(state)
      modifies this`op, this`disk, this`cancellable, this`cancelled, this`done, this`upload, this`worker, this`endings
      ensures Valid()
      ensures !old(done) ==> unchanged(this)
      ensures old(done) ==> Stopped(state, written)
    {
      if !Active(op.state) {
        return;
      }
      cancelled := true;
      if upload.Some? {
        upload := None;
        Finish(state, written);
      }
    }

    /** `authorizeLocked` accepts. */
    ghost predicate Authorized(owner: string, id: Option<nat>)
      reads this
    {
      owner != "" && owner == op.owner && id.Some? && id == op.id && !closed
    }

    /** `authorizeLocked`: whose operation it is comes before which operation it is. */
    method Authorize(owner: string, id: Option<nat>) returns (refusal: Option<Answer>)
      ensures refusal.None? <==> Authorized(owner, id)
      ensures refusal == Some(Forbidden) <==> owner == "" || owner != op.owner
      ensures refusal.Some? ==> refusal.value == Forbidden || refusal.value == Invalid
    {
      if owner == "" || owner != op.owner {
        return Some(Forbidden);
      }
      if id.None? || id != op.id || closed {
        return Some(Invalid);
      }
      refusal := None;
    }

    // ---- callers ------------------------------------------------------------------------

    /** What `Start` refuses before it looks at the operation in hand. */
    ghost predicate WellFormed(owner: string, request: string, source: Source)
      reads this
    {
      !closed && owner != "" && request != "" && |owner| <= 256 && |request| <= 128 && source != OtherSource
    }

    ghost predicate SameRequest(owner: string, request: string)
      reads this
    {
      op.request == request && op.owner == owner
    }

    /**
     `Start`. Exactly one of: the request is malformed, it repeats the current
     operation, another operation is active, the target turns out to be
     installed already, or a new operation starts.
     */
    method Start(owner: string, request: string, source: Source, uploadSize: int, file: bool, written: bool,
      again: bool) returns (answer: Answer)
      requires Valid()
      modifies this
      ensures Valid() && closed == old(closed) && resolves == old(resolves) && validated == old(validated)
      ensures answer == Existing <==> old(WellFormed(owner, request, source) && SameRequest(owner, request)
                                          && op.source == source && op.uploadSize == uploadSize)
      ensures answer == Busy <==> old(WellFormed(owner, request, source) && !SameRequest(owner, request) && done)
      ensures answer == Refreshed <==> old(Free(owner, request, source) && target in resolves) && written
      ensures answer == Begun <==>
        old(Free(owner, request, source) && target !in resolves) && Sized(source, uploadSize) && written
        && (source == Upload ==> file)
      ensures answer == Broken <==>
        && old(Free(owner, request, source))
        && if old(target in resolves) then !written
           else Sized(source, uploadSize) && !(written && (source == Upload ==> file))
      ensures answer != Forbidden
      ensures answer == Invalid || answer == Existing || answer == Busy ==> unchanged(this)
      ensures answer == Refreshed ==>
        && op == old(op).(installed := Some(target), state := Ready) && disk == op && started == old(started)
        && endings == old(endings) && !done
      ensures answer == Broken && old(target in resolves) ==> unchanged(this)
      ensures answer == Begun ==> Fresh(owner, request, source, uploadSize) && started == old(started) + 1
      ensures answer == Begun ==> endings == old(endings) && op.installed == old(op.installed)
      ensures answer == Broken && old(target !in resolves) ==>
        && started == old(started) + 1 && Stillborn(owner, request, source, uploadSize, file, written, again)
    {
      if closed || owner == "" || request == "" || |owner| > 256 || |request| > 128 || source == OtherSource {
        return Invalid;
      }
      if op.request == request && op.owner == owner {
        return if op.source != source || op.uploadSize != uploadSize then Invalid else Existing;
      }
      if Active(op.state) {
        return Busy;
      }
      if target in resolves {
        var previous := op;
        op := op.(installed := Some(target), state := Ready);
        var ok := Record(written);
        if !ok {
          op := previous;
          return Broken;
        }
        return Refreshed;
      }
      if source == Upload && !(0 < uploadSize <= packageSize + 0x20_0000) {
        return Invalid;
      }
      answer := Launch(owner, request, source, uploadSize, file, written, again);
    }

    /** Nothing stands in the way of this request but its size. */
    ghost predicate Free(owner: string, request: string, source: Source)
      reads this
    {
      WellFormed(owner, request, source) && !SameRequest(owner, request) && !done
    }

    /** An upload may exceed the package by 2 MiB. */
    ghost predicate Sized(source: Source, uploadSize: int) {
      source == Upload ==> 0 < uploadSize <= packageSize + 2 * 1024 * 1024
    }

    /** The operation that a request describes, before it has received anything. */
    ghost function Described(installed: Option<Digest>, owner: string, request: string, source: Source,
      uploadSize: int): Operation
      reads this`started
    {
      Operation(installed, owner, request, source, uploadSize, if source == Upload then Receiving else Downloading,
                Some(started), 0, if source == Upload then uploadSize else packageSize)
    }

    /** The operation in hand is the one just described, recorded and not cancelled. */
    ghost predicate Fresh(owner: string, request: string, source: Source, uploadSize: int)
      reads this
    {
      && op == Described(op.installed, owner, request, source, uploadSize) && disk == op
      && done && !cancelled && !closed
      && upload == (if source == Upload then Some([]) else None)
      && worker == (if source == Upload then None else Some(Prepare))
    }

    /**
     The new operation ended as failed at once. Without a file it was not cancelled
     and its end was the first thing to record; otherwise its record was lost.
     */
    twostate predicate Stillborn(owner: string, request: string, source: Source, uploadSize: int, file: bool,
      written: bool, again: bool)
      reads this
    {
      && op == Described(old(op.installed), owner, request, source, uploadSize).(state := Failed)
      && !done && endings == old(endings) + [Ending(started, Failed)]
      && cancelled == (source == Upload ==> file)
      && disk == if (if source == Upload ==> file then again else written) then op else old(disk)
    }

    /** The part of `Start` that makes a new operation. */
    method Launch(owner: string, request: string, source: Source, uploadSize: int, file: bool, written: bool,
      again: bool) returns (answer: Answer)
      requires Valid() && !done && !closed && (source == Upload ==> 0 < uploadSize)
      modifies this
      ensures Valid() && !closed && resolves == old(resolves) && validated == old(validated)
      ensures started == old(started) + 1 && op.installed == old(op.installed)
      ensures answer == if written && (source == Upload ==> file) then Begun else Broken
      ensures answer == Begun ==> Fresh(owner, request, source, uploadSize) && endings == old(endings)
      ensures answer == Broken ==> Stillborn(owner, request, source, uploadSize, file, written, again)
    {
      hide Endings;
      Renew(owner, request, source, uploadSize);
      var ok := false;
      if source != Upload || file {
        ok := Record(written);
      }
      if !ok {
        // Without a file nothing was recorded yet; otherwise `cancelLocked` ends
        // an upload, and the second call ends anything else.
        cancelled := cancelled || source != Upload || file;
        Finish(Failed, if source != Upload || file then again else written);
        return Broken;
      }
      if source == Upload {
        upload := Some([]);
      } else {
        worker := Some(Prepare);
      }
      answer := Begun;
    }

    method Renew(owner: string, request: string, source: Source, uploadSize: int)
      requires Valid() && !done
      modifies this`started, this`cancellable, this`cancelled, this`done, this`op
      ensures Finishing() && started == old(started) + 1 && cancellable && !cancelled
      ensures op == Described(old(op.installed), owner, request, source, uploadSize)
    {
      started := started + 1;
      cancellable, cancelled, done := true, false, true;
      op := Operation(op.installed, owner, request, source, uploadSize, Downloading, Some(started), 0, packageSize);
      if source == Upload {
        op := op.(state := Receiving, expected := uploadSize);
      }
    }

    /** The chunk lies within what was received, and says the same. */
    ghost predicate Repeats(owner: string, id: Option<nat>, offset: int, data: Bytes)
      reads this
    {
      && Authorized(owner, id) && upload.Some? && 0 < |data| <= 256 * 1024
      && 0 <= offset && offset + |data| <= |upload.value| && offset + |data| <= op.expected
      && upload.value[offset..offset + |data|] == data
    }

    /** The chunk goes on where the last one ended, and stays within what was announced. */
    ghost predicate GoesOn(owner: string, id: Option<nat>, offset: int, data: Bytes)
      reads this
    {
      && Authorized(owner, id) && upload.Some? && 0 < |data| <= 256 * 1024
      && offset == |upload.value| && offset + |data| <= op.expected
    }

    /** `WriteChunk`: the next bytes, or an exact repetition of bytes already received. */
    method WriteChunk(owner: string, id: Option<nat>, offset: int, data: Bytes, count: nat, write: Write,
      again: bool) returns (answer: Answer)
      requires Valid() && count <= |data|
      modifies this
      ensures Valid() && started == old(started) && closed == old(closed) && op.installed == old(op.installed)
      ensures answer == Forbidden <==> owner == "" || owner != old(op.owner)
      ensures answer == Existing <==> old(Repeats(owner, id, offset, data))
      ensures answer == Begun <==> old(GoesOn(owner, id, offset, data)) && count == |data| && write != Lost
      ensures answer == Broken <==> old(GoesOn(owner, id, offset, data)) && !(count == |data| && write != Lost)
      ensures answer == Forbidden || answer == Invalid || answer == Existing || answer == Begun || answer == Broken
      ensures answer != Begun && answer != Broken ==> unchanged(this)
      ensures answer == Begun ==>
        && upload == Some(old(upload).value + data) && op == old(op).(received := old(op).received + |data|)
        && disk == (if write == Written then op else old(disk)) && endings == old(endings)
        && done && cancelled == old(cancelled)
      ensures answer == Broken ==>
        && upload.None? && !done && cancelled && endings == old(endings) + [Ending(started, Failed)]
        && op == old(op).(received := old(op).received + count, state := Failed)
        && disk == if again then op else old(disk)
    {
      var refusal := Authorize(owner, id);
      if refusal.Some? {
        return refusal.value;
      }
      if upload.None? || data == [] || |data| > 0x4_0000 || offset < 0 || offset + |data| > op.expected {
        return Invalid;
      }
      if offset < op.received {
        if offset + |data| > op.received || upload.value[offset..offset + |data|] != data {
          return Invalid;
        }
        return Existing;
      }
      if offset != op.received {
        return Invalid;
      }
      upload, op := Some(upload.value + data[..count]), op.(received := op.received + count);
      if count == |data| && write != Lost {
        assert data[..count] == data;
        if write == Written {
          var _ := Record(true);
        }
        return Begun;
      }
      Stop(Failed, again);
      answer := Broken;
    }

    /** `CompleteUpload`: only an upload of the announced size is handed to the worker, and only once. */
    method CompleteUpload(owner: string, id: Option<nat>, written: bool, again: bool) returns (answer: Answer)
      requires Valid()
      modifies this
      ensures Valid() && started == old(started) && closed == old(closed) && op.installed == old(op.installed)
      ensures answer == Forbidden <==> owner == "" || owner != old(op.owner)
      ensures answer == Existing <==> old(Authorized(owner, id) && op.state != Receiving)
      ensures answer == Begun <==> old(Uploaded(owner, id)) && written
      ensures answer == Broken <==> old(Uploaded(owner, id)) && !written
      ensures answer == Forbidden || answer == Invalid || answer == Existing || answer == Begun || answer == Broken
      ensures answer != Begun && answer != Broken ==> unchanged(this)
      ensures answer == Begun ==>
        && worker == Some(Receive) && upload.None? && op == old(op).(state := Verifying) && disk == op
        && endings == old(endings) && done && cancelled == old(cancelled)
      ensures answer == Broken ==>
        && upload.None? && !done && op == old(op).(state := Failed)
        && endings == old(endings) + [Ending(started, Failed)]
        && disk == (if again then op else old(disk)) && cancelled == old(cancelled)
    {
      var refusal := Authorize(owner, id);
      if refusal.Some? {
        return refusal.value;
      }
      if upload.None? && op.state != Receiving {
        return Existing;
      }
      if upload.None? || op.received != op.expected {
        return Invalid;
      }
      upload, op := None, op.(state := Verifying);
      var ok := Record(written);
      if !ok {
        Finish(Failed, again);
        return Broken;
      }
      worker := Some(Receive);
      answer := Begun;
    }

    /** The upload of this owner has every byte it announced. */
    ghost predicate Uploaded(owner: string, id: Option<nat>)
      reads this
    {
      Authorized(owner, id) && op.state == Receiving && op.received == op.expected
    }

    /** `Cancel`. */
    method Cancel(owner: string, id: Option<nat>, written: bool) returns (answer: Answer)
      requires Valid()
      modifies this
      ensures Valid() && started == old(started) && closed == old(closed) && op.installed == old(op.installed)
      ensures answer == Forbidden <==> owner == "" || owner != old(op.owner)
      ensures answer == Begun <==> old(Authorized(owner, id))
      ensures answer == Forbidden || answer == Invalid || answer == Begun
      ensures answer != Begun || !old(done) ==> unchanged(this)
      ensures answer == Begun && old(done) ==> Stopped(Cancelled, written)
    {
      var refusal := Authorize(owner, id);
      if refusal.Some? {
        return refusal.value;
      }
      Stop(Cancelled, written);
      answer := Begun;
    }

    /** The part of `Close` before it waits for `done`: from here on nothing starts. */
    method Close(written: bool)
      requires Valid()
      modifies this
      ensures Valid() && closed && started == old(started) && op.installed == old(op.installed)
      ensures done ==> cancelled && worker.Some?
      ensures !old(done) ==>
        op == old(op) && disk == old(disk) && endings == old(endings) && cancelled == old(cancelled)
      ensures old(done) ==> Stopped(Interrupted, written)
    {
      if Active(op.state) {
        Stop(Interrupted, written);
      }
      closed := true;
    }

    /** An upload has ended in this state; a worker goes on, and finds its context cancelled. */
    twostate predicate Stopped(state: State, written: bool)
      reads this
    {
      && cancelled
      && if old(op.state) == Receiving then
           && !done && upload.None? && op == old(op).(state := if written then state else Failed)
           && endings == old(endings) + [Ending(started, op.state)]
           && disk == if written then op else old(disk)
         else
           && done && op == old(op) && worker == old(worker) && disk == old(disk) && endings == old(endings)
    }

    // ---- the worker -------------------------------------------------------------------

    /** The worker stands at this place with this operation in hand. */
    twostate predicate Goes(next: Place, to: Operation)
      reads this
    {
      done && worker == Some(next) && op == to && endings == old(endings)
    }

    /**
     The operation has ended by `fail`, from what it was when the failure was
     found and with what was on disk by then: failed, cancelled or interrupted,
     by its context and by whether the manager is closing.
     */
    twostate predicate Fails(from: Operation, written: bool, saved: Operation)
      reads this
    {
      && !done && op == from.(state := op.state) && endings == old(endings) + [Ending(started, op.state)]
      && op.state == (if !written || !cancelled then Failed else if closed then Interrupted else Cancelled)
      && disk == if written then op else saved
    }

    /** `fail`. */
    method Fail(written: bool)
      requires Finishing()
      modifies this`op, this`disk, this`cancellable, this`done, this`worker, this`endings
      ensures Valid() && Fails(old(op), written, old(disk))
    {
      Finish(if cancelled then (if closed then Interrupted else Cancelled) else Failed, written);
    }

    /** `stage`: the next state, recorded. */
    method Stage(state: State, next: Place, written: bool, again: bool)
      requires Valid() && worker.Some? && Active(state) && state != Receiving && Places(next, state)
      requires next != Mark && next != Publish
      modifies this`op, this`disk, this`cancellable, this`done, this`worker, this`endings
      ensures Valid() && Staged(state, next, written, again)
    {
      op := op.(state := state);
      var ok := Record(written);
      if ok {
        worker := Some(next);
      } else {
        Fail(again);
      }
    }

    twostate predicate Staged(state: State, next: Place, written: bool, again: bool)
      reads this
    {
      if written then Goes(next, old(op).(state := state)) && disk == op
      else Fails(old(op).(state := state), again, old(disk))
    }

    /** Work done outside the lock has moved the worker on, or failed the operation. */
    twostate predicate Advances(ok: bool, next: Place, written: bool)
      reads this
    {
      if ok then Goes(next, old(op)) && disk == old(disk) else Fails(old(op), written, old(disk))
    }

    /** The plan is known; a cached package that turns out to lack something fails. */
    twostate predicate Plans(ok: bool, written: bool, missing: nat)
      reads this
    {
      var planned := if ok then old(op).(received := 0, expected := missing) else old(op);
      if ok && (planned.source == Cache ==> missing == 0) then Goes(Begin, planned) && disk == old(disk)
      else Fails(planned, written, old(disk))
    }

    /** A report of progress is counted, and recorded when it is due. */
    twostate predicate Reports(ok: bool, written: bool, again: bool, received: nat)
      reads this
    {
      var counted := old(op).(received := old(op.received) + received);
      var saved := if written then counted else old(disk);
      if ok then Goes(Fetch, counted) && disk == saved else Fails(counted, again, saved)
    }

    /** The last place: the validated tree becomes the installation, or nothing of it remains in the record. */
    twostate predicate Publishes(ok: bool, written: bool, again: bool)
      reads this
    {
      && !done && endings == old(endings) + [Ending(started, op.state)]
      && if old(cancelled || closed) then
           && op == old(op).(state := if written then Cancelled else Failed)
           && disk == (if written then op else old(disk)) && resolves == old(resolves)
         else if !ok then
           && op == old(op).(state := Failed)
           && disk == (if written then op else old(disk)) && resolves == old(resolves)
         else if written then
           && op == old(op).(installed := Some(target), state := Ready) && disk == op
           && resolves == old(resolves) + {target} && target in validated
         else
           && op == old(op).(state := Failed)
           && disk == (if again then op else old(disk)) && resolves == old(resolves) + {target}
    }

    /** What one step of the worker comes to, wherever it stands. */
    twostate predicate Works(ok: bool, written: bool, again: bool, missing: nat, progress: Option<nat>)
      requires old(worker).Some?
      reads this
    {
      var here := old(worker).value;
      if here == Publish then Publishes(ok, written, again)
      else if Announced(here).Some? then Staged(Announced(here).value, Next(here), written, again)
      else if here == Plan then Plans(ok, written, missing)
      else if here == Fetch && progress.Some? then Reports(ok, written, again, progress.value)
      else Advances(ok, Next(here), written)
    }

    /** What no step of the worker does otherwise. */
    twostate predicate Steps(progress: Option<nat>)
      reads this
    {
      && started == old(started) && closed == old(closed) && cancelled == old(cancelled)
      && op.owner == old(op.owner) && op.request == old(op.request) && op.source == old(op.source)
      && (done ==> worker.Some? && op.installed == old(op.installed) && Closer(old(worker), worker, progress))
      && (!done && op.state != Ready ==> op.installed == old(op.installed))
      && (op.state == Ready ==>
            && op.installed == Some(target) && disk == op && target in validated && target in resolves
            && old(worker) == Some(Publish) && !old(cancelled) && !closed)
    }

    /**
     One step of the worker from where it is. Every step either brings it closer
     to its end or ends the operation, except the reports of a download's
     progress; and only the last place can make anything ready.
     */
    method Work(ok: bool, written: bool, again: bool, missing: nat, progress: Option<nat>)
      requires Valid() && worker.Some?
      modifies this
      ensures Valid() && Works(ok, written, again, missing, progress) && Steps(progress)
    {
      hide Endings;
      if worker == Some(Publish) {
        Move(ok, written, again);
      } else if Rank(worker.value) > 7 || worker == Some(Fetch) {
        Acquire(ok, written, again, missing, progress);
      } else {
        Build(ok, written, again);
      }
    }

    /** `download`. */
    method Acquire(ok: bool, written: bool, again: bool, missing: nat, progress: Option<nat>)
      requires Valid() && worker.Some? && (Rank(worker.value) > 7 || worker == Some(Fetch))
      modifies this`op, this`disk, this`cancellable, this`done, this`worker, this`endings
      ensures Valid() && Works(ok, written, again, missing, progress) && Steps(progress)
    {
      hide Endings;
      match worker.value
      case Prepare =>
        Advance(ok, Check, written);
      case Check =>
        Stage(Checking, Plan, written, again);
      case Plan =>
        Planned(ok, written, missing);
      case Begin =>
        Stage(Downloading, Fetch, written, again);
      case Fetch =>
        if progress.Some? {
          Progress(ok, written, again, progress.value);
        } else {
          Advance(ok, Install, written);
        }
    }

    /** `receive`, and `install` up to its last section. */
    method Build(ok: bool, written: bool, again: bool)
      requires Valid() && worker.Some? && Rank(worker.value) <= 7 && worker != Some(Fetch) && worker != Some(Publish)
      modifies this`op, this`disk, this`cancellable, this`done, this`worker, this`endings, this`passed
      ensures Valid() && Works(ok, written, again, 0, None) && Steps(None)
    {
      hide Endings;
      match worker.value
      case Receive =>
        Advance(ok, Install, written);
      case Install =>
        Stage(Installing, Unpack, written, again);
      case Unpack =>
        Advance(ok, Announce, written);
      case Announce =>
        Stage(Validating, Validate, written, again);
      case Validate =>
        passed := ok;
        Advance(ok, Mark, written);
      case Mark =>
        Advance(ok, Publish, written);
    }

    method Advance(ok: bool, next: Place, written: bool)
      requires Valid() && worker.Some? && Places(next, op.state) && (next == Mark || next == Publish ==> passed || !ok)
      modifies this`op, this`disk, this`cancellable, this`done, this`worker, this`endings
      ensures Valid() && Advances(ok, next, written)
    {
      hide Endings;
      if ok {
        worker := Some(next);
      } else {
        Fail(written);
      }
    }

    method Planned(ok: bool, written: bool, missing: nat)
      requires Valid() && worker == Some(Plan)
      modifies this`op, this`disk, this`cancellable, this`done, this`worker, this`endings
      ensures Valid() && Plans(ok, written, missing)
    {
      if ok {
        op := op.(received := 0, expected := missing);
      }
      if !ok || (op.source == Cache && missing != 0) {
        Fail(written);
      } else {
        worker := Some(Begin);
      }
    }

    /** `progress`; a report that cannot be recorded fails the download. */
    method Progress(ok: bool, written: bool, again: bool, received: nat)
      requires Valid() && worker == Some(Fetch)
      modifies this`op, this`disk, this`cancellable, this`done, this`worker, this`endings
      ensures Valid() && Reports(ok, written, again, received)
    {
      op := op.(received := op.received + received);
      if written {
        var _ := Record(true);
      }
      if !ok {
        Fail(again);
      }
    }

    /**
     The last section of `install`. A validated tree becomes the installation, or
     the record keeps naming the previous one. A closing manager ends here as
     cancelled, where `fail` would have said interrupted.
     */
    method Move(ok: bool, written: bool, again: bool)
      requires Valid() && worker == Some(Publish)
      modifies this
      ensures Valid() && Publishes(ok, written, again)
      ensures started == old(started) && closed == old(closed) && cancelled == old(cancelled)
    {
      if cancelled || closed {
        Finish(Cancelled, written);
        return;
      }
      if !ok {
        Finish(Failed, written);
        return;
      }
      resolves := resolves + {target};
      validated := if passed then validated + {target} else validated;
      var previous := op.installed;
      op := op.(installed := Some(target), state := Ready);
      var recorded := Record(written);
      if !recorded {
        op := op.(installed := previous);
        Finish(Failed, again);
        return;
      }
      Complete();
    }

    /** A directory stops resolving, or an external hand makes one resolve. */
    method Disturb(resolves: set<Digest>)
      requires Valid()
      modifies this`resolves
      ensures Valid() && this.resolves == resolves
    {
      this.resolves := resolves;
    }

    /** What happens when an event finds what it needs. */
    twostate predicate Happens(e: Event)
      reads this
    {
      match e
      case Starting(owner, request, source, uploadSize, file, written, again) =>
        old(Free(owner, request, source) && target !in resolves) && Sized(source, uploadSize) ==>
          started == old(started) + 1 && (written && (source == Upload ==> file) ==>
                                            Fresh(owner, request, source, uploadSize))
      case Chunk(owner, id, offset, data, count, write, again) =>
        old(GoesOn(owner, id, offset, data)) && count == |data| && write != Lost ==>
          upload == Some(old(upload.value) + data)
      case Completing(owner, id, written, again) =>
        old(Uploaded(owner, id)) && written ==> worker == Some(Receive)
      case Cancelling(owner, id, written) =>
        old(Authorized(owner, id) && done) ==> Stopped(Cancelled, written)
      case Closing(written) =>
        closed && (old(done) ==> Stopped(Interrupted, written))
      case Working(ok, written, again, missing, progress) =>
        old(worker).Some? ==> Works(ok, written, again, missing, progress)
      case Disturbing(resolving) =>
        resolves == resolving
    }

    /** An operation belongs to whoever started it, for the request it was started with, while it is in hand. */
    twostate predicate Belongs(e: Event)
      reads this
    {
      && (started == old(started) ==>
            && op.owner == old(op.owner) && op.request == old(op.request) && op.source == old(op.source)
            && op.uploadSize == old(op.uploadSize) && op.id == old(op.id))
      && (started != old(started) ==>
            && e.Starting? && op.owner == e.owner && op.request == e.request && op.source == e.source
            && op.uploadSize == e.uploadSize && op.id == Some(started))
    }

    method Apply(e: Event)
      requires Valid()
      modifies this
      ensures Valid() && (old(closed) ==> closed)
      ensures old(closed) ==> started == old(started) && op.installed == old(op.installed)
      ensures old(closed && !done) ==> op == old(op) && endings == old(endings)
      ensures op.installed != old(op.installed) ==>
        && op.installed == Some(target) == disk.installed && op.state == Ready && target in resolves
        && (target in validated || (e.Starting? && target in old(resolves)))
      ensures old(started) <= started <= old(started) + 1 && (started > old(started) ==> !old(done))
      ensures Happens(e) && Belongs(e)
    {
      match e
      case Starting(owner, request, source, uploadSize, file, written, again) =>
        var _ := Start(owner, request, source, uploadSize, file, written, again);
      case Chunk(owner, id, offset, data, count, write, again) =>
        if count <= |data| {
          var _ := WriteChunk(owner, id, offset, data, count, write, again);
        }
      case Completing(owner, id, written, again) =>
        var _ := CompleteUpload(owner, id, written, again);
      case Cancelling(owner, id, written) =>
        var _ := Cancel(owner, id, written);
      case Closing(written) =>
        Close(written);
      case Working(ok, written, again, missing, progress) =>
        if worker.Some? {
          Work(ok, written, again, missing, progress);
        }
      case Disturbing(resolving) =>
        Disturb(resolving);
    }
  }

  /** Operations 1 to `n` have each ended once, in order, in a terminal state. */
  ghost predicate Endings(endings: seq<Ending>, n: int) {
    |endings| == n && forall i :: 0 <= i < |endings| ==> endings[i].id == i + 1 && !Active(endings[i].state)
  }

  datatype Event =
    | Starting(owner: string, request: string, source: Source, uploadSize: int, file: bool, written: bool, again: bool)
    | Chunk(owner: string, id: Option<nat>, offset: int, data: Bytes, count: nat, write: Write, again: bool)
    | Completing(owner: string, id: Option<nat>, written: bool, again: bool)
    | Cancelling(owner: string, id: Option<nat>, written: bool)
    | Closing(written: bool)
    | Working(ok: bool, written: bool, again: bool, missing: nat, progress: Option<nat>)
    | Disturbing(resolving: set<Digest>)

  /** Every operation started, but for the one in hand, took exactly one terminal transition. */
  lemma EndedOnce(m: Manager, n: nat)
    requires m.Valid() && 0 < n <= m.started && (n == m.started ==> !m.done)
    ensures m.endings[n - 1].id == n && !Active(m.endings[n - 1].state)
    ensures forall j :: 0 <= j < |m.endings| && m.endings[j].id == n ==> j == n - 1
  {
  }

  /** The operation in hand has taken none. */
  lemma NotEndedYet(m: Manager)
    requires m.Valid() && m.done
    ensures Active(m.op.state) && forall e :: e in m.endings ==> e.id < m.started
  {
    forall e | e in m.endings ensures e.id < m.started {
      var i :| 0 <= i < |m.endings| && m.endings[i] == e;
    }
  }

  /**
   Any interleaving of callers, worker steps and failing writes, before and after
   `Close`. A saved record may name an operation of an earlier run: none of this
   one's.
   */
  method Run(target: Digest, packageSize: nat, saved: Operation, resolves: set<Digest>, before: seq<Event>,
    after: seq<Event>) returns (m: Manager)
    requires !Active(saved.state) && (saved.id.None? || saved.id.value == 0)
    ensures fresh(m) && m.Valid() && m.closed
    ensures m.started <= |before| && m.op.installed == m.disk.installed
  {
    m := new Manager(target, packageSize, saved, resolves);
    for i := 0 to |before|
      invariant fresh(m) && m.Valid() && m.started <= i
    {
      m.Apply(before[i]);
    }
    m.Close(true);
    ghost var installed, started := m.op.installed, m.started;
    for i := 0 to |after|
      invariant fresh(m) && m.Valid() && m.closed && m.started == started && m.op.installed == installed
    {
      m.Apply(after[i]);
    }
  }

  /**
   The worker left to itself, the download reporting no more, ends its operation
   once: ready exactly when everything goes well and nobody cancelled or closed.
   */
  method Settle(m: Manager, ok: bool, written: bool)
    requires m.Valid() && m.worker.Some?
    modifies m
    ensures m.Valid() && !m.done && m.started == old(m.started)
    ensures m.op.owner == old(m.op.owner) && m.op.request == old(m.op.request)
    ensures m.endings == old(m.endings) + [Ending(m.started, m.op.state)]
    ensures m.op.state == Ready <==> ok && written && !old(m.closed || m.cancelled)
    ensures m.op.state == Ready ==> m.op.installed == Some(m.target) == m.disk.installed && m.target in m.validated
    ensures m.op.state != Ready ==> m.op.installed == old(m.op.installed)
  {
    while m.worker.Some?
      invariant m.Valid() && m.started == old(m.started) && m.closed == old(m.closed) && m.cancelled == old(m.cancelled)
      invariant m.op.owner == old(m.op.owner) && m.op.request == old(m.op.request)
      invariant m.worker.Some? ==> m.endings == old(m.endings) && m.op.installed == old(m.op.installed)
      invariant m.worker.None? ==> m.endings == old(m.endings) + [Ending(m.started, m.op.state)]
      invariant m.worker.None? ==> (m.op.state == Ready <==> ok && written && !old(m.closed || m.cancelled))
      invariant m.worker.None? && m.op.state == Ready ==>
        m.op.installed == Some(m.target) == m.disk.installed && m.target in m.validated
      invariant m.worker.None? && m.op.state != Ready ==> m.op.installed == old(m.op.installed)
      decreases if m.worker.Some? then Rank(m.worker.value) else 0
    {
      m.Work(ok, written, written, 0, None);
    }
  }

  /**
   An operation is its starter's: the same request again finds it, anybody else is
   forbidden to touch it, and the starter's first chunk is accepted.
   */
  method StarterOwns(m: Manager, owner: string, request: string, source: Source, uploadSize: int, file: bool,
    written: bool, again: bool, other: string, data: Bytes, write: Write)
    returns (first: Answer, second: Answer, foreign: Answer, chunk: Answer)
    requires m.Valid()
    modifies m
    ensures m.Valid()
    ensures first == Begun ==> second == Existing
    ensures first == Begun && other != owner ==> foreign == Forbidden
    ensures first == Begun && other != owner && source == Upload && 0 < |data| <= uploadSize && |data| <= 256 * 1024 ==>
      chunk == (if write == Lost then Broken else Begun) && (write != Lost ==> m.upload == Some(data))
  {
    hide Endings;
    first := m.Start(owner, request, source, uploadSize, file, written, again);
    second := m.Start(owner, request, source, uploadSize, file, written, again);
    foreign := m.Cancel(other, m.op.id, written);
    assert [] + data == data;
    chunk := m.WriteChunk(owner, m.op.id, 0, data, |data|, write, again);
  }

  function Total(chunks: seq<Bytes>): nat {
    if chunks == [] then 0 else |chunks[0]| + Total(chunks[1..])
  }

  /**
   An upload whose chunks arrive in order and add up to what was announced is
   installed, when the worker finds nothing wrong and every record is written.
   */
  method Delivered(m: Manager, owner: string, request: string, chunks: seq<Bytes>)
    requires m.Valid() && m.Free(owner, request, Upload) && m.target !in m.resolves && m.Sized(Upload, Total(chunks))
    requires forall c :: c in chunks ==> 0 < |c| <= 256 * 1024
    modifies m
    ensures m.Valid() && !m.done && m.op.state == Ready && m.op.installed == Some(m.target) == m.disk.installed
    ensures m.op.owner == owner && m.op.request == request && m.started == old(m.started) + 1
    ensures m.endings == old(m.endings) + [Ending(m.started, Ready)]
  {
    hide Endings;
    var answer := m.Start(owner, request, Upload, Total(chunks), true, true, true);
    for i := 0 to |chunks|
      invariant m.Valid() && m.upload.Some? && m.Authorized(owner, m.op.id) && !m.cancelled && m.op.request == request
      invariant |m.upload.value| + Total(chunks[i..]) == m.op.expected && m.started == old(m.started) + 1
      invariant m.endings == old(m.endings)
    {
      assert chunks[i..][1..] == chunks[i + 1..];
      answer := m.WriteChunk(owner, m.op.id, |m.upload.value|, chunks[i], |chunks[i]|, Skipped, true);
    }
    answer := m.CompleteUpload(owner, m.op.id, true, true);
    Settle(m, true, true);
  }
}
