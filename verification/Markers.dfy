/**
 Native marker identities for confirmed text (input_marker.py): a bounded table
 of key codes, each holding one text payload or the tombstone it left behind.
 */
module Markers {
  import opened Common

  const FIRST_CODE: nat := 2048
  const SLOT_COUNT: nat := 32
  const X11_CODE: nat := 0

  type Sender = Option<string>

  datatype Transaction = Transaction(generation: nat, text: Option<string>, owner: Sender, pressed: bool)

  datatype Table = Table(generation: nat, slots: map<nat, Transaction>, nextSlot: nat)

  const EMPTY := Table(1, map[], 0)

  datatype Op =
    | Enqueue(payload: string, owner: Sender, x11: bool)
    | Revoke
    | RemoveOwner(owner: Sender)
    | Key(code: nat, released: bool, focused: bool, owner: Sender)

  datatype Out = Granted(code: nat) | Refused | Taken(payload: string) | Nothing

  predicate Pending(t: Table) {
    exists c :: c in t.slots && t.slots[c].text.Some?
  }

  function Candidate(t: Table, offset: nat): nat {
    FIRST_CODE + (t.nextSlot + offset) % SLOT_COUNT
  }

  /** The first unoccupied code in rotation order. */
  function FreeCode(t: Table, offset: nat): (r: Option<nat>)
    ensures r.Some? ==> r.value !in t.slots && FIRST_CODE <= r.value < FIRST_CODE + SLOT_COUNT
    ensures r.None? ==> forall k :: offset <= k < SLOT_COUNT ==> Candidate(t, k) in t.slots
    decreases SLOT_COUNT - offset
  {
    if offset >= SLOT_COUNT then None
    else if Candidate(t, offset) !in t.slots then Some(Candidate(t, offset))
    else FreeCode(t, offset + 1)
  }

  function Place(t: Table, code: nat, text: string, owner: Sender): Table {
    t.(slots := t.slots[code := Transaction(t.generation, Some(text), owner, false)])
  }

  function Cleared(slots: map<nat, Transaction>): map<nat, Transaction> {
    map c | c in slots :: slots[c].(text := None)
  }

  /** One call on the table, and what it returns. */
  function Step(t: Table, op: Op): (Table, Out) {
    match op
    case Enqueue(text, owner, x11) =>
      if Pending(t) then (t, Refused)
      else if x11 then
        if X11_CODE in t.slots then (t, Refused) else (Place(t, X11_CODE, text, owner), Granted(X11_CODE))
      else (
        match FreeCode(t, 0)
        case None => (t, Refused)
        case Some(code) =>
          (Place(t, code, text, owner).(nextSlot := (code - FIRST_CODE + 1) % SLOT_COUNT), Granted(code)))
    case Revoke => (t.(generation := t.generation + 1, slots := Cleared(t.slots)), Nothing)
    case RemoveOwner(owner) => (t.(slots := map c | c in t.slots && t.slots[c].owner != owner :: t.slots[c]), Nothing)
    case Key(code, released, focused, owner) =>
      if code !in t.slots || t.slots[code].owner != owner then (t, Nothing)
      else
        var slot := t.slots[code];
        if released then (if slot.pressed then t.(slots := t.slots - {code}) else t, Nothing)
        else if slot.pressed then (t, Nothing)
        else
          (t.(slots := t.slots[code := slot.(pressed := true, text := None)]),
           if !focused || slot.generation != t.generation || slot.text.None? then Nothing else Taken(slot.text.value))
  }

  /** `MarkerTransactions`. */
  class MarkerTransactions {
    var generation: nat
    var slots: map<nat, Transaction>
    var nextSlot: nat

    ghost function View(): Table
      reads this
    {
      Table(generation, slots, nextSlot)
    }

    constructor ()
      ensures View() == EMPTY
    {
      generation, slots, nextSlot := 1, map[], 0;
    }

    method Add(text: string, owner: Sender, x11: bool) returns (granted: Option<nat>)
      modifies this
      ensures View() == Step(old(View()), Enqueue(text, owner, x11)).0
      ensures Step(old(View()), Enqueue(text, owner, x11)).1 ==
        if granted.Some? then Granted(granted.value) else Refused
    {
      ghost var before := View();
      if exists c :: c in slots && slots[c].text.Some? {
        return None;
      }
      if x11 {
        if X11_CODE in slots {
          return None;
        }
        slots := slots[X11_CODE := Transaction(generation, Some(text), owner, false)];
        return Some(X11_CODE);
      }
      var offset := 0;
      while offset < SLOT_COUNT
        invariant View() == before
        invariant FreeCode(before, 0) == FreeCode(before, offset)
      {
        var code := FIRST_CODE + (nextSlot + offset) % SLOT_COUNT;
        if code !in slots {
          slots := slots[code := Transaction(generation, Some(text), owner, false)];
          nextSlot := (code - FIRST_CODE + 1) % SLOT_COUNT;
          return Some(code);
        }
        offset := offset + 1;
      }
      granted := None;
    }

    method RevokeAll()
      modifies this
      ensures View() == Step(old(View()), Revoke).0
    {
      generation := generation + 1;
      var rest := slots.Keys;
      while rest != {}
        invariant rest <= slots.Keys == old(slots).Keys
        invariant generation == old(generation) + 1 && nextSlot == old(nextSlot)
        invariant forall c :: c in slots ==>
          slots[c] == if c in rest then old(slots)[c] else old(slots)[c].(text := None)
      {
        var c :| c in rest;
        slots := slots[c := slots[c].(text := None)];
        rest := rest - {c};
      }
      assert slots == Cleared(old(slots));
    }

    method Remove(owner: Sender)
      modifies this
      ensures View() == Step(old(View()), RemoveOwner(owner)).0
    {
      slots := map c | c in slots && slots[c].owner != owner :: slots[c];
    }

    method Press(code: nat, released: bool, focused: bool, owner: Sender) returns (text: Option<string>)
      modifies this
      ensures View() == Step(old(View()), Key(code, released, focused, owner)).0
      ensures Step(old(View()), Key(code, released, focused, owner)).1 ==
        if text.Some? then Taken(text.value) else Nothing
    {
      if code !in slots || slots[code].owner != owner {
        return None;
      }
      var slot := slots[code];
      if released {
        if slot.pressed {
          slots := slots - {code};
        }
        return None;
      }
      if slot.pressed {
        return None;
      }
      slots := slots[code := slot.(pressed := true, text := None)];
      if !focused || slot.generation != generation {
        return None;
      }
      text := slot.text;
    }
  }

  // ---- runs -------------------------------------------------------------------

  /** The table after a history of calls on a new one. */
  function After(ops: seq<Op>): Table {
    if ops == [] then EMPTY else Step(After(ops[..|ops| - 1]), ops[|ops| - 1]).0
  }

  /** What call `i` of the history returned. */
  function OutAt(ops: seq<Op>, i: nat): Out
    requires i < |ops|
  {
    Step(After(ops[..i]), ops[i]).1
  }

  lemma AfterPrefix(ops: seq<Op>, op: Op)
    ensures After(ops + [op]) == Step(After(ops), op).0
    ensures forall i :: 0 <= i < |ops| ==> OutAt(ops + [op], i) == OutAt(ops, i)
    ensures OutAt(ops + [op], |ops|) == Step(After(ops), op).1
  {
    assert (ops + [op])[..|ops|] == ops;
    forall i | 0 <= i < |ops| ensures OutAt(ops + [op], i) == OutAt(ops, i) {
      assert (ops + [op])[..i] == ops[..i];
    }
  }

  /** Every text still held is unpressed and of the current generation, and only one slot holds any. */
  ghost predicate Bounded(t: Table) {
    && (forall c :: c in t.slots && t.slots[c].text.Some? ==>
      !t.slots[c].pressed && t.slots[c].generation == t.generation)
    && (forall c, d :: c in t.slots && d in t.slots && t.slots[c].text.Some? && t.slots[d].text.Some? ==> c == d)
    && (forall c :: c in t.slots ==> c == X11_CODE || FIRST_CODE <= c < FIRST_CODE + SLOT_COUNT)
  }

  lemma BoundedStep(t: Table, op: Op)
    requires Bounded(t)
    ensures Bounded(Step(t, op).0)
  {
  }

  /** At most one slot holds text, over every run. */
  lemma {:induction false} AtMostOneText(ops: seq<Op>)
    ensures Bounded(After(ops))
  {
    if ops != [] {
      AtMostOneText(ops[..|ops| - 1]);
      BoundedStep(After(ops[..|ops| - 1]), ops[|ops| - 1]);
    }
  }

  /** What ends the chance of obtaining a text granted to `owner` at `code`. */
  ghost predicate Ends(op: Op, code: nat, owner: Sender) {
    || op.Revoke?
    || op == RemoveOwner(owner)
    || (op.Key? && op.code == code && op.owner == owner && !op.released)
  }

  /** Call `i` granted `code`, and nothing since has ended its chance. */
  ghost predicate Standing(ops: seq<Op>, i: int, code: nat, owner: Sender, text: string) {
    && 0 <= i < |ops|
    && ops[i].Enqueue? && ops[i].owner == owner && ops[i].payload == text
    && OutAt(ops, i) == Granted(code)
    && forall j :: i < j < |ops| ==> !Ends(ops[j], code, owner)
  }

  predicate Live(t: Table, code: nat, owner: Sender, text: string) {
    code in t.slots && t.slots[code] == Transaction(t.generation, Some(text), owner, false)
  }

  lemma LiveStep(t: Table, op: Op, code: nat, owner: Sender, text: string)
    requires Bounded(t)
    ensures Live(Step(t, op).0, code, owner, text) <==>
      || (Live(t, code, owner, text) && !Ends(op, code, owner))
      || (op.Enqueue? && op.owner == owner && op.payload == text && Step(t, op).1 == Granted(code))
  {
  }

  lemma {:induction false} LiveMeansStanding(ops: seq<Op>, code: nat, owner: Sender, text: string)
    ensures Live(After(ops), code, owner, text) <==> exists i :: Standing(ops, i, code, owner, text)
  {
    if ops != [] {
      var n := |ops| - 1;
      var prior, op := ops[..n], ops[n];
      assert ops == prior + [op];
      LiveMeansStanding(prior, code, owner, text);
      AtMostOneText(prior);
      LiveStep(After(prior), op, code, owner, text);
      AfterPrefix(prior, op);
      if Live(After(ops), code, owner, text) {
        if Live(After(prior), code, owner, text) && !Ends(op, code, owner) {
          var i :| Standing(prior, i, code, owner, text);
          assert Standing(ops, i, code, owner, text);
        } else {
          assert Standing(ops, n, code, owner, text);
        }
      }
      if i :| Standing(ops, i, code, owner, text) {
        if i < n {
          assert Standing(prior, i, code, owner, text);
        }
      }
    }
  }

  /**
   A key press obtains a text exactly when, with the focus admitted, some earlier
   call granted that code to that very sender with that text and no revocation,
   removal of the sender or earlier press of the code by it has happened since.
   */
  lemma TakenExactly(ops: seq<Op>, code: nat, focused: bool, sender: Sender, text: string)
    ensures Step(After(ops), Key(code, false, focused, sender)).1 == Taken(text)
       <==> focused && exists i :: Standing(ops, i, code, sender, text)
  {
    AtMostOneText(ops);
    LiveMeansStanding(ops, code, sender, text);
  }

  lemma StandingEarlier(ops: seq<Op>, i: int, j: nat, code: nat, owner: Sender, text: string)
    requires Standing(ops, i, code, owner, text) && i < j <= |ops|
    ensures Standing(ops[..j], i, code, owner, text)
  {
    OutPrefix(ops, j, i);
  }

  /** A grant that still stands is later than every press of its code that obtained a text. */
  lemma TakingEndsStanding(ops: seq<Op>, i: int, j: nat, code: nat, owner: Sender, text: string)
    requires Standing(ops, i, code, owner, text)
    requires j < |ops| && ops[j].Key? && ops[j].code == code && OutAt(ops, j).Taken?
    ensures j < i
  {
    if i < j {
      StandingEarlier(ops, i, j, code, owner, text);
      LiveMeansStanding(ops[..j], code, owner, text);
    }
  }

  /** No payload is obtained twice: between two successful presses of a code there is a new grant of it. */
  lemma NeverTakenTwice(ops: seq<Op>, j: nat, k: nat)
    requires j < k < |ops|
    requires ops[j].Key? && ops[k].Key? && ops[j].code == ops[k].code
    requires OutAt(ops, j).Taken? && OutAt(ops, k).Taken?
    ensures exists i :: j < i < k && ops[i].Enqueue? && OutAt(ops, i) == Granted(ops[k].code)
  {
    var late, code := ops[..k], ops[k].code;
    assert !ops[k].released;
    TakenExactly(late, code, ops[k].focused, ops[k].owner, OutAt(ops, k).payload);
    var i :| Standing(late, i, code, ops[k].owner, OutAt(ops, k).payload);
    OutPrefix(ops, k, i);
    OutPrefix(ops, k, j);
    TakingEndsStanding(late, i, j, code, ops[k].owner, OutAt(ops, k).payload);
  }

  lemma OutPrefix(ops: seq<Op>, n: nat, i: nat)
    requires i < n <= |ops|
    ensures ops[..n][i] == ops[i] && OutAt(ops[..n], i) == OutAt(ops, i)
  {
    assert ops[..n][..i] == ops[..i];
  }

  // ---- reuse of codes -----------------------------------------------------------

  ghost predicate PressedSince(ops: seq<Op>, i: nat, code: nat, owner: Sender) {
    exists p :: i < p < |ops| && ops[p].Key? && !ops[p].released && ops[p].code == code && ops[p].owner == owner
  }

  /** The grantee pressed the code and, later, released it. */
  ghost predicate Finished(ops: seq<Op>, i: nat, code: nat, owner: Sender) {
    exists r :: i < r < |ops| && ops[r].Key? && ops[r].released && ops[r].code == code && ops[r].owner == owner
             && PressedSince(ops[..r], i, code, owner)
  }

  ghost predicate Removed(ops: seq<Op>, i: nat, owner: Sender) {
    exists r :: i < r < |ops| && ops[r] == RemoveOwner(owner)
  }

  predicate PressOf(op: Op, code: nat, owner: Sender, released: bool) {
    op.Key? && op.released == released && op.code == code && op.owner == owner
  }

  predicate Held(t: Table, code: nat, owner: Sender) {
    code in t.slots && t.slots[code].owner == owner
  }

  /** Only its owner's removal, or that owner's release after a press, frees an occupied code. */
  lemma HeldStep(t: Table, op: Op, code: nat, owner: Sender)
    requires Held(t, code, owner)
    requires op != RemoveOwner(owner) && !(PressOf(op, code, owner, true) && t.slots[code].pressed)
    ensures Held(Step(t, op).0, code, owner)
    ensures Step(t, op).0.slots[code].pressed <==> t.slots[code].pressed || PressOf(op, code, owner, false)
  {
  }

  lemma GrantedHeld(t: Table, op: Op, code: nat)
    requires op.Enqueue? && Step(t, op).1 == Granted(code)
    ensures Held(Step(t, op).0, code, op.owner) && !Step(t, op).0.slots[code].pressed
  {
  }

  lemma {:induction false} StaysOccupied(ops: seq<Op>, i: nat, code: nat)
    requires i < |ops| && ops[i].Enqueue? && OutAt(ops, i) == Granted(code)
    requires !Removed(ops, i, ops[i].owner) && !Finished(ops, i, code, ops[i].owner)
    ensures Held(After(ops), code, ops[i].owner)
    ensures After(ops).slots[code].pressed <==> PressedSince(ops, i, code, ops[i].owner)
    decreases |ops|
  {
    var n := |ops| - 1;
    var prior, op, owner := ops[..n], ops[n], ops[i].owner;
    assert ops == prior + [op];
    AfterPrefix(prior, op);
    hide Step, After, OutAt;
    if i == n {
      GrantedHeld(After(prior), op, code);
    } else {
      NotYet(prior, op, i, code, owner);
      StaysOccupied(prior, i, code);
      HeldStep(After(prior), op, code, owner);
      PressedLast(prior, op, i, code, owner);
    }
  }

  lemma NotYet(prior: seq<Op>, op: Op, i: nat, code: nat, owner: Sender)
    requires i < |prior|
    requires !Removed(prior + [op], i, owner) && !Finished(prior + [op], i, code, owner)
    ensures !Removed(prior, i, owner) && !Finished(prior, i, code, owner)
    ensures op != RemoveOwner(owner) && !(PressOf(op, code, owner, true) && PressedSince(prior, i, code, owner))
  {
    var ops := prior + [op];
    assert ops[|prior|] == op && ops[..|prior|] == prior;
    assert forall r :: 0 <= r < |prior| ==> ops[r] == prior[r] && ops[..r] == prior[..r];
  }

  lemma PressedLast(prior: seq<Op>, op: Op, i: nat, code: nat, owner: Sender)
    requires i < |prior|
    ensures PressedSince(prior + [op], i, code, owner) <==>
      PressedSince(prior, i, code, owner) || (op.Key? && !op.released && op.code == code && op.owner == owner)
  {
    var ops := prior + [op];
    if p :| i < p < |prior| && prior[p].Key? && !prior[p].released && prior[p].code == code && prior[p].owner == owner {
      assert ops[p] == prior[p];
    }
    if op.Key? && !op.released && op.code == code && op.owner == owner {
      assert ops[|prior|] == op;
    }
  }

  /**
   A code is granted again only after its previous owner's press and then release
   were seen, or that owner was removed. Cancellation and time never free a code.
   */
  lemma CodeReuse(ops: seq<Op>, i: nat, k: nat, code: nat)
    requires i < k < |ops| && ops[i].Enqueue? && ops[k].Enqueue?
    requires OutAt(ops, i) == Granted(code) && OutAt(ops, k) == Granted(code)
    ensures Removed(ops[..k], i, ops[i].owner) || Finished(ops[..k], i, code, ops[i].owner)
  {
    var prior := ops[..k];
    OutPrefix(ops, k, i);
    if !Removed(prior, i, ops[i].owner) && !Finished(prior, i, code, ops[i].owner) {
      StaysOccupied(prior, i, code);
      assert code in After(prior).slots;
      GrantedWasFree(After(prior), ops[k], code);
    }
  }

  lemma GrantedWasFree(t: Table, op: Op, code: nat)
    requires op.Enqueue? && Step(t, op).1 == Granted(code)
    ensures code !in t.slots
  {
  }

  /** A refusal always has a cause: a text still pending, or every code of the route occupied. */
  lemma RefusedExactly(ops: seq<Op>, text: string, owner: Sender, x11: bool)
    ensures Step(After(ops), Enqueue(text, owner, x11)).1 == Refused <==>
      || (exists c :: c in After(ops).slots && After(ops).slots[c].text.Some?)
      || (if x11 then X11_CODE in After(ops).slots
          else forall c :: FIRST_CODE <= c < FIRST_CODE + SLOT_COUNT ==> c in After(ops).slots)
  {
    AllCandidates(After(ops));
  }

  /** The rotation visits every native code, so finding none free means all are occupied. */
  lemma AllCandidates(t: Table)
    ensures FreeCode(t, 0).None? <==> forall c :: FIRST_CODE <= c < FIRST_CODE + SLOT_COUNT ==> c in t.slots
  {
    if FreeCode(t, 0).None? {
      hide FreeCode, Candidate;
      forall c | FIRST_CODE <= c < FIRST_CODE + SLOT_COUNT ensures c in t.slots {
        var k := Reaches(t, c);
        assert Candidate(t, k) in t.slots;
      }
    }
  }

  lemma Reaches(t: Table, code: nat) returns (k: nat)
    requires FIRST_CODE <= code < FIRST_CODE + SLOT_COUNT
    ensures k < SLOT_COUNT && Candidate(t, k) == code
  {
    var q, r, d := t.nextSlot / 32, t.nextSlot % 32, code - FIRST_CODE;
    k := if d >= r then d - r else d - r + 32;
    var wraps := if d >= r then q else q + 1;
    assert t.nextSlot + k == 32 * wraps + d;
  }
}
