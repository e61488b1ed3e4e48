/**
 Which of several authenticated viewers controls the application
 (desktop_control.py, `DesktopControl.authenticate` and `Peer.close`;
 desktop_helper.py, `DesktopApplication`).

 A viewer is a number. Of its attachment only one thing matters here: whether
 it has input queued or in flight. What an attachment does that closes its
 viewer or ends in an exception is a parameter.
 */
module Control {
  import opened Common

  type Viewer = nat

  /** How `attach` ends for a viewer that has just authenticated. */
  datatype Attaching = Stays | ClosesItself | Raises

  /**
   Whether authenticating a newcomer leaves the server and the application in
   agreement. `first`: nobody else is authenticated. `raises`: retiring the
   previous controller's input does. `stuck`: what detaching sends does not fit.
   */
  ghost predicate Harmless(attaching: Attaching, raises: bool, stuck: bool, first: bool) {
    match attaching
    case Stays => true
    case ClosesItself => if first then !stuck else raises
    case Raises => !(first && stuck)
  }

  /** Every viewer authenticated in a turn of its own. */
  ghost predicate Turns(authenticated: map<Viewer, nat>, sequence: nat) {
    && (forall v :: v in authenticated ==> authenticated[v] <= sequence)
    && (forall v, w :: v in authenticated && w in authenticated && authenticated[v] == authenticated[w] ==> v == w)
  }

  /** The viewer with the last turn, leaving `aside` out. */
  ghost predicate Latest(turns: map<Viewer, nat>, v: Option<Viewer>, aside: Option<Viewer>) {
    && (v.None? ==> forall w :: w in turns ==> Some(w) == aside)
    && (v.Some? ==> v.value in turns && v != aside && forall w :: w in turns && Some(w) != aside ==>
      turns[w] <= turns[v.value])
  }

  lemma LatestWithout(turns: map<Viewer, nat>, sequence: nat, p: Viewer)
    requires Turns(turns, sequence)
    ensures Turns(turns - {p}, sequence)
    ensures forall v: Option<Viewer> :: Latest(turns, v, Some(p)) <==> Latest(turns - {p}, v, None)
    ensures forall v: Option<Viewer> :: Latest(turns, v, None) && v != Some(p) ==> Latest(turns, v, Some(p))
    ensures p !in turns ==> turns - {p} == turns
  {
    forall v: Option<Viewer> ensures Latest(turns, v, Some(p)) <==> Latest(turns - {p}, v, None) {
    }
  }

  lemma LatestIsUnique(turns: map<Viewer, nat>, sequence: nat, v: Option<Viewer>, w: Option<Viewer>)
    requires Turns(turns, sequence) && Latest(turns, v, None) && Latest(turns, w, None)
    ensures v == w
  {
  }

  lemma LatestOfNone(turns: map<Viewer, nat>, v: Option<Viewer>)
    requires Latest(turns, v, None)
    ensures v.None? <==> turns == map[]
    ensures v.Some? ==> v.value in turns
  {
  }

  lemma LatestIsThere(turns: map<Viewer, nat>, p: Viewer)
    requires p !in turns
    ensures !Latest(turns, Some(p), None)
  {
  }

  class DesktopControl {
    /** Viewers are numbered as they connect. */
    var made: nat
    /** The server's side; an authenticated viewer has the number of its turn. */
    var peers: set<Viewer>
    var authenticated: map<Viewer, nat>
    var current: Option<Viewer>
    var sequence: nat

    /** The application's side. */
    var attachments: set<Viewer>
    var controller: Option<Viewer>
    /** Viewers with input queued or in flight. */
    var busy: set<Viewer>

    constructor ()
      ensures Valid() && Agreed() && peers == {} && authenticated == map[] && made == sequence == 0
    {
      made, peers, authenticated, current, sequence := 0, {}, map[], None, 0;
      attachments, controller, busy := {}, None, {};
    }

    /** Only an attached controller has input queued or in flight. */
    ghost predicate Core()
      reads this
    {
      && attachments <= peers && attachments == authenticated.Keys
      && (forall v :: v in peers ==> v < made)
      && (controller.Some? ==>
        controller.value < made && (controller.value in peers ==> controller.value in attachments))
      && Turns(authenticated, sequence)
      && (forall v :: v in busy ==> Controlling(v))
    }

    predicate Controlling(v: Viewer)
      reads this
    {
      controller == Some(v) && v in attachments
    }

    /** An attached controller is the server's current viewer, and the one that authenticated last. */
    ghost predicate Valid()
      reads this
    {
      Core() && forall v: Viewer :: Controlling(v) ==> current == Some(v) && Latest(authenticated, Some(v), None)
    }

    /** The server and the application agree, on the viewer that authenticated last. */
    ghost predicate Agreed()
      reads this
    {
      Latest(authenticated, current, None) && controller == current
    }

    /** `takeover`: the previous controller's input is retired before it loses control. */
    method Takeover(previous: Option<Viewer>, owner: Option<Viewer>, raises: bool) returns (ok: bool)
      requires Core() && forall v :: v in busy ==> previous == Some(v) || owner == Some(v)
      modifies this`controller, this`busy
      ensures Core()
      ensures ok == !(raises && previous.Some? && previous != owner && previous.value in attachments)
      ensures busy == if previous.Some? && previous != owner then old(busy) - {previous.value} else old(busy)
      ensures controller ==
        if !ok then old(controller) else if owner.Some? && owner.value in attachments then owner else None
    {
      ok := true;
      if previous.Some? && previous != owner && previous.value in attachments {
        busy := busy - {previous.value};
        if raises {
          return false;
        }
      }
      controller := if owner.Some? && owner.value in attachments then owner else None;
    }

    /** The choice in `Peer.close`: the greatest turn among those that remain. */
    method Replacement() returns (r: Option<Viewer>)
      requires Core()
      ensures Latest(authenticated, r, None)
    {
      r := None;
      var rest := authenticated.Keys;
      while rest != {}
        invariant rest <= authenticated.Keys
        invariant r.None? ==> rest == authenticated.Keys
        invariant r.Some? ==> r.value in authenticated && forall w :: w in authenticated && w !in rest ==>
          authenticated[w] <= authenticated[r.value]
      {
        var v :| v in rest;
        rest := rest - {v};
        if r.None? || authenticated[v] > authenticated[r.value] {
          r := Some(v);
        }
      }
    }

    /** Detaching sends something only for input in flight, or as the last viewer; only then can it raise. */
    ghost predicate Sends(p: Viewer)
      reads this
    {
      p in busy || attachments == {p}
    }

    /**
     `Peer.close`. With `stuck`, what detaching sends does not fit and raises,
     which leaves the server's and the application's choice as they were.
     */
    method Close(p: Viewer, stuck: bool) returns (ok: bool)
      requires Core() && forall v: Viewer :: Controlling(v) && v != p ==>
        (current == Some(v) || current == Some(p)) && Latest(authenticated, Some(v), Some(p))
      modifies this
      ensures Valid() && p !in peers && p !in busy
      ensures peers == old(peers) - {p} && authenticated == old(authenticated) - {p} && sequence == old(sequence)
      ensures ok == !(stuck && old(p in authenticated && Sends(p)))
      ensures old(Valid() && Agreed()) ==> (Agreed() <==> ok)
      ensures ok && old(current) == Some(p) ==> Agreed()
      ensures old(current) != Some(p) ==>
        && current == old(current)
        && controller == if ok && old(p in authenticated && controller == Some(p)) then None else old(controller)
      ensures ok && old(current) != Some(p) && old(Agreed()) ==> Agreed()
      ensures !ok ==> current == old(current) && controller == old(controller)
      ensures forall v :: v != p ==> (v in busy <==> v in old(busy))
    {
      LatestWithout(authenticated, sequence, p);
      ghost var agreed := Valid() && Agreed();
      if agreed && p in authenticated && Sends(p) {
        SenderIsCurrent(p);
      }
      hide Latest, Turns;
      ok := Drop(p, stuck);
      if ok && current == Some(p) {
        Succeed(p);
      } else if !ok && agreed {
        LatestIsThere(authenticated, p);
      }
    }

    /** While both sides agree, only detaching the current viewer sends anything. */
    lemma SenderIsCurrent(p: Viewer)
      requires Valid() && Agreed() && p in authenticated && Sends(p)
      ensures current == Some(p)
    {
      if p in busy {
        assert Controlling(p);
      } else {
        assert authenticated.Keys == {p};
      }
    }

    /** The part of `Peer.close` up to `DesktopApplication.detach`. */
    method Drop(p: Viewer, stuck: bool) returns (ok: bool)
      requires Core() && forall v: Viewer :: Controlling(v) && v != p ==>
        (current == Some(v) || current == Some(p)) && Latest(authenticated, Some(v), Some(p))
      modifies this`peers, this`authenticated, this`attachments, this`busy, this`controller
      ensures Core()
      ensures peers == old(peers) - {p} && authenticated == old(authenticated) - {p}
      ensures forall v: Viewer :: Controlling(v) ==>
        (current == Some(v) || current == Some(p)) && Latest(authenticated, Some(v), None)
      ensures ok == !(stuck && old(p in authenticated && Sends(p)))
      ensures controller ==
        if ok && p in old(authenticated) && old(controller) == Some(p) then None else old(controller)
      ensures !ok ==> Valid()
      ensures busy == old(busy) - {p}
    {
      LatestWithout(authenticated, sequence, p);
      hide Latest, Turns;
      peers := peers - {p};
      ok := true;
      if p in authenticated {
        var sends := p in busy || attachments == {p};
        authenticated, attachments, busy := authenticated - {p}, attachments - {p}, busy - {p};
        if stuck && sends {
          return false;
        }
        if controller == Some(p) {
          controller := None;
        }
      }
    }

    /** The part of `Peer.close` that names the next current viewer. */
    method Succeed(p: Viewer)
      requires Core() && p !in attachments && p !in busy
      requires forall v: Viewer :: Controlling(v) ==> Latest(authenticated, Some(v), None)
      modifies this`current, this`controller, this`busy
      ensures Valid() && Agreed() && busy == old(busy)
    {
      var replacement := Replacement();
      forall v: Viewer | Controlling(v) ensures replacement == Some(v) {
        LatestIsUnique(authenticated, sequence, replacement, Some(v));
      }
      hide Latest, Turns;
      current := replacement;
      var _ := Takeover(Some(p), replacement, false);
    }

    method Accept() returns (p: Viewer)
      requires Valid()
      modifies this`peers, this`made
      ensures p == old(made) && made == old(made) + 1
      ensures Valid() && p !in old(peers) && peers == old(peers) + {p} && (old(Agreed()) ==> Agreed())
    {
      p, made := made, made + 1;
      peers := peers + {p};
    }

    /** The part of `authenticate` before the application is told. */
    method Promote(p: Viewer)
      requires Valid() && p in peers && p !in authenticated
      modifies this`sequence, this`authenticated, this`current, this`attachments
      ensures Core() && current == Some(p) && Latest(authenticated, Some(p), None)
      ensures authenticated == old(authenticated)[p := sequence] && sequence == old(sequence) + 1
      ensures forall v: Viewer :: Controlling(v) ==>
        v != p && old(current) == Some(v) && Latest(authenticated, Some(v), Some(p))
    {
      sequence := sequence + 1;
      authenticated, current := authenticated[p := sequence], Some(p);
      attachments := attachments + {p};
    }

    /**
     `authenticate`, for a message that is in order. The newcomer takes control
     from the viewer that had it, once that viewer's input is retired. When the
     newcomer's own `attach` closes it, the takeover still runs and names a
     viewer that is gone: then nobody controls, although the server's current
     viewer is the earlier one.
     */
    method Authenticate(p: Viewer, attaching: Attaching, raises: bool, stuck: bool) returns (ok: bool)
      requires Valid() && p in peers && p !in authenticated
      modifies this
      ensures Valid()
      ensures attaching == Stays && !raises ==> ok
      ensures attaching == Stays && ok ==> Agreed() && controller == Some(p) && busy == {}
      ensures attaching == ClosesItself && ok ==> Latest(authenticated, current, None) && controller.None? && busy == {}
      ensures attaching == ClosesItself && ok ==> (Agreed() <==> old(authenticated) == map[])
      ensures !stuck && (attaching == Raises || !ok) ==> !ok && Agreed()
      ensures old(Agreed()) ==> (Agreed() <==> Harmless(attaching, raises, stuck, old(authenticated) == map[]))
      ensures if attaching == Stays && ok then authenticated == old(authenticated)[p := sequence] && peers == old(peers)
              else authenticated == old(authenticated) && peers == old(peers) - {p}
    {
      hide Latest, Turns;
      var previous := current;
      Promote(p);
      assert authenticated - {p} == old(authenticated);
      if attaching != Stays {
        ok := Abandon(previous, p, attaching, raises, stuck);
        return;
      }
      ok := Takeover(previous, Some(p), raises);
      if !ok {
        var _ := Close(p, stuck);
      }
    }

    /** The rest of `authenticate` when `attach` did not leave the newcomer attached. */
    method Abandon(previous: Option<Viewer>, p: Viewer, attaching: Attaching, raises: bool, stuck: bool)
      returns (ok: bool)
      requires Core() && p in authenticated && current == Some(p) && attaching != Stays
      requires forall v: Viewer :: Controlling(v) ==>
        v != p && previous == Some(v) && Latest(authenticated, Some(v), Some(p))
      modifies this
      ensures Valid()
      ensures attaching == ClosesItself && ok ==> Latest(authenticated, current, None) && controller.None? && busy == {}
      ensures attaching == ClosesItself && ok ==> (Agreed() <==> old(authenticated) - {p} == map[])
      ensures !stuck && (attaching == Raises || !ok) ==> !ok && Agreed()
      ensures Latest(old(authenticated) - {p}, previous, None) ==>
        (Agreed() <==> Harmless(attaching, raises, stuck, old(authenticated) - {p} == map[]))
      ensures authenticated == old(authenticated) - {p} && peers == old(peers) - {p}
    {
      ghost var others := authenticated - {p};
      ghost var agreed := Latest(others, previous, None);
      if agreed {
        LatestOfNone(others, previous);
      }
      Alone(p);
      LatestWithout(authenticated, sequence, p);
      hide Latest, Turns;
      ok := Close(p, stuck);
      if !ok {
        LatestIsThere(authenticated, p);
        return;
      }
      if attaching == Raises {
        return false;
      }
      if agreed {
        SameLatest(previous);
      }
      ok := Takeover(previous, Some(p), raises);
    }

    /** Detaching a viewer that never had input sends something exactly when it is the last one. */
    lemma Alone(p: Viewer)
      requires Core() && p in authenticated && !Controlling(p)
      ensures Sends(p) <==> authenticated - {p} == map[]
    {
      assert p !in busy;
      var others := authenticated - {p};
      assert others.Keys == attachments - {p};
      assert others == map[] <==> others.Keys == {};
      assert attachments == {p} <==> attachments - {p} == {};
    }

    lemma SameLatest(v: Option<Viewer>)
      requires Core() && Agreed() && Latest(authenticated, v, None)
      ensures current == v
    {
      LatestIsUnique(authenticated, sequence, current, v);
    }

    /** `enqueue_input`, as far as the scheduler goes: only the controller's operations are queued. */
    method Enqueue(p: Viewer)
      requires Valid()
      modifies this`busy
      ensures Valid() && busy == old(busy) + (if controller == Some(p) && p in attachments then {p} else {})
      ensures old(Agreed()) ==> Agreed()
    {
      if p in attachments && controller == Some(p) {
        busy := busy + {p};
      }
    }

    method Completed(p: Viewer)
      requires Valid()
      modifies this`busy
      ensures Valid() && busy == old(busy) - {p} && (old(Agreed()) ==> Agreed())
    {
      busy := busy - {p};
    }
  }

  /** A viewer that is not the attached controller has an empty queue and no pending delivery. */
  lemma OnlyTheController(c: DesktopControl, v: Viewer)
    requires c.Valid() && v in c.busy
    ensures c.controller == Some(v) && c.current == Some(v) && c.busy == {v}
    ensures forall w :: w in c.authenticated ==> c.authenticated[w] <= c.authenticated[v]
  {
    assert c.Controlling(v);
    assert forall w :: w in c.busy ==> w == v;
  }

  datatype Event =
    | Accept
    | Authenticate(p: Viewer, attaching: Attaching, raises: bool, stuck: bool)
    | Close(p: Viewer, stuck: bool)
    | Input(p: Viewer)
    | Done(p: Viewer)

  /**
   Leaves the server and the application in agreement whatever the state: nothing
   that detaching sends is stuck, and no viewer is closed by an attach whose
   takeover then succeeds.
   */
  ghost predicate Smooth(e: Event) {
    && (e.Authenticate? ==> e.attaching == Stays || (!e.stuck && (e.attaching == Raises || e.raises)))
    && (e.Close? ==> !e.stuck)
  }

  /** Whether this event keeps an agreement. */
  ghost predicate Keeps(c: DesktopControl, e: Event)
    reads c
  {
    match e
    case Authenticate(p, attaching, raises, stuck) =>
      p in c.peers && p !in c.authenticated ==> Harmless(attaching, raises, stuck, c.authenticated == map[])
    case Close(p, stuck) => !(stuck && p in c.authenticated && c.Sends(p))
    case _ => true
  }

  /** One event: an agreement survives it exactly when `Keeps` holds before. */
  method Apply(c: DesktopControl, e: Event)
    requires c.Valid()
    modifies c
    ensures c.Valid()
    ensures old(c.Agreed()) ==> (c.Agreed() <==> old(Keeps(c, e)))
    ensures e.Accept? ==> c.peers == old(c.peers) + {old(c.made)}
    ensures e.Close? ==> c.peers == old(c.peers) - {e.p} && c.authenticated == old(c.authenticated) - {e.p}
    ensures e.Authenticate? && old(e.p in c.peers && e.p !in c.authenticated) ==>
      if e.attaching == Stays && !e.raises then c.controller == Some(e.p) == c.current
      else e.p in c.authenticated ==> e.attaching == Stays
    ensures e.Input? && old(c.Controlling(e.p)) ==> e.p in c.busy
    ensures e.Done? ==> e.p !in c.busy
  {
    match e
    case Accept =>
      var _ := c.Accept();
    case Authenticate(p, attaching, raises, stuck) =>
      if p in c.peers && p !in c.authenticated {
        var _ := c.Authenticate(p, attaching, raises, stuck);
      }
    case Close(p, stuck) =>
      LatestWithout(c.authenticated, c.sequence, p);
      var _ := c.Close(p, stuck);
    case Input(p) =>
      c.Enqueue(p);
    case Done(p) =>
      c.Completed(p);
  }

  /** Any run keeps at most the controller busy; a smooth run keeps the server and the application in agreement. */
  method Run(events: seq<Event>) returns (c: DesktopControl)
    ensures fresh(c) && c.Valid()
    ensures (forall e :: e in events ==> Smooth(e)) ==> c.Agreed()
  {
    c := new DesktopControl();
    for i := 0 to |events|
      invariant fresh(c) && c.Valid()
      invariant (forall j :: 0 <= j < i ==> Smooth(events[j])) ==> c.Agreed()
    {
      Apply(c, events[i]);
    }
  }

  // ---- two disagreements -----------------------------------------------------------

  /** A second viewer that its own attach closes: the first stays the server's current viewer and controls nothing. */
  method ClosedByItsAttach() returns (c: DesktopControl)
    ensures fresh(c) && c.Valid() && !c.Agreed()
    ensures c.authenticated.Keys == {0} && c.current == Some(0) && c.controller.None?
  {
    c := new DesktopControl();
    var first := c.Accept();
    var _ := c.Authenticate(first, Stays, false, false);
    var second := c.Accept();
    var _ := c.Authenticate(second, ClosesItself, false, false);
  }

  /** The only viewer leaves and its detach raises: both sides go on naming a viewer that is gone. */
  method StuckDetach() returns (c: DesktopControl)
    ensures fresh(c) && c.Valid() && !c.Agreed()
    ensures c.peers == {} && c.current == Some(0) && c.controller == Some(0)
  {
    c := new DesktopControl();
    var only := c.Accept();
    var _ := c.Authenticate(only, Stays, false, false);
    LatestWithout(c.authenticated, c.sequence, only);
    var _ := c.Close(only, true);
  }
}
