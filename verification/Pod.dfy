/**
 SPA POD objects: the little-endian builder and the property parser of the
 PipeWire capture client (host_desktop_pipewire.py).
 */
module Pod {
  import opened Common

  type u32 = x: int | 0 <= x < 0x1_0000_0000

  const OBJECT: u32 := 15
  const CHOICE: u32 := 19

  /** A property as the builder is given it: its key and the POD that is its value. */
  datatype Property = Property(key: u32, kind: u32, body: seq<byte>)

  /** What the parser reports for one key. */
  datatype Value = Value(kind: u32, body: seq<byte>)

  // ---- little-endian words ------------------------------------------------

  function Le32(v: u32): (b: seq<byte>)
    ensures |b| == 4
  {
    [v % 256, v / 256 % 256, v / 256 / 256 % 256, v / 256 / 256 / 256]
  }

  function Word(b: seq<byte>, i: nat): u32
    requires i + 4 <= |b|
  {
    var b0: int, b1: int, b2: int, b3: int := b[i], b[i + 1], b[i + 2], b[i + 3];
    b0 + 256 * b1 + 65536 * b2 + 16777216 * b3
  }

  lemma Digits(v: u32)
    ensures v % 256 + 256 * (v / 256 % 256) + 65536 * (v / 256 / 256 % 256) + 16777216 * (v / 256 / 256 / 256) == v
  {
    var a: int := v / 256;
    var b := a / 256;
    assert v == 256 * a + v % 256 && a == 256 * b + a % 256 && b == 256 * (b / 256) + b % 256;
  }

  /** A packed word is read back wherever it was placed in a longer buffer. */
  lemma WordOfLe32(before: seq<byte>, v: u32, after: seq<byte>)
    ensures Word(before + Le32(v) + after, |before|) == v
  {
    var s := before + Le32(v) + after;
    var i, b := |before|, Le32(v);
    assert s[i] == b[0] && s[i + 1] == b[1] && s[i + 2] == b[2] && s[i + 3] == b[3];
    Digits(v);
  }

  // ---- the builder --------------------------------------------------------

  function Encode(kind: u32, body: seq<byte>): seq<byte>
    requires |body| < 0x1_0000_0000
  {
    Le32(|body|) + Le32(kind) + body
  }

  function Zeros(n: nat): (z: seq<byte>)
    ensures |z| == n
  {
    seq(n, _ => 0)
  }

  function Padded(s: seq<byte>): (p: seq<byte>)
    ensures |p| % 8 == 0 && |s| <= |p| < |s| + 8 && s <= p
  {
    s + Zeros((-|s|) % 8)
  }

  ghost predicate Encodable(props: seq<Property>) {
    forall p :: p in props ==> |p.body| < 0x1_0000_0000
  }

  function Entry(p: Property): seq<byte>
    requires |p.body| < 0x1_0000_0000
  {
    Padded(Le32(p.key) + Le32(0) + Encode(p.kind, p.body))
  }

  function Entries(props: seq<Property>): seq<byte>
    requires Encodable(props)
  {
    if props == [] then [] else Entry(props[0]) + Entries(props[1..])
  }

  function ObjectBody(kind: u32, identity: u32, props: seq<Property>): seq<byte>
    requires Encodable(props)
  {
    Le32(kind) + Le32(identity) + Entries(props)
  }

  lemma {:induction false} EntriesSnoc(props: seq<Property>, p: Property)
    requires Encodable(props + [p])
    ensures Encodable(props)
    ensures Entries(props + [p]) == Entries(props) + Entry(p)
  {
    hide Entry;
    assert forall q :: q in props ==> q in props + [p];
    if props == [] {
      assert props + [p] == [p];
      assert Entries([p]) == Entry(p) + Entries([]);
    } else {
      assert (props + [p])[1..] == props[1..] + [p];
      EntriesSnoc(props[1..], p);
    }
  }

  /** `_object`: one growing buffer, one padded entry per property. */
  method BuildObject(kind: u32, identity: u32, props: seq<Property>) returns (pod: seq<byte>)
    requires Encodable(props)
    requires |ObjectBody(kind, identity, props)| < 0x1_0000_0000
    ensures pod == Encode(OBJECT, ObjectBody(kind, identity, props))
  {
    var body := Le32(kind) + Le32(identity);
    for i := 0 to |props|
      invariant Encodable(props[..i])
      invariant body == ObjectBody(kind, identity, props[..i])
    {
      var prop := Le32(props[i].key) + Le32(0) + Encode(props[i].kind, props[i].body);
      assert props[..i + 1] == props[..i] + [props[i]];
      EntriesSnoc(props[..i], props[i]);
      body := body + (prop + Zeros((-|prop|) % 8));
    }
    assert props[..|props|] == props;
    pod := Encode(OBJECT, body);
  }

  function Join(values: seq<seq<byte>>): seq<byte> {
    if values == [] then [] else values[0] + Join(values[1..])
  }

  /** The body of `_choice`: a choice header followed by its candidate values. */
  function ChoiceBody(kind: u32, size: u32, values: seq<seq<byte>>, choice: u32): seq<byte> {
    Le32(choice) + Le32(0) + Le32(size) + Le32(kind) + Join(values)
  }

  // ---- the parser ---------------------------------------------------------

  /** The value a property negotiated: itself, or the first child of a fixed choice. */
  function Negotiated(kind: u32, value: seq<byte>): Option<Value> {
    if kind != CHOICE then Some(Value(kind, value))
    else if |value| < 16 then None
    else
      var choice, size, child := Word(value, 0), Word(value, 8), Word(value, 12);
      if choice != 0 || size == 0 || |value| < 16 + size then None
      else Some(Value(child, value[16..16 + size]))
  }

  /** Reads one entry at `offset`: its key, its raw value and where the next entry starts. */
  function EntryAt(data: seq<byte>, offset: nat): (r: Option<(u32, Option<Value>, nat)>)
    ensures r.Some? ==> r.value.2 >= offset + 16
  {
    if offset + 16 > |data| then None
    else
      var key, length, kind := Word(data, offset), Word(data, offset + 8), Word(data, offset + 12);
      if offset + 16 + length > |data| then None
      else
        var next := offset + (16 + length + 7) / 8 * 8;
        Some((key, Negotiated(kind, data[offset + 16..offset + 16 + length]), next))
  }

  function ParseFrom(data: seq<byte>, offset: nat, found: map<u32, Value>): Result<map<u32, Value>>
    decreases |data| - offset
  {
    if offset >= |data| then Ok(found)
    else
      match EntryAt(data, offset)
      case None => Err
      case Some((key, value, next)) =>
        if key in found || value.None? then Err
        else ParseFrom(data, next, found[key := value.value])
  }

  /** `_properties` on the memory an address points to; `None` is the null address. */
  function Parse(memory: Option<seq<byte>>): Result<map<u32, Value>>
    requires memory.Some? ==> 8 <= |memory.value|
    requires memory.Some? && Word(memory.value, 0) <= 65536 ==> 8 + Word(memory.value, 0) <= |memory.value|
  {
    if memory.None? then Ok(map[])
    else
      var size, kind := Word(memory.value, 0), Word(memory.value, 4);
      if kind != OBJECT || !(8 <= size <= 65536) then Err
      else ParseFrom(memory.value[8..8 + size], 8, map[])
  }

  /** The parse loop itself; it terminates on every memory content. */
  method Properties(memory: Option<seq<byte>>) returns (result: Result<map<u32, Value>>)
    requires memory.Some? ==> 8 <= |memory.value|
    requires memory.Some? && Word(memory.value, 0) <= 65536 ==> 8 + Word(memory.value, 0) <= |memory.value|
    ensures result == Parse(memory)
  {
    if memory.None? {
      return Ok(map[]);
    }
    var size: int, kind := Word(memory.value, 0), Word(memory.value, 4);
    if kind != OBJECT || !(8 <= size <= 65536) {
      return Err;
    }
    var data := memory.value[8..8 + size];
    var offset: int := 8;
    var found: map<u32, Value> := map[];
    while offset < size
      invariant 8 <= offset
      invariant ParseFrom(data, 8, map[]) == ParseFrom(data, offset, found)
      decreases size - offset
    {
      var entry := EntryAt(data, offset);
      if entry.None? {
        return Err;
      }
      var (key, value, next) := entry.value;
      if key in found || value.None? {
        return Err;
      }
      found := found[key := value.value];
      offset := next;
    }
    result := Ok(found);
  }

  // ---- round trip ---------------------------------------------------------

  ghost predicate Distinct(props: seq<Property>) {
    forall i, j :: 0 <= i < j < |props| ==> props[i].key != props[j].key
  }

  ghost predicate AllNegotiated(props: seq<Property>) {
    forall i :: 0 <= i < |props| ==> Negotiated(props[i].kind, props[i].body).Some?
  }

  /** `found` is the dictionary the builder's caller described, stated without any byte layout. */
  ghost predicate Describes(found: map<u32, Value>, props: seq<Property>) {
    && (forall i :: 0 <= i < |props| ==>
      props[i].key in found && Some(found[props[i].key]) == Negotiated(props[i].kind, props[i].body))
    && (forall k :: k in found ==> exists i :: 0 <= i < |props| && props[i].key == k)
  }

  lemma HeaderReadsBack(before: seq<byte>, key: u32, length: u32, kind: u32, after: seq<byte>)
    ensures
      var data := before + (Le32(key) + Le32(0) + Le32(length) + Le32(kind)) + after;
      && Word(data, |before|) == key
      && Word(data, |before| + 8) == length
      && Word(data, |before| + 12) == kind
  {
    hide Word, Le32;
    var data := before + (Le32(key) + Le32(0) + Le32(length) + Le32(kind)) + after;
    assert data == before + Le32(key) + (Le32(0) + Le32(length) + Le32(kind) + after);
    WordOfLe32(before, key, Le32(0) + Le32(length) + Le32(kind) + after);
    assert data == (before + Le32(key) + Le32(0)) + Le32(length) + (Le32(kind) + after);
    WordOfLe32(before + Le32(key) + Le32(0), length, Le32(kind) + after);
    assert data == (before + Le32(key) + Le32(0) + Le32(length)) + Le32(kind) + after;
    WordOfLe32(before + Le32(key) + Le32(0) + Le32(length), kind, after);
  }

  lemma Aligned(n: int)
    ensures n + (-n) % 8 == (n + 7) / 8 * 8
  {
    var q, r := n / 8, n % 8;
    assert n == 8 * q + r;
    if r == 0 {
      assert (-n) % 8 == 0;
    } else {
      assert -n == 8 * (-q - 1) + (8 - r);
      assert (-n) % 8 == 8 - r;
    }
  }

  /** One built entry, wherever it starts, reads back as itself and ends where the next one starts. */
  lemma EntryReadsBack(before: seq<byte>, p: Property, after: seq<byte>)
    requires |p.body| < 0x1_0000_0000
    ensures EntryAt(before + Entry(p) + after, |before|)
         == Some((p.key, Negotiated(p.kind, p.body), |before + Entry(p)|))
  {
    hide Word, Le32, Negotiated;
    var head := Le32(p.key) + Le32(0) + Le32(|p.body|) + Le32(p.kind);
    var pad := Zeros((-(16 + |p.body|)) % 8);
    var data := before + Entry(p) + after;
    assert Entry(p) == head + p.body + pad by {
      assert Le32(p.key) + Le32(0) + Encode(p.kind, p.body) == head + p.body;
    }
    Aligned(16 + |p.body|);
    hide Entry;
    assert data == before + head + (p.body + pad + after);
    HeaderReadsBack(before, p.key, |p.body|, p.kind, p.body + pad + after);
    assert data == (before + head) + p.body + (pad + after);
    assert data[|before + head|..|before + head| + |p.body|] == p.body;
  }

  /** What parsing must give for the properties still ahead, given the keys already seen. */
  ghost function Expected(props: seq<Property>, found: map<u32, Value>): Result<map<u32, Value>> {
    if props == [] then Ok(found)
    else
      var p := props[0];
      var value := Negotiated(p.kind, p.body);
      if p.key in found || value.None? then Err
      else Expected(props[1..], found[p.key := value.value])
  }

  lemma {:induction false} ParseEntries(before: seq<byte>, props: seq<Property>, found: map<u32, Value>)
    requires Encodable(props)
    ensures ParseFrom(before + Entries(props), |before|, found) == Expected(props, found)
    decreases |props|
  {
    var data := before + Entries(props);
    if props == [] {
      assert data == before;
    } else {
      var p, rest := props[0], Entries(props[1..]);
      assert data == before + Entry(p) + rest;
      EntryReadsBack(before, p, rest);
      assert |Entry(p)| >= 16;
      var value := Negotiated(p.kind, p.body);
      if p.key !in found && value.Some? {
        ParseEntries(before + Entry(p), props[1..], found[p.key := value.value]);
        assert before + Entry(p) + rest == data;
      }
    }
  }

  ghost predicate NewKeys(props: seq<Property>, found: map<u32, Value>) {
    forall i :: 0 <= i < |props| ==> props[i].key !in found
  }

  lemma {:induction false} ExpectedMeaning(props: seq<Property>, found: map<u32, Value>)
    ensures Expected(props, found).Ok? <==> Distinct(props) && AllNegotiated(props) && NewKeys(props, found)
    ensures Expected(props, found).Ok? ==>
      var r := Expected(props, found).value;
      && (forall k :: k in found ==> k in r && r[k] == found[k])
      && (forall i :: 0 <= i < |props| ==>
        props[i].key in r && Some(r[props[i].key]) == Negotiated(props[i].kind, props[i].body))
      && (forall k :: k in r ==> k in found || exists i :: 0 <= i < |props| && props[i].key == k)
    decreases |props|
  {
    if props != [] {
      var p, rest := props[0], props[1..];
      var value := Negotiated(p.kind, p.body);
      if p.key !in found && value.Some? {
        ExpectedMeaning(rest, found[p.key := value.value]);
        assert forall i :: 0 <= i < |rest| ==> rest[i] == props[i + 1];
        ConsDistinct(props, found);
        if Expected(props, found).Ok? {
          ConsDescribed(props, found, Expected(props, found).value);
        }
      }
    }
  }

  lemma ConsDistinct(props: seq<Property>, found: map<u32, Value>)
    requires props != [] && props[0].key !in found && Negotiated(props[0].kind, props[0].body).Some?
    ensures
      var more := found[props[0].key := Negotiated(props[0].kind, props[0].body).value];
      (Distinct(props) && AllNegotiated(props) && NewKeys(props, found)
       <==> Distinct(props[1..]) && AllNegotiated(props[1..]) && NewKeys(props[1..], more))
  {
    var rest := props[1..];
    var more := found[props[0].key := Negotiated(props[0].kind, props[0].body).value];
    assert forall i :: 0 <= i < |rest| ==> rest[i] == props[i + 1];
    assert forall i :: 0 < i < |props| ==> props[i] == rest[i - 1];
    if Distinct(rest) && AllNegotiated(rest) && NewKeys(rest, more) {
      forall i, j | 0 <= i < j < |props| ensures props[i].key != props[j].key {
        assert props[j] == rest[j - 1];
        if i > 0 {
          assert props[i] == rest[i - 1];
        }
      }
    }
  }

  lemma ConsDescribed(props: seq<Property>, found: map<u32, Value>, r: map<u32, Value>)
    requires props != []
    requires props[0].key in r && Some(r[props[0].key]) == Negotiated(props[0].kind, props[0].body)
    requires forall i :: 0 <= i < |props[1..]| ==>
      props[1..][i].key in r && Some(r[props[1..][i].key]) == Negotiated(props[1..][i].kind, props[1..][i].body)
    requires forall k :: k in r ==>
      k in found || k == props[0].key || exists i :: 0 <= i < |props[1..]| && props[1..][i].key == k
    ensures forall i :: 0 <= i < |props| ==>
      props[i].key in r && Some(r[props[i].key]) == Negotiated(props[i].kind, props[i].body)
    ensures forall k :: k in r ==> k in found || exists i :: 0 <= i < |props| && props[i].key == k
  {
    var rest := props[1..];
    assert forall i :: 0 < i < |props| ==> props[i] == rest[i - 1];
    forall k | k in r && k !in found ensures exists i :: 0 <= i < |props| && props[i].key == k {
      if k == props[0].key {
        assert 0 <= 0 < |props|;
      } else {
        var i :| 0 <= i < |rest| && rest[i].key == k;
        assert props[i + 1].key == k;
      }
    }
  }

  /**
   Round trip. An object of at most 65536 bytes parses exactly when its keys are
   distinct and every choice in it is fixed, and then the parser returns exactly
   the described dictionary: padding never shifts a key or a value.
   */
  lemma ObjectRoundTrip(kind: u32, identity: u32, props: seq<Property>, after: seq<byte>)
    requires Encodable(props)
    requires |ObjectBody(kind, identity, props)| <= 65536
    ensures
      var memory := Encode(OBJECT, ObjectBody(kind, identity, props)) + after;
      && Word(memory, 0) == |ObjectBody(kind, identity, props)|
      && (Parse(Some(memory)).Ok? <==> Distinct(props) && AllNegotiated(props))
      && (Parse(Some(memory)).Ok? ==> Describes(Parse(Some(memory)).value, props))
  {
    hide Word, Le32;
    var body := ObjectBody(kind, identity, props);
    var memory := Encode(OBJECT, body) + after;
    assert memory == [] + Le32(|body|) + (Le32(OBJECT) + body + after);
    WordOfLe32([], |body|, Le32(OBJECT) + body + after);
    assert memory == Le32(|body|) + Le32(OBJECT) + (body + after);
    WordOfLe32(Le32(|body|), OBJECT, body + after);
    assert memory[8..8 + |body|] == body;
    ParseEntries(Le32(kind) + Le32(identity), props, map[]);
    ExpectedMeaning(props, map[]);
  }

  /** A larger object is refused whole, whatever it holds. */
  lemma OversizedObjectRefused(kind: u32, identity: u32, props: seq<Property>)
    requires Encodable(props)
    requires 65536 < |ObjectBody(kind, identity, props)| < 0x1_0000_0000
    ensures
      var memory := Encode(OBJECT, ObjectBody(kind, identity, props));
      Word(memory, 0) > 65536 && Parse(Some(memory)).Err?
  {
    var body := ObjectBody(kind, identity, props);
    assert Encode(OBJECT, body) == [] + Le32(|body|) + (Le32(OBJECT) + body);
    WordOfLe32([], |body|, Le32(OBJECT) + body);
  }

  /** A choice is read as its first child exactly when it is fixed to that child, and the child is not empty. */
  lemma FixedChoice(kind: u32, size: u32, values: seq<seq<byte>>, choice: u32)
    requires values != [] && |values[0]| == size
    ensures Negotiated(CHOICE, ChoiceBody(kind, size, values, choice))
         == if choice == 0 && size > 0 then Some(Value(kind, values[0])) else None
  {
    hide Word, Le32;
    var body := ChoiceBody(kind, size, values, choice);
    var tail := Join(values);
    assert tail == values[0] + Join(values[1..]);
    assert body == [] + Le32(choice) + (Le32(0) + Le32(size) + Le32(kind) + tail);
    WordOfLe32([], choice, Le32(0) + Le32(size) + Le32(kind) + tail);
    assert body == Le32(choice) + Le32(0) + Le32(size) + (Le32(kind) + tail);
    WordOfLe32(Le32(choice) + Le32(0), size, Le32(kind) + tail);
    var head := Le32(choice) + Le32(0) + Le32(size) + Le32(kind);
    assert body == head + tail;
    WordOfLe32(Le32(choice) + Le32(0) + Le32(size), kind, tail);
    assert |head| == 16;
    assert body == head + values[0] + Join(values[1..]);
    assert body[16..16 + size] == values[0];
  }
}
