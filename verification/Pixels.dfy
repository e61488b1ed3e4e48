/**
 Row and stride arithmetic of captured pictures (host_desktop_pixels.py): packing
 padded rows, the byte swap of RGB-ordered formats, and the probing comparison.
 */
module Pixels {
  import opened Common

  /** The shape of a stored picture: `stride` bytes from one row to the next, four bytes a pixel. */
  datatype Layout = Layout(width: nat, height: nat, stride: nat) {
    const row: nat := width * 4

    ghost predicate Valid() {
      width >= 1 && height >= 1 && stride >= row
    }

    function Packed(): nat {
      row * height
    }

    function Stored(): nat
      requires Valid()
    {
      (height - 1) * stride + row
    }
  }

  lemma MulMonotone(a: nat, b: nat, c: nat)
    requires a <= b
    ensures a * c <= b * c
  {
  }

  lemma Inside(y: nat, b: nat, height: nat, step: nat, row: nat)
    requires y < height && b <= row <= step
    ensures 0 <= y * step + b <= (height - 1) * step + row
  {
    MulMonotone(y, height - 1, step);
  }

  lemma RowBound(l: Layout, y: nat, b: nat)
    requires l.Valid() && y < l.height && b <= l.row
    ensures 0 <= y * l.stride + b <= l.Stored()
    ensures 0 <= y * l.row + b <= l.Packed()
    ensures b < l.row ==> y * l.stride + b < l.Stored() && y * l.row + b < l.Packed()
  {
    Inside(y, b, l.height, l.stride, l.row);
    Inside(y, b, l.height, l.row, l.row);
    assert (l.height - 1) * l.row + l.row == l.Packed();
    if b < l.row {
      Inside(y, b + 1, l.height, l.stride, l.row);
      Inside(y, b + 1, l.height, l.row, l.row);
    }
  }

  /** Quotient and remainder by a row length. */
  function Split(i: nat, row: nat): (p: (nat, nat))
    requires row > 0
    ensures p.1 < row && i == p.0 * row + p.1
  {
    if i < row then (0, i)
    else
      var p := Split(i - row, row);
      assert (p.0 + 1) * row == p.0 * row + row;
      (p.0 + 1, p.1)
  }

  lemma SplitUnique(y: nat, b: nat, y': nat, b': nat, row: nat)
    requires b < row && b' < row && y * row + b == y' * row + b'
    ensures y == y' && b == b'
  {
    if y < y' {
      MulMonotone(y + 1, y', row);
    } else if y' < y {
      MulMonotone(y' + 1, y, row);
    }
  }

  /** The row and the byte within it of packed position `i`. */
  function Place(l: Layout, i: nat): (p: (nat, nat))
    requires l.Valid() && i < l.Packed()
    ensures p.0 < l.height && p.1 < l.row && i == p.0 * l.row + p.1
  {
    var p := Split(i, l.row);
    assert p.0 < l.height by {
      if p.0 >= l.height {
        MulMonotone(l.height, p.0, l.row);
      }
    }
    p
  }

  lemma PlaceUnique(l: Layout, y: nat, b: nat)
    requires l.Valid() && y < l.height && b < l.row
    ensures y * l.row + b < l.Packed()
    ensures Place(l, y * l.row + b) == (y, b)
  {
    RowBound(l, y, b);
    var p := Place(l, y * l.row + b);
    SplitUnique(y, b, p.0, p.1, l.row);
  }

  /** Where packed position `i` lies in the stored picture. */
  function Source(l: Layout, i: nat): (j: nat)
    requires l.Valid() && i < l.Packed()
    ensures j < l.Stored()
  {
    var (y, b) := Place(l, i);
    RowBound(l, y, b);
    y * l.stride + b
  }

  /** The byte of a stored picture that packs to position `i`. */
  function At(stored: seq<byte>, l: Layout, i: nat): byte
    requires l.Valid() && |stored| >= l.Stored() && i < l.Packed()
  {
    stored[Source(l, i)]
  }

  /** The picture without row padding. */
  function Pack(stored: seq<byte>, l: Layout): (p: seq<byte>)
    requires l.Valid() && |stored| >= l.Stored()
    ensures |p| == l.Packed()
  {
    seq(l.Packed(), i requires 0 <= i < l.Packed() => At(stored, l, i))
  }

  function Partner(i: nat): (j: nat)
    ensures j / 4 == i / 4
  {
    if i % 4 == 0 then i + 2 else if i % 4 == 2 then i - 2 else i
  }

  /** Red and blue exchanged in every pixel. */
  function Swizzle(p: seq<byte>): (q: seq<byte>)
    requires |p| % 4 == 0
    ensures |q| == |p|
  {
    seq(|p|, i requires 0 <= i < |p| => p[Partner(i)])
  }

  /** The swap loses nothing: it is its own inverse, so equal pictures stay equal and others stay different. */
  lemma SwizzleInverse(p: seq<byte>)
    requires |p| % 4 == 0
    ensures Swizzle(Swizzle(p)) == p
  {
    forall i | 0 <= i < |p| ensures Swizzle(Swizzle(p))[i] == p[i] {
      assert Partner(Partner(i)) == i;
    }
  }

  lemma PackWhenPacked(stored: seq<byte>, l: Layout)
    requires l.Valid() && l.stride == l.row && |stored| >= l.Stored()
    ensures l.Stored() == l.Packed() && Pack(stored, l) == stored[..l.Packed()]
  {
    assert l.Packed() == (l.height - 1) * l.row + l.row;
    forall i | 0 <= i < l.Packed() ensures Pack(stored, l)[i] == stored[i] {
      assert Source(l, i) == i;
    }
  }

  /** `equal_pixels`: the probes only ever prove inequality. */
  method EqualPixels(left: seq<byte>, right: seq<byte>) returns (same: bool)
    ensures same <==> left == right
  {
    var n := |left|;
    if n != |right| {
      return false;
    }
    if n >= 8192 {
      for index := 0 to 32 {
        var offset := index * (n - 128) / 31;
        MulMonotone(index, 31, n - 128);
        assert index * (n - 128) / 31 <= 31 * (n - 128) / 31;
        if left[offset..offset + 128] != right[offset..offset + 128] {
          return false;
        }
      }
    }
    same := n == 0 || left == right;
  }

  /**
   `PixelCopy.copy`. `aligned` is whether source rows may be swapped directly and
   `owned` whether the target may be swapped at all. Whichever of the three copy
   routes is taken, the target ends with the packed picture, swapped if asked.
   */
  method Copy(target: array<byte>, source: seq<byte>, l: Layout, swap: bool, aligned: bool, owned: bool)
    returns (ok: bool)
    modifies target
    ensures ok <==> l.Valid() && target.Length == l.Packed() && |source| >= l.Stored() && (swap ==> owned)
    ensures ok ==> l.Packed() % 4 == 0 && target[..] == if swap then Swizzle(Pack(source, l)) else Pack(source, l)
    ensures !ok ==> target[..] == old(target[..])
  {
    if l.width < 1 || l.height < 1 || l.stride < l.row || target.Length != l.Packed() || |source| < l.Stored()
       || (swap && !owned)
    {
      return false;
    }
    ok := true;
    assert l.Packed() == 4 * (l.width * l.height);
    ghost var packed := Pack(source, l);
    if swap && aligned {
      forall i | 0 <= i < target.Length {
        target[i] := At(source, l, PartnerInside(i, l.Packed()));
      }
      assert target[..] == Swizzle(packed);
      return;
    }
    if !swap && l.stride == l.row {
      PackWhenPacked(source, l);
      forall i | 0 <= i < target.Length {
        target[i] := source[i];
      }
      return;
    }
    CopyRows(target, source, l);
    if swap {
      SwapInPlace(target);
    }
  }

  method CopyRows(target: array<byte>, source: seq<byte>, l: Layout)
    requires l.Valid() && target.Length == l.Packed() && |source| >= l.Stored()
    modifies target
    ensures target[..] == Pack(source, l)
  {
    ghost var packed := Pack(source, l);
    var y := 0;
    while y < l.height
      invariant 0 <= y <= l.height
      invariant forall i :: 0 <= i < y * l.row && i < target.Length ==> target[i] == packed[i]
    {
      CopyRow(target, source, l, y);
      y := y + 1;
    }
    assert target[..] == packed;
  }

  method SwapInPlace(target: array<byte>)
    requires target.Length % 4 == 0
    modifies target
    ensures target[..] == Swizzle(old(target[..]))
  {
    forall i | 0 <= i < target.Length {
      target[i] := target[PartnerInside(i, target.Length)];
    }
  }

  function PartnerInside(i: nat, n: nat): (j: nat)
    requires i < n && n % 4 == 0
    ensures j < n && j == Partner(i)
  {
    assert Partner(i) / 4 == i / 4;
    assert n == n / 4 * 4;
    Partner(i)
  }

  method CopyRow(target: array<byte>, source: seq<byte>, l: Layout, y: nat)
    requires l.Valid() && target.Length == l.Packed() && |source| >= l.Stored() && y < l.height
    modifies target
    ensures y * l.row + l.row == (y + 1) * l.row
    ensures forall i :: 0 <= i < target.Length ==>
      target[i] == if y * l.row <= i < y * l.row + l.row then Pack(source, l)[i] else old(target[i])
  {
    RowBound(l, y, l.row);
    assert (y + 1) * l.row == y * l.row + l.row;
    var from, into := y * l.stride, y * l.row;
    forall i | into <= i < into + l.row {
      target[i] := source[from + (i - into)];
    }
    forall i | into <= i < into + l.row ensures Pack(source, l)[i] == source[from + (i - into)] {
      PlaceUnique(l, y, i - into);
    }
  }
}
