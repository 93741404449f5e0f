/** Byte slices as the program has them: a length, a capacity, and an array behind both.

    Appending writes behind the last element while there is room; otherwise it moves the elements to a
    new array, which is zero where nothing was written yet. How much larger than needed the new array
    is, is the choice of the language runtime and therefore a parameter. Slicing may reach past the
    length, up to the capacity; past that it panics. */
module ByteSlices {
  import opened MachineIntegers
  import opened Options

  type Bytes = seq<uint8>

  // The additional room of a new array, given the old capacity and the length that is needed.
  type Growth = (nat, nat) -> nat

  // The elements, and the bytes between the length and the capacity.
  datatype Slice = Slice(data: Bytes, spare: Bytes)

  const EMPTY := Slice([], [])

  function Capacity(s: Slice): nat {
    |s.data| + |s.spare|
  }

  function Zeros(n: nat): Bytes {
    seq(n, _ => 0)
  }

  function Appended(s: Slice, grow: Growth, x: Bytes): Slice {
    if |x| <= |s.spare| then Slice(s.data + x, s.spare[|x|..])
    else Slice(s.data + x, Zeros(grow(Capacity(s), |s.data| + |x|)))
  }

  // The first n bytes of the array, as far as the capacity goes.
  function Prefix(s: Slice, n: nat): Option<Bytes> {
    if n <= Capacity(s) then Some((s.data + s.spare)[..n]) else None
  }

  predicate ZeroSpare(s: Slice) {
    forall i :: 0 <= i < |s.spare| ==> s.spare[i] == 0
  }

  // The first n bytes, made up with zeros if there are fewer.
  function Padded(b: Bytes, n: nat): Bytes {
    if n <= |b| then b[..n] else b + Zeros(n - |b|)
  }

  // As long as nothing but appending happened, slicing past the length yields zeros.
  lemma PrefixIsPadded(s: Slice, n: nat)
    requires ZeroSpare(s)
    ensures Prefix(s, n) == if n <= Capacity(s) then Some(Padded(s.data, n)) else None
  {
    if n <= |s.data| {
      assert (s.data + s.spare)[..n] == s.data[..n];
    } else if n <= Capacity(s) {
      assert (s.data + s.spare)[..n] == s.data + s.spare[..n - |s.data|];
      assert s.spare[..n - |s.data|] == Zeros(n - |s.data|);
    }
  }

  class ByteSlice {
    var bytes: array<uint8>
    var length: nat

    ghost predicate Valid()
      reads this
    {
      length <= bytes.Length
    }

    ghost function View(): Slice
      reads this, bytes
      requires Valid()
    {
      Slice(bytes[..length], bytes[length..])
    }

    constructor ()
      ensures Valid() && View() == EMPTY && fresh(bytes)
    {
      bytes, length := new uint8[0], 0;
    }

    // Writes x behind the elements, where there is room for it.
    method Put(x: Bytes)
      requires Valid() && length + |x| <= bytes.Length
      modifies this`length, bytes
      ensures Valid() && bytes == old(bytes)
      ensures View() == Slice(old(View().data) + x, old(View().spare)[|x|..])
    {
      ghost var was := bytes[..];
      for i := 0 to |x|
        invariant length == old(length)
        invariant bytes[..length + i] == was[..length] + x[..i]
        invariant bytes[length + i..] == was[length + i..]
      {
        bytes[length + i] := x[i];
        assert bytes[..length + i + 1] == bytes[..length + i] + [x[i]];
      }
      length := length + |x|;
      assert x[..|x|] == x;
      assert was[old(length)..][|x|..] == was[length..];
    }

    method Append(grow: Growth, x: Bytes)
      requires Valid()
      modifies this, bytes
      ensures Valid() && (bytes == old(bytes) || fresh(bytes))
      ensures View() == Appended(old(View()), grow, x)
    {
      if |x| > bytes.Length - length {
        var needed := length + |x|;
        var room := grow(bytes.Length, needed);
        var larger := new uint8[needed + room](_ => 0);
        for i := 0 to length
          invariant length == old(length) && bytes == old(bytes) && bytes[..] == old(bytes[..])
          invariant larger[..i] == bytes[..i]
          invariant forall j :: i <= j < larger.Length ==> larger[j] == 0
        {
          larger[i] := bytes[i];
          assert larger[..i + 1] == larger[..i] + [bytes[i]];
        }
        bytes := larger;
        assert View().spare[|x|..] == Zeros(room);
      }
      Put(x);
    }

    // The slice [:n]; None is the panic.
    method Take(n: nat) returns (r: Option<Bytes>)
      requires Valid()
      ensures r == Prefix(View(), n)
      ensures ZeroSpare(View()) ==> r == if n <= bytes.Length then Some(Padded(bytes[..length], n)) else None
    {
      if ZeroSpare(View()) {
        PrefixIsPadded(View(), n);
      }
      if n > bytes.Length {
        return None;
      }
      assert bytes[..length] + bytes[length..] == bytes[..];
      return Some(bytes[..n]);
    }
  }

  // What every append keeps: the bytes behind the elements are zero.
  lemma AppendKeepsZeros(s: Slice, grow: Growth, x: Bytes)
    requires ZeroSpare(s)
    ensures ZeroSpare(Appended(s, grow, x))
    ensures Appended(s, grow, x).data == s.data + x
  {
  }
}
