/** Slices that share backing arrays, as `append` and re-slicing make them. */
module GoSlice {
  import opened RoomLog

  /** Elements `off` up to `off + len` of the backing array; the capacity is what the array has left from `off`. */
  datatype Slice = Slice(base: array<ChatMessage>, off: nat, len: nat) {
    ghost predicate Ok() {
      off + len <= base.Length
    }

    ghost function Elements(): seq<ChatMessage>
      requires Ok()
      reads base
    {
      base[off..off + len]
    }

    /** `s[from:]`; nothing is copied. */
    function Drop(from: nat): Slice
      requires from <= len
    {
      Slice(base, off + from, len - from)
    }
  }

  /** `append(s, m)`. With room left it writes one element of the shared array, just past the end of `s`; otherwise it
      copies into a new array, `growth` elements longer than needed. */
  method Append(s: Slice, m: ChatMessage, growth: nat) returns (r: Slice)
    requires s.Ok()
    modifies s.base
    ensures r.Ok() && r.Elements() == old(s.Elements()) + [m]
    ensures if r.base == s.base then r == Slice(s.base, s.off, s.len + 1) else fresh(r.base)
    ensures forall i | 0 <= i < s.base.Length && (r.base != s.base || i != s.off + s.len) :: s.base[i] == old(s.base[i])
  {
    if s.off + s.len < s.base.Length {
      s.base[s.off + s.len] := m;
      r := Slice(s.base, s.off, s.len + 1);
      assert r.Elements() == old(s.Elements()) + [m];
    } else {
      var bigger := new ChatMessage[s.len + 1 + growth];
      var i := 0;
      while i < s.len
        invariant 0 <= i <= s.len
        invariant bigger[..i] == s.base[s.off..s.off + i]
        invariant s.base[..] == old(s.base[..])
      {
        bigger[i] := s.base[s.off + i];
        i := i + 1;
      }
      bigger[s.len] := m;
      r := Slice(bigger, 0, s.len + 1);
    }
  }
}
