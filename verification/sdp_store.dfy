/** The store of attributes: five inline slots, then a block that grows by eight.  A lookup finds the first
    attribute of a name in text order, whichever part it is in. */
module SdpStore {
  import opened Bytes

  datatype Attribute = Attribute(name: string, value: string)

  const N_ATTRIBUTE := 5
  const GROWTH := 8

  /** The value of the first attribute of this name. */
  function FirstNamed(attrs: seq<Attribute>, name: string): Option<string>
  {
    if attrs == [] then None else if attrs[0].name == name then Some(attrs[0].value) else FirstNamed(attrs[1..], name)
  }

  class Attributes {
    var count: nat
    const attrs: array<Attribute>
    var ptr: array<Attribute>
    var capacity: nat

    ghost predicate Valid()
      reads this
    {
      && attrs.Length == N_ATTRIBUTE && capacity == ptr.Length && attrs != ptr
      && (count <= N_ATTRIBUTE || count - N_ATTRIBUTE <= capacity)
    }

    /** The attributes in the order in which they were read. */
    ghost function Contents(): (r: seq<Attribute>)
      reads this, attrs, ptr
      requires Valid()
      ensures |r| == count
    {
      if count <= N_ATTRIBUTE then attrs[..count] else attrs[..] + ptr[..count - N_ATTRIBUTE]
    }

    constructor ()
      ensures Valid() && fresh(attrs) && fresh(ptr) && Contents() == []
    {
      attrs := new Attribute[N_ATTRIBUTE](i => Attribute("", ""));
      ptr := new Attribute[0];
      count, capacity := 0, 0;
    }

    /** A further attribute, as `sdp_parse_attribute` stores it. */
    method Append(a: Attribute)
      requires Valid()
      modifies this`count, this`ptr, this`capacity, attrs, ptr
      ensures Valid() && (ptr == old(ptr) || fresh(ptr)) && Contents() == old(Contents()) + [a]
    {
      if count >= N_ATTRIBUTE {
        if count - N_ATTRIBUTE >= capacity { Grow(); }
        ptr[count - N_ATTRIBUTE] := a;
      } else {
        attrs[count] := a;
      }
      count := count + 1;
    }

    /** `realloc`: the elements move to a larger block. */
    method Grow()
      requires Valid()
      modifies this`ptr, this`capacity
      ensures Valid() && fresh(ptr) && capacity == old(capacity) + GROWTH && count == old(count)
      ensures Contents() == old(Contents())
    {
      ghost var was := Contents();
      var larger := new Attribute[capacity + GROWTH](i => Attribute("", ""));
      var smaller := ptr;
      for i := 0 to smaller.Length
        invariant larger[..i] == smaller[..i]
        invariant ptr == smaller && capacity == smaller.Length && Contents() == was
      {
        larger[i] := smaller[i];
      }
      assert count > N_ATTRIBUTE ==> larger[..count - N_ATTRIBUTE] == ptr[..count - N_ATTRIBUTE];
      ptr := larger;
      capacity := capacity + GROWTH;
      assert Contents() == was;
    }

    /** The element at a position. */
    method Get(i: nat) returns (a: Attribute)
      requires Valid() && i < count
      ensures a == Contents()[i]
    {
      a := if i < N_ATTRIBUTE then attrs[i] else ptr[i - N_ATTRIBUTE];
    }

    /** `sdp_media_attribute_find`. */
    method Find(name: string) returns (value: Option<string>)
      requires Valid()
      ensures value == FirstNamed(Contents(), name)
    {
      assert Contents()[0..] == Contents();
      for i := 0 to count
        invariant FirstNamed(Contents()[i..], name) == FirstNamed(Contents(), name)
      {
        var a := Get(i);
        if a.name == name { return Some(a.value); }
        assert Contents()[i..][1..] == Contents()[i + 1..];
      }
      return None;
    }
  }
}
