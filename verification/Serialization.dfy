/**
 serialize and deserialize. An item is its object representation: the bytes that memcpy sees. For a reserved buffer
 these are the bytes of its array, since the struct holds nothing else.
 */
module Serialization {
  import opened ByteType

  // ---------------------------------------------------------------- what the bytes are

  function Flatten(items: seq<seq<Byte>>): seq<Byte> {
    if items == [] then [] else items[0] + Flatten(items[1..])
  }

  function Total(sizes: seq<nat>): nat {
    if sizes == [] then 0 else sizes[0] + Total(sizes[1..])
  }

  function Sizes(items: seq<seq<Byte>>): seq<nat> {
    if items == [] then [] else [|items[0]|] + Sizes(items[1..])
  }

  /** The fields of the given sizes that lie one behind the other from offset on. */
  function Fields(data: seq<Byte>, offset: nat, sizes: seq<nat>): seq<seq<Byte>>
    requires offset + Total(sizes) <= |data|
    decreases sizes
  {
    if sizes == [] then []
    else [data[offset..offset + sizes[0]]] + Fields(data, offset + sizes[0], sizes[1..])
  }

  lemma FlattenLength(items: seq<seq<Byte>>)
    ensures |Flatten(items)| == Total(Sizes(items)) && |Sizes(items)| == |items|
  {
  }

  lemma FlattenAppend(items: seq<seq<Byte>>, x: seq<Byte>)
    ensures Flatten(items + [x]) == Flatten(items) + x
  {
    if items == [] {
      assert [] + [x] == [x] && [x][1..] == [];
    } else {
      assert (items + [x])[1..] == items[1..] + [x];
      FlattenAppend(items[1..], x);
    }
  }

  // ---------------------------------------------------------------- the calls

  class Vector {
    var data: seq<Byte>

    method Serialize(items: seq<seq<Byte>>)
      modifies this
      ensures data == old(data) + Flatten(items)
      ensures |data| == |old(data)| + Total(Sizes(items))
    {
      var k := 0;
      assert items[..0] == [];
      while k < |items|
        invariant k <= |items| && data == old(data) + Flatten(items[..k])
      {
        data := data + items[k];
        assert items[..k + 1] == items[..k] + [items[k]];
        FlattenAppend(items[..k], items[k]);
        k := k + 1;
      }
      assert items[..k] == items;
      FlattenLength(items);
    }
  }

  method Memcpy(dst: array<Byte>, src: seq<Byte>, offset: nat)
    requires offset + dst.Length <= |src|
    modifies dst
    ensures dst[..] == src[offset..offset + dst.Length]
  {
    for i := 0 to dst.Length
      invariant dst[..i] == src[offset..offset + i]
    {
      dst[i] := src[offset + i];
      assert dst[..i + 1] == dst[..i] + [dst[i]];
    }
    assert dst[..] == dst[..dst.Length];
  }

  function Lengths(items: seq<array<Byte>>): (r: seq<nat>)
    ensures |r| == |items| && forall i :: 0 <= i < |r| ==> r[i] == items[i].Length
  {
    if items == [] then [] else [items[0].Length] + Lengths(items[1..])
  }

  lemma TotalConcat(a: seq<nat>, b: seq<nat>)
    ensures Total(a + b) == Total(a) + Total(b)
  {
    if a == [] {
      assert a + b == b;
    } else {
      assert (a + b)[1..] == a[1..] + b;
      TotalConcat(a[1..], b);
    }
  }

  lemma TotalNext(sizes: seq<nat>, k: nat)
    requires k < |sizes|
    ensures Total(sizes[..k + 1]) == Total(sizes[..k]) + sizes[k] <= Total(sizes)
  {
    assert sizes[..k + 1] == sizes[..k] + [sizes[k]];
    TotalConcat(sizes[..k], [sizes[k]]);
    assert sizes == sizes[..k + 1] + sizes[k + 1..];
    TotalConcat(sizes[..k + 1], sizes[k + 1..]);
  }

  /** The k-th field lies behind the fields before it. */
  lemma {:induction false} FieldAt(data: seq<Byte>, offset: nat, sizes: seq<nat>, k: nat)
    requires offset + Total(sizes) <= |data| && k < |sizes|
    ensures var at := offset + Total(sizes[..k]);
            && at + sizes[k] <= |data|
            && |Fields(data, offset, sizes)| == |sizes|
            && Fields(data, offset, sizes)[k] == data[at..at + sizes[k]]
    decreases sizes
  {
    TotalNext(sizes, k);
    FieldsLength(data, offset, sizes);
    if k > 0 {
      FieldAt(data, offset + sizes[0], sizes[1..], k - 1);
      assert sizes[..k][1..] == sizes[1..][..k - 1];
    }
  }

  lemma FieldsLength(data: seq<Byte>, offset: nat, sizes: seq<nat>)
    requires offset + Total(sizes) <= |data|
    ensures |Fields(data, offset, sizes)| == |sizes|
    decreases sizes
  {
  }

  /** Among the first k arguments, the object given as argument i is not given again. */
  predicate LastUse(items: seq<array<Byte>>, i: nat, k: nat)
    requires k <= |items| && i < |items|
  {
    forall j :: i < j < k ==> items[j] != items[i]
  }

  /**
   Copies consecutive bytes from offset on into the given objects, each as long as its type. An object given more than
   once keeps the field of its last occurrence.
   */
  method Deserialize(data: seq<Byte>, offset: nat, items: seq<array<Byte>>)
    requires offset + Total(Lengths(items)) <= |data|
    modifies items
    ensures |Fields(data, offset, Lengths(items))| == |items|
    ensures forall i :: 0 <= i < |items| && LastUse(items, i, |items|) ==>
              items[i][..] == Fields(data, offset, Lengths(items))[i]
  {
    ghost var sizes := Lengths(items);
    ghost var fields := Fields(data, offset, sizes);
    FieldsLength(data, offset, sizes);
    var at, k := offset, 0;
    while k < |items|
      invariant k <= |items| && at == offset + Total(sizes[..k])
      invariant forall i :: 0 <= i < k && LastUse(items, i, k) ==> items[i][..] == fields[i]
    {
      FieldAt(data, offset, sizes, k);
      TotalNext(sizes, k);
      Memcpy(items[k], data, at);
      forall i | 0 <= i < k && LastUse(items, i, k + 1)
        ensures items[i][..] == fields[i]
      {
        assert items[k] != items[i] && LastUse(items, i, k);
      }
      at := at + items[k].Length;
      k := k + 1;
    }
  }

  // ---------------------------------------------------------------- round trips

  /** What was serialized behind any prefix is read back, whatever follows it. */
  lemma {:induction false} FieldsOfFlatten(prefix: seq<Byte>, items: seq<seq<Byte>>, suffix: seq<Byte>)
    ensures |prefix| + Total(Sizes(items)) <= |prefix + Flatten(items) + suffix|
    ensures Fields(prefix + Flatten(items) + suffix, |prefix|, Sizes(items)) == items
    decreases items
  {
    FlattenLength(items);
    if items != [] {
      var data := prefix + Flatten(items) + suffix;
      assert data == (prefix + items[0]) + Flatten(items[1..]) + suffix;
      FieldsOfFlatten(prefix + items[0], items[1..], suffix);
      assert data[|prefix|..|prefix| + |items[0]|] == items[0];
    }
  }

  /** Item k stands behind the items before it. */
  lemma ItemStandsAt(items: seq<seq<Byte>>, k: nat)
    requires k < |items|
    ensures |Sizes(items)| == |items| && Sizes(items)[k] == |items[k]|
    ensures var at := Total(Sizes(items)[..k]);
            at + |items[k]| <= |Flatten(items)| && Flatten(items)[at..at + |items[k]|] == items[k]
  {
    var sizes := Sizes(items);
    FlattenLength(items);
    assert [] + Flatten(items) + [] == Flatten(items);
    FieldsOfFlatten([], items, []);
    FieldAt(Flatten(items), 0, sizes, k);
    SizeAt(items, k);
  }

  lemma SizeAt(items: seq<seq<Byte>>, k: nat)
    requires k < |items|
    ensures |Sizes(items)| == |items| && Sizes(items)[k] == |items[k]|
  {
    FlattenLength(items);
    if k > 0 {
      SizeAt(items[1..], k - 1);
    }
  }

  /** Two lists of items of the same shape that serialize to the same bytes are the same. */
  lemma SerializedBytesDecide(a: seq<seq<Byte>>, b: seq<seq<Byte>>)
    requires Sizes(a) == Sizes(b) && Flatten(a) == Flatten(b)
    ensures a == b
  {
    FieldsOfFlatten([], a, []);
    FieldsOfFlatten([], b, []);
  }

  // ---------------------------------------------------------------- numbers

  function Pow256(n: nat): (p: nat)
    ensures p > 0
  {
    if n == 0 then 1 else 256 * Pow256(n - 1)
  }

  /** The representation of an unsigned number of the given size, lowest byte first or last as the host has it. */
  function Represent(v: nat, size: nat, little: bool): (s: seq<Byte>)
    ensures |s| == size
  {
    if size == 0 then []
    else if little then [v % 256] + Represent(v / 256, size - 1, little)
    else Represent(v / 256, size - 1, little) + [v % 256]
  }

  function Value(s: seq<Byte>, little: bool): nat {
    if s == [] then 0
    else if little then s[0] + 256 * Value(s[1..], little)
    else s[|s| - 1] + 256 * Value(s[..|s| - 1], little)
  }

  lemma {:induction false} ValueOfRepresent(v: nat, size: nat, little: bool)
    requires v < Pow256(size)
    ensures Value(Represent(v, size, little), little) == v
  {
    if size > 0 {
      ValueOfRepresent(v / 256, size - 1, little);
      var s := Represent(v, size, little);
      assert if little then s[1..] == Represent(v / 256, size - 1, little)
             else s[..|s| - 1] == Represent(v / 256, size - 1, little);
    }
  }

  /** The byte of weight 256^k is the k-th from the front, or from the back. */
  lemma {:induction false} ByteStandsAt(v: nat, size: nat, little: bool, k: nat)
    requires k < size
    ensures Represent(v, size, little)[if little then k else size - 1 - k] == Shifted(v, k) % 256
  {
    if k > 0 {
      ByteStandsAt(v / 256, size - 1, little, k - 1);
    }
  }

  /** v divided by 256^k. */
  function Shifted(v: nat, k: nat): nat {
    if k == 0 then v else Shifted(v / 256, k - 1)
  }

  datatype Number = Number(v: nat, size: nat)

  function RepresentAll(ns: seq<Number>, little: bool): seq<seq<Byte>> {
    if ns == [] then [] else [Represent(ns[0].v, ns[0].size, little)] + RepresentAll(ns[1..], little)
  }

  lemma RepresentAllAt(ns: seq<Number>, little: bool, i: nat)
    requires i < |ns|
    ensures |RepresentAll(ns, little)| == |ns|
    ensures RepresentAll(ns, little)[i] == Represent(ns[i].v, ns[i].size, little)
  {
    if |ns| > 1 {
      RepresentAllAt(ns[1..], little, if i > 0 then i - 1 else 0);
    }
  }

  /**
   Numbers of fixed size survive: serialized on a host, deserialized with the same shape on a host of the same order.
   */
  lemma NumbersRoundTrip(prefix: seq<Byte>, ns: seq<Number>, suffix: seq<Byte>, little: bool, i: nat)
    requires i < |ns| && ns[i].v < Pow256(ns[i].size)
    ensures var items := RepresentAll(ns, little);
            var data := prefix + Flatten(items) + suffix;
            && |prefix| + Total(Sizes(items)) <= |data|
            && var got := Fields(data, |prefix|, Sizes(items));
               |got| == |ns| && Value(got[i], little) == ns[i].v
  {
    FieldsOfFlatten(prefix, RepresentAll(ns, little), suffix);
    RepresentAllAt(ns, little, i);
    ValueOfRepresent(ns[i].v, ns[i].size, little);
  }
}
