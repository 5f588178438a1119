/** Sequence operations that the intrusive list and the work queue are specified with. */
module Lists {

  datatype Option<+T> = None | Some(value: T)

  ghost predicate NoDup<T>(s: seq<T>) {
    forall i, j :: 0 <= i < j < |s| ==> s[i] != s[j]
  }

  /** The position of the first occurrence of x. */
  function IndexOf<T(==)>(s: seq<T>, x: T): (i: nat)
    requires x in s
    ensures i < |s| && s[i] == x && x !in s[..i]
  {
    if s[0] == x then 0
    else
      assert s == [s[0]] + s[1..];
      IndexOf(s[1..], x) + 1
  }

  /** y placed directly behind the first occurrence of x. */
  function InsertAfter<T(==)>(s: seq<T>, x: T, y: T): seq<T>
    requires x in s
  {
    var i := IndexOf(s, x);
    s[..i + 1] + [y] + s[i + 1..]
  }

  /** y placed behind x, or in front of everything. */
  function Joined<T(==)>(s: seq<T>, x: T, y: T, behind: bool): seq<T>
    requires behind ==> x in s
  {
    if behind then InsertAfter(s, x, y) else [y] + s
  }

  /** The first occurrence of x unlinked; a sequence without x stays as it is. */
  function Without<T(==)>(s: seq<T>, x: T): seq<T> {
    if x in s then
      var i := IndexOf(s, x);
      s[..i] + s[i + 1..]
    else s
  }

  lemma {:induction false} FirstIs<T>(s: seq<T>, x: T, i: nat)
    requires i < |s| && s[i] == x && x !in s[..i]
    ensures IndexOf(s, x) == i
  {
    if i > 0 {
      assert s[0] == s[..i][0] && s[1..][..i - 1] == s[..i][1..];
      FirstIs(s[1..], x, i - 1);
    }
  }

  lemma IndexOfUnique<T>(s: seq<T>, i: nat)
    requires NoDup(s) && i < |s|
    ensures IndexOf(s, s[i]) == i
  {
    assert s[i] in s;
  }

  /** Of distinct elements: y joins directly behind the element at position i, or that element leaves. */
  lemma InsertAfterAt<T>(s: seq<T>, i: nat, y: T)
    requires NoDup(s) && i < |s|
    ensures InsertAfter(s, s[i], y) == s[..i + 1] + [y] + s[i + 1..]
  {
    IndexOfUnique(s, i);
  }

  lemma WithoutAt<T>(s: seq<T>, i: nat)
    requires NoDup(s) && i < |s|
    ensures Without(s, s[i]) == s[..i] + s[i + 1..]
    ensures forall x :: x !in s ==> Without(s, x) == s
  {
    IndexOfUnique(s, i);
  }

  lemma SplitMembers<T>(a: seq<T>, x: T, b: seq<T>)
    ensures forall y :: y in a + [x] + b <==> y in a || y == x || y in b
  {
  }

  lemma WithoutMembers<T>(s: seq<T>, x: T)
    requires NoDup(s)
    ensures NoDup(Without(s, x))
    ensures forall y :: y in Without(s, x) <==> y in s && y != x
  {
    if x in s {
      var i := IndexOf(s, x);
      assert s == s[..i] + [x] + s[i + 1..];
      SplitMembers(s[..i], x, s[i + 1..]);
    }
  }

  lemma InsertAfterMembers<T>(s: seq<T>, x: T, y: T)
    requires x in s && NoDup(s) && y !in s
    ensures NoDup(InsertAfter(s, x, y))
    ensures forall z :: z in InsertAfter(s, x, y) <==> z in s || z == y
  {
    var i := IndexOf(s, x);
    assert s == s[..i + 1] + s[i + 1..];
    SplitMembers(s[..i + 1], y, s[i + 1..]);
  }

  /** r is s without position i, or all of s when there is no such position. */
  ghost predicate Dropped<T>(s: seq<T>, r: seq<T>, i: nat) {
    && |r| == |s| - (if i < |s| then 1 else 0)
    && forall j :: 0 <= j < |r| ==> r[j] == s[if j < i then j else j + 1]
  }

  lemma RemovedAt<T>(s: seq<T>, i: nat)
    requires i < |s|
    ensures var r := s[..i] + s[i + 1..];
            Dropped(s, r, i) && (NoDup(s) ==> NoDup(r))
  {
    var r := s[..i] + s[i + 1..];
    assert forall j :: 0 <= j < |r| ==> r[j] == s[if j < i then j else j + 1];
  }

  /** Two sequences that match position by position have their matching elements at the same place. */
  lemma IndexOfMatch<A, B>(c: seq<A>, p: seq<B>, x: A, n: B)
    requires |c| == |p| && n in p
    requires forall j :: 0 <= j < |p| ==> (c[j] == x <==> p[j] == n)
    ensures x in c && IndexOf(c, x) == IndexOf(p, n)
  {
    var i := IndexOf(p, n);
    assert c[i] == x;
    var k := IndexOf(c, x);
    assert p[k] == n && c[k] in c[k..] && p[i] in p[i..];
    assert forall j :: 0 <= j < i ==> p[j] == p[..i][j];
    assert forall j :: 0 <= j < k ==> c[j] == c[..k][j];
  }
}
