/** Small vocabulary shared by every module: options, bytes, ordered id lists. */
module Prelude {

  datatype Option<+T> = None | Some(value: T) {
    function GetOr(default: T): T {
      match this
      case Some(v) => v
      case None => default
    }
  }

  newtype byte = b: int | 0 <= b < 256

  const TWO_TO_THE_32: int := 0x1_0000_0000

  /** Rust's `x as u32` on a signed 64-bit value: keep the low 32 bits. */
  function AsU32(x: int): (r: nat)
    ensures r < TWO_TO_THE_32
    ensures 0 <= x < TWO_TO_THE_32 ==> r == x
  {
    x % TWO_TO_THE_32
  }

  function Min(a: int, b: int): int {
    if a < b then a else b
  }

  function Max(a: int, b: int): int {
    if a < b then b else a
  }

  // ---------- ordered, duplicate-free id lists ----------

  predicate StrictlyAscending(s: seq<int>) {
    forall i, j :: 0 <= i < j < |s| ==> s[i] < s[j]
  }

  /** Puts x into an ascending list unless it is there already. */
  function InsertDistinct(x: int, s: seq<int>): (r: seq<int>)
    requires StrictlyAscending(s)
    ensures StrictlyAscending(r)
    ensures forall y :: y in r <==> y == x || y in s
  {
    if s == [] then [x]
    else if x < s[0] then [x] + s
    else if x == s[0] then s
    else
      var rest := InsertDistinct(x, s[1..]);
      assert forall y :: y in rest ==> y == x || y in s[1..];
      assert forall j :: 0 <= j < |rest| ==> rest[j] in rest;
      [s[0]] + rest
  }

  /** `sort_unstable` followed by `dedup`: the one ascending list with the same elements. */
  function SortDedup(ids: seq<int>): (r: seq<int>)
    ensures StrictlyAscending(r)
    ensures forall x :: x in r <==> x in ids
  {
    if ids == [] then []
    else
      assert forall x :: x in ids <==> x == ids[0] || x in ids[1..];
      InsertDistinct(ids[0], SortDedup(ids[1..]))
  }

  /** An ascending list is determined by its elements, so sorting erases order and repetition. */
  lemma {:induction false} AscendingIsCanonical(a: seq<int>, b: seq<int>)
    requires StrictlyAscending(a) && StrictlyAscending(b)
    requires forall x :: x in a <==> x in b
    ensures a == b
  {
    if a == [] {
      assert forall x :: x !in b;
      assert forall i :: 0 <= i < |b| ==> b[i] in b;
    } else {
      assert a[0] in a && a[0] in b;
      assert b != [] && b[0] in a;
      assert a[0] == b[0];
      forall x ensures x in a[1..] <==> x in b[1..] {
        if x in a[1..] {
          assert x in b && x != b[0];
        }
        if x in b[1..] {
          assert x in a && x != a[0];
        }
      }
      AscendingIsCanonical(a[1..], b[1..]);
    }
  }

  /** Some element of a non-empty set: the order of a hash table is nobody's business. */
  method Pick<T(==)>(s: set<T>) returns (x: T)
    requires s != {}
    ensures x in s
  {
    x :| x in s;
  }

  // ---------- lists ----------

  /** No element occurs at two positions. */
  predicate NoDuplicates<T(==)>(s: seq<T>) {
    forall i, j :: 0 <= i < j < |s| ==> s[i] != s[j]
  }

  lemma AllButLastAndLast<T>(s: seq<T>)
    requires s != []
    ensures s[..|s| - 1] + [s[|s| - 1]] == s
  {
  }

  lemma ConcatAssoc<T>(a: seq<T>, b: seq<T>, c: seq<T>)
    ensures a + (b + c) == a + b + c
  {
  }
}
