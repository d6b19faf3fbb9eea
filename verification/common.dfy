// A value that may be missing: a nullable column, an absent row, a failed lookup.
module Common {
  datatype Option<+T> = None | Some(value: T)

  // "None keeps the old value", the convention of every repository update.
  function Keep<T>(update: Option<T>, current: Option<T>): Option<T> {
    if update.Some? then update else current
  }

  ghost predicate NoDuplicates<T>(s: seq<T>) {
    forall i, j :: 0 <= i < j < |s| ==> s[i] != s[j]
  }

  // First occurrences, in order.
  function Distinct<T(==,!new)>(s: seq<T>): (d: seq<T>)
    ensures NoDuplicates(d) && forall x :: x in d <==> x in s
  {
    if s == [] then []
    else
      var d, last := Distinct(s[..|s| - 1]), s[|s| - 1];
      assert s == s[..|s| - 1] + [last];
      if last in d then d else d + [last]
  }

  // Where x occurs first.
  function FirstAt<T(==)>(s: seq<T>, x: T): (i: nat)
    requires x in s
    ensures i < |s| && s[i] == x && x !in s[..i]
  {
    if s[0] == x then 0 else 1 + FirstAt(s[1..], x)
  }

  lemma FirstAtIs<T>(s: seq<T>, x: T, i: nat)
    requires i < |s| && s[i] == x && x !in s[..i]
    ensures FirstAt(s, x) == i
  {
    var k := FirstAt(s, x);
    assert forall j :: 0 <= j < i ==> s[..i][j] != x;
    assert forall j :: 0 <= j < k ==> s[..k][j] != x;
  }

  // Distinct keeps the order of first occurrences.
  lemma {:induction false} DistinctInOrder<T(!new)>(s: seq<T>, i: nat, j: nat)
    requires i < j < |Distinct(s)|
    ensures Distinct(s)[i] in s && Distinct(s)[j] in s && FirstAt(s, Distinct(s)[i]) < FirstAt(s, Distinct(s)[j])
  {
    var n := |s| - 1;
    var d := Distinct(s[..n]);
    assert s == s[..n] + [s[n]];
    forall k | 0 <= k < |d| ensures FirstAt(s, d[k]) == FirstAt(s[..n], d[k]) {
      assert d[k] in s[..n];
      var f := FirstAt(s[..n], d[k]);
      assert s[..n][..f] == s[..f];
      FirstAtIs(s, d[k], f);
    }
    if j < |d| {
      DistinctInOrder(s[..n], i, j);
    } else {
      FirstAtIs(s, s[n], n);
    }
  }
}
