/** Shared vocabulary: optional values and integer row ids. */
module Basics {
  datatype Option<+T> = None | Some(value: T)

  lemma Pick<T>(s: set<T>) returns (x: T)
    requires s != {}
    ensures x in s
  {
    x :| x in s;
  }

  lemma {:induction false} MaxExists(s: set<int>)
    requires s != {}
    ensures exists m :: m in s && forall x :: x in s ==> x <= m
  {
    var y := Pick(s);
    if s != {y} {
      MaxExists(s - {y});
      var m :| m in s - {y} && forall x :: x in s - {y} ==> x <= m;
      var top := if y > m then y else m;
      assert forall x :: x in s ==> x == y || x in s - {y};
      assert top in s && forall x :: x in s ==> x <= top;
    }
  }

  /** SQL's MAX over a non-empty column. */
  function Max(s: set<int>): (m: int)
    requires s != {}
    ensures m in s && forall x :: x in s ==> x <= m
  {
    MaxExists(s);
    var m :| m in s && forall x :: x in s ==> x <= m;
    m
  }

  /** The id SQLite gives the next row of a table whose rows are never deleted. */
  function NextId(ids: set<int>): (id: int)
    ensures id !in ids
    ensures (forall x :: x in ids ==> x > 0) ==> id > 0
  {
    if ids == {} then 1 else Max(ids) + 1
  }

  lemma SubsetSize<T>(a: set<T>, b: set<T>)
    requires a <= b
    ensures |a| <= |b|
  {
    assert b == a + (b - a);
  }
}
