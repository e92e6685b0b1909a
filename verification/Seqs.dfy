/** Lists without repeats and lists with every occurrence of one element taken out. */
module Seqs {

  ghost predicate NoRepeats<T>(s: seq<T>)
  {
    forall i, j :: 0 <= i < j < |s| ==> s[i] != s[j]
  }

  function Without<T(==)>(s: seq<T>, x: T): seq<T>
  {
    if s == [] then [] else Without(s[..|s| - 1], x) + if s[|s| - 1] != x then [s[|s| - 1]] else []
  }

  lemma {:induction false} WithoutKeeps<T>(s: seq<T>, x: T)
    ensures forall y :: y in Without(s, x) <==> y in s && y != x
    ensures NoRepeats(s) ==> NoRepeats(Without(s, x))
  {
    if s != [] {
      var init := s[..|s| - 1];
      WithoutKeeps(init, x);
      assert s == init + [s[|s| - 1]];
      if NoRepeats(s) {
        assert NoRepeats(init) && s[|s| - 1] !in init;
      }
    }
  }

  lemma {:induction false} WithoutCount<T>(s: seq<T>, x: T, y: T)
    ensures multiset(Without(s, x))[y] == if y == x then 0 else multiset(s)[y]
  {
    if s != [] {
      var init, last := s[..|s| - 1], s[|s| - 1];
      WithoutCount(init, x, y);
      assert s == init + [last];
      assert multiset(s) == multiset(init) + multiset{last};
    }
  }

  /** The filter loop of the handlers. */
  method ExceptOne<T(==)>(s: seq<T>, x: T) returns (left: seq<T>)
    ensures left == Without(s, x)
  {
    left := [];
    for i := 0 to |s|
      invariant left == Without(s[..i], x)
    {
      if s[i] != x {
        left := left + [s[i]];
      }
      assert s[..i + 1][..i] == s[..i];
    }
    assert s[..|s|] == s;
  }
}
