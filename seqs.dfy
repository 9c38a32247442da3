/** List operations the source performs with Python lists and set(). */
module Seqs {
  import opened Wrappers

  function Elems<T(==,!new)>(s: seq<T>): set<T> {
    set x | x in s
  }

  predicate NoDups<T(==,!new)>(s: seq<T>) {
    forall i, j :: 0 <= i < j < |s| ==> s[i] != s[j]
  }

  /**
   * set(s) turned back into a list, as the directory stores a multi-valued attribute:
   * every element once, in order of first occurrence.
   */
  function Dedup<T(==,!new)>(s: seq<T>): (r: seq<T>)
    ensures NoDups(r)
    ensures forall x :: x in r <==> x in s
  {
    if s == [] then []
    else
      var d := Dedup(s[..|s| - 1]);
      if s[|s| - 1] in d then d else d + [s[|s| - 1]]
  }

  /** [x for x in s if x not in rm] */
  function Without<T(==,!new)>(s: seq<T>, rm: seq<T>): (r: seq<T>)
    ensures forall x :: x in r <==> x in s && x !in rm
    ensures |r| <= |s|
  {
    if s == [] then []
    else (if s[0] in rm then [] else [s[0]]) + Without(s[1..], rm)
  }

  /** The present values of a list of optional values (the directory cannot hold a None value). */
  function Somes<T(==,!new)>(s: seq<Option<T>>): (r: seq<T>)
    ensures forall x :: x in r <==> Some(x) in s
    ensures NoDups(s) ==> NoDups(r)
  {
    if s == [] then []
    else
      var rest := Somes(s[1..]);
      assert NoDups(s) ==> NoDups(s[1..]) && s[0] !in s[1..];
      match s[0]
      case None => rest
      case Some(x) => [x] + rest
  }

  /** The first element of a non-empty list is one of its elements. */
  lemma HeadIn<T>(s: seq<T>)
    ensures s != [] ==> s[0] in s
  {
  }

  /** Filtering distributes over concatenation. */
  lemma {:induction false} WithoutConcat<T(!new)>(a: seq<T>, b: seq<T>, rm: seq<T>)
    ensures Without(a + b, rm) == Without(a, rm) + Without(b, rm)
  {
    if a == [] {
      assert a + b == b;
    } else {
      assert (a + b)[1..] == a[1..] + b;
      WithoutConcat(a[1..], b, rm);
    }
  }
}
