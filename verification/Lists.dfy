/** List idioms of the Rust standard library that several components use. */
module Lists {

  datatype Option<+T> = None | Some(value: T)

  ghost function ToSet<T>(s: seq<T>): set<T> {
    set x | x in s
  }

  /** `retain(|item| seen.insert(item.clone()))`: keep first occurrences, in order. */
  function Unique<T(==,!new)>(s: seq<T>): (u: seq<T>)
    ensures forall x :: x in u <==> x in s
  {
    if s == [] then []
    else
      assert s == s[..|s| - 1] + [s[|s| - 1]];
      var before := Unique(s[..|s| - 1]);
      if s[|s| - 1] in before then before else before + [s[|s| - 1]]
  }

  ghost predicate Distinct<T>(s: seq<T>) {
    forall i, j | 0 <= i < j < |s| :: s[i] != s[j]
  }

  lemma {:induction false} UniqueElements<T(!new)>(s: seq<T>)
    ensures ToSet(Unique(s)) == ToSet(s)
    ensures Distinct(Unique(s))
  {
    if s != [] {
      var n := |s| - 1;
      UniqueElements(s[..n]);
    }
  }

  lemma {:induction false} UniqueOfDistinct<T(!new)>(s: seq<T>)
    requires Distinct(s)
    ensures Unique(s) == s
  {
    if s != [] {
      var n := |s| - 1;
      UniqueOfDistinct(s[..n]);
      assert s == s[..n] + [s[n]];
    }
  }

  /** What is kept are the first occurrences, in their order. */
  lemma {:induction false} UniqueKeepsFirst<T(!new)>(s: seq<T>) returns (at: seq<nat>)
    ensures |at| == |Unique(s)| && forall i, j | 0 <= i < j < |at| :: at[i] < at[j]
    ensures forall i | 0 <= i < |at| :: at[i] < |s| && Unique(s)[i] == s[at[i]] && s[at[i]] !in s[..at[i]]
  {
    if s == [] {
      at := [];
    } else {
      var n := |s| - 1;
      at := UniqueKeepsFirst(s[..n]);
      forall i | 0 <= i < |at| ensures s[at[i]] !in s[..at[i]] {
        assert s[..n][..at[i]] == s[..at[i]];
      }
      if s[n] !in Unique(s[..n]) {
        at := at + [n];
      }
    }
  }

  lemma {:induction false} ToSetSize<T>(s: seq<T>)
    ensures |ToSet(s)| <= |s|
  {
    if s != [] {
      ToSetSize(s[1..]);
      assert s == [s[0]] + s[1..];
      assert ToSet(s) == {s[0]} + ToSet(s[1..]);
    }
  }
}
