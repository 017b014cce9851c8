/** Order-preserving selection from a sequence: the shape of Array.prototype.filter,
    used both by the ledger search and to state the stability of the date sort. */
module Seqs {

  // Sequence identities, each proved on its own so that the solver meets them
  // without the recursive definitions of the callers in scope.

  lemma SplitAt<T>(s: seq<T>, i: nat)
    requires i < |s|
    ensures s == (s[..i] + [s[i]]) + s[i + 1..]
  {
  }

  lemma SplitLast<T>(s: seq<T>)
    requires s != []
    ensures s == s[..|s| - 1] + [s[|s| - 1]]
  {
  }

  lemma SplitFirst<T>(s: seq<T>)
    requires s != []
    ensures s == [s[0]] + s[1..]
  {
  }

  lemma TakeNext<T>(s: seq<T>, i: nat)
    requires i < |s|
    ensures s[..i + 1] == s[..i] + [s[i]]
  {
  }

  lemma SliceOfTail<T>(s: seq<T>, i: nat, j: nat)
    requires s != [] && i <= j <= |s| - 1
    ensures s[1..][i..j] == s[i + 1..j + 1]
  {
  }

  lemma TakeOfTake<T>(s: seq<T>, i: nat, j: nat)
    requires i <= j <= |s|
    ensures s[..j][..i] == s[..i]
  {
  }

  lemma TakeOfDrop<T>(s: seq<T>, i: nat, j: nat)
    requires i <= j <= |s|
    ensures s[i..][..j - i] == s[i..j]
  {
  }

  lemma DropNext<T>(s: seq<T>, i: nat)
    requires i < |s|
    ensures s[i..] == [s[i]] + s[i + 1..]
  {
  }

  lemma PrefixOfTail<T>(s: seq<T>, k: nat)
    requires k < |s|
    ensures s[..k + 1] == [s[0]] + s[1..][..k]
  {
  }

  lemma AppendAssoc<T>(a: seq<T>, b: seq<T>, c: seq<T>)
    ensures a + (b + c) == (a + b) + c
  {
  }

  lemma SwapEmpty<T>(x: seq<T>, a: seq<T>, b: seq<T>)
    requires a == [] || b == []
    ensures (x + a) + b == (x + b) + a
  {
  }

  lemma TakeSnoc<T>(s: seq<T>, x: T)
    ensures (s + [x])[..|s|] == s
  {
  }

  lemma ConcatSnoc<T>(a: seq<T>, b: seq<T>)
    requires b != []
    ensures a + b == (a + b[..|b| - 1]) + [b[|b| - 1]]
  {
  }

  /** The elements of `s` for which `keep` holds, in their order in `s`. */
  function Select<T>(s: seq<T>, keep: T -> bool): (r: seq<T>)
    ensures |r| <= |s|
    decreases |s|
  {
    if s == [] then []
    else
      var init := Select(s[..|s| - 1], keep);
      if keep(s[|s| - 1]) then init + [s[|s| - 1]] else init
  }

  /** The positions in `s` of the elements `Select` keeps. */
  function SelectIndices<T>(s: seq<T>, keep: T -> bool): (ix: seq<int>)
    ensures forall k :: 0 <= k < |ix| ==> 0 <= ix[k] < |s|
    decreases |s|
  {
    if s == [] then []
    else
      var init := SelectIndices(s[..|s| - 1], keep);
      if keep(s[|s| - 1]) then init + [|s| - 1] else init
  }

  lemma SelectSnoc<T>(s: seq<T>, x: T, keep: T -> bool)
    ensures Select(s + [x], keep) == Select(s, keep) + (if keep(x) then [x] else [])
  {
    TakeSnoc(s, x);
  }

  lemma {:induction false} SelectIndicesLength<T>(s: seq<T>, keep: T -> bool)
    ensures |Select(s, keep)| == |SelectIndices(s, keep)|
    decreases |s|
  {
    if s != [] {
      SelectIndicesLength(s[..|s| - 1], keep);
    }
  }

  lemma {:induction false} SelectAtIndices<T>(s: seq<T>, keep: T -> bool)
    ensures |Select(s, keep)| == |SelectIndices(s, keep)|
    ensures forall k :: 0 <= k < |SelectIndices(s, keep)| ==>
      Select(s, keep)[k] == s[SelectIndices(s, keep)[k]]
    decreases |s|
  {
    SelectIndicesLength(s, keep);
    if s != [] {
      var init := s[..|s| - 1];
      SelectAtIndices(init, keep);
      forall k | 0 <= k < |SelectIndices(init, keep)|
        ensures Select(s, keep)[k] == s[SelectIndices(s, keep)[k]]
      {
        assert SelectIndices(s, keep)[k] == SelectIndices(init, keep)[k];
        assert Select(s, keep)[k] == Select(init, keep)[k];
      }
    }
  }

  lemma {:induction false} SelectIndicesIncreasing<T>(s: seq<T>, keep: T -> bool)
    ensures forall j, k :: 0 <= j < k < |SelectIndices(s, keep)| ==>
      SelectIndices(s, keep)[j] < SelectIndices(s, keep)[k]
    decreases |s|
  {
    if s != [] {
      SelectIndicesIncreasing(s[..|s| - 1], keep);
    }
  }

  lemma {:induction false} SelectIndicesExact<T>(s: seq<T>, keep: T -> bool)
    ensures forall j :: 0 <= j < |s| ==> (j in SelectIndices(s, keep) <==> keep(s[j]))
    decreases |s|
  {
    if s != [] {
      var init := s[..|s| - 1];
      SelectIndicesExact(init, keep);
      assert |s| - 1 !in SelectIndices(init, keep);
      forall j | 0 <= j < |s| - 1 ensures s[j] == init[j] { }
    }
  }

  /** `Select` keeps exactly the elements satisfying `keep`, at strictly increasing
      positions and in the same order: an order-preserving subsequence. */
  lemma SelectByIndices<T>(s: seq<T>, keep: T -> bool)
    ensures |Select(s, keep)| == |SelectIndices(s, keep)|
    ensures forall k :: 0 <= k < |SelectIndices(s, keep)| ==>
      Select(s, keep)[k] == s[SelectIndices(s, keep)[k]]
    ensures forall j, k :: 0 <= j < k < |SelectIndices(s, keep)| ==>
      SelectIndices(s, keep)[j] < SelectIndices(s, keep)[k]
    ensures forall j :: 0 <= j < |s| ==> (j in SelectIndices(s, keep) <==> keep(s[j]))
  {
    SelectAtIndices(s, keep);
    SelectIndicesIncreasing(s, keep);
    SelectIndicesExact(s, keep);
  }

  /** Every element `Select` returns satisfies `keep` and comes from `s`, and every
      element of `s` satisfying `keep` is returned. */
  lemma {:induction false} SelectMembers<T>(s: seq<T>, keep: T -> bool)
    ensures forall x :: x in Select(s, keep) <==> x in s && keep(x)
    decreases |s|
  {
    if s != [] {
      var init := s[..|s| - 1];
      SelectMembers(init, keep);
      SplitLast(s);
    }
  }

  /** When every element passes, `Select` returns the whole sequence. */
  lemma {:induction false} SelectAll<T>(s: seq<T>, keep: T -> bool)
    requires forall i :: 0 <= i < |s| ==> keep(s[i])
    ensures Select(s, keep) == s
    decreases |s|
  {
    if s != [] {
      SelectAll(s[..|s| - 1], keep);
    }
  }
}
