/** Order-preserving selection from a sequence. */
module Sequences {

  /** `sub` keeps some of the elements of `s`, in their order. */
  predicate IsSubsequence<T(==)>(sub: seq<T>, s: seq<T>)
    decreases |s|
  {
    if sub == [] then true
    else if s == [] then false
    else if sub[0] == s[0] then IsSubsequence(sub[1..], s[1..])
    else IsSubsequence(sub, s[1..])
  }

  /** Appending to the whole sequence keeps a subsequence a subsequence. */
  lemma {:induction false} SubsequenceOfLonger<T>(sub: seq<T>, s: seq<T>, x: T)
    requires IsSubsequence(sub, s)
    ensures IsSubsequence(sub, s + [x])
    decreases |s|
  {
    if sub != [] {
      assert (s + [x])[1..] == s[1..] + [x];
      if sub[0] == s[0] {
        SubsequenceOfLonger(sub[1..], s[1..], x);
      } else {
        SubsequenceOfLonger(sub, s[1..], x);
      }
    }
  }

  /** Appending the same element to both keeps a subsequence a subsequence. */
  lemma {:induction false} SubsequenceAppend<T>(sub: seq<T>, s: seq<T>, x: T)
    requires IsSubsequence(sub, s)
    ensures IsSubsequence(sub + [x], s + [x])
    decreases |s|
  {
    if s == [] {
      assert sub == [];
      assert IsSubsequence([x][1..], [x][1..]);
    } else {
      assert (s + [x])[1..] == s[1..] + [x];
      if sub == [] {
        if s[0] != x {
          SubsequenceAppend(sub, s[1..], x);
        } else {
          assert IsSubsequence([x][1..], (s + [x])[1..]);
        }
      } else {
        assert (sub + [x])[0] == sub[0] && (sub + [x])[1..] == sub[1..] + [x];
        if sub[0] == s[0] {
          SubsequenceAppend(sub[1..], s[1..], x);
        } else {
          SubsequenceAppend(sub, s[1..], x);
        }
      }
    }
  }

  /** Being a prefix is transitive. */
  lemma PrefixTransitive<T>(a: seq<T>, b: seq<T>, c: seq<T>)
    requires a <= b && b <= c
    ensures a <= c
  {
    assert b[..|a|] == c[..|a|];
  }
}
