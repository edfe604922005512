/** Options, results and the few facts about sequences the model needs. */
module Sequences {

  datatype Option<+T> = None | Some(value: T)

  datatype Result<+T, +E> = Success(value: T) | Failure(error: E)

  /** The concatenation of a sequence of sequences. */
  function Flatten<T>(parts: seq<seq<T>>): seq<T> {
    if parts == [] then [] else Flatten(parts[..|parts| - 1]) + parts[|parts| - 1]
  }

  /** The sum of the weights of the elements. */
  function SumBy<T>(weight: T -> nat, s: seq<T>): nat {
    if s == [] then 0 else SumBy(weight, s[..|s| - 1]) + weight(s[|s| - 1])
  }

  lemma SumBySnoc<T>(weight: T -> nat, s: seq<T>, x: T)
    ensures SumBy(weight, s + [x]) == SumBy(weight, s) + weight(x)
  {
    assert (s + [x])[..|s|] == s;
  }

  lemma FlattenSnoc<T>(parts: seq<seq<T>>, part: seq<T>)
    ensures Flatten(parts + [part]) == Flatten(parts) + part
  {
    assert (parts + [part])[..|parts|] == parts;
  }

  lemma Associative<T>(a: seq<T>, b: seq<T>, c: seq<T>)
    ensures (a + b) + c == a + (b + c)
  {
  }

  lemma TailSnoc<T>(s: seq<T>)
    requires |s| >= 2
    ensures s[1..] == s[..|s| - 1][1..] + [s[|s| - 1]]
  {
  }

  lemma LastOfConcat<T>(s: seq<T>, t: seq<T>)
    requires t != []
    ensures t == t[..|t| - 1] + [t[|t| - 1]]
    ensures s + t == (s + t[..|t| - 1]) + [t[|t| - 1]]
  {
  }

  lemma FlattenSingle<T>(part: seq<T>)
    ensures Flatten([part]) == part
  {
    FlattenSnoc([], part);
    assert [] + [part] == [part];
  }

  lemma {:induction false} FlattenCons<T>(parts: seq<seq<T>>)
    requires parts != []
    ensures Flatten(parts) == parts[0] + Flatten(parts[1..])
  {
    if |parts| == 1 {
      FlattenSingle(parts[0]);
      assert parts == [parts[0]];
    } else {
      var init, last := parts[..|parts| - 1], parts[|parts| - 1];
      FlattenCons(init);
      TailSnoc(parts);
      FlattenSnoc(init[1..], last);
      Associative(parts[0], Flatten(init[1..]), last);
    }
  }

  lemma {:induction false} SumByConcat<T>(weight: T -> nat, s: seq<T>, t: seq<T>)
    ensures SumBy(weight, s + t) == SumBy(weight, s) + SumBy(weight, t)
  {
    if t == [] {
      assert s + t == s;
    } else {
      var init := t[..|t| - 1];
      SumByConcat(weight, s, init);
      assert s + t == (s + init) + [t[|t| - 1]];
      SumBySnoc(weight, s + init, t[|t| - 1]);
    }
  }

  /** A sum does not depend on the order of the elements. */
  lemma {:induction false} SumByPermutation<T>(weight: T -> nat, s: seq<T>, t: seq<T>)
    requires multiset(s) == multiset(t)
    ensures SumBy(weight, s) == SumBy(weight, t)
  {
    if s == [] {
      assert |multiset(t)| == |t|;
    } else {
      var x := s[|s| - 1];
      assert x in multiset(t);
      var i :| 0 <= i < |t| && t[i] == x;
      var rest := t[..i] + t[i + 1..];
      assert t == t[..i] + [x] + t[i + 1..];
      assert s == s[..|s| - 1] + [x];
      assert multiset(s[..|s| - 1]) == multiset(s) - multiset{x};
      assert multiset(rest) == multiset(t) - multiset{x};
      SumByPermutation(weight, s[..|s| - 1], rest);
      SumByConcat(weight, t[..i] + [x], t[i + 1..]);
      SumByConcat(weight, t[..i], t[i + 1..]);
      SumBySnoc(weight, t[..i], x);
    }
  }

  /** n times k, by repeated addition. */
  function Times(n: nat, k: nat): nat {
    if n == 0 then 0 else Times(n - 1, k) + k
  }

  lemma {:induction false} TimesIsMonotone(a: nat, b: nat, k: nat)
    requires a < b
    ensures Times(a, k) + k <= Times(b, k)
  {
    if a < b - 1 {
      TimesIsMonotone(a, b - 1, k);
    }
  }

  lemma {:induction false} TimesTwice(n: nat, k: nat)
    ensures Times(2 * n, k) == 2 * Times(n, k)
  {
    if n > 0 {
      TimesTwice(n - 1, k);
      assert Times(2 * n, k) == Times(2 * n - 1, k) + k == Times(2 * n - 2, k) + k + k;
    }
  }

  /** Parts of bounded weight bound the weight of the whole. */
  lemma {:induction false} FlattenIsBounded<T>(weight: T -> nat, parts: seq<seq<T>>, limit: nat)
    requires forall part :: part in parts ==> SumBy(weight, part) <= limit
    ensures SumBy(weight, Flatten(parts)) <= Times(|parts|, limit)
  {
    if parts != [] {
      var init := parts[..|parts| - 1];
      FlattenIsBounded(weight, init, limit);
      assert parts[|parts| - 1] in parts;
      SumByConcat(weight, Flatten(init), parts[|parts| - 1]);
    }
  }

  /** Parts of bounded length bound the length of the whole. */
  lemma {:induction false} FlattenIsShort<T>(parts: seq<seq<T>>, length: nat)
    requires forall part :: part in parts ==> |part| <= length
    ensures |Flatten(parts)| <= Times(|parts|, length)
  {
    if parts != [] {
      FlattenIsShort(parts[..|parts| - 1], length);
      assert parts[|parts| - 1] in parts;
    }
  }
}
