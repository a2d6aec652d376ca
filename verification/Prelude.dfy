/** Small shared vocabulary: options, and a few facts about finite sets and maps. */
module Prelude {

  datatype Option<+T> = None | Some(value: T)

  /** Some natural number is missing from every finite set of them. */
  lemma {:induction false} FreshNat(s: set<nat>) returns (n: nat)
    ensures n !in s
  {
    n := 0;
    var rest := s;
    while rest != {}
      invariant forall m :: m in s && m !in rest ==> m < n
      decreases rest
    {
      var m :| m in rest;
      rest := rest - {m};
      n := if m < n then n else m + 1;
    }
  }

  /** A set with at most one element in common with itself has size at most one. */
  lemma AtMostOne<T>(s: set<T>)
    requires forall a, b :: a in s && b in s ==> a == b
    ensures |s| <= 1
  {
    if s != {} {
      var a :| a in s;
      assert s == {a};
    }
  }

  lemma SubsetSize<T>(a: set<T>, b: set<T>)
    requires a <= b
    ensures |a| <= |b|
  {
    assert b == a + (b - a);
  }

  lemma {:induction false} BoundedSet(s: set<nat>, bound: nat)
    requires forall x | x in s :: x < bound
    ensures |s| <= bound
  {
    if s != {} {
      BoundedSet(s - {bound - 1}, bound - 1);
      SubsetSize(s, s - {bound - 1} + {bound - 1});
    }
  }

  lemma Regroup<T>(a: seq<T>, b: seq<T>, c: seq<T>)
    ensures (a + b) + c == a + (b + c)
  {
  }

  lemma Outside<T>(part: set<T>, whole: set<T>) returns (x: T)
    requires |part| < |whole|
    ensures x in whole && x !in part
  {
    if whole <= part {
      SubsetSize(whole, part);
    }
    x :| x in whole && x !in part;
  }

  /** `i` is where `x` first occurs. */
  predicate FirstAt<T(==)>(s: seq<T>, x: T, i: nat) {
    i < |s| && s[i] == x && forall j | 0 <= j < i :: s[j] != x
  }

  lemma FirstAtFront<T>(s: seq<T>, last: T, x: T, i: nat)
    requires x in s && FirstAt(s + [last], x, i)
    ensures FirstAt(s, x, i)
  {
    var k :| 0 <= k < |s| && s[k] == x;
    assert (s + [last])[k] == x;
    assert i <= k;
    forall j | 0 <= j < i ensures s[j] != x {
      assert (s + [last])[j] == s[j];
    }
  }

  /** The elements of `kept` come in the order of their first occurrences in `s`. */
  ghost predicate InOrder<T>(s: seq<T>, kept: seq<T>) {
    forall i, j, a, b | 0 <= i < j < |kept| && FirstAt(s, kept[i], a) && FirstAt(s, kept[j], b) :: a < b
  }

  /** The elements of `s`, each once, in the order of their first occurrences. */
  ghost predicate FirstOccurrences<T(!new)>(s: seq<T>, kept: seq<T>) {
    && (forall x :: x in kept <==> x in s)
    && (forall i, j | 0 <= i < j < |kept| :: kept[i] != kept[j])
    && InOrder(s, kept)
  }

  lemma InOrderMore<T>(s: seq<T>, kept: seq<T>, last: T)
    requires InOrder(s, kept) && forall x | x in kept :: x in s
    ensures InOrder(s + [last], kept)
    ensures last !in s ==> InOrder(s + [last], kept + [last])
  {
    forall i: nat, a: nat | i < |kept| && FirstAt(s + [last], kept[i], a) ensures FirstAt(s, kept[i], a) {
      assert kept[i] in kept && kept[i] in s;
      FirstAtFront(s, last, kept[i], a);
    }
    if last !in s {
      var more := kept + [last];
      forall i: nat, j: nat, a: nat, b: nat
        | i < j < |more| && FirstAt(s + [last], more[i], a) && FirstAt(s + [last], more[j], b)
        ensures a < b
      {
        if j == |kept| {
          assert FirstAt(s, kept[i], a);
          assert b == |s|;
        }
      }
    }
  }

  /** One more element: kept at the end when it is new, dropped otherwise. */
  lemma OccurrencesMore<T(!new)>(s: seq<T>, kept: seq<T>, last: T)
    requires FirstOccurrences(s, kept)
    ensures FirstOccurrences(s + [last], if last in s then kept else kept + [last])
  {
    var more := if last in s then kept else kept + [last];
    InOrderMore(s, kept, last);
    forall i, j | 0 <= i < j < |more| ensures more[i] != more[j] {
      if j == |kept| {
        assert more[i] in kept;
      }
    }
    forall x ensures x in more <==> x in s + [last] {
      assert x in s + [last] <==> x in s || x == last;
    }
  }
}
