/**
 * The two comparators of the landing page and the stable sort they are used with.
 *
 * `Array.prototype.sort` is a library routine: with a consistent comparator it returns an
 * ordered permutation of its input, and since ECMAScript 2019 it is also stable. `StableSort`
 * below is a reference definition of that result (insertion sort that places each element
 * before the first element it does not go after), and the lemmas state what every such sort
 * yields: an ordered permutation in which elements with equal keys keep their relative order.
 */
module Sorting {
  import opened Types
  import opened Text

  datatype SortKey = Bottles | Xrp | Name
  datatype SortOrder = Asc | Desc

  /**
   * `ByKey` is the grid comparator (a field read off each side, then `<`, `>`, else 0);
   * `ByBottlesDifference` is the carousel comparator, the second user's bottles minus the first's.
   */
  datatype Comparator = ByKey(key: SortKey, order: SortOrder) | ByBottlesDifference

  /** `valA < valB` for the field the key selects. */
  predicate KeyLess(key: SortKey, a: User, b: User)
  {
    match key
    case Bottles => a.totalBottles < b.totalBottles
    case Xrp => a.totalXrp < b.totalXrp
    case Name => StrLess(a.name, b.name)
  }

  /** The value a comparator returns for the pair (a, b); negative means a goes first. */
  function Compare(c: Comparator, a: User, b: User): (r: int)
    ensures c.ByKey? ==> -1 <= r <= 1
    ensures c.ByKey? ==> (r < 0 <==> if c.order == Asc then KeyLess(c.key, a, b) else KeyLess(c.key, b, a))
    ensures c.ByBottlesDifference? ==> (r < 0 <==> a.totalBottles > b.totalBottles)
  {
    StrLessAsymmetric(a.name, b.name);
    match c
    case ByKey(key, order) =>
      if KeyLess(key, a, b) then (if order == Asc then -1 else 1)
      else if KeyLess(key, b, a) then (if order == Asc then 1 else -1)
      else 0
    case ByBottlesDifference => b.totalBottles - a.totalBottles
  }

  /** a and b carry the same value in the field the comparator reads. */
  predicate SameKey(c: Comparator, a: User, b: User)
  {
    match c
    case ByKey(Bottles, _) => a.totalBottles == b.totalBottles
    case ByKey(Xrp, _) => a.totalXrp == b.totalXrp
    case ByKey(Name, _) => a.name == b.name
    case ByBottlesDifference => a.totalBottles == b.totalBottles
  }

  /** The comparator returns 0 exactly for equal keys. */
  lemma CompareZeroIffSameKey(c: Comparator, a: User, b: User)
    ensures Compare(c, a, b) == 0 <==> SameKey(c, a, b)
  {
    if c.ByKey? && c.key == Name {
      StrLessIrreflexive(a.name);
      if a.name != b.name {
        StrLessTotal(a.name, b.name);
      }
    }
  }

  /** Swapping the arguments negates the result. */
  lemma CompareAntisymmetric(c: Comparator, a: User, b: User)
    ensures Compare(c, a, b) == -Compare(c, b, a)
  {
    if c.ByKey? && c.key == Name {
      StrLessAsymmetric(a.name, b.name);
    }
  }

  /** "a does not go after b" is transitive. */
  lemma CompareTransitive(c: Comparator, a: User, b: User, d: User)
    requires Compare(c, a, b) <= 0 && Compare(c, b, d) <= 0
    ensures Compare(c, a, d) <= 0
  {
    if c.ByKey? && c.key == Name {
      var x, y, z := a.name, b.name, d.name;
      StrLessAsymmetric(x, y);
      StrLessAsymmetric(y, z);
      StrLessAsymmetric(x, z);
      StrLessIrreflexive(x);
      if x != y { StrLessTotal(x, y); }
      if y != z { StrLessTotal(y, z); }
      if x != z { StrLessTotal(x, z); }
      if StrLess(x, y) && StrLess(y, z) { StrLessTransitive(x, y, z); }
      if StrLess(y, x) && StrLess(z, y) { StrLessTransitive(z, y, x); }
    }
  }

  lemma SameKeyEquivalence(c: Comparator, a: User, b: User, d: User)
    ensures SameKey(c, a, a)
    ensures SameKey(c, a, b) ==> SameKey(c, b, a)
    ensures SameKey(c, a, b) && SameKey(c, b, d) ==> SameKey(c, a, d)
  {
  }

  /** Every adjacent and non-adjacent pair is in comparator order. */
  ghost predicate Sorted(c: Comparator, s: seq<User>)
  {
    forall i, j :: 0 <= i < j < |s| ==> Compare(c, s[i], s[j]) <= 0
  }

  /** Inserts x before the first element it does not go after. */
  function Insert(c: Comparator, x: User, s: seq<User>): (r: seq<User>)
    ensures |r| == |s| + 1
    ensures multiset(r) == multiset(s) + multiset{x}
  {
    if s == [] then [x]
    else if Compare(c, x, s[0]) <= 0 then [x] + s
    else
      assert s == [s[0]] + s[1..];
      [s[0]] + Insert(c, x, s[1..])
  }

  /** The stable sort of s under comparator c. */
  function StableSort(c: Comparator, s: seq<User>): (r: seq<User>)
    ensures |r| == |s|
    ensures multiset(r) == multiset(s)
  {
    if s == [] then []
    else
      assert s == [s[0]] + s[1..];
      Insert(c, s[0], StableSort(c, s[1..]))
  }

  /** Every element of Insert(c, x, s) is x or an element of s. */
  lemma InsertElements(c: Comparator, x: User, s: seq<User>, z: User)
    requires z in Insert(c, x, s)
    ensures z == x || z in s
  {
    assert z in multiset(Insert(c, x, s));
  }

  /** Prepending an element that goes before everything keeps a sequence ordered. */
  lemma SortedCons(c: Comparator, e: User, r: seq<User>)
    requires Sorted(c, r)
    requires forall z :: z in r ==> Compare(c, e, z) <= 0
    ensures Sorted(c, [e] + r)
  {
    var t := [e] + r;
    forall i, j | 0 <= i < j < |t|
      ensures Compare(c, t[i], t[j]) <= 0
    {
      assert t[j] == r[j - 1];
      if i > 0 {
        assert t[i] == r[i - 1];
      }
    }
  }

  /** The tail of an ordered sequence is ordered. */
  lemma SortedTail(c: Comparator, s: seq<User>)
    requires Sorted(c, s) && s != []
    ensures Sorted(c, s[1..])
  {
    forall i, j | 0 <= i < j < |s[1..]|
      ensures Compare(c, s[1..][i], s[1..][j]) <= 0
    {
      assert s[1..][i] == s[i + 1] && s[1..][j] == s[j + 1];
    }
  }

  /** The first two elements of an ordered sequence are in order. */
  lemma SortedFirstPair(c: Comparator, s: seq<User>)
    requires Sorted(c, s) && s != []
    ensures s[1..] == [] || Compare(c, s[0], s[1..][0]) <= 0
  {
    if |s| > 1 {
      assert s[1..][0] == s[1];
    }
  }

  /** An element that goes before the head is inserted in front. */
  lemma InsertAtHead(c: Comparator, x: User, s: seq<User>)
    requires s == [] || Compare(c, x, s[0]) <= 0
    ensures Insert(c, x, s) == [x] + s
  {
  }

  /** The head of an ordered sequence goes before each of its elements. */
  lemma SortedHead(c: Comparator, s: seq<User>)
    requires Sorted(c, s) && s != []
    ensures forall z :: z in s[1..] ==> Compare(c, s[0], z) <= 0
    ensures Sorted(c, s[1..])
  {
    forall z | z in s[1..]
      ensures Compare(c, s[0], z) <= 0
    {
      var k :| 0 <= k < |s[1..]| && s[1..][k] == z;
      assert s[k + 1] == z;
    }
    SortedTail(c, s);
  }

  lemma {:induction false} InsertSorted(c: Comparator, x: User, s: seq<User>)
    requires Sorted(c, s)
    ensures Sorted(c, Insert(c, x, s))
  {
    if s == [] {
    } else if Compare(c, x, s[0]) > 0 {
      SortedHead(c, s);
      InsertSorted(c, x, s[1..]);
      CompareAntisymmetric(c, x, s[0]);
      forall z | z in Insert(c, x, s[1..])
        ensures Compare(c, s[0], z) <= 0
      {
        InsertElements(c, x, s[1..], z);
      }
      SortedCons(c, s[0], Insert(c, x, s[1..]));
    } else {
      SortedHead(c, s);
      forall z | z in s
        ensures Compare(c, x, z) <= 0
      {
        if z != s[0] {
          assert z in s[1..] by { assert s == [s[0]] + s[1..]; }
          CompareTransitive(c, x, s[0], z);
        }
      }
      SortedCons(c, x, s);
    }
  }

  /** The sort produces an ordered sequence. */
  lemma {:induction false} SortSorted(c: Comparator, s: seq<User>)
    ensures Sorted(c, StableSort(c, s))
  {
    if s != [] {
      SortSorted(c, s[1..]);
      InsertSorted(c, s[0], StableSort(c, s[1..]));
    }
  }

  /** An already ordered sequence is left exactly as it is. */
  lemma {:induction false} SortedFixpoint(c: Comparator, s: seq<User>)
    requires Sorted(c, s)
    ensures StableSort(c, s) == s
  {
    if s != [] {
      var t := s[1..];
      SortedTail(c, s);
      SortedFixpoint(c, t);
      SortedFirstPair(c, s);
      InsertAtHead(c, s[0], t);
      assert s == [s[0]] + t;
    }
  }

  /** Sorting a second time with the same comparator changes nothing. */
  lemma SortIdempotent(c: Comparator, s: seq<User>)
    ensures StableSort(c, StableSort(c, s)) == StableSort(c, s)
  {
    SortSorted(c, s);
    SortedFixpoint(c, StableSort(c, s));
  }

  /** The elements of s whose key equals x's key, in their order in s. */
  function KeyClass(c: Comparator, s: seq<User>, x: User): (r: seq<User>)
    ensures |r| <= |s|
  {
    if s == [] then []
    else (if SameKey(c, s[0], x) then [s[0]] else []) + KeyClass(c, s[1..], x)
  }

  lemma KeyClassCons(c: Comparator, e: User, s: seq<User>, x: User)
    ensures KeyClass(c, [e] + s, x) == (if SameKey(c, e, x) then [e] else []) + KeyClass(c, s, x)
  {
    assert ([e] + s)[1..] == s;
  }

  /** When y goes after the head, Insert keeps the head in front. */
  lemma InsertPastHead(c: Comparator, y: User, s: seq<User>)
    requires s != [] && Compare(c, y, s[0]) > 0
    ensures Insert(c, y, s) == [s[0]] + Insert(c, y, s[1..])
  {
  }

  /** Two elements with different keys never both belong to one key class. */
  lemma KeyClassSwap(c: Comparator, y: User, e: User, x: User, k: seq<User>)
    requires Compare(c, y, e) != 0
    ensures (if SameKey(c, e, x) then [e] else []) + ((if SameKey(c, y, x) then [y] else []) + k)
         == (if SameKey(c, y, x) then [y] else []) + ((if SameKey(c, e, x) then [e] else []) + k)
  {
    if SameKey(c, y, x) && SameKey(c, e, x) {
      CompareZeroIffSameKey(c, y, e);
      SameKeyEquivalence(c, y, e, x);
      assert false;
    }
  }

  lemma {:induction false} InsertKeyClass(c: Comparator, y: User, s: seq<User>, x: User)
    ensures KeyClass(c, Insert(c, y, s), x) == KeyClass(c, [y] + s, x)
  {
    if s != [] && Compare(c, y, s[0]) > 0 {
      var e, t := s[0], s[1..];
      InsertPastHead(c, y, s);
      KeyClassCons(c, e, Insert(c, y, t), x);
      InsertKeyClass(c, y, t, x);
      KeyClassCons(c, y, t, x);
      KeyClassSwap(c, y, e, x, KeyClass(c, t, x));
      KeyClassCons(c, e, t, x);
      assert s == [e] + t;
      KeyClassCons(c, y, s, x);
    }
  }

  /**
   * Stability: for every key value, the elements carrying it appear in the sorted result
   * in the same relative order as in the input.
   */
  lemma {:induction false} SortStable(c: Comparator, s: seq<User>, x: User)
    ensures KeyClass(c, StableSort(c, s), x) == KeyClass(c, s, x)
  {
    if s != [] {
      SortStable(c, s[1..], x);
      InsertKeyClass(c, s[0], StableSort(c, s[1..]), x);
      assert ([s[0]] + StableSort(c, s[1..]))[1..] == StableSort(c, s[1..]);
    }
  }

  /** Two comparators that agree on the sign of every comparison sort identically. */
  lemma {:induction false} InsertSameSign(c: Comparator, d: Comparator, x: User, s: seq<User>)
    requires forall a, b :: (Compare(c, a, b) <= 0) == (Compare(d, a, b) <= 0)
    ensures Insert(c, x, s) == Insert(d, x, s)
  {
    if s != [] {
      InsertSameSign(c, d, x, s[1..]);
    }
  }

  /**
   * The carousel's bottle-difference comparator sorts exactly as the grid
   * comparator on bottles in descending order.
   */
  lemma {:induction false} BottlesDifferenceIsBottlesDesc(s: seq<User>)
    ensures StableSort(ByBottlesDifference, s) == StableSort(ByKey(Bottles, Desc), s)
  {
    if s != [] {
      BottlesDifferenceIsBottlesDesc(s[1..]);
      InsertSameSign(ByBottlesDifference, ByKey(Bottles, Desc), s[0], StableSort(ByBottlesDifference, s[1..]));
    }
  }

  /** What "ordered" means for each comparator, in terms of the fields. */
  lemma SortedMeaning(c: Comparator, s: seq<User>, i: int, j: int)
    requires Sorted(c, s) && 0 <= i < j < |s|
    ensures c == ByKey(Bottles, Asc) ==> s[i].totalBottles <= s[j].totalBottles
    ensures c == ByKey(Bottles, Desc) || c == ByBottlesDifference ==> s[i].totalBottles >= s[j].totalBottles
    ensures c == ByKey(Xrp, Asc) ==> s[i].totalXrp <= s[j].totalXrp
    ensures c == ByKey(Xrp, Desc) ==> s[i].totalXrp >= s[j].totalXrp
    ensures c == ByKey(Name, Asc) ==> !StrLess(s[j].name, s[i].name)
    ensures c == ByKey(Name, Desc) ==> !StrLess(s[i].name, s[j].name)
  {
    assert Compare(c, s[i], s[j]) <= 0;
    StrLessAsymmetric(s[i].name, s[j].name);
  }
}
