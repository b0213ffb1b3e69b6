/** The two collection behaviours the report tree is built from:
    - a `ConcurrentSkipListSet` keyed by a name, modelled as a sequence kept
      strictly sorted by that name, where adding an element whose name is
      already present changes nothing;
    - a "visited" set in a loop, which keeps the first element of each key
      and skips the later ones. */
module Collections {
  import opened JavaCompare

  /** `f` applied to each element of `xs`, in order. */
  function MapSeq<A, T>(xs: seq<A>, f: A -> T): (r: seq<T>)
    ensures |r| == |xs|
    ensures forall i :: 0 <= i < |xs| ==> r[i] == f(xs[i])
  {
    if |xs| == 0 then [] else [f(xs[0])] + MapSeq(xs[1..], f)
  }

  /** The keys of the elements of `xs`. */
  function KeySet<T, K>(xs: seq<T>, key: T -> K): set<K>
  {
    set i | 0 <= i < |xs| :: key(xs[i])
  }

  ghost predicate DistinctKeys<T, K>(xs: seq<T>, key: T -> K)
  {
    forall i, j :: 0 <= i < j < |xs| ==> key(xs[i]) != key(xs[j])
  }

  /** Element `i` is the first of `xs` with its key. */
  ghost predicate FirstOfKey<T, K>(xs: seq<T>, key: T -> K, i: int)
    requires 0 <= i < |xs|
  {
    forall j :: 0 <= j < i ==> key(xs[j]) != key(xs[i])
  }

  lemma KeySetCons<T, K>(x: T, xs: seq<T>, key: T -> K)
    ensures KeySet([x] + xs, key) == {key(x)} + KeySet(xs, key)
  {
    var r := [x] + xs;
    forall k | k in KeySet(r, key) ensures k in {key(x)} + KeySet(xs, key) {
      var i :| 0 <= i < |r| && key(r[i]) == k;
      if i > 0 { assert r[i] == xs[i - 1]; }
    }
    forall k | k in KeySet(xs, key) ensures k in KeySet(r, key) {
      var i :| 0 <= i < |xs| && key(xs[i]) == k;
      assert r[i + 1] == xs[i];
    }
    assert r[0] == x;
    assert key(r[0]) in KeySet(r, key);
  }

  lemma KeySetTail<T, K>(xs: seq<T>, key: T -> K)
    requires |xs| > 0
    ensures KeySet(xs, key) == {key(xs[0])} + KeySet(xs[1..], key)
  {
    KeySetCons(xs[0], xs[1..], key);
    assert [xs[0]] + xs[1..] == xs;
  }

  lemma DistinctKeysCons<T, K>(x: T, xs: seq<T>, key: T -> K)
    ensures DistinctKeys([x] + xs, key) <==> DistinctKeys(xs, key) && key(x) !in KeySet(xs, key)
  {
    var r := [x] + xs;
    if DistinctKeys(r, key) {
      forall i, j | 0 <= i < j < |xs| ensures key(xs[i]) != key(xs[j]) {
        assert r[i + 1] == xs[i] && r[j + 1] == xs[j];
      }
      forall i | 0 <= i < |xs| ensures key(xs[i]) != key(x) {
        assert r[i + 1] == xs[i] && r[0] == x;
        assert key(r[0]) != key(r[i + 1]);
      }
    }
    if DistinctKeys(xs, key) && key(x) !in KeySet(xs, key) {
      forall i, j | 0 <= i < j < |r| ensures key(r[i]) != key(r[j]) {
        assert r[j] == xs[j - 1];
        if i > 0 { assert r[i] == xs[i - 1]; }
      }
    }
  }

  // ---------------------------------------------------------------------
  // First occurrence wins
  // ---------------------------------------------------------------------

  /** The elements of `xs`, in order, whose key is neither in `seen` nor the
      key of an earlier element: the loop
        `for x in xs: if !visited.contains(key(x)) { use(x); visited.add(key(x)) }`. */
  function FirstByKey<T, K>(xs: seq<T>, key: T -> K, seen: set<K>): (r: seq<T>)
    ensures |r| <= |xs|
    ensures forall i :: 0 <= i < |r| ==> r[i] in xs && key(r[i]) !in seen
  {
    if |xs| == 0 then []
    else if key(xs[0]) in seen then FirstByKey(xs[1..], key, seen)
    else [xs[0]] + FirstByKey(xs[1..], key, seen + {key(xs[0])})
  }

  /** No key is kept twice, and every key not already seen is kept. */
  lemma {:induction false} FirstByKeyKeys<T, K>(xs: seq<T>, key: T -> K, seen: set<K>)
    ensures DistinctKeys(FirstByKey(xs, key, seen), key)
    ensures KeySet(FirstByKey(xs, key, seen), key) == KeySet(xs, key) - seen
  {
    if |xs| > 0 {
      KeySetTail(xs, key);
      var k0 := key(xs[0]);
      if k0 in seen {
        FirstByKeyKeys(xs[1..], key, seen);
      } else {
        var rest := FirstByKey(xs[1..], key, seen + {k0});
        FirstByKeyKeys(xs[1..], key, seen + {k0});
        KeySetCons(xs[0], rest, key);
        DistinctKeysCons(xs[0], rest, key);
      }
    }
  }

  /** The element kept for a key is the first element with that key. */
  lemma {:induction false} FirstByKeyKeepsFirst<T, K>(xs: seq<T>, key: T -> K, seen: set<K>, i: int)
    requires 0 <= i < |xs| && key(xs[i]) !in seen && FirstOfKey(xs, key, i)
    ensures xs[i] in FirstByKey(xs, key, seen)
  {
    if i > 0 {
      var seen' := if key(xs[0]) in seen then seen else seen + {key(xs[0])};
      assert key(xs[0]) != key(xs[i]);
      assert xs[1..][i - 1] == xs[i];
      assert FirstOfKey(xs[1..], key, i - 1) by {
        forall j | 0 <= j < i - 1 ensures key(xs[1..][j]) != key(xs[1..][i - 1]) {
          assert xs[1..][j] == xs[j + 1];
        }
      }
      FirstByKeyKeepsFirst(xs[1..], key, seen', i - 1);
    }
  }

  /** Skipping duplicates changes nothing when there are none. */
  lemma {:induction false} FirstByKeyOfDistinct<T, K>(xs: seq<T>, key: T -> K, seen: set<K>)
    requires DistinctKeys(xs, key) && KeySet(xs, key) !! seen
    ensures FirstByKey(xs, key, seen) == xs
  {
    if |xs| > 0 {
      KeySetTail(xs, key);
      DistinctKeysCons(xs[0], xs[1..], key);
      assert [xs[0]] + xs[1..] == xs;
      FirstByKeyOfDistinct(xs[1..], key, seen + {key(xs[0])});
    }
  }

  // ---------------------------------------------------------------------
  // A set kept sorted by name
  // ---------------------------------------------------------------------

  /** `a` sorts strictly before `b`: natural string order when `ascending`,
      the reversed order the report's nodes use otherwise. */
  predicate Before(a: string, b: string, ascending: bool)
  {
    if ascending then Less(a, b) else Less(b, a)
  }

  ghost predicate Sorted<T>(xs: seq<T>, key: T -> string, ascending: bool)
  {
    forall i, j :: 0 <= i < j < |xs| ==> Before(key(xs[i]), key(xs[j]), ascending)
  }

  lemma BeforeTotal(a: string, b: string, ascending: bool)
    ensures a == b || Before(a, b, ascending) || Before(b, a, ascending)
    ensures !Before(a, a, ascending)
  {
    LessTotal(a, b);
    LessIrreflexive(a);
  }

  lemma BeforeTransitive(a: string, b: string, c: string, ascending: bool)
    requires Before(a, b, ascending) && Before(b, c, ascending)
    ensures Before(a, c, ascending)
  {
    if ascending { LessTransitive(a, b, c); } else { LessTransitive(c, b, a); }
  }

  /** A sorted sequence never holds two elements with the same key. */
  lemma SortedDistinct<T>(xs: seq<T>, key: T -> string, ascending: bool)
    requires Sorted(xs, key, ascending)
    ensures DistinctKeys(xs, key)
  {
    forall i, j | 0 <= i < j < |xs| ensures key(xs[i]) != key(xs[j]) {
      BeforeTotal(key(xs[i]), key(xs[i]), ascending);
    }
  }

  /** `set.add(x)`: `x` goes to its place in the order, unless an element with
      the same key is already present, in which case the set is unchanged. */
  function Insert<T>(xs: seq<T>, x: T, key: T -> string, ascending: bool): (r: seq<T>)
    requires Sorted(xs, key, ascending)
    ensures Sorted(r, key, ascending)
    ensures key(x) in KeySet(xs, key) ==> r == xs
    ensures key(x) !in KeySet(xs, key) ==> multiset(r) == multiset(xs) + multiset{x}
    ensures KeySet(r, key) == KeySet(xs, key) + {key(x)}
  {
    if |xs| == 0 then [x]
    else if key(xs[0]) == key(x) then xs
    else if Before(key(x), key(xs[0]), ascending) then
      InsertFront(xs, x, key, ascending);
      [x] + xs
    else
      var rest := Insert(xs[1..], x, key, ascending);
      InsertLater(xs, x, key, ascending, rest);
      [xs[0]] + rest
  }

  lemma InsertFront<T>(xs: seq<T>, x: T, key: T -> string, ascending: bool)
    requires Sorted(xs, key, ascending) && |xs| > 0
    requires Before(key(x), key(xs[0]), ascending)
    ensures Sorted([x] + xs, key, ascending)
    ensures key(x) !in KeySet(xs, key)
    ensures KeySet([x] + xs, key) == KeySet(xs, key) + {key(x)}
  {
    var r := [x] + xs;
    forall i, j | 0 <= i < j < |r| ensures Before(key(r[i]), key(r[j]), ascending) {
      if i == 0 && j > 1 {
        BeforeTransitive(key(x), key(xs[0]), key(xs[j - 1]), ascending);
      } else if i > 0 {
        assert r[i] == xs[i - 1] && r[j] == xs[j - 1];
      }
    }
    SortedDistinct(r, key, ascending);
    DistinctKeysCons(x, xs, key);
    KeySetCons(x, xs, key);
  }

  lemma InsertLater<T>(xs: seq<T>, x: T, key: T -> string, ascending: bool, rest: seq<T>)
    requires Sorted(xs, key, ascending) && |xs| > 0
    requires key(xs[0]) != key(x) && !Before(key(x), key(xs[0]), ascending)
    requires Sorted(rest, key, ascending)
    requires key(x) in KeySet(xs[1..], key) ==> rest == xs[1..]
    requires key(x) !in KeySet(xs[1..], key) ==> multiset(rest) == multiset(xs[1..]) + multiset{x}
    requires KeySet(rest, key) == KeySet(xs[1..], key) + {key(x)}
    ensures Sorted([xs[0]] + rest, key, ascending)
    ensures key(x) in KeySet(xs, key) ==> [xs[0]] + rest == xs
    ensures key(x) !in KeySet(xs, key) ==> multiset([xs[0]] + rest) == multiset(xs) + multiset{x}
    ensures KeySet([xs[0]] + rest, key) == KeySet(xs, key) + {key(x)}
  {
    var r := [xs[0]] + rest;
    BeforeTotal(key(x), key(xs[0]), ascending);
    assert xs == [xs[0]] + xs[1..];
    KeySetTail(xs, key);
    // every key of `rest` comes after the first key of `xs`
    forall j | 0 <= j < |rest| ensures Before(key(xs[0]), key(rest[j]), ascending) {
      assert key(rest[j]) in KeySet(rest, key);
      if key(rest[j]) != key(x) {
        var i :| 0 <= i < |xs[1..]| && key(xs[1..][i]) == key(rest[j]);
        assert xs[1..][i] == xs[i + 1];
      }
    }
    forall i, j | 0 <= i < j < |r| ensures Before(key(r[i]), key(r[j]), ascending) {
      if i > 0 {
        assert r[i] == rest[i - 1] && r[j] == rest[j - 1];
      } else {
        assert r[j] == rest[j - 1];
      }
    }
    KeySetCons(xs[0], rest, key);
  }

  /** Adding every element of `xs`, in order, to the sorted set `acc`. */
  function InsertAll<T>(acc: seq<T>, xs: seq<T>, key: T -> string, ascending: bool): (r: seq<T>)
    requires Sorted(acc, key, ascending)
    ensures Sorted(r, key, ascending)
    ensures KeySet(r, key) == KeySet(acc, key) + KeySet(xs, key)
    ensures forall y :: y in r ==> y in acc || y in xs
    ensures forall y :: y in acc ==> y in r
    ensures forall i :: 0 <= i < |xs| && key(xs[i]) !in KeySet(acc, key) && NewKeyAt(xs, key, i) ==> xs[i] in r
    decreases |xs|
  {
    if |xs| == 0 then acc
    else
      var next := Insert(acc, xs[0], key, ascending);
      var r := InsertAll(next, xs[1..], key, ascending);
      KeySetTail(xs, key);
      InsertKeeps(acc, xs[0], key, ascending);
      FirstNewKept(acc, xs, key, next, r);
      assert forall y :: y in xs[1..] ==> y in xs;
      r
  }

  /** No element before `i` has the key of element `i`. */
  predicate NewKeyAt<T>(xs: seq<T>, key: T -> string, i: int)
    requires 0 <= i < |xs|
  {
    forall j :: 0 <= j < i ==> key(xs[j]) != key(xs[i])
  }

  /** `add` keeps what the set held, and holds the element afterwards when its
      key was new. */
  lemma InsertKeeps<T>(acc: seq<T>, x: T, key: T -> string, ascending: bool)
    requires Sorted(acc, key, ascending)
    ensures forall y :: y in acc ==> y in Insert(acc, x, key, ascending)
    ensures forall y :: y in Insert(acc, x, key, ascending) ==> y in acc || y == x
    ensures key(x) !in KeySet(acc, key) ==> x in Insert(acc, x, key, ascending)
  {
    var next := Insert(acc, x, key, ascending);
    if key(x) !in KeySet(acc, key) {
      GrownByOne(acc, next, x);
    }
  }

  lemma GrownByOne<T>(a: seq<T>, b: seq<T>, x: T)
    requires multiset(b) == multiset(a) + multiset{x}
    ensures x in b
    ensures forall y :: y in a ==> y in b
    ensures forall y :: y in b ==> y in a || y == x
  {
    assert x in multiset(b);
    forall y | y in a ensures y in b {
      assert y in multiset(a);
      assert multiset(b)[y] == multiset(a)[y] + multiset{x}[y];
      assert y in multiset(b);
    }
    forall y | y in b ensures y in a || y == x {
      assert y in multiset(b);
    }
  }

  /** The step of `InsertAll`: the first element with a new key survives. */
  lemma FirstNewKept<T>(acc: seq<T>, xs: seq<T>, key: T -> string, next: seq<T>, r: seq<T>)
    requires |xs| > 0
    requires forall y :: y in acc ==> y in next
    requires key(xs[0]) !in KeySet(acc, key) ==> xs[0] in next
    requires KeySet(next, key) == KeySet(acc, key) + {key(xs[0])}
    requires forall y :: y in next ==> y in r
    requires forall i :: 0 <= i < |xs[1..]| && key(xs[1..][i]) !in KeySet(next, key) && NewKeyAt(xs[1..], key, i) ==> xs[1..][i] in r
    ensures forall y :: y in acc ==> y in r
    ensures forall i :: 0 <= i < |xs| && key(xs[i]) !in KeySet(acc, key) && NewKeyAt(xs, key, i) ==> xs[i] in r
  {
    forall i | 0 <= i < |xs| && key(xs[i]) !in KeySet(acc, key) && NewKeyAt(xs, key, i)
      ensures xs[i] in r
    {
      if i > 0 {
        assert key(xs[0]) != key(xs[i]);
        assert xs[1..][i - 1] == xs[i];
        assert NewKeyAt(xs[1..], key, i - 1) by {
          forall j | 0 <= j < i - 1 ensures key(xs[1..][j]) != key(xs[1..][i - 1]) {
            assert xs[1..][j] == xs[j + 1];
          }
        }
      }
    }
  }

  /** Building a sorted set from nothing: every key of `xs` is in it, each of
      its elements is one of `xs`, and it is empty only when `xs` is. */
  lemma InsertAllFromEmpty<T>(xs: seq<T>, key: T -> string, ascending: bool)
    ensures forall i :: 0 <= i < |xs| ==> key(xs[i]) in KeySet(InsertAll([], xs, key, ascending), key)
    ensures forall y :: y in InsertAll([], xs, key, ascending) ==> exists i :: 0 <= i < |xs| && xs[i] == y
    ensures |InsertAll([], xs, key, ascending)| == 0 <==> |xs| == 0
  {
    var r := InsertAll([], xs, key, ascending);
    assert KeySet([], key) == {};
    forall i | 0 <= i < |xs| ensures key(xs[i]) in KeySet(r, key) {
      assert key(xs[i]) in KeySet(xs, key);
    }
    if |xs| > 0 {
      assert key(xs[0]) in KeySet(r, key);
    }
  }

  /** Building a sorted set from the images of `xs` under `f`, where each
      image's key is `name` of its origin: every origin's name is a key of
      the set, each element of the set is an image, and the set is empty
      only when `xs` is. */
  lemma InsertAllMapped<A, T>(xs: seq<A>, f: A -> T, name: A -> string, built: seq<T>, key: T -> string, ascending: bool)
    requires |built| == |xs|
    requires forall i :: 0 <= i < |xs| ==> built[i] == f(xs[i])
    requires forall x :: x in xs ==> key(f(x)) == name(x)
    ensures forall x :: x in xs ==> name(x) in KeySet(InsertAll([], built, key, ascending), key)
    ensures forall y :: y in InsertAll([], built, key, ascending) ==> exists x :: x in xs && y == f(x)
    ensures |InsertAll([], built, key, ascending)| == 0 <==> |xs| == 0
  {
    var r := InsertAll([], built, key, ascending);
    InsertAllFromEmpty(built, key, ascending);
    forall x | x in xs ensures name(x) in KeySet(r, key) {
      var i :| 0 <= i < |xs| && xs[i] == x;
      assert key(built[i]) in KeySet(r, key);
    }
    forall y | y in r ensures exists x :: x in xs && y == f(x) {
      var i :| 0 <= i < |built| && built[i] == y;
      assert xs[i] in xs;
    }
  }

  /** Of the elements built from `xs`, the one built from the first element
      with a given name is the one the sorted set keeps. */
  lemma InsertAllMappedFirst<A, T>(xs: seq<A>, f: A -> T, name: A -> string, built: seq<T>, key: T -> string, ascending: bool)
    requires |built| == |xs|
    requires forall i :: 0 <= i < |xs| ==> built[i] == f(xs[i])
    requires forall x :: x in xs ==> key(f(x)) == name(x)
    ensures forall i :: 0 <= i < |xs| && (forall j :: 0 <= j < i ==> name(xs[j]) != name(xs[i])) ==>
              f(xs[i]) in InsertAll([], built, key, ascending)
  {
    assert KeySet([], key) == {};
    forall i | 0 <= i < |xs| && (forall j :: 0 <= j < i ==> name(xs[j]) != name(xs[i]))
      ensures f(xs[i]) in InsertAll([], built, key, ascending)
    {
      forall j | 0 <= j < i ensures key(built[j]) != key(built[i]) {
        assert xs[j] in xs && xs[i] in xs;
      }
      assert NewKeyAt(built, key, i);
    }
  }

  /** A property every element of `xs` has, every element of the sorted set
      built from `xs` has too. */
  lemma InsertAllKeeps<T>(xs: seq<T>, key: T -> string, ascending: bool, good: T -> bool)
    requires forall i :: 0 <= i < |xs| ==> good(xs[i])
    ensures forall y :: y in InsertAll([], xs, key, ascending) ==> good(y)
  {
    InsertAllFromEmpty(xs, key, ascending);
  }

  /** Putting a pair in front shifts every later pair up by one. */
  lemma PairShift<T>(a: T, b: T, rest: seq<T>, n: nat)
    requires |rest| == 2 * n
    ensures |[a, b] + rest| == 2 * (n + 1)
    ensures ([a, b] + rest)[0] == a && ([a, b] + rest)[1] == b
    ensures forall j :: 1 <= j <= n ==> ([a, b] + rest)[2 * j] == rest[2 * (j - 1)] && ([a, b] + rest)[2 * j + 1] == rest[2 * (j - 1) + 1]
  {
  }

  /** The members of `head + rest`, where `head` holds what the first
      element of `xs` contributes and `rest` what the others do, are what
      the elements of `xs` contribute. */
  lemma ConsMembers<T, A>(xs: seq<T>, head: seq<A>, rest: seq<A>, holds: (T, A) -> bool)
    requires |xs| > 0
    requires forall a :: a in head <==> holds(xs[0], a)
    requires forall a :: a in rest <==> exists x :: x in xs[1..] && holds(x, a)
    ensures forall a :: a in head + rest <==> exists x :: x in xs && holds(x, a)
  {
    assert xs == [xs[0]] + xs[1..];
  }

  /** Dropping the head shifts every later element down by one and keeps it
      a member. */
  lemma TailShift<T>(xs: seq<T>)
    requires |xs| > 0
    ensures forall i :: 1 <= i < |xs| ==> xs[i] == xs[1..][i - 1]
    ensures forall y :: y in xs[1..] ==> y in xs
  {
  }

  /** A non-empty sequence holds its first element. */
  lemma HeadIsMember<T>(xs: seq<T>)
    ensures xs == [] || xs[0] in xs
  {
  }

  /** When no two different elements share a key, the sorted set receives every one of them. */
  lemma InsertAllKeepsAll<T>(xs: seq<T>, key: T -> string, ascending: bool, y: T)
    requires y in xs
    requires forall a, b :: a in xs && b in xs && key(a) == key(b) ==> a == b
    ensures y in InsertAll([], xs, key, ascending)
  {
    var r := InsertAll([], xs, key, ascending);
    var i :| 0 <= i < |xs| && xs[i] == y;
    assert key(y) in KeySet(r, key);
    var j :| 0 <= j < |r| && key(r[j]) == key(y);
    assert r[j] in r;
  }
}
