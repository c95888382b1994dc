/**
 The order EndMap puts the keys of a map into: a permutation, sorted, and for distinct keys
 the only one, so it does not matter which sorting algorithm finds it.
 */
module FlexOrder {
  import opened Bytes
  import opened StringOrder
  import opened FlexModel

  predicate Sorted(names: seq<bytes>, order: seq<nat>) {
    && (forall i :: 0 <= i < |order| ==> order[i] < |names|)
    && (forall i, j :: 0 <= i < j < |order| ==> !StringLessThan(names[order[j]], names[order[i]]))
  }

  predicate Distinct(names: seq<bytes>) {
    forall i, j :: 0 <= i < j < |names| ==> names[i] != names[j]
  }

  /** Every one of the first n indices occurs. */
  predicate Covers(order: seq<nat>, n: nat) {
    forall k :: 0 <= k < n ==> k in order
  }

  predicate NoRepeats(order: seq<nat>) {
    forall i, j :: 0 <= i < j < |order| ==> order[i] != order[j]
  }

  lemma LessOrEqualTransitive(a: bytes, b: bytes, c: bytes)
    requires !StringLessThan(b, a) && !StringLessThan(c, b)
    ensures !StringLessThan(c, a)
  {
    LessTrichotomy(a, b);
    LessTrichotomy(b, c);
    if a != b && b != c {
      LessTransitive(a, b, c);
      LessTrichotomy(a, c);
    }
  }

  lemma {:induction false} InsertMembers(names: seq<bytes>, order: seq<nat>, k: nat)
    requires k < |names| && forall i :: 0 <= i < |order| ==> order[i] < |names|
    ensures var r := InsertIndex(names, order, k);
            k in r && forall j :: j in order ==> j in r
    decreases |order|
  {
    if order != [] && !StringLessThan(names[k], names[order[0]]) {
      InsertMembers(names, order[1..], k);
      var r := InsertIndex(names, order, k);
      assert r[1..] == InsertIndex(names, order[1..], k);
      forall j | j in order ensures j in r {
        if j != order[0] { assert j in order[1..]; assert j in r[1..]; }
      }
    } else {
      assert InsertIndex(names, order, k)[0] == k;
    }
  }

  lemma {:induction false} InsertSorted(names: seq<bytes>, order: seq<nat>, k: nat)
    requires k < |names| && Sorted(names, order)
    ensures Sorted(names, InsertIndex(names, order, k))
    decreases |order|
  {
    hide StringLessThan;
    var r := InsertIndex(names, order, k);
    if order == [] {
    } else if StringLessThan(names[k], names[order[0]]) {
      forall j | 0 <= j < |order| ensures !StringLessThan(names[order[j]], names[k]) {
        LessTrichotomy(names[k], names[order[0]]);
        LessOrEqualTransitive(names[k], names[order[0]], names[order[j]]) by {
          if j == 0 { LessTrichotomy(names[order[0]], names[order[0]]); }
        }
      }
    } else {
      var rest := InsertIndex(names, order[1..], k);
      InsertSorted(names, order[1..], k);
      forall j | 0 <= j < |rest| ensures !StringLessThan(names[rest[j]], names[order[0]]) {
        if rest[j] != k {
          var i :| 0 <= i < |order[1..]| && order[1..][i] == rest[j];
          assert order[i + 1] == rest[j];
        }
      }
      forall i, j | 0 <= i < j < |r| ensures !StringLessThan(names[r[j]], names[r[i]]) {
        assert r[j] == rest[j - 1];
        if i > 0 { assert r[i] == rest[i - 1]; }
      }
    }
  }

  lemma {:induction false} InsertNoRepeats(names: seq<bytes>, order: seq<nat>, k: nat)
    requires k < |names| && forall i :: 0 <= i < |order| ==> order[i] < |names|
    requires NoRepeats(order) && k !in order
    ensures NoRepeats(InsertIndex(names, order, k))
    decreases |order|
  {
    hide StringLessThan;
    if order != [] && !StringLessThan(names[k], names[order[0]]) {
      InsertNoRepeats(names, order[1..], k);
      var rest := InsertIndex(names, order[1..], k);
      assert order[0] !in rest;
    }
  }

  /** The order is a permutation of the indices that sorts the names. */
  lemma {:induction false} SortOrderSorts(names: seq<bytes>, n: nat)
    requires n <= |names|
    ensures Sorted(names, SortOrder(names, n)) && NoRepeats(SortOrder(names, n)) && Covers(SortOrder(names, n), n)
    decreases n
  {
    hide InsertIndex, StringLessThan;
    if n > 0 {
      SortOrderSorts(names, n - 1);
      var before := SortOrder(names, n - 1);
      InsertSorted(names, before, n - 1);
      InsertNoRepeats(names, before, n - 1);
      InsertMembers(names, before, n - 1);
    }
  }

  /** The items at the given indices. */
  function Picked<T>(items: seq<T>, order: seq<nat>): (r: seq<T>)
    requires forall i :: 0 <= i < |order| ==> order[i] < |items|
    ensures |r| == |order|
  {
    seq(|order|, i requires 0 <= i < |order| => items[order[i]])
  }

  lemma {:induction false} InsertPicked<T>(items: seq<T>, names: seq<bytes>, order: seq<nat>, k: nat)
    requires |items| == |names| && k < |names| && forall i :: 0 <= i < |order| ==> order[i] < |names|
    ensures var r := InsertIndex(names, order, k);
            (forall i :: 0 <= i < |r| ==> r[i] < |names|)
            && multiset(Picked(items, r)) == multiset(Picked(items, order)) + multiset{items[k]}
    decreases |order|
  {
    hide StringLessThan;
    var r := InsertIndex(names, order, k);
    if order == [] || StringLessThan(names[k], names[order[0]]) {
      assert Picked(items, r) == [items[k]] + Picked(items, order);
    } else {
      InsertPicked(items, names, order[1..], k);
      var rest := InsertIndex(names, order[1..], k);
      assert r == [order[0]] + rest;
      assert Picked(items, r) == [items[order[0]]] + Picked(items, rest);
      assert Picked(items, order) == [items[order[0]]] + Picked(items, order[1..]);
    }
  }

  /** Items taken in sorted order are the same items, each as often. */
  lemma {:induction false} SortPicked<T>(items: seq<T>, names: seq<bytes>, n: nat)
    requires |items| == |names| && n <= |names|
    ensures multiset(Picked(items, SortOrder(names, n))) == multiset(items[..n])
    decreases n
  {
    hide Picked, InsertIndex;
    if n == 0 {
      NothingPicked(items);
    } else {
      SortPicked(items, names, n - 1);
      InsertPicked(items, names, SortOrder(names, n - 1), n - 1);
      assert items[..n] == items[..n - 1] + [items[n - 1]];
    }
  }

  lemma NothingPicked<T>(items: seq<T>)
    ensures Picked(items, []) == [] == items[..0]
  {
  }

  /** An index goes in front of the first one whose name is greater. */
  lemma {:induction false} InsertIndexAt(names: seq<bytes>, order: seq<nat>, k: nat, i: nat)
    requires k < |names| && (forall j :: 0 <= j < |order| ==> order[j] < |names|) && i <= |order|
    requires forall j :: 0 <= j < i ==> !StringLessThan(names[k], names[order[j]])
    requires i < |order| ==> StringLessThan(names[k], names[order[i]])
    ensures InsertIndex(names, order, k) == order[..i] + [k] + order[i..]
    decreases |order|
  {
    hide StringLessThan;
    if i > 0 {
      InsertIndexAt(names, order[1..], k, i - 1);
      assert order[..i] == [order[0]] + order[1..][..i - 1];
      assert order[1..][i - 1..] == order[i..];
    }
  }

  /** Distinct names come out strictly increasing. */
  lemma StrictlySorted(names: seq<bytes>, order: seq<nat>, i: nat, j: nat)
    requires Sorted(names, order) && NoRepeats(order) && Distinct(names) && i < j < |order|
    ensures StringLessThan(names[order[i]], names[order[j]])
  {
    LessTrichotomy(names[order[i]], names[order[j]]);
    var k, l := order[i], order[j];
    if k < l { assert names[k] != names[l]; } else { assert names[l] != names[k]; }
  }

  /** Two permutations that sort distinct names are the same: any correct sort computes SortOrder. */
  lemma {:induction false} SortUnique(names: seq<bytes>, a: seq<nat>, b: seq<nat>)
    requires Distinct(names) && Sorted(names, a) && Sorted(names, b) && NoRepeats(a) && NoRepeats(b)
    requires |a| == |b| && forall k :: k in a <==> k in b
    ensures a == b
    decreases |a|
  {
    hide StringLessThan;
    if a != [] {
      assert a[0] in b && b[0] in a;
      FirstIsLeast(names, a, b[0]);
      FirstIsLeast(names, b, a[0]);
      LessTrichotomy(names[a[0]], names[b[0]]);
      SameName(names, a[0], b[0]);
      forall k ensures k in a[1..] <==> k in b[1..] {
        TailMember(a, k);
        TailMember(b, k);
      }
      SortUnique(names, a[1..], b[1..]);
      assert a == [a[0]] + a[1..] && b == [b[0]] + b[1..];
    }
  }

  lemma FirstIsLeast(names: seq<bytes>, a: seq<nat>, k: nat)
    requires Sorted(names, a) && k in a
    ensures !StringLessThan(names[k], names[a[0]])
  {
    LessTrichotomy(names[k], names[k]);
  }

  lemma SameName(names: seq<bytes>, k: nat, l: nat)
    requires Distinct(names) && k < |names| && l < |names| && names[k] == names[l]
    ensures k == l
  {
  }

  lemma TailMember(a: seq<nat>, k: nat)
    requires a != [] && NoRepeats(a)
    ensures k in a[1..] <==> k in a && k != a[0]
  {
    if k in a && k != a[0] {
      var i :| 0 <= i < |a| && a[i] == k;
      assert a[1..][i - 1] == k;
    }
  }
}
