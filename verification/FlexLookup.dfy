/**
 Looking a key up in a FlexBuffers map: binary search over the vector of keys agrees with
 the map the reference denotes.
 */
module FlexLookup {
  import opened Bytes
  import opened Wrappers
  import opened StringOrder
  import opened FlexWidths
  import opened FlexReader
  import opened FlexModel
  import opened FlexVectors
  import opened FlexOrder
  import opened FlexEmit
  import opened FlexRoundTrip

  /** What looking up a missing key returns. */
  const NULL_REFERENCE: Reference := Reference(0, 1, 1, FBT_NULL)

  /** KeyCompare: strcmp of the terminated key against the one slot i leads to. */
  function KeyCompare(b: bytes, keys: int, w: nat, i: nat, key: bytes): Checked<int> {
    var p :- Target(b, TypedElement(keys, w, i, FBT_KEY));
    Strcmp(key + [0], 0, b, p)
  }

  /** bsearch over the slots lo to hi - 1. */
  function BSearch(b: bytes, keys: int, w: nat, lo: nat, hi: nat, key: bytes): Checked<Option<nat>>
    decreases hi - lo
  {
    if lo >= hi then Ok(None)
    else
      var mid := (lo + hi) / 2;
      var c :- KeyCompare(b, keys, w, mid, key);
      if c == 0 then Ok(Some(mid))
      else if c < 0 then BSearch(b, keys, w, lo, mid, key)
      else BSearch(b, keys, w, mid + 1, hi, key)
  }

  /** Map::operator[] on the map at `pos` of width `w`. */
  function Lookup(b: bytes, pos: int, w: nat, key: bytes): Checked<Reference> {
    var (keys, keysWidth) :- Keys(b, pos, w);
    if !LegalWidth(keysWidth) then Ok(NULL_REFERENCE)
    else
      var n :- SizeAt(b, keys, keysWidth);
      var found :- BSearch(b, keys, keysWidth, 0, n, key);
      match found
      case None => Ok(NULL_REFERENCE)
      case Some(i) =>
        var size :- SizeAt(b, pos, w);
        if i >= size then Ok(NULL_REFERENCE) else VectorElement(b, pos, w, size, i)
  }

  /** Comparing with slot i is comparing with key i. */
  lemma KeyCompares(b: bytes, keys: int, w: nat, i: nat, key: bytes, stored: bytes)
    requires NoZero(key) && KeyAt(b, keys, w, i, stored)
    ensures KeyCompare(b, keys, w, i, key).Ok?
    ensures KeyCompare(b, keys, w, i, key).value < 0 <==> StringLessThan(key, stored)
    ensures KeyCompare(b, keys, w, i, key).value == 0 <==> key == stored
  {
    hide Target;
    CStringWritten([], key, 0);
    assert [] + key + [0] == key + [0] && key[0..] == key;
    StrcmpCompares(key + [0], 0, b, Target(b, TypedElement(keys, w, i, FBT_KEY)).value);
  }

  /** On increasing keys the search finds the slot of the key, or there is none. */
  lemma {:induction false} BSearchFinds(b: bytes, keys: int, w: nat, es: seq<Entry>, lo: nat, hi: nat, key: bytes)
    requires lo <= hi <= |es| && NoZero(key) && Increasing(es)
    requires forall i :: 0 <= i < |es| ==> KeyAt(b, keys, w, i, es[i].key)
    requires forall i :: 0 <= i < lo ==> StringLessThan(es[i].key, key)
    requires forall i :: hi <= i < |es| ==> StringLessThan(key, es[i].key)
    ensures var r := BSearch(b, keys, w, lo, hi, key);
            && r.Ok?
            && (r.value.Some? ==> r.value.value < |es| && es[r.value.value].key == key)
            && (r.value.None? ==> forall i :: 0 <= i < |es| ==> es[i].key != key)
    decreases hi - lo
  {
    hide KeyCompare, KeyAt, StringLessThan;
    if lo >= hi {
      forall i | 0 <= i < |es| ensures es[i].key != key { LessTrichotomy(es[i].key, key); }
    } else {
      var mid := (lo + hi) / 2;
      assert KeyAt(b, keys, w, mid, es[mid].key);
      KeyCompares(b, keys, w, mid, key, es[mid].key);
      var c := KeyCompare(b, keys, w, mid, key).value;
      if c < 0 {
        forall i | mid <= i < |es| ensures StringLessThan(key, es[i].key) {
          if i > mid { LessTransitive(key, es[mid].key, es[i].key); }
        }
        BSearchFinds(b, keys, w, es, lo, mid, key);
      } else if c > 0 {
        LessTrichotomy(key, es[mid].key);
        forall i | 0 <= i < mid + 1 ensures StringLessThan(es[i].key, key) {
          if i < mid { LessTransitive(es[i].key, es[mid].key, key); }
        }
        BSearchFinds(b, keys, w, es, mid + 1, hi, key);
      }
    }
  }

  /** Lookup in data that reads as a map in key order returns the entry's value, or null for a key it does not have. */
  lemma LookupAgrees(b: bytes, pos: int, w: nat, es: seq<Entry>, key: bytes)
    requires DenotesAt(b, pos, w, MapT(es)) && Increasing(es) && NoZero(key)
    ensures Lookup(b, pos, w, key).Ok?
    ensures forall i :: 0 <= i < |es| && es[i].key == key ==> Denotes(b, Lookup(b, pos, w, key).value, es[i].value)
    ensures (forall i :: 0 <= i < |es| ==> es[i].key != key) ==> Lookup(b, pos, w, key).value == NULL_REFERENCE
  {
    hide KeyAt, SizeAt, Keys, VectorElement, BSearch, StringLessThan, Denotes;
    var (keys, keysWidth) := Keys(b, pos, w).value;
    BSearchFinds(b, keys, keysWidth, es, 0, |es|, key);
    var found := BSearch(b, keys, keysWidth, 0, |es|, key).value;
    if found.Some? {
      var k := found.value;
      assert DenotesElement(b, pos, w, |es|, k, es[k].value);
      forall i | 0 <= i < |es| && es[i].key == key ensures i == k {
        SameKeySameIndex(es, i, k);
      }
    }
  }

  lemma SameKeySameIndex(es: seq<Entry>, i: nat, j: nat)
    requires Increasing(es) && i < |es| && j < |es| && es[i].key == es[j].key
    ensures i == j
  {
    LessTrichotomy(es[i].key, es[j].key);
  }

  /** Looking a key up in the root of a buffer. */
  function RootLookup(f: bytes, key: bytes): Checked<Reference> {
    var root :- FlexReader.GetRoot(f);
    if root.typ != FBT_MAP then Ok(NULL_REFERENCE)
    else
      var pos :- Target(f, root);
      Lookup(f, pos, root.byteWidth, key)
  }

  /**
   Built maps can be searched: in the finished buffer of any map with distinct keys free of
   zeros, whatever else is nested in it, looking up a key returns a reference to the value
   inserted under it, and null for a key that was never inserted.
   */
  lemma BuiltMapLookup(es: seq<Entry>, key: bytes, shareKeys: bool, shareStrings: bool, minWidth: Width)
    requires WellFormed(MapT(es)) && NoZero(key)
    requires |Emit(Empty(shareKeys, shareStrings, minWidth), MapT(es)).buf| < FLEX_LIMIT
    ensures var f := Finish(Emit(Empty(shareKeys, shareStrings, minWidth), MapT(es)));
            var r := RootLookup(f, key);
            && r.Ok?
            && (forall i :: 0 <= i < |es| && es[i].key == key ==> Denotes(f, r.value, Canon(es[i].value)))
            && (key !in Names(es) ==> r.value == NULL_REFERENCE)
  {
    assert Canon(MapT(es)).MapT? && Distinct(Names(es));
    hide Finish, Emit, Canon, WellFormed, RootLookup, Denotes, ReadTree, Distinct;
    EmittedTreeReadsBack(MapT(es), shareKeys, shareStrings, minWidth);
    var f := Finish(Emit(Empty(shareKeys, shareStrings, minWidth), MapT(es)));
    SearchRoot(f, es, Canon(MapT(es)).entries, key);
  }

  lemma SearchRoot(f: bytes, es: seq<Entry>, cs: seq<Entry>, key: bytes)
    requires Distinct(Names(es)) && Canon(MapT(es)) == MapT(cs) && NoZero(key)
    requires FlexReader.GetRoot(f).Ok? && Denotes(f, FlexReader.GetRoot(f).value, MapT(cs))
    ensures var r := RootLookup(f, key);
            && r.Ok?
            && (forall i :: 0 <= i < |es| && es[i].key == key ==> Denotes(f, r.value, Canon(es[i].value)))
            && (key !in Names(es) ==> r.value == NULL_REFERENCE)
  {
    CanonOrdered(es);
    var root := FlexReader.GetRoot(f).value;
    assert root.typ == FBT_MAP && Target(f, root).Ok? && DenotesAt(f, Target(f, root).value, root.byteWidth, MapT(cs));
    hide Canon, FlexReader.GetRoot, DenotesAt, Denotes, Lookup, Target, Increasing, SameEntries, Distinct;
    LookupAgrees(f, Target(f, root).value, root.byteWidth, cs, key);
    SameKeys(es, cs, key);
  }

  /** Entries and canonical entries have the same keys, with corresponding values. */
  lemma SameKeys(es: seq<Entry>, cs: seq<Entry>, key: bytes)
    requires SameEntries(es, cs)
    ensures forall i :: 0 <= i < |es| && es[i].key == key ==>
                          exists j :: 0 <= j < |cs| && cs[j].key == key && cs[j].value == Canon(es[i].value)
    ensures key !in Names(es) ==> forall j :: 0 <= j < |cs| ==> cs[j].key != key
  {
    hide Canon;
    forall i | 0 <= i < |es| && es[i].key == key
      ensures exists j :: 0 <= j < |cs| && cs[j].key == key && cs[j].value == Canon(es[i].value)
    {
      assert es[i] in es;
      var j :| 0 <= j < |cs| && cs[j] == Entry(es[i].key, Canon(es[i].value));
    }
    forall j | 0 <= j < |cs| && key !in Names(es) ensures cs[j].key != key {
      var i :| 0 <= i < |es| && cs[j] == Entry(es[i].key, Canon(es[i].value));
      assert Names(es)[i] == es[i].key;
    }
  }
}
