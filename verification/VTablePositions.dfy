/**
 What sharing vtables does to the layout of later tables: popping a duplicate changes where
 the next table starts, and with it the padding between its fields. The field positions of
 two tables of the same shape agree exactly when their first fields end up at places that
 differ by a multiple of every later alignment.
 */
module VTablePositions {
  import opened Bytes
  import opened Wrappers
  import opened Table
  import opened BuilderModel
  import opened TableLayout
  import opened TableRoundTrip
  import opened VTableSharing
  import opened BuilderRuns

  // ---------- Where fields are placed ----------

  /** The size after a scalar of width w is pushed at size n. */
  function Place(n: nat, w: nat): (r: nat)
    requires w > 0
    ensures r >= n + w
  {
    n + Padding(n, w) + w
  }

  predicate Widths(ws: seq<nat>) {
    forall i :: 0 <= i < |ws| ==> ws[i] > 0
  }

  /** The sizes after each of a list of scalars. */
  function Places(n: nat, ws: seq<nat>): (r: seq<nat>)
    requires Widths(ws)
    ensures |r| == |ws|
    decreases |ws|, 0
  {
    if ws == [] then []
    else
      var k := |ws| - 1;
      Places(n, ws[..k]) + [Place(Last(n, ws[..k]), ws[k])]
  }

  function Last(n: nat, ws: seq<nat>): nat
    requires Widths(ws)
    decreases |ws|, 1
  {
    if ws == [] then n else Places(n, ws)[|ws| - 1]
  }

  function Distance(x: nat, y: nat): nat { if x > y then x - y else y - x }

  /** Placing a scalar keeps the distance of two sizes exactly when it is a multiple of the width. */
  lemma PlaceShift(x: nat, y: nat, w: nat)
    requires w > 0
    ensures Place(x, w) as int - Place(y, w) == x - y <==> Aligned(Distance(x, y), w)
  {
    if x < y { PlaceShiftUp(y, x, w); } else { PlaceShiftUp(x, y, w); }
  }

  lemma PlaceShiftUp(x: nat, y: nat, w: nat)
    requires w > 0 && y <= x
    ensures Padding(x, w) == Padding(y, w) <==> Aligned(x - y, w)
  {
    if Aligned(x - y, w) { RemAdd(x - y, y, w); }
    if Padding(x, w) == Padding(y, w) {
      AlignedDifference(x + Padding(x, w), y + Padding(y, w), w);
      assert x + Padding(x, w) - (y + Padding(y, w)) == x - y;
    }
  }

  /** All places keep the distance of the first one. */
  predicate Parallel(m: nat, n: nat, ws: seq<nat>)
    requires Widths(ws) && ws != []
  {
    forall i :: 0 <= i < |ws| ==> Places(m, ws)[i] as int - Places(n, ws)[i] == Place(m, ws[0]) as int - Place(n, ws[0])
  }

  /** That distance is a multiple of every width behind the first. */
  predicate Congruent(m: nat, n: nat, ws: seq<nat>)
    requires Widths(ws) && ws != []
  {
    forall i :: 1 <= i < |ws| ==> Aligned(Distance(Place(m, ws[0]), Place(n, ws[0])), ws[i])
  }

  lemma FirstPlace(n: nat, ws: seq<nat>)
    requires Widths(ws) && ws != []
    ensures Places(n, ws)[0] == Place(n, ws[0])
    decreases |ws|
  {
    if |ws| > 1 { FirstPlace(n, ws[..|ws| - 1]); }
  }

  predicate ParallelAt(m: nat, n: nat, ws: seq<nat>, i: nat)
    requires Widths(ws) && i < |ws|
  {
    Places(m, ws)[i] as int - Places(n, ws)[i] == Place(m, ws[0]) as int - Place(n, ws[0])
  }

  lemma ParallelSplit(m: nat, n: nat, ws: seq<nat>)
    requires Widths(ws) && |ws| > 1
    ensures Parallel(m, n, ws) <==> Parallel(m, n, ws[..|ws| - 1]) && ParallelAt(m, n, ws, |ws| - 1)
  {
    hide Place;
    var k, front := |ws| - 1, ws[..|ws| - 1];
    assert forall i :: 0 <= i < k ==>
        Places(m, ws)[i] == Places(m, front)[i] && Places(n, ws)[i] == Places(n, front)[i];
    if Parallel(m, n, ws) { assert ParallelAt(m, n, ws, k); }
  }

  lemma CongruentSplit(m: nat, n: nat, ws: seq<nat>)
    requires Widths(ws) && |ws| > 1
    ensures var k := |ws| - 1;
            Congruent(m, n, ws) <==>
            Congruent(m, n, ws[..k]) && Aligned(Distance(Place(m, ws[0]), Place(n, ws[0])), ws[k])
  {
    hide Place, Aligned, Distance;
    var k, front := |ws| - 1, ws[..|ws| - 1];
    assert forall i :: 0 <= i < k ==> front[i] == ws[i];
  }

  lemma {:induction false} ParallelIffCongruent(m: nat, n: nat, ws: seq<nat>)
    requires Widths(ws) && ws != []
    ensures Parallel(m, n, ws) <==> Congruent(m, n, ws)
    decreases |ws|
  {
    hide Place, Parallel, Congruent, Aligned, Distance;
    if |ws| == 1 {
      OnePlace(m, n, ws);
    } else {
      var k, front := |ws| - 1, ws[..|ws| - 1];
      ParallelIffCongruent(m, n, front);
      ParallelSplit(m, n, ws);
      CongruentSplit(m, n, ws);
      if Parallel(m, n, front) { NextParallel(m, n, ws); }
    }
  }

  lemma OnePlace(m: nat, n: nat, ws: seq<nat>)
    requires Widths(ws) && |ws| == 1
    ensures Parallel(m, n, ws) && Congruent(m, n, ws)
  {
    hide Place;
    FirstPlace(m, ws);
    FirstPlace(n, ws);
  }

  lemma NextParallel(m: nat, n: nat, ws: seq<nat>)
    requires Widths(ws) && |ws| > 1 && Parallel(m, n, ws[..|ws| - 1])
    ensures ParallelAt(m, n, ws, |ws| - 1) <==> Aligned(Distance(Place(m, ws[0]), Place(n, ws[0])), ws[|ws| - 1])
  {
    hide Place, Aligned;
    var k, front := |ws| - 1, ws[..|ws| - 1];
    var x, y := Places(m, front)[k - 1], Places(n, front)[k - 1];
    assert x as int - y == Place(m, front[0]) as int - Place(n, front[0]);
    assert front[0] == ws[0] && Distance(x, y) == Distance(Place(m, ws[0]), Place(n, ws[0]));
    assert Places(m, ws)[k] == Place(x, ws[k]) && Places(n, ws)[k] == Place(y, ws[k]);
    PlaceShift(x, y, ws[k]);
  }

  // ---------- Fields of a table ----------

  function FieldWidths(fs: seq<Field>): (ws: seq<nat>)
    requires forall i :: 0 <= i < |fs| ==> fs[i].WellFormed()
    ensures |ws| == |fs| && Widths(ws)
  {
    var ws := seq(|fs|, i requires 0 <= i < |fs| => fs[i].Width());
    assert forall i :: 0 <= i < |fs| ==> fs[i].WellFormed() && ws[i] == fs[i].Width();
    ws
  }

  lemma {:induction false} StoredWellFormed(fs: seq<Field>, force: bool)
    requires forall i :: 0 <= i < |fs| ==> fs[i].WellFormed()
    ensures forall i :: 0 <= i < |Stored(fs, force)| ==> Stored(fs, force)[i].WellFormed()
    decreases |fs|
  {
    if fs != [] { StoredWellFormed(fs[..|fs| - 1], force); }
  }

  function StoredWidths(fs: seq<Field>, force: bool): (ws: seq<nat>)
    requires forall i :: 0 <= i < |fs| ==> fs[i].WellFormed()
    ensures |ws| == |Stored(fs, force)| && Widths(ws)
  {
    StoredWellFormed(fs, force);
    FieldWidths(Stored(fs, force))
  }

  /** A stored field is placed like a scalar of its width, references included. */
  lemma AddedFieldPlace(st: Builder, f: Field)
    requires f.WellFormed() && (f.Ref? ==> f.target <= |st.buf.data|)
    ensures f.Elided(st.forceDefaults) ==> AddField(st, f) == st
    ensures !f.Elided(st.forceDefaults) ==>
              var r := AddField(st, f);
              |r.buf.data| == Place(|st.buf.data|, f.Width()) && r.fields == st.fields + [FieldLoc(|r.buf.data|, f.id)]
  {
    if f.Ref? { AlignTwice(st.buf, 4); }
  }

  /** The tracked fields, in order, at their computed places. */
  predicate Placed(st: Builder, n: nat, stored: seq<Field>, ws: seq<nat>) {
    && Widths(ws) && |ws| == |stored| == |st.fields|
    && |st.buf.data| == Last(n, ws)
    && forall k :: 0 <= k < |stored| ==> st.fields[k].id == stored[k].id && st.fields[k].off == Places(n, ws)[k]
  }

  lemma PlacedOneMore(before: Builder, r: Builder, n: nat, stored: seq<Field>, ws: seq<nat>, f: Field, w: nat)
    requires Placed(before, n, stored, ws) && w > 0
    requires |r.buf.data| == Place(|before.buf.data|, w) && r.fields == before.fields + [FieldLoc(|r.buf.data|, f.id)]
    ensures Placed(r, n, stored + [f], ws + [w])
  {
    hide Place;
    PlacesOneMore(n, ws, w);
    var fs := stored + [f];
    forall k | 0 <= k < |fs| ensures r.fields[k].id == fs[k].id && r.fields[k].off == Places(n, ws + [w])[k] {
      if k < |stored| { assert before.fields[k].id == stored[k].id && before.fields[k].off == Places(n, ws)[k]; }
    }
  }

  lemma PlacesOneMore(n: nat, ws: seq<nat>, w: nat)
    requires Widths(ws) && w > 0
    ensures Widths(ws + [w]) && Places(n, ws + [w]) == Places(n, ws) + [Place(Last(n, ws), w)]
  {
    hide Place;
    assert (ws + [w])[..|ws|] == ws;
  }

  lemma {:induction false} FieldsArePlaced(st: Builder, fs: seq<Field>)
    requires AllWellFormed(fs, |st.buf.data|) && st.fields == []
    ensures Placed(AddFields(st, fs), |st.buf.data|, Stored(fs, st.forceDefaults), StoredWidths(fs, st.forceDefaults))
    decreases |fs|
  {
    hide Place, AddField, Placed, FieldWidths;
    if fs == [] {
      NothingPlaced(st);
    } else {
      var n := |fs| - 1;
      var before, force := AddFields(st, fs[..n]), st.forceDefaults;
      FieldsArePlaced(st, fs[..n]);
      AddedFieldPlace(before, fs[n]);
      if !fs[n].Elided(force) {
        WidthsOneMore(fs, force);
        PlacedOneMore(before, AddFields(st, fs), |st.buf.data|, Stored(fs[..n], force), StoredWidths(fs[..n], force),
            fs[n], fs[n].Width());
      } else {
        assert Stored(fs, force) == Stored(fs[..n], force);
      }
    }
  }

  lemma NothingPlaced(st: Builder)
    requires st.fields == []
    ensures Placed(st, |st.buf.data|, [], StoredWidths([], st.forceDefaults))
  {
  }

  lemma WidthsOneMore(fs: seq<Field>, force: bool)
    requires fs != [] && (forall i :: 0 <= i < |fs| ==> fs[i].WellFormed()) && !fs[|fs| - 1].Elided(force)
    ensures fs[|fs| - 1].Width() > 0
    ensures StoredWidths(fs, force) == StoredWidths(fs[..|fs| - 1], force) + [fs[|fs| - 1].Width()]
  {
    assert fs[|fs| - 1].WellFormed();
  }

  // ---------- When two tables of one shape agree ----------

  /** The same fields stored, with the same widths; references may lead to different places. */
  predicate SameShape(fa: seq<Field>, fb: seq<Field>, force: bool)
    requires forall i :: 0 <= i < |fa| ==> fa[i].WellFormed()
    requires forall i :: 0 <= i < |fb| ==> fb[i].WellFormed()
  {
    var sa, sb := Stored(fa, force), Stored(fb, force);
    && |sa| == |sb| && StoredWidths(fa, force) == StoredWidths(fb, force)
    && forall k :: 0 <= k < |sa| ==> sa[k].id == sb[k].id
  }

  /** The position of a field in a finished table, as its vtable says. */
  function Position(st: Builder, fs: seq<Field>, id: nat): Checked<nat>
    requires Idle(st) && TableFits(st, fs)
  {
    var d := CreateTable(st, fs).buf.data;
    GetOptionalFieldOffset(d, |d| - TableOffset(st, fs), id)
  }

  lemma TablePlaces(st: Builder, fs: seq<Field>)
    requires Idle(st) && TableFits(st, fs)
    ensures var s, ws := Stored(fs, st.forceDefaults), StoredWidths(fs, st.forceDefaults);
            var added := AddedFields(st, fs);
            && Placed(added, |st.buf.data|, s, ws)
            && TableOffset(st, fs) == Place(Last(|st.buf.data|, ws), 4)
  {
    hide Place;
    FieldsArePlaced(StartTable(st), fs);
    PlaceOfTable(AddedFields(st, fs).buf);
  }

  lemma PlaceOfTable(b: Buf)
    ensures |TableObject(b).data| == Place(|b.data|, 4)
  {
  }

  /** Looking a stored field up gives its distance from the table's start; other ids give 0. */
  lemma PositionIs(st: Builder, fs: seq<Field>)
    requires Idle(st) && TableFits(st, fs)
    ensures var s, ws := Stored(fs, st.forceDefaults), StoredWidths(fs, st.forceDefaults);
            var loc := Place(Last(|st.buf.data|, ws), 4);
            && (forall k :: 0 <= k < |s| ==>
                  Places(|st.buf.data|, ws)[k] <= loc
                      && Position(st, fs, s[k].id) == Ok(loc - Places(|st.buf.data|, ws)[k]))
            && (forall id: nat :: id % 2 == 0 && 4 <= id && (forall k :: 0 <= k < |s| ==> s[k].id != id) ==>
                  Position(st, fs, id) == Ok(0))
  {
    hide Place, Position, TableOffset, Placed, AddedFields, TableFits, Idle;
    TablePlaces(st, fs);
    FitsWellFormed(st, fs);
    StoredWellFormed(fs, st.forceDefaults);
    var s, ws := Stored(fs, st.forceDefaults), StoredWidths(fs, st.forceDefaults);
    forall k | 0 <= k < |s|
      ensures Places(|st.buf.data|, ws)[k] <= TableOffset(st, fs)
              && Position(st, fs, s[k].id) == Ok(TableOffset(st, fs) - Places(|st.buf.data|, ws)[k])
    {
      StoredPosition(st, fs, s, ws, k);
    }
    forall id: nat | id % 2 == 0 && 4 <= id && (forall k :: 0 <= k < |s| ==> s[k].id != id)
      ensures Position(st, fs, id) == Ok(0)
    {
      OtherPosition(st, fs, s, ws, id);
    }
  }

  lemma FitsWellFormed(st: Builder, fs: seq<Field>)
    requires TableFits(st, fs)
    ensures AllWellFormed(fs, |st.buf.data|)
    ensures forall i :: 0 <= i < |fs| ==> fs[i].WellFormed()
  {
    hide AddedFields, DistinctIds;
  }

  lemma StoredPosition(st: Builder, fs: seq<Field>, s: seq<Field>, ws: seq<nat>, k: nat)
    requires Idle(st) && TableFits(st, fs) && Placed(AddedFields(st, fs), |st.buf.data|, s, ws) && k < |s|
             && s[k].WellFormed()
    ensures Places(|st.buf.data|, ws)[k] <= TableOffset(st, fs)
    ensures Position(st, fs, s[k].id) == Ok(TableOffset(st, fs) - Places(|st.buf.data|, ws)[k])
  {
    hide Place, EndTable, GetOptionalFieldOffset, TableLoc, AddFields, CanEnd, DistinctIds, Endable, Last;
    AddedFieldsEndable(st, fs);
    var added := AddedFields(st, fs);
    assert added.fields[k].id == s[k].id;
    EndTableLookup(added, |st.buf.data|, s[k].id);
    FieldBefore(added, |st.buf.data|, k);
  }

  lemma OtherPosition(st: Builder, fs: seq<Field>, s: seq<Field>, ws: seq<nat>, id: nat)
    requires Idle(st) && TableFits(st, fs) && Placed(AddedFields(st, fs), |st.buf.data|, s, ws)
    requires id % 2 == 0 && 4 <= id && forall k :: 0 <= k < |s| ==> s[k].id != id
    ensures Position(st, fs, id) == Ok(0)
  {
    hide Place, EndTable, GetOptionalFieldOffset, TableLoc, AddFields, CanEnd, DistinctIds, Endable, Last;
    AddedFieldsEndable(st, fs);
    EndTableLookup(AddedFields(st, fs), |st.buf.data|, id);
  }

  lemma FieldBefore(st: Builder, start: nat, k: nat)
    requires Endable(st, start) && k < |st.fields|
    ensures st.fields[k].off < TableLoc(st)
  {
  }

  /**
   Two tables of the same shape, built on whatever is already in two buffers, with vtables
   shared or not: every field has the same position in both exactly when the places of
   their first fields differ by a multiple of each later width, the table's own 4 included.
   */
  lemma PositionsAgree(a: Builder, b: Builder, fa: seq<Field>, fb: seq<Field>)
    requires Idle(a) && TableFits(a, fa) && Idle(b) && TableFits(b, fb)
    requires a.forceDefaults == b.forceDefaults && SameShape(fa, fb, a.forceDefaults)
    ensures (forall id: nat :: id % 2 == 0 && 4 <= id ==> Position(a, fa, id) == Position(b, fb, id)) <==>
            var ws := StoredWidths(fa, a.forceDefaults);
            ws == [] || Congruent(|a.buf.data|, |b.buf.data|, ws + [4])
  {
    hide Place, Position, SameShape, TableFits, Congruent, Parallel, StoredWidths, Stored;
    FitsWellFormed(a, fa);
    FitsWellFormed(b, fb);
    ShapeParts(fa, fb, a.forceDefaults);
    var ws := StoredWidths(fa, a.forceDefaults);
    if ws != [] {
      ParallelIffCongruent(|a.buf.data|, |b.buf.data|, ws + [4]);
      ParallelMeans(|a.buf.data|, |b.buf.data|, ws);
    }
    LookupsAgree(a, b, fa, fb, ws);
  }

  lemma LookupsAgree(a: Builder, b: Builder, fa: seq<Field>, fb: seq<Field>, ws: seq<nat>)
    requires Idle(a) && TableFits(a, fa) && Idle(b) && TableFits(b, fb)
    requires AllWellFormed(fa, |a.buf.data|) && AllWellFormed(fb, |b.buf.data|)
    requires forall i :: 0 <= i < |fa| ==> fa[i].WellFormed()
    requires forall i :: 0 <= i < |fb| ==> fb[i].WellFormed()
    requires a.forceDefaults == b.forceDefaults && SameShape(fa, fb, a.forceDefaults)
    requires ws == StoredWidths(fa, a.forceDefaults)
    ensures (forall id: nat :: id % 2 == 0 && 4 <= id ==> Position(a, fa, id) == Position(b, fb, id)) <==>
            forall k :: 0 <= k < |ws| ==> SameDistance(|a.buf.data|, |b.buf.data|, ws, k)
  {
    hide Place, Position, SameShape, TableFits, StoredWidths, Stored, Places, Last, AllWellFormed, Idle;
    var s, m, n := Stored(fa, a.forceDefaults), |a.buf.data|, |b.buf.data|;
    ShapeParts(fa, fb, a.forceDefaults);
    PositionIs(a, fa);
    PositionIs(b, fb);
    StoredWellFormed(fa, a.forceDefaults);
    if forall id: nat :: id % 2 == 0 && 4 <= id ==> Position(a, fa, id) == Position(b, fb, id) {
      forall k | 0 <= k < |ws| ensures SameDistance(m, n, ws, k) {
        assert s[k].WellFormed();
        assert Position(a, fa, s[k].id) == Position(b, fb, s[k].id);
      }
    }
    if forall k :: 0 <= k < |ws| ==> SameDistance(m, n, ws, k) {
      forall id: nat | id % 2 == 0 && 4 <= id ensures Position(a, fa, id) == Position(b, fb, id) {
        if k :| 0 <= k < |s| && s[k].id == id {
          assert SameDistance(m, n, ws, k);
          assert Stored(fb, b.forceDefaults)[k].id == id;
        }
      }
    }
  }

  /** Field k is as far from the table's start in both. */
  predicate SameDistance(m: nat, n: nat, ws: seq<nat>, k: nat)
    requires Widths(ws) && k < |ws|
  {
    Place(Last(m, ws), 4) as int - Places(m, ws)[k] == Place(Last(n, ws), 4) as int - Places(n, ws)[k]
  }

  lemma ParallelMeans(m: nat, n: nat, ws: seq<nat>)
    requires Widths(ws) && ws != []
    ensures Widths(ws + [4]) && (Parallel(m, n, ws + [4]) <==> forall k :: 0 <= k < |ws| ==> SameDistance(m, n, ws, k))
  {
    hide Place;
    var all := ws + [4];
    FirstPlace(m, ws);
    FirstPlace(n, ws);
    PlacesOneMore(m, ws, 4);
    PlacesOneMore(n, ws, 4);
    assert all[0] == ws[0];
    if forall k :: 0 <= k < |ws| ==> SameDistance(m, n, ws, k) {
      assert SameDistance(m, n, ws, 0);
      forall i | 0 <= i < |all|
        ensures Places(m, all)[i] as int - Places(n, all)[i] == Place(m, all[0]) as int - Place(n, all[0])
      {
        if i < |ws| { assert SameDistance(m, n, ws, i); }
      }
    }
    if Parallel(m, n, all) {
      var last := |ws|;
      assert Places(m, all)[last] as int - Places(n, all)[last] == Place(m, all[0]) as int - Place(n, all[0]);
      forall k | 0 <= k < |ws| ensures SameDistance(m, n, ws, k) {
        assert Places(m, all)[k] as int - Places(n, all)[k] == Place(m, all[0]) as int - Place(n, all[0]);
        assert Places(m, all)[k] == Places(m, ws)[k] && Places(n, all)[k] == Places(n, ws)[k];
      }
    }
  }

  lemma ShapeParts(fa: seq<Field>, fb: seq<Field>, force: bool)
    requires forall i :: 0 <= i < |fa| ==> fa[i].WellFormed()
    requires forall i :: 0 <= i < |fb| ==> fb[i].WellFormed()
    requires SameShape(fa, fb, force)
    ensures |Stored(fa, force)| == |Stored(fb, force)| && StoredWidths(fa, force) == StoredWidths(fb, force)
    ensures forall k :: 0 <= k < |Stored(fa, force)| ==> Stored(fa, force)[k].id == Stored(fb, force)[k].id
  {
  }

  // ---------- With sharing on and off, over every run ----------

  /** Whether a field ends up in the table: null references and defaults do not. */
  predicate IsStored(f: FieldSpec, force: bool) {
    match f
    case ScalarSpec(id, w, value, def) => force || value != def
    case RefSpec(id, obj) => obj.Some?
  }

  function StoredSpecs(fs: seq<FieldSpec>, force: bool): seq<FieldSpec> {
    if fs == [] then []
    else
      var n := |fs| - 1;
      StoredSpecs(fs[..n], force) + (if IsStored(fs[n], force) then [fs[n]] else [])
  }

  /** The sizes of the stored fields, in the order they are added. */
  function SpecWidths(fs: seq<FieldSpec>, force: bool): (ws: seq<nat>)
    ensures |ws| == |StoredSpecs(fs, force)|
  {
    var s := StoredSpecs(fs, force);
    seq(|s|, i requires 0 <= i < |s| => if s[i].ScalarSpec? then s[i].width else 4)
  }

  lemma {:induction false} StoredResolved(fs: seq<FieldSpec>, offs: seq<nat>, force: bool)
    requires forall i :: 0 <= i < |fs| ==> FieldClosed(fs[i], |offs|)
    requires forall i :: 0 <= i < |offs| ==> offs[i] > 0
    ensures var s, r := StoredSpecs(fs, force), Stored(ResolveFields(fs, offs), force);
            |r| == |s| && forall k :: 0 <= k < |s| ==> r[k] == ResolveField(s[k], offs)
    decreases |fs|
  {
    if fs != [] {
      var n, all := |fs| - 1, ResolveFields(fs, offs);
      StoredResolved(fs[..n], offs, force);
      assert all[..n] == ResolveFields(fs[..n], offs);
      assert all[n] == ResolveField(fs[n], offs) && FieldClosed(fs[n], |offs|);
      assert all[n].Elided(force) <==> !IsStored(fs[n], force);
    }
  }

  lemma ResolvedWidths(fs: seq<FieldSpec>, offs: seq<nat>, force: bool)
    requires forall i :: 0 <= i < |fs| ==> FieldClosed(fs[i], |offs|)
    requires forall i :: 0 <= i < |offs| ==> offs[i] > 0
    requires forall i :: 0 <= i < |fs| ==> ResolveFields(fs, offs)[i].WellFormed()
    ensures StoredWidths(ResolveFields(fs, offs), force) == SpecWidths(fs, force)
    ensures forall k :: 0 <= k < |StoredSpecs(fs, force)| ==>
              Stored(ResolveFields(fs, offs), force)[k].id == StoredSpecs(fs, force)[k].id
  {
    hide StoredSpecs, Stored, ResolveFields;
    StoredResolved(fs, offs, force);
    StoredWellFormed(ResolveFields(fs, offs), force);
  }

  /** A command of a run, and what the rest of the run leaves of it. */
  lemma {:induction false} RunSplits(init: Builder, cmds: seq<Command>, k: nat)
    requires RunOk(Run(init, []), []) && Execute(init, cmds).Some? && k < |cmds|
    ensures Execute(init, cmds[..k]).Some?
    ensures var before, after := Execute(init, cmds[..k]).value, Execute(init, cmds).value;
            && RunOk(before, cmds[..k]) && Idle(before.st) && Written(before.st, before.offs) && |before.offs| == k
            && before.st.forceDefaults == init.forceDefaults
            && Fits(before, cmds[k])
            && Step(before, cmds[k]).offs <= after.offs
            && Extends(Step(before, cmds[k]).st.buf.data, after.st.buf.data)
    decreases |cmds|
  {
    hide Step, Fits, RunOk, Idle, Extends;
    var n := |cmds| - 1;
    ExecuteOk(init, cmds[..n]);
    RunOkParts(Execute(init, cmds[..n]).value, cmds[..n]);
    if k == n {
      ExtendsItself(Execute(init, cmds).value.st.buf.data);
    } else {
      assert cmds[..n][..k] == cmds[..k];
      RunSplits(init, cmds[..n], k);
      var last, before := Execute(init, cmds[..n]).value, Execute(init, cmds[..k]).value;
      StepKeepsRunOk(last, cmds[..n], cmds[n]);
      ExtendsTransitive(Step(before, cmds[k]).st.buf.data, last.st.buf.data, Execute(init, cmds).value.st.buf.data);
    }
  }

  lemma ExtendsItself(d: bytes)
    ensures Extends(d, d)
  {
  }

  /** The field-to-position map of table `k` in the buffer a run leaves. */
  function RunPosition(run: Run, k: nat, id: nat): Checked<nat>
    requires k < |run.offs|
  {
    GetOptionalFieldOffset(run.st.buf.data, |run.st.buf.data| - run.offs[k], id)
  }

  lemma RunPositionIs(init: Builder, cmds: seq<Command>, k: nat)
    requires RunOk(Run(init, []), []) && Execute(init, cmds).Some? && k < |cmds| && cmds[k].Tab?
    ensures Execute(init, cmds[..k]).Some? && k < |Execute(init, cmds).value.offs|
    ensures var before, after := Execute(init, cmds[..k]).value, Execute(init, cmds).value;
            var fs := ResolveFields(cmds[k].fields, before.offs);
            && before.st.forceDefaults == init.forceDefaults
            && Idle(before.st) && TableFits(before.st, fs) && (forall i :: 0 <= i < |fs| ==> fs[i].WellFormed())
            && Written(before.st, before.offs) && |before.offs| == k
            && (forall i :: 0 <= i < |fs| ==> FieldClosed(cmds[k].fields[i], k))
            && (forall id: nat :: id % 2 == 0 && 4 <= id ==> RunPosition(after, k, id) == Position(before.st, fs, id))
  {
    hide Execute, RunOk, Idle, TableFits, Extends, Position, CreateTable, TableOffset, GetOptionalFieldOffset, Stored;
    RunSplits(init, cmds, k);
    var before, after := Execute(init, cmds[..k]).value, Execute(init, cmds).value;
    var fs := ResolveFields(cmds[k].fields, before.offs);
    FitsWellFormed(before.st, fs);
    forall id: nat | id % 2 == 0 && 4 <= id ensures RunPosition(after, k, id) == Position(before.st, fs, id) {
      PositionLater(before.st, fs, after.st.buf.data, id);
    }
  }

  lemma PositionLater(st: Builder, fs: seq<Field>, e: bytes, id: nat)
    requires Idle(st) && TableFits(st, fs) && id % 2 == 0 && 4 <= id
    requires Extends(CreateTable(st, fs).buf.data, e)
    ensures AllWellFormed(fs, |st.buf.data|)
    ensures GetOptionalFieldOffset(e, |e| - TableOffset(st, fs), id) == Position(st, fs, id)
  {
    hide Idle, TableFits, CreateTable, TableOffset, GetOptionalFieldOffset, Stored, Places, Last, Place, Extends;
    FitsWellFormed(st, fs);
    PositionIs(st, fs);
    var s, d := Stored(fs, st.forceDefaults), CreateTable(st, fs).buf.data;
    assert Position(st, fs, id).Ok? by {
      if k :| 0 <= k < |s| && s[k].id == id { assert Position(st, fs, s[k].id).Ok?; }
    }
    FieldOffsetExtends(d, e, |d| - TableOffset(st, fs), id);
  }

  /**
   Over every run: table `k` has the same field-to-position map with vtable sharing on and
   off exactly when the places of its first stored field in the two buffers differ by a
   multiple of the size of each later one, and of the four bytes the table begins with. The
   sizes of the buffers before the table, and its fields, decide that.
   */
  lemma SharingPositionsAgree(force: bool, cmds: seq<Command>, k: nat)
    requires Execute(Fresh(force, true), cmds).Some? && Execute(Fresh(force, false), cmds).Some?
    requires k < |cmds| && cmds[k].Tab?
    ensures Execute(Fresh(force, true), cmds[..k]).Some? && Execute(Fresh(force, false), cmds[..k]).Some?
    ensures k < |Execute(Fresh(force, true), cmds).value.offs| && k < |Execute(Fresh(force, false), cmds).value.offs|
    ensures Widths(SpecWidths(cmds[k].fields, force))
    ensures var on, off := Execute(Fresh(force, true), cmds).value, Execute(Fresh(force, false), cmds).value;
            var sizeOn := |Execute(Fresh(force, true), cmds[..k]).value.st.buf.data|;
            var sizeOff := |Execute(Fresh(force, false), cmds[..k]).value.st.buf.data|;
            var ws := SpecWidths(cmds[k].fields, force);
            (forall id: nat :: id % 2 == 0 && 4 <= id ==> RunPosition(on, k, id) == RunPosition(off, k, id)) <==>
            ws == [] || Congruent(sizeOn, sizeOff, ws + [4])
  {
    hide Execute, RunOk, Idle, TableFits, Position, RunPosition, Congruent, StoredSpecs, SpecWidths, Stored,
         ResolveFields;
    FreshOk(force, true);
    FreshOk(force, false);
    RunPositionIs(Fresh(force, true), cmds, k);
    RunPositionIs(Fresh(force, false), cmds, k);
    var a, b := Execute(Fresh(force, true), cmds[..k]).value, Execute(Fresh(force, false), cmds[..k]).value;
    ResolvedWidths(cmds[k].fields, a.offs, force);
    ResolvedWidths(cmds[k].fields, b.offs, force);
    PositionsAgree(a.st, b.st, ResolveFields(cmds[k].fields, a.offs), ResolveFields(cmds[k].fields, b.offs));
  }

  // ---------- Sharing does move fields ----------

  /** A table of a single one-byte field. */
  const ONE_BYTE: seq<Field> := [Scalar(4, 1, 1, 0)]

  /** The vtable of such a table: its size, the table's size, the field's position. */
  function OneByteVTable(tableSize: nat, pos: nat): bytes {
    WriteAt(EmptyVTable(6, tableSize), 4, ToLE(pos, 2))
  }

  lemma OneByteVTablesDiffer(size1: nat, size2: nat, p: nat, q: nat)
    requires p != q && p < 0x1_0000 && q < 0x1_0000
    ensures OneByteVTable(size1, p) != OneByteVTable(size2, q)
  {
    Pow256Values();
    LoadStoredFits(p, 2);
    LoadStoredFits(q, 2);
    assert OneByteVTable(size1, p)[4..6] == ToLE(p, 2);
    assert OneByteVTable(size2, q)[4..6] == ToLE(q, 2);
  }

  lemma OneByteAdded(st: Builder)
    requires Idle(st) && !st.forceDefaults && |st.buf.data| < 100
    ensures AllWellFormed(ONE_BYTE, |st.buf.data|) && TableFits(st, ONE_BYTE)
    ensures var n, added := |st.buf.data|, AddedFields(st, ONE_BYTE);
            && added == st.(buf := added.buf, fields := [FieldLoc(n + 1, 4)], maxVoffset := 4, nested := true)
            && |added.buf.data| == n + 1 && TableLoc(added) == Place(n + 1, 4)
  {
    Pow256Values();
    var f := ONE_BYTE[0];
    assert AddFields(StartTable(st), ONE_BYTE[..0]) == StartTable(st);
    assert AddFields(StartTable(st), ONE_BYTE) == AddField(StartTable(st), f);
    assert Rem(|st.buf.data|, 1) == 0 by { RemIsMod(|st.buf.data|, 1); }
    PlaceOfTable(AddedFields(st, ONE_BYTE).buf);
  }

  lemma OneByteNewVTable(st: Builder)
    requires Idle(st) && !st.forceDefaults && |st.buf.data| < 100 && TableFits(st, ONE_BYTE)
    ensures var n, added := |st.buf.data|, AddedFields(st, ONE_BYTE);
            && CanEnd(added, n) && Endable(added, n)
            && NewVTable(added, n) == OneByteVTable(Place(n + 1, 4) - n, Place(n + 1, 4) - (n + 1))
  {
    hide AddedFields, TableFits, Endable, CanEnd, FillVTable, EmptyVTable, WriteAt, ToLE, Adding, VTablesWritten,
         Place, TableLoc;
    OneByteAdded(st);
    AddedFieldsEndable(st, ONE_BYTE);
    var n, added := |st.buf.data|, AddedFields(st, ONE_BYTE);
    FillOne(EmptyVTable(6, TableLoc(added) - n), n + 1, TableLoc(added));
  }

  lemma FillOne(vt: bytes, off: nat, loc: nat)
    requires |vt| >= 6 && off < loc
    ensures FieldsFit([FieldLoc(off, 4)], loc, |vt|)
    ensures FillVTable(vt, [FieldLoc(off, 4)], loc) == WriteAt(vt, 4, ToLE(loc - off, 2))
  {
    hide WriteAt, ToLE;
    assert [FieldLoc(off, 4)][..0] == [];
    assert FillVTable(vt, [], loc) == vt;
  }

  /** What one more such table does to the builder. */
  predicate OneMore(st: Builder, r: Builder, shared: bool) {
    var n := |st.buf.data|;
    var loc := Place(n + 1, 4);
    && Idle(r) && VTablesOk(r) && r.forceDefaults == st.forceDefaults && r.dedup == st.dedup
    && |r.buf.data| == (if shared then loc else loc + 6)
    && r.vtables == (if shared then st.vtables else st.vtables + [loc + 6])
    && Extends(st.buf.data, r.buf.data)
    && (!shared ==> VTableAt(r.buf.data, loc + 6) == Ok(OneByteVTable(loc - n, loc - (n + 1))))
  }

  lemma OneByteTable(st: Builder)
    requires Idle(st) && !st.forceDefaults && |st.buf.data| < 100 && VTablesOk(st)
    ensures TableFits(st, ONE_BYTE) && CanEnd(AddedFields(st, ONE_BYTE), |st.buf.data|)
    ensures OneMore(st, CreateTable(st, ONE_BYTE), SharedVTable(AddedFields(st, ONE_BYTE), |st.buf.data|).Some?)
  {
    hide AddedFields, TableFits, NewVTable, VTableAt, Place, OneByteVTable, CanEnd, Endable, VTablesOk, Extends,
         TableLoc, EndTable,
      UsedVTable, SharedVTable, Idle, VTablesWritten, TableReads;
    OneByteAdded(st);
    OneByteNewVTable(st);
    var n, added := |st.buf.data|, AddedFields(st, ONE_BYTE);
    AddedFieldsEndable(st, ONE_BYTE);
    CreateTableIdle(st, ONE_BYTE);
    CreateTableVTables(st, ONE_BYTE);
    CreateTableReads(st, ONE_BYTE);
    NewVTableReadable(added, n);
    OneByteSizes(added, n);
  }

  lemma OneByteSizes(added: Builder, n: nat)
    requires Endable(added, n) && CanEnd(added, n) && added.maxVoffset == 4 && VTablesWritten(added)
    ensures var r := EndTable(added, n);
            var shared := SharedVTable(added, n).Some?;
            && |r.buf.data| == (if shared then TableLoc(added) else TableLoc(added) + 6)
            && r.vtables == (if shared then added.vtables else added.vtables + [TableLoc(added) + 6])
            && (!shared ==> UsedVTable(added, n) == TableLoc(added) + 6)
  {
    hide CanEnd, Endable, NewVTable, SharedVTable, TableLoc, VTablesWritten, TableObject, UsesVTable, LoadSigned,
         LoadBytes,
      Grew, ToLE;
    EndableSmall(added, n);
    EndTableUsesVTable(added, n);
    EndTableBytes(added, n);
  }

  lemma EndableSmall(st: Builder, start: nat)
    requires Endable(st, start)
    ensures TableLoc(st) < 0x8000_0000
  {
  }

  lemma SameVTableIsShared(st: Builder, i: nat)
    requires Idle(st) && !st.forceDefaults && |st.buf.data| < 100 && VTablesOk(st) && st.dedup
    requires i < |st.vtables| && TableFits(st, ONE_BYTE) && CanEnd(AddedFields(st, ONE_BYTE), |st.buf.data|)
    requires var n := |st.buf.data|;
             VTableAt(st.buf.data, st.vtables[i]) == Ok(OneByteVTable(Place(n + 1, 4) - n, Place(n + 1, 4) - (n + 1)))
    ensures SharedVTable(AddedFields(st, ONE_BYTE), |st.buf.data|).Some?
  {
    hide AddedFields, TableFits, NewVTable, VTableAt, Place, OneByteVTable, CanEnd, Endable, SharedVTable;
    OneByteAdded(st);
    OneByteNewVTable(st);
    AddedFieldsEndable(st, ONE_BYTE);
    var n, added := |st.buf.data|, AddedFields(st, ONE_BYTE);
    AddedExtends(st);
    VTablesOkExtends(st, added);
    if SharedVTable(added, n).None? { NotFoundMeansNew(added, n); }
  }

  lemma AddedExtends(st: Builder)
    requires Idle(st) && TableFits(st, ONE_BYTE)
    ensures Extends(st.buf.data, AddedFields(st, ONE_BYTE).buf.data)
  {
    AddedFieldsEndable(st, ONE_BYTE);
  }

  lemma OtherVTableIsNotShared(st: Builder, v: nat, size: nat, pos: nat)
    requires Idle(st) && !st.forceDefaults && |st.buf.data| < 100 && VTablesOk(st) && st.vtables == [v]
    requires TableFits(st, ONE_BYTE) && CanEnd(AddedFields(st, ONE_BYTE), |st.buf.data|)
    requires VTableAt(st.buf.data, v) == Ok(OneByteVTable(size, pos)) && pos < 0x1_0000
    requires pos != Place(|st.buf.data| + 1, 4) - (|st.buf.data| + 1)
    ensures SharedVTable(AddedFields(st, ONE_BYTE), |st.buf.data|).None?
  {
    hide AddedFields, TableFits, NewVTable, VTableAt, OneByteVTable, CanEnd, Endable, SameVTable, TableObject,
         Extends, TableLoc;
    OneByteAdded(st);
    OneByteNewVTable(st);
    var n, added := |st.buf.data|, AddedFields(st, ONE_BYTE);
    var vt, obj := NewVTable(added, n), TableObject(added.buf).data;
    OneByteVTablesDiffer(size, Place(n + 1, 4) - n, pos, Place(n + 1, 4) - (n + 1));
    AddedExtends(st);
    TableObjectFacts(added.buf);
    PrependExtends(vt, obj);
    ExtendsTransitive(st.buf.data, added.buf.data, obj);
    ExtendsTransitive(st.buf.data, obj, vt + obj);
    VTableAtExtends(st.buf.data, vt + obj, v);
    SameVTableMeans(vt + obj, v, vt);
  }

  /** k such tables on a new builder; None when one would not fit. */
  function Chain(dedup: bool, k: nat): Option<Builder> {
    if k == 0 then Some(Fresh(false, dedup))
    else
      var st :- Chain(dedup, k - 1);
      if Idle(st) && TableFits(st, ONE_BYTE) then Some(CreateTable(st, ONE_BYTE)) else None
  }

  lemma PlacesOfFour()
    ensures Place(1, 4) == 8 && Place(15, 4) == 20 && Place(27, 4) == 32 && Place(33, 4) == 40 && Place(39, 4) == 44
  {
    RemIsMod(1, 4);
    RemIsMod(15, 4);
    RemIsMod(27, 4);
    RemIsMod(33, 4);
    RemIsMod(39, 4);
  }

  /** Without sharing every table brings its vtable: 0, 14, 26, 38 bytes. */
  lemma ChainUnshared()
    ensures Chain(false, 3).Some?
    ensures var st := Chain(false, 3).value; Idle(st) && !st.forceDefaults && |st.buf.data| == 38 && VTablesOk(st)
  {
    hide Place, OneByteVTable, TableFits, CreateTable, AddedFields, CanEnd, VTableAt, SharedVTable, VTablesOk, Extends;
    PlacesOfFour();
    var s0 := Fresh(false, false);
    FreshShares(s0);
    assert Chain(false, 0) == Some(s0);
    OneByteTable(s0);
    UnsharedAlways(s0);
    var s1 := CreateTable(s0, ONE_BYTE);
    OneByteTable(s1);
    UnsharedAlways(s1);
    var s2 := CreateTable(s1, ONE_BYTE);
    OneByteTable(s2);
    UnsharedAlways(s2);
    assert Chain(false, 1) == Some(s1);
    assert Chain(false, 2) == Some(s2);
  }

  /** With sharing the third table uses the second one's vtable: 0, 14, 26, 32 bytes. */
  lemma ChainShared()
    ensures Chain(true, 3).Some?
    ensures var st := Chain(true, 3).value; Idle(st) && !st.forceDefaults && |st.buf.data| == 32 && VTablesOk(st)
  {
    hide Place, OneByteVTable, TableFits, CreateTable, AddedFields, CanEnd, VTableAt, SharedVTable, VTablesOk;
    PlacesOfFour();
    var s0 := Fresh(false, true);
    FreshShares(s0);
    assert Chain(true, 0) == Some(s0);
    OneByteTable(s0);
    NothingToShare(s0);
    var s1 := CreateTable(s0, ONE_BYTE);
    OneByteTable(s1);
    OtherVTableIsNotShared(s1, 14, 8, 7);
    var s2 := CreateTable(s1, ONE_BYTE);
    OneByteTable(s2);
    SameVTableIsShared(s2, 1);
    assert Chain(true, 1) == Some(s1);
    assert Chain(true, 2) == Some(s2);
  }

  lemma FreshShares(st: Builder)
    requires st == Fresh(false, st.dedup)
    ensures Idle(st) && VTablesOk(st)
  {
  }

  lemma UnsharedAlways(st: Builder)
    requires Idle(st) && !st.forceDefaults && |st.buf.data| < 100 && !st.dedup
    requires TableFits(st, ONE_BYTE) && CanEnd(AddedFields(st, ONE_BYTE), |st.buf.data|)
    ensures SharedVTable(AddedFields(st, ONE_BYTE), |st.buf.data|).None?
  {
    hide AddedFields, TableFits, NewVTable, CanEnd;
    OneByteAdded(st);
  }

  lemma NothingToShare(st: Builder)
    requires Idle(st) && TableFits(st, ONE_BYTE) && CanEnd(AddedFields(st, ONE_BYTE), |st.buf.data|)
    requires !st.forceDefaults && |st.buf.data| < 100 && st.vtables == []
    ensures SharedVTable(AddedFields(st, ONE_BYTE), |st.buf.data|).None?
  {
    OneByteAdded(st);
  }

  /**
   Field positions are not the same with sharing on and off over whole sequences: the fourth
   of four tables with a single one-byte field has it at 7 with sharing, and at 5 without.
   */
  lemma SharingMovesFields()
    ensures Chain(true, 3).Some? && Chain(false, 3).Some?
    ensures var on, off := Chain(true, 3).value, Chain(false, 3).value;
            && Idle(on) && TableFits(on, ONE_BYTE) && Idle(off) && TableFits(off, ONE_BYTE)
            && Position(on, ONE_BYTE, 4) == Ok(7) && Position(off, ONE_BYTE, 4) == Ok(5)
  {
    hide Place, Chain, TableFits, Position, VTablesOk, Places;
    ChainShared();
    ChainUnshared();
    PlacesOfFour();
    OneBytePosition(Chain(true, 3).value);
    OneBytePosition(Chain(false, 3).value);
  }

  lemma OneBytePosition(st: Builder)
    requires Idle(st) && !st.forceDefaults && |st.buf.data| < 100
    ensures TableFits(st, ONE_BYTE)
    ensures Position(st, ONE_BYTE, 4) == Ok(Place(|st.buf.data| + 1, 4) - (|st.buf.data| + 1))
  {
    hide TableFits, AddedFields, EndTable, GetOptionalFieldOffset, TableLoc, CanEnd, Endable, Place;
    OneByteAdded(st);
    AddedFieldsEndable(st, ONE_BYTE);
    EndTableLookup(AddedFields(st, ONE_BYTE), |st.buf.data|, 4);
  }
}
