/**
 FlatBufferBuilder as it runs (flatbuffer_builder.h): methods that move bytes in a
 VectorDownward, with their bookkeeping as raw bytes in its scratch part. Every method is
 tied to the function of the same name in BuilderModel.
 */
module FlatBufferBuilder {
  import opened Bits
  import opened Bytes
  import opened Wrappers
  import opened Table
  import M = BuilderModel
  import opened ScratchLists
  import opened TableLayout
  import opened TableRoundTrip
  import opened VTableSharing
  import O = Objects
  import V = VectorDownward

  class FlatBufferBuilder {
    const buf: V.VectorDownward
    var numFieldLoc: nat
    var maxVoffset: nat
    var nested: bool
    var finished: bool
    var minAlign: nat
    var forceDefaults: bool
    var dedup: bool
    var stringPool: seq<nat>
    ghost var vtables: seq<nat>         // the lists encoded in the scratch part,
    ghost var fields: seq<M.FieldLoc>   // in this order
    ghost var temps: seq<nat>

    /** The scratch bytes are the three lists, and what they point to can be read. */
    ghost predicate Valid()
      reads this, buf, buf.buf
      ensures Valid() ==> buf.Valid() && numFieldLoc == |fields|
      ensures Valid() ==> buf.scratch == 4 * |vtables| + 8 * |fields| + 4 * |temps|
    {
      && buf.Valid() && IsAlign(minAlign)
      && numFieldLoc == |fields|
      && buf.Scratch() == EncodeOffsets(vtables) + EncodeFields(fields) + EncodeOffsets(temps)
      && Offsets(vtables) && Offsets(temps) && Locations(fields)
      && Readable(buf.Contents(), vtables)
    }

    /** The builder's abstract state. */
    ghost function Model(): (st: M.Builder)
      requires buf.Valid()
      reads this, buf, buf.buf
    {
      M.Builder(M.Buf(buf.Contents(), minAlign), vtables, fields, stringPool, maxVoffset, nested, finished,
                forceDefaults, dedup)
    }

    constructor (initialSize: nat)
      ensures Valid() && fresh(buf) && fresh(buf.buf) && Model() == M.EMPTY && temps == []
    {
      buf := new V.VectorDownward(initialSize, 3);
      numFieldLoc, maxVoffset, nested, finished, minAlign := 0, 0, false, false, 1;
      forceDefaults, dedup, stringPool := false, true, [];
      vtables, fields, temps := [], [], [];
    }

    // ---------- Alignment and scalars ----------

    method Pad(n: nat)
      requires Valid() && buf.size + n < V.UOFFSET
      modifies buf, buf.buf
      ensures Valid() && (buf.buf == old(buf.buf) || fresh(buf.buf))
      ensures Model() == old(Model()).(buf := M.Pad(old(Model()).buf, n))
    {
      buf.Fill(n);
      ReadablePrepended(old(buf.Contents()), Zeros(n), vtables);
    }

    method TrackMinAlign(a: nat)
      requires Valid() && IsAlign(a)
      modifies `minAlign
      ensures Valid() && Model() == old(Model()).(buf := M.TrackMinAlign(old(Model()).buf, a))
    {
      if a > minAlign { minAlign := a; }
    }

    method Align(a: nat)
      requires Valid() && IsAlign(a) && buf.size + a <= V.UOFFSET
      modifies `minAlign, buf, buf.buf
      ensures Valid() && (buf.buf == old(buf.buf) || fresh(buf.buf))
      ensures Model() == old(Model()).(buf := M.Align(old(Model()).buf, a))
    {
      TrackMinAlign(a);
      Pad(PaddingBytes(buf.size, a));
    }

    method PreAlign(len: nat, a: nat)
      requires Valid() && IsAlign(a) && buf.size + a <= V.UOFFSET && buf.size + len < WORD
      modifies `minAlign, buf, buf.buf
      ensures Valid() && (buf.buf == old(buf.buf) || fresh(buf.buf))
      ensures Model() == old(Model()).(buf := M.PreAlign(old(Model()).buf, len, a))
    {
      if len == 0 { return; }
      TrackMinAlign(a);
      Pad(PaddingBytes(buf.size + len, a));
    }

    method PushBytes(s: bytes)
      requires Valid() && buf.size + |s| < V.UOFFSET
      modifies buf, buf.buf
      ensures Valid() && (buf.buf == old(buf.buf) || fresh(buf.buf))
      ensures Model() == old(Model()).(buf := M.PushBytes(old(Model()).buf, s))
    {
      buf.Push(s);
      ReadablePrepended(old(buf.Contents()), s, vtables);
    }

    method PushElement(w: nat, value: nat) returns (off: nat)
      requires Valid() && IsAlign(w) && buf.size + 2 * w <= V.UOFFSET
      modifies `minAlign, buf, buf.buf
      ensures Valid() && (buf.buf == old(buf.buf) || fresh(buf.buf))
      ensures Model() == old(Model()).(buf := M.PushElement(old(Model()).buf, w, value))
      ensures off == buf.size
    {
      Align(w);
      PushBytes(ToLE(value, w));
      off := buf.size;
    }

    /** Turns an offset from the end into one from the place where it is stored next. */
    method ReferTo(off: nat) returns (relative: nat)
      requires Valid() && 0 < off <= buf.size && buf.size + 4 <= V.UOFFSET
      modifies `minAlign, buf, buf.buf
      ensures Valid() && (buf.buf == old(buf.buf) || fresh(buf.buf))
      ensures Model() == old(Model()).(buf := M.Align(old(Model()).buf, 4))
      ensures relative == M.ReferTo(Model().buf, off)
    {
      Align(4);
      relative := buf.size - off + 4;
    }

    // ---------- Fields ----------

    method TrackField(id: nat, off: nat)
      requires Valid() && off == buf.size && id < Pow256(2) && temps == [] && buf.scratch + 8 < V.UOFFSET
      modifies `numFieldLoc, `maxVoffset, `fields, buf, buf.buf
      ensures Valid() && (buf.buf == old(buf.buf) || fresh(buf.buf))
      ensures Model() == M.TrackField(old(Model()), old(Model()).buf, id)
      ensures buf.scratch == old(buf.scratch) + 8
    {
      Pow256Values();
      hide EncodeOffsets, EncodeFields, FieldRecord, Readable, Pow256;
      assert EncodeOffsets(temps) == [];
      var loc := M.FieldLoc(off, id);
      buf.ScratchPush(FieldRecord(loc));
      EncodeFieldsPush(fields, loc);
      assert buf.Scratch() == EncodeOffsets(vtables) + EncodeFields(fields + [loc]) + EncodeOffsets(temps);
      fields := fields + [loc];
      numFieldLoc := numFieldLoc + 1;
      if id > maxVoffset { maxVoffset := id; }
    }

    method AddElement(id: nat, w: nat, value: nat, def: nat)
      requires Valid() && IsAlign(w) && id < Pow256(2) && temps == []
      requires buf.size + 2 * w <= V.UOFFSET && buf.scratch + 8 < V.UOFFSET
      modifies `minAlign, `numFieldLoc, `maxVoffset, `fields, buf, buf.buf
      ensures Valid() && (buf.buf == old(buf.buf) || fresh(buf.buf))
      ensures Model() == M.AddElement(old(Model()), id, w, value, def)
      ensures old(buf.size) <= buf.size <= old(buf.size) + 2 * w && buf.scratch <= old(buf.scratch) + 8
    {
      if value == def && !forceDefaults { return; }
      var off := PushElement(w, value);
      TrackField(id, off);
    }

    method AddOffset(id: nat, off: nat)
      requires Valid() && off <= buf.size && id < Pow256(2) && temps == []
      requires buf.size + 12 <= V.UOFFSET && buf.scratch + 8 < V.UOFFSET
      modifies `minAlign, `numFieldLoc, `maxVoffset, `fields, buf, buf.buf
      ensures Valid() && (buf.buf == old(buf.buf) || fresh(buf.buf))
      ensures Model() == M.AddOffset(old(Model()), id, off)
      ensures old(buf.size) <= buf.size <= old(buf.size) + 12 && buf.scratch <= old(buf.scratch) + 8
    {
      if off == 0 { return; }
      var relative := ReferTo(off);
      AddElement(id, 4, relative, 0);
    }

    // ---------- Tables ----------

    method StartTable() returns (start: nat)
      requires Valid() && !nested && numFieldLoc == 0
      modifies `nested
      ensures Valid() && Model() == M.StartTable(old(Model())) && start == buf.size
    {
      nested := true;
      start := buf.size;
    }

    /** Reads field record i back from the scratch part and writes its position into the vtable in front. */
    method FillField(i: nat, loc: nat, ghost vt: bytes, ghost rest: bytes)
      requires buf.Valid() && i < numFieldLoc == |fields| && Locations(fields)
      requires buf.Scratch() == EncodeOffsets(vtables) + EncodeFields(fields)
      requires buf.Contents() == vt + rest && fields[i].id + 2 <= |vt| && fields[i].off < loc
      modifies buf.buf
      ensures buf.Valid() && buf.Scratch() == old(buf.Scratch())
      ensures buf.Contents() == M.WriteAt(vt, fields[i].id, ToLE(loc - fields[i].off, 2)) + rest
    {
      hide EncodeFields, EncodeOffsets, FromLE, ToLE, M.WriteAt, V.CapacityOk, V.VectorDownward.Contents,
           V.VectorDownward.Scratch;
      var it := buf.scratch - 8 * (numFieldLoc - i);
      ScratchField(EncodeOffsets(vtables), fields, i);
      var off := buf.ScratchScalar(it, 4);
      var id := buf.ScratchScalar(it + 4, 2);
      WriteAtFront(vt, rest, id, ToLE(loc - off, 2));
      buf.WriteAt(buf.size - id, ToLE(loc - off, 2));
    }

    /** Fills the vtable in front with the positions of all tracked fields. */
    method FillFields(loc: nat, ghost vt: bytes, ghost rest: bytes)
      requires buf.Valid() && numFieldLoc == |fields| && Locations(fields)
      requires buf.Scratch() == EncodeOffsets(vtables) + EncodeFields(fields)
      requires buf.Contents() == vt + rest && M.FieldsFit(fields, loc, |vt|)
      modifies buf.buf
      ensures buf.Valid() && buf.Scratch() == old(buf.Scratch())
      ensures Model() == old(Model()).(buf := M.Buf(M.FillVTable(vt, fields, loc) + rest, minAlign))
    {
      hide EncodeFields, EncodeOffsets, ToLE, M.FillVTable, M.WriteAt, M.FieldsFit, Locations, V.CapacityOk,
           V.VectorDownward.Contents, V.VectorDownward.Scratch;
      FillStart(vt, fields, loc);
      var i := 0;
      while i < numFieldLoc
        invariant i <= numFieldLoc && buf.Valid() && buf.Scratch() == old(buf.Scratch())
        invariant M.FieldsFit(fields[..i], loc, |vt|)
        invariant buf.Contents() == M.FillVTable(vt, fields[..i], loc) + rest
      {
        FillStep(vt, fields, loc, i);
        FillField(i, loc, M.FillVTable(vt, fields[..i], loc), rest);
        i := i + 1;
      }
    }

    /** Looks for a remembered vtable equal to the one in front. */
    method FindVTable(n: nat) returns (found: Option<nat>)
      requires buf.Valid() && buf.Scratch() == EncodeOffsets(vtables) && Offsets(vtables)
      requires Readable(buf.Contents(), vtables) && n <= buf.size
      ensures found == M.FindVTable(buf.Contents(), vtables, buf.Contents()[..n])
    {
      hide EncodeOffsets, FromLE, M.SameVTable, Readable;
      var d := buf.buf[buf.cur..];
      var it := 0;
      while it < buf.scratch
        invariant it % 4 == 0 && it <= buf.scratch
        invariant forall j :: 0 <= j < it / 4 ==> !M.SameVTable(d, vtables[j], d[..n])
      {
        OffsetAt(vtables, it / 4);
        var v := buf.ScratchScalar(it, 4);
        assert v == vtables[it / 4];
        if M.SameVTable(d, v, d[..n]) {
          FindsFirst(d, vtables, d[..n], it / 4);
          return Some(v);
        }
        it := it + 4;
      }
      FindsNone(d, vtables, d[..n]);
      return None;
    }

    /** The table's vtable offset, still zero, and an empty vtable of the size the fields need. */
    method StartVTable(start: nat) returns (loc: nat)
      requires Valid() && Endable(Model(), start)
      modifies `minAlign, `maxVoffset, buf, buf.buf
      ensures buf.Valid() && (buf.buf == old(buf.buf) || fresh(buf.buf))
      ensures loc == M.TableLoc(old(Model())) && maxVoffset == M.VTableSize(old(maxVoffset))
      ensures start <= loc && IsAlign(minAlign) && buf.Scratch() == old(buf.Scratch())
      ensures Model() == old(Model()).(
          buf := M.Buf(M.EmptyVTable(maxVoffset, loc - start) + M.TableObject(old(Model()).buf).data,
                       M.TableObject(old(Model()).buf).minAlign),
          maxVoffset := maxVoffset)
    {
      hide Endable, LayoutOk, Offsets, EncodeFields, EncodeOffsets, ToLE, Locations, V.CapacityOk,
           V.VectorDownward.Contents, V.VectorDownward.Scratch, M.EmptyVTable, M.PushElement, Readable, M.TableObject;
      EndableSizes(Model(), start);
      loc := PushElement(4, 0);
      maxVoffset := V.Max(maxVoffset + 2, 4);
      PushEmptyVTable(loc - start);
    }

    /** The first half of EndTable: the filled vtable in front of the table, and no fields tracked any more. */
    method WriteVTable(start: nat) returns (loc: nat)
      requires Valid() && temps == [] && Endable(Model(), start)
      modifies `minAlign, `maxVoffset, `numFieldLoc, `fields, buf, buf.buf
      ensures Valid() && (buf.buf == old(buf.buf) || fresh(buf.buf))
      ensures loc == M.TableLoc(old(Model())) && M.CanEnd(old(Model()), start)
      ensures Model() == old(Model()).(
          buf := M.Buf(WithVTable(old(Model()), start), M.TableObject(old(Model()).buf).minAlign),
          fields := [], maxVoffset := 0)
    {
      hide EncodeFields, EncodeOffsets, ToLE, LayoutOk, Endable, Locations, Offsets, V.CapacityOk,
           V.VectorDownward.Contents, V.VectorDownward.Scratch, DescribesTable, M.FillVTable,
        M.EmptyVTable, M.FieldsFit, M.TableObject, M.TableLoc, Readable;
      ghost var st := Model();
      TableObjectReadable(st.buf, vtables);
      NewVTableDescribes(st, start);
      EmptyLists();
      loc := StartVTable(start);
      FillFields(loc, M.EmptyVTable(maxVoffset, loc - start), M.TableObject(st.buf).data);
      ReadablePrepended(M.TableObject(st.buf).data, M.NewVTable(st, start), vtables);
      ClearOffsets();
    }

    /** Finishes a table: its vtable is written in front of it, or an equal one used in its place. */
    method EndTable(start: nat) returns (loc: nat)
      requires Valid() && nested && temps == [] && Endable(Model(), start) && buf.scratch + 4 < V.UOFFSET
      modifies `minAlign, `maxVoffset, `numFieldLoc, `fields, `vtables, `nested, buf, buf.buf
      ensures Valid() && (buf.buf == old(buf.buf) || fresh(buf.buf))
      ensures M.CanEnd(old(Model()), start) && Model() == M.EndTable(old(Model()), start)
      ensures loc == M.TableLoc(old(Model()))
    {
      hide Endable, M.CanEnd, WithVTable, M.NewVTable, M.TableObject, NamesItsSize, Readable, ToLE, M.TableLoc,
           M.EndTable, Unsigned,
        V.Patched, V.CapacityOk, V.VectorDownward.Contents, V.VectorDownward.Scratch;
      ghost var st := Model();
      VTableInFront(st, start);
      EndTableReadable(st, start);
      loc := WriteVTable(start);
      LinkVTable(loc, st, start);
    }

    /** The second half of EndTable: shares or remembers the vtable and makes the table's first word lead to it. */
    method LinkVTable(loc: nat, ghost st: M.Builder, ghost start: nat)
      requires Valid() && temps == [] && buf.scratch + 4 < V.UOFFSET
      requires M.CanEnd(st, start) && loc == M.TableLoc(st) == |M.TableObject(st.buf).data|
      requires Model() == st.(
          buf := M.Buf(WithVTable(st, start), M.TableObject(st.buf).minAlign), fields := [], maxVoffset := 0)
      requires loc + 4 <= buf.size && NamesItsSize(buf.Contents(), buf.size - loc)
      requires forall i :: 0 <= i < |vtables| ==> vtables[i] < loc
      requires Readable(M.EndTable(st, start).buf.data, M.EndTable(st, start).vtables)
      modifies `vtables, `nested, buf, buf.buf
      ensures Valid() && (buf.buf == old(buf.buf) || fresh(buf.buf))
      ensures Model() == M.EndTable(st, start)
    {
      hide Valid, M.CanEnd, WithVTable, M.TableObject, SharedIn, Kept, Readable, ToLE, M.TableLoc, M.EndTable, Unsigned,
        NamesItsSize, V.Patched, V.CapacityOk, V.VectorDownward.Contents, V.VectorDownward.Scratch;
      ghost var found := SharedIn(WithVTable(st, start), st.vtables, st.dedup, loc);
      var vtUse := ShareVTable(loc);
      EndTableSteps(st, start, WithVTable(st, start), loc, found, vtUse, Model());
      WriteSOffset(loc, vtUse - loc, M.EndTable(st, start));
    }

    /** Fills the table's first word and leaves it. */
    method WriteSOffset(loc: nat, delta: int, ghost result: M.Builder)
      requires Valid() && 4 <= loc <= buf.size
      requires result == Model().(
          buf := M.Buf(V.Patched(buf.Contents(), loc, ToLE(Unsigned(delta, 4), 4)), minAlign), nested := false)
      requires Readable(result.buf.data, vtables)
      modifies `nested, buf.buf
      ensures Valid() && Model() == result
    {
      hide ToLE, Unsigned, Readable, V.Patched, V.CapacityOk, V.VectorDownward.Contents, V.VectorDownward.Scratch;
      buf.WriteAt(loc, ToLE(Unsigned(delta, 4), 4));
      nested := false;
    }

    /** A vtable of zeros that names its own size and the table's. */
    method PushEmptyVTable(tableSize: nat)
      requires buf.Valid() && 4 <= maxVoffset && buf.size + maxVoffset < V.UOFFSET
      modifies buf, buf.buf
      ensures buf.Valid() && (buf.buf == old(buf.buf) || fresh(buf.buf))
      ensures Model() == old(Model()).(
          buf := M.Buf(M.EmptyVTable(maxVoffset, tableSize) + old(buf.Contents()), minAlign))
      ensures buf.Scratch() == old(buf.Scratch())
    {
      hide ToLE, M.WriteAt, V.CapacityOk, V.VectorDownward.Contents, V.VectorDownward.Scratch;
      ghost var rest := buf.Contents();
      buf.Fill(maxVoffset);
      WriteAtFront(Zeros(maxVoffset), rest, 2, ToLE(tableSize, 2));
      buf.WriteAt(buf.size - 2, ToLE(tableSize, 2));
      WriteAtFront(M.WriteAt(Zeros(maxVoffset), 2, ToLE(tableSize, 2)), rest, 0, ToLE(maxVoffset, 2));
      buf.WriteAt(buf.size, ToLE(maxVoffset, 2));
    }

    method ClearOffsets()
      requires buf.Valid() && temps == [] && numFieldLoc == |fields|
      requires buf.Scratch() == EncodeOffsets(vtables) + EncodeFields(fields)
      modifies `maxVoffset, `numFieldLoc, `fields, buf
      ensures buf.Valid() && buf.buf == old(buf.buf)
      ensures buf.Scratch() == EncodeOffsets(vtables) + EncodeFields(fields) + EncodeOffsets(temps)
      ensures Locations(fields) && numFieldLoc == |fields|
      ensures Model() == old(Model()).(fields := [], maxVoffset := 0)
    {
      buf.ScratchPop(8 * numFieldLoc);
      numFieldLoc := 0;
      maxVoffset := 0;
      fields := [];
    }

    /** Uses a remembered vtable equal to the one in front, giving that one back, or remembers the new one. */
    method ShareVTable(loc: nat) returns (vtUse: nat)
      requires Valid() && fields == [] && temps == [] && buf.scratch + 4 < V.UOFFSET
      requires loc + 4 <= buf.size && NamesItsSize(buf.Contents(), buf.size - loc)
      requires forall i :: 0 <= i < |vtables| ==> vtables[i] < loc
      modifies `vtables, buf, buf.buf
      ensures Valid() && buf.Valid() && (buf.buf == old(buf.buf) || fresh(buf.buf))
      ensures var d := old(buf.Contents());
              var found := SharedIn(d, old(vtables), dedup, loc);
              && vtUse == (if found.Some? then found.value else |d|)
              && Model() == old(Model()).(
                   buf := M.Buf(Kept(d, loc, found), minAlign),
                   vtables := if found.Some? then old(vtables) else old(vtables) + [vtUse])
    {
      hide EncodeFields, EncodeOffsets, FromLE, M.FindVTable, V.CapacityOk, V.VectorDownward.Contents,
        V.VectorDownward.Scratch, Readable, Offsets;
      EmptyLists();
      vtUse := buf.size;
      var vt1Size := buf.DataScalar(0, 2);
      ghost var d := buf.Contents();
      assert vt1Size == |d| - loc;
      if dedup {
        var found := FindVTable(vt1Size);
        if found.Some? {
          vtUse := found.value;
          ReadablePopped(d, vt1Size, vtables);
          buf.Pop(buf.size - loc);
        }
      }
      if vtUse == buf.size {
        RememberVTable(vtUse);
      }
    }

    method RememberVTable(vtUse: nat)
      requires Valid() && fields == [] && temps == [] && buf.scratch + 4 < V.UOFFSET
      requires vtUse == buf.size && VTableAt(buf.Contents(), vtUse).Ok?
      modifies `vtables, buf, buf.buf
      ensures Valid() && (buf.buf == old(buf.buf) || fresh(buf.buf))
      ensures Model() == old(Model()).(vtables := old(vtables) + [vtUse])
    {
      hide EncodeFields, EncodeOffsets, ToLE, V.CapacityOk, V.VectorDownward.Contents, V.VectorDownward.Scratch,
           VTableAt;
      EmptyLists();
      Pow256Values();
      buf.ScratchPush(ToLE(vtUse, 4));
      EncodeOffsetsPush(vtables, vtUse);
      vtables := vtables + [vtUse];
    }

    // ---------- Strings and vectors ----------

    method CreateString(s: bytes) returns (off: nat)
      requires Valid() && !nested && numFieldLoc == 0 && buf.size + |s| + 13 <= V.UOFFSET
      modifies `minAlign, buf, buf.buf
      ensures Valid() && (buf.buf == old(buf.buf) || fresh(buf.buf))
      ensures Model() == old(Model()).(buf := M.CreateString(old(Model()).buf, s)) && off == buf.size
    {
      hide EncodeFields, EncodeOffsets, ToLE, Readable, V.CapacityOk, V.VectorDownward.Contents,
           V.VectorDownward.Scratch,
        M.PreAlign, M.PushElement;
      PreAlignSmall(Model().buf, |s| + 1, 4);
      PreAlign(|s| + 1, 4);
      Pad(1);
      PushBytes(s);
      off := PushElement(4, |s|);
    }

    /** Serializes the string, and takes it back if an equal one is in the pool. */
    method CreateSharedString(s: bytes) returns (off: nat)
      requires Valid() && !nested && numFieldLoc == 0 && buf.size + |s| + 13 <= V.UOFFSET
      modifies `minAlign, `stringPool, buf, buf.buf
      ensures Valid() && (buf.buf == old(buf.buf) || fresh(buf.buf))
      ensures (Model(), off) == M.CreateSharedString(old(Model()), s)
    {
      hide EncodeFields, EncodeOffsets, ToLE, Readable, V.CapacityOk, V.VectorDownward.Scratch, M.CreateString,
           M.FindString;
      ghost var st := Model();
      var before := buf.size;
      CreateStringBehind(st.buf, s);
      off := CreateString(s);
      var data := buf.buf[buf.cur..];
      var found := M.FindString(data, stringPool, off);
      if found.Some? {
        buf.Pop(buf.size - before);
        return found.value;
      }
      stringPool := stringPool + [off];
    }

    method StartVector(len: nat, elemSize: nat)
      requires Valid() && !nested && numFieldLoc == 0 && IsAlign(elemSize)
      requires buf.size + len * elemSize + elemSize + 4 <= V.UOFFSET
      modifies `minAlign, `nested, buf, buf.buf
      ensures Valid() && (buf.buf == old(buf.buf) || fresh(buf.buf))
      ensures Model() == old(Model()).(buf := M.StartVector(old(Model()).buf, len, elemSize), nested := true)
      ensures old(buf.size) <= buf.size < old(buf.size) + elemSize + 4
    {
      hide EncodeFields, EncodeOffsets, Readable, V.CapacityOk, V.VectorDownward.Contents, V.VectorDownward.Scratch,
        M.PreAlign, IsAlign;
      nested := true;
      FourAligns();
      PreAlignSmall(Model().buf, len * elemSize, 4);
      PreAlign(len * elemSize, 4);
      PreAlignSmall(Model().buf, len * elemSize, elemSize);
      PreAlign(len * elemSize, elemSize);
    }

    method EndVector(len: nat) returns (off: nat)
      requires Valid() && nested && buf.size + 8 <= V.UOFFSET
      modifies `minAlign, `nested, buf, buf.buf
      ensures Valid() && (buf.buf == old(buf.buf) || fresh(buf.buf))
      ensures Model() == old(Model()).(buf := M.PushElement(old(Model()).buf, 4, len), nested := false)
      ensures off == buf.size
    {
      nested := false;
      off := PushElement(4, len);
    }

    /** A vector of scalars, copied as they lie in memory. */
    method CreateVector(len: nat, w: nat, raw: bytes) returns (off: nat)
      requires Valid() && !nested && numFieldLoc == 0 && IsAlign(w) && |raw| == len * w
      requires buf.size + |raw| + w + 12 <= V.UOFFSET
      modifies `minAlign, `nested, buf, buf.buf
      ensures Valid() && (buf.buf == old(buf.buf) || fresh(buf.buf))
      ensures Model() == old(Model()).(buf := M.CreateVector(old(Model()).buf, len, w, raw)) && off == buf.size
    {
      hide EncodeFields, EncodeOffsets, Readable, V.CapacityOk, V.VectorDownward.Contents, V.VectorDownward.Scratch,
        M.StartVector, M.PushElement, IsAlign;
      StartVector(len, w);
      NothingInFront(Model().buf.data);
      if len > 0 { PushBytes(raw); }
      off := EndVector(len);
    }

    method PushOffset(off: nat)
      requires Valid() && 0 < off <= buf.size && buf.size + 12 <= V.UOFFSET
      modifies `minAlign, buf, buf.buf
      ensures Valid() && (buf.buf == old(buf.buf) || fresh(buf.buf))
      ensures Model() == old(Model()).(buf := M.PushOffset(old(Model()).buf, off))
    {
      var relative := ReferTo(off);
      var stored := PushElement(4, relative);
    }

    /** A vector of offsets, pushed last element first. */
    method CreateOffsetVector(offs: seq<nat>) returns (off: nat)
      requires Valid() && !nested && numFieldLoc == 0
      requires Within(offs, |Model().buf.data|) && |M.CreateOffsetVector(Model().buf, offs).data| < M.LIMIT
      modifies `minAlign, `nested, buf, buf.buf
      ensures Valid() && (buf.buf == old(buf.buf) || fresh(buf.buf))
      ensures Within(offs, |old(Model()).buf.data|)
      ensures Model() == old(Model()).(buf := M.CreateOffsetVector(old(Model()).buf, offs)) && off == buf.size
    {
      hide EncodeFields, EncodeOffsets, Readable, V.CapacityOk, V.VectorDownward.Contents, V.VectorDownward.Scratch,
        M.StartVector, M.PushElement, M.PushOffset, M.PushOffsets, Within;
      ghost var st := Model();
      O.OffsetVectorLonger(st.buf, offs);
      O.StartVectorLonger(st.buf, |offs|);
      PushedBelow(st.buf, offs);
      StartVector(|offs|, 4);
      var i: nat := |offs|;
      ghost var b := Model().buf;
      WithinLarger(offs, |st.buf.data|, |b.data|);
      while i > 0
        invariant i <= |offs| && Valid() && nested && (buf.buf == old(buf.buf) || fresh(buf.buf))
        invariant Model() == st.(buf := Model().buf, nested := true)
        invariant Within(offs[..i], |Model().buf.data|)
        invariant M.PushOffsets(Model().buf, offs[..i]) == M.PushOffsets(b, offs)
      {
        i := i - 1;
        PushOffsetsStep(Model().buf, offs, i);
        PushOffset(offs[i]);
      }
      PushOffsetsNone(Model().buf, offs);
      off := EndVector(|offs|);
    }

    // ---------- Vectors of strings ----------

    /** Parks an offset at the end of the scratch part. */
    method PushTemp(off: nat)
      requires Valid() && off < V.UOFFSET && buf.scratch + 4 < V.UOFFSET
      modifies `temps, buf, buf.buf
      ensures Valid() && (buf.buf == old(buf.buf) || fresh(buf.buf)) && buf.scratch == old(buf.scratch) + 4
      ensures temps == old(temps) + [off] && Model() == old(Model())
    {
      hide EncodeFields, EncodeOffsets, ToLE, Readable, V.CapacityOk, V.VectorDownward.Contents;
      Pow256Values();
      buf.ScratchPush(ToLE(off, 4));
      EncodeOffsetsPush(temps, off);
      AppendAssociates(EncodeOffsets(vtables) + EncodeFields(fields), EncodeOffsets(temps), ToLE(off, 4));
      temps := temps + [off];
    }

    method PopTemps(n: nat)
      requires Valid() && n == |temps|
      modifies `temps, buf
      ensures Valid() && buf.buf == old(buf.buf) && temps == [] && Model() == old(Model())
    {
      hide EncodeFields, EncodeOffsets, Readable, V.CapacityOk, V.VectorDownward.Contents, V.VectorDownward.Scratch;
      EmptyLists();
      ghost var kept := EncodeOffsets(vtables) + EncodeFields(fields);
      FrontAndRest(kept, EncodeOffsets(temps));
      buf.ScratchPop(4 * n);
      temps := [];
    }

    /** Stores the parked offsets, last one first, reading each from the end of the scratch part. */
    method PushTemps(n: nat)
      requires Valid() && nested && n == |temps|
      requires Within(temps, |Model().buf.data|) && |M.PushOffsets(Model().buf, temps).data| < M.LIMIT
      modifies `minAlign, buf, buf.buf
      ensures Valid() && (buf.buf == old(buf.buf) || fresh(buf.buf))
      ensures Within(temps, |old(Model()).buf.data|)
      ensures Model() == old(Model()).(buf := M.PushOffsets(old(Model()).buf, temps))
    {
      hide EncodeFields, EncodeOffsets, Readable, Offsets, FromLE, V.CapacityOk, V.VectorDownward.Contents,
        V.VectorDownward.Scratch, M.PushElement, M.PushOffset, M.PushOffsets, Within;
      ghost var st := Model();
      var i := 1;
      WithinLarger(temps, |st.buf.data|, |st.buf.data|);
      while i <= n
        invariant 1 <= i <= n + 1 && Valid() && (buf.buf == old(buf.buf) || fresh(buf.buf))
        invariant Model() == st.(buf := Model().buf)
        invariant Within(temps[..n - (i - 1)], |Model().buf.data|)
        invariant M.PushOffsets(Model().buf, temps[..n - (i - 1)]) == M.PushOffsets(st.buf, temps)
      {
        ParkedOffset(EncodeOffsets(vtables) + EncodeFields(fields), temps, n - i);
        var off := buf.ScratchScalar(buf.scratch - 4 * i, 4);
        assert off == temps[n - i];
        PushOffsetsStep(Model().buf, temps, n - i);
        PushOffset(off);
        i := i + 1;
      }
      PushOffsetsNone(Model().buf, temps);
    }

    /** Serializes the strings, first to last, and parks their offsets. */
    method CreateStrings(ss: seq<bytes>)
      requires Valid() && !nested && numFieldLoc == 0 && temps == []
      requires |M.CreateStrings(Model().buf, ss).0.data| < M.LIMIT && buf.scratch + 4 * |ss| < V.UOFFSET
      modifies `minAlign, `temps, buf, buf.buf
      ensures Valid() && (buf.buf == old(buf.buf) || fresh(buf.buf))
      ensures (Model().buf, temps) == M.CreateStrings(old(Model()).buf, ss)
      ensures Model() == old(Model()).(buf := Model().buf)
      ensures Within(temps, |Model().buf.data|)
    {
      hide EncodeFields, EncodeOffsets, Readable, Offsets, V.CapacityOk, V.VectorDownward.Contents,
           V.VectorDownward.Scratch,
        M.CreateString, M.CreateStrings, Within;
      ghost var st := Model();
      var i := 0;
      NoStringsYet(st.buf, ss);
      while i < |ss|
        invariant i <= |ss| && Valid() && (buf.buf == old(buf.buf) || fresh(buf.buf))
        invariant buf.scratch == old(buf.scratch) + 4 * i
        invariant Model() == st.(buf := Model().buf)
        invariant (Model().buf, temps) == M.CreateStrings(st.buf, ss[..i])
        invariant Within(temps, |Model().buf.data|)
      {
        OneMoreString(st.buf, ss, i, Model().buf, temps);
        FewerStrings(st.buf, ss, i + 1);
        var off := CreateString(ss[i]);
        PushTemp(off);
        i := i + 1;
      }
      AllStrings(st.buf, ss);
    }

    method CreateVectorOfStrings(ss: seq<bytes>) returns (off: nat)
      requires Valid() && !nested && numFieldLoc == 0 && temps == []
      requires |M.CreateVectorOfStrings(Model().buf, ss).data| < M.LIMIT && buf.scratch + 4 * |ss| < V.UOFFSET
      modifies `minAlign, `nested, `temps, buf, buf.buf
      ensures Valid() && (buf.buf == old(buf.buf) || fresh(buf.buf)) && temps == []
      ensures Model() == old(Model()).(buf := M.CreateVectorOfStrings(old(Model()).buf, ss)) && off == buf.size
    {
      hide EncodeFields, EncodeOffsets, Readable, Offsets, V.CapacityOk, V.VectorDownward.Contents,
           V.VectorDownward.Scratch,
        M.CreateStrings, M.StartVector, M.PushOffsets, M.PushElement, Within, V.Perform;
      StringVectorSizes(Model().buf, ss);
      buf.EnsureSpace(4 * |ss|);
      CreateStrings(ss);
      ghost var b := Model().buf;
      PushedBelow(b, temps);
      StartVector(|ss|, 4);
      WithinLarger(temps, |b.data|, |Model().buf.data|);
      PushTemps(|ss|);
      PopTemps(|ss|);
      off := EndVector(|ss|);
    }

    // ---------- Finish ----------

    method Finish(root: nat)
      requires Valid() && !finished && !nested && numFieldLoc == 0 && temps == [] && 0 < root <= buf.size
      requires buf.size + 48 <= V.UOFFSET
      modifies `minAlign, `vtables, `finished, buf, buf.buf
      ensures Valid() && (buf.buf == old(buf.buf) || fresh(buf.buf))
      ensures Model() == M.Finish(old(Model()), root)
    {
      hide EncodeFields, EncodeOffsets, V.CapacityOk, V.VectorDownward.Contents, V.VectorDownward.Scratch,
        M.PushElement, M.PushOffset, M.PreAlign;
      EmptyLists();
      buf.ClearScratch();
      vtables := [];
      PreAlignSmall(Model().buf, 4, minAlign);
      PreAlign(4, minAlign);
      PushOffset(root);
      finished := true;
    }

    /** GetBufferPointer and GetSize. */
    method Bytes() returns (s: bytes)
      requires Valid() && finished
      ensures s == Model().buf.data
    {
      s := buf.buf[buf.cur..];
    }
  }

  // ---------- The three lists ----------

  predicate Offsets(vs: seq<nat>) {
    forall i :: 0 <= i < |vs| ==> vs[i] < Pow256(4)
  }

  predicate Locations(fs: seq<M.FieldLoc>) {
    forall i :: 0 <= i < |fs| ==> fs[i].off < Pow256(4) && fs[i].id < Pow256(2)
  }

  /** Every remembered vtable lies in the data, as long as its own size says. */
  predicate Readable(d: bytes, vs: seq<nat>) {
    forall i :: 0 <= i < |vs| ==> vs[i] <= |d| && VTableAt(d, vs[i]).Ok?
  }

  /** The first n bytes are a vtable: they begin with their own number. */
  predicate NamesItsSize(d: bytes, n: nat) {
    n <= |d| && Load(d, 0, 2) == Ok(n)
  }

  lemma ReadablePrepended(d: bytes, s: bytes, vs: seq<nat>)
    requires Readable(d, vs)
    ensures Readable(s + d, vs)
  {
    PrependExtends(s, d);
    hide VTableAt, Extends;
    forall i | 0 <= i < |vs| ensures VTableAt(s + d, vs[i]).Ok? { VTableAtExtends(d, s + d, vs[i]); }
  }

  lemma PreAlignSmall(b: M.Buf, len: nat, a: nat)
    requires IsAlign(a)
    ensures |b.data| <= |M.PreAlign(b, len, a).data| < |b.data| + a
  {
  }

  lemma FourAligns()
    ensures IsAlign(4)
  {
  }

  lemma NothingInFront(d: bytes)
    ensures [] + d == d
  {
  }

  /** A new string lies in front of everything that was there. */
  lemma CreateStringBehind(b: M.Buf, s: bytes)
    ensures var d := M.CreateString(b, s).data;
            |b.data| <= |d| && d[|d| - |b.data|..] == b.data
  {
    var p := Padding(|b.data| + |s| + 1, 4);
    var b1 := M.PushBytes(M.Pad(M.PreAlign(b, |s| + 1, 4), 1), s);
    assert b1.data == s + (Zeros(1) + (Zeros(p) + b.data));
  }

  // ---------- Vectors of offsets ----------

  predicate Within(offs: seq<nat>, size: nat)
    ensures Within(offs, size) ==> forall o :: o in offs ==> o <= size
  {
    forall o :: o in offs ==> 0 < o <= size
  }

  lemma WithinLarger(offs: seq<nat>, size: nat, larger: nat)
    requires Within(offs, size) && size <= larger
    ensures Within(offs, larger) && offs[..|offs|] == offs
  {
  }

  lemma PushOffsetsStep(b: M.Buf, offs: seq<nat>, i: nat)
    requires i < |offs| && Within(offs[..i + 1], |b.data|)
    ensures 0 < offs[i] <= |b.data| <= |M.PushOffset(b, offs[i]).data| <= |b.data| + 12
    ensures Within(offs[..i], |M.PushOffset(b, offs[i]).data|)
    ensures M.PushOffsets(b, offs[..i + 1]) == M.PushOffsets(M.PushOffset(b, offs[i]), offs[..i])
  {
    hide M.PushElement;
    var part := offs[..i + 1];
    assert part[i] in part && part[..i] == offs[..i];
    forall o | o in offs[..i] ensures 0 < o <= |b.data| { assert o in part; }
    PushElementSize(M.Align(b, 4), 4, M.ReferTo(M.Align(b, 4), offs[i]));
  }

  lemma PushElementSize(b: M.Buf, w: nat, value: nat)
    requires IsAlign(w)
    ensures |b.data| + w <= |M.PushElement(b, w, value).data| < |b.data| + 2 * w
  {
  }

  lemma PushOffsetsNone(b: M.Buf, offs: seq<nat>)
    ensures offs[..0] == [] && M.PushOffsets(b, []) == b
  {
  }

  lemma AppendAssociates(x: bytes, y: bytes, z: bytes)
    ensures x + (y + z) == x + y + z
  {
  }

  /** Offset k of those parked at the end is read back. */
  lemma ParkedOffset(front: bytes, temps: seq<nat>, k: nat)
    requires k < |temps| && Offsets(temps)
    ensures var s := front + EncodeOffsets(temps);
            var it := |s| - 4 * (|temps| - k);
            0 <= it && it + 4 <= |s| && FromLE(s[it..it + 4]) == temps[k]
  {
    hide FromLE, Pow256, EncodeOffsets;
    OffsetAt(temps, k);
    Slice(front, EncodeOffsets(temps), 4 * k, 4 * k + 4);
  }

  /** What is pushed on the way to a vector of offsets is no longer than the vector. */
  lemma PushedBelow(b: M.Buf, offs: seq<nat>)
    requires Within(offs, |b.data|)
    ensures var b1 := M.StartVector(b, |offs|, 4);
            && |b.data| <= |b1.data| && Within(offs, |b1.data|)
            && |M.PushOffsets(b1, offs).data| + 4 <= |M.CreateOffsetVector(b, offs).data|
  {
    hide M.PushOffsets, M.PreAlign;
    O.StartVectorLonger(b, |offs|);
    O.PushElementLonger(M.PushOffsets(M.StartVector(b, |offs|, 4), offs), |offs|);
  }

  lemma {:induction false} FewerStrings(b: M.Buf, ss: seq<bytes>, i: nat)
    requires i <= |ss|
    ensures |M.CreateStrings(b, ss[..i]).0.data| <= |M.CreateStrings(b, ss).0.data|
    decreases |ss|
  {
    hide M.CreateString;
    if i == |ss| {
      assert ss[..i] == ss;
    } else {
      var n := |ss| - 1;
      assert ss[..n][..i] == ss[..i];
      FewerStrings(b, ss[..n], i);
    }
  }

  lemma StringVectorSizes(b: M.Buf, ss: seq<bytes>)
    ensures var (mid, offs) := M.CreateStrings(b, ss);
            var r := |M.CreateVectorOfStrings(b, ss).data|;
            && |offs| == |ss|
            && |mid.data| <= |M.StartVector(mid, |ss|, 4).data|
                && |M.StartVector(mid, |ss|, 4).data| + 4 * |ss| + 4 <= r
  {
    hide M.CreateStrings, M.CreateOffsetVector, M.StartVector;
    var (mid, offs) := M.CreateStrings(b, ss);
    O.OffsetVectorLonger(mid, offs);
    O.StartVectorLonger(mid, |offs|);
  }

  lemma NoStringsYet(b: M.Buf, ss: seq<bytes>)
    ensures ss[..0] == [] && M.CreateStrings(b, ss[..0]) == (b, [])
    ensures Within([], |b.data|)
  {
  }

  lemma CreateStringSize(b: M.Buf, s: bytes)
    ensures |b.data| + |s| + 5 <= |M.CreateString(b, s).data| <= |b.data| + |s| + 12
  {
    hide M.PushElement, M.PreAlign;
    PreAlignSmall(b, |s| + 1, 4);
    PushElementSize(M.PushBytes(M.Pad(M.PreAlign(b, |s| + 1, 4), 1), s), 4, |s|);
  }

  lemma OneMoreString(b: M.Buf, ss: seq<bytes>, i: nat, mid: M.Buf, offs: seq<nat>)
    requires i < |ss| && (mid, offs) == M.CreateStrings(b, ss[..i]) && Within(offs, |mid.data|)
    ensures var r := M.CreateString(mid, ss[i]);
            && (r, offs + [|r.data|]) == M.CreateStrings(b, ss[..i + 1])
            && Within(offs + [|r.data|], |r.data|)
            && |mid.data| + |ss[i]| + 5 <= |r.data|
  {
    hide M.CreateString;
    CreateStringSize(mid, ss[i]);
    assert ss[..i + 1][..i] == ss[..i];
  }

  lemma AllStrings(b: M.Buf, ss: seq<bytes>)
    ensures ss[..|ss|] == ss
  {
  }

  // ---------- Steps of EndTable ----------

  /** The data once the new vtable is in front of the table. */
  function WithVTable(st: M.Builder, start: nat): bytes
    requires M.CanEnd(st, start)
  {
    M.NewVTable(st, start) + M.TableObject(st.buf).data
  }

  /** The new vtable, in front of the table, names its own size, and all remembered ones lie behind. */
  lemma VTableInFront(st: M.Builder, start: nat)
    requires Endable(st, start) && Readable(st.buf.data, st.vtables)
    ensures M.CanEnd(st, start) && |M.NewVTable(st, start)| >= 4 && |M.TableObject(st.buf).data| == M.TableLoc(st)
    ensures |WithVTable(st, start)| == |M.NewVTable(st, start)| + M.TableLoc(st)
    ensures NamesItsSize(WithVTable(st, start), |M.NewVTable(st, start)|)
    ensures forall i :: 0 <= i < |st.vtables| ==> st.vtables[i] < M.TableLoc(st)
  {
    hide M.NewVTable, M.TableObject, LayoutOk, FromLE;
    NewVTableDescribes(st, start);
    var vt := M.NewVTable(st, start);
    assert (vt + M.TableObject(st.buf).data)[0..2] == vt[0..2];
  }

  /** The remembered vtable equal to the bytes in front of the table, when sharing is on. */
  function SharedIn(d: bytes, vtables: seq<nat>, dedup: bool, loc: nat): Option<nat>
    requires loc <= |d|
  {
    if dedup then M.FindVTable(d, vtables, d[..|d| - loc]) else None
  }

  /** What stays of the data: a shared vtable's duplicate is popped. */
  function Kept(d: bytes, loc: nat, found: Option<nat>): bytes
    requires loc <= |d|
  {
    if found.Some? then d[|d| - loc..] else d
  }

  /** EndTable, as its last three steps: keep or pop the vtable, remember it if new, fill the table's first word. */
  lemma EndTableSteps(st: M.Builder, start: nat, d: bytes, loc: nat, found: Option<nat>, vtUse: nat,
      mid: M.Builder)
    requires M.CanEnd(st, start) && |M.TableObject(st.buf).data| == M.TableLoc(st) == loc
    requires d == WithVTable(st, start)
    requires found == SharedIn(d, st.vtables, st.dedup, loc) && vtUse == if found.Some? then found.value else |d|
    requires mid == st.(
                buf := M.Buf(Kept(d, loc, found), M.TableObject(st.buf).minAlign),
                vtables := if found.Some? then st.vtables else st.vtables + [vtUse],
                fields := [], maxVoffset := 0)
    ensures 4 <= loc <= |mid.buf.data|
    ensures M.EndTable(st, start) == mid.(
              buf := M.Buf(V.Patched(mid.buf.data, loc, ToLE(Unsigned(vtUse - loc, 4), 4)), mid.buf.minAlign),
              nested := false)
  {
    hide M.NewVTable, M.FindVTable, M.CanEnd, ToLE, Unsigned, M.TableLoc, M.TableObject, V.Patched, M.SharedVTable,
         SharedIn,
      WithVTable, Kept;
    var vt, obj := M.NewVTable(st, start), M.TableObject(st.buf).data;
    SharedInIsShared(st, start, d, loc, found);
    PatchBehind(if found.Some? then [] else vt, obj, ToLE(Unsigned(vtUse - loc, 4), 4));
  }

  lemma SharedInIsShared(st: M.Builder, start: nat, d: bytes, loc: nat, found: Option<nat>)
    requires M.CanEnd(st, start) && |M.TableObject(st.buf).data| == M.TableLoc(st) == loc
    requires d == WithVTable(st, start) && found == SharedIn(d, st.vtables, st.dedup, loc)
    ensures found == M.SharedVTable(st, start) && |d| == |M.NewVTable(st, start)| + loc
    ensures Kept(d, loc, found) == (if found.Some? then [] else M.NewVTable(st, start)) + M.TableObject(st.buf).data
  {
    hide M.NewVTable, M.FindVTable, M.CanEnd, M.TableLoc, M.TableObject;
    FrontAndRest(M.NewVTable(st, start), M.TableObject(st.buf).data);
  }

  lemma FrontAndRest(x: bytes, y: bytes)
    ensures (x + y)[..|x + y| - |y|] == x && (x + y)[|x + y| - |y|..] == y && [] + y == y
  {
  }

  lemma PatchBehind(x: bytes, obj: bytes, s: bytes)
    requires |s| == 4 && |obj| >= 4
    ensures V.Patched(x + obj, |obj|, s) == x + (s + obj[4..])
  {
  }

  lemma EndTableReadable(st: M.Builder, start: nat)
    requires Endable(st, start) && M.CanEnd(st, start) && Readable(st.buf.data, st.vtables)
    ensures Readable(M.EndTable(st, start).buf.data, M.EndTable(st, start).vtables)
  {
    hide Endable, M.CanEnd, VTableAt, M.NewVTable, M.UsedVTable, M.SharedVTable;
    var r := M.EndTable(st, start);
    EndTableUsesVTable(st, start);
    NewVTableReadable(st, start);
    forall i | 0 <= i < |st.vtables| ensures VTableAt(r.buf.data, st.vtables[i]).Ok? {
      VTableAtExtends(st.buf.data, r.buf.data, st.vtables[i]);
    }
  }

  lemma EndableSizes(st: M.Builder, start: nat)
    requires Endable(st, start)
    ensures start <= M.TableLoc(st) && M.TableLoc(st) + M.VTableSize(st.maxVoffset) < V.UOFFSET
    ensures |st.buf.data| + 8 < V.UOFFSET
    ensures M.TableObject(st.buf) == M.PushElement(st.buf, 4, 0)
  {
  }

  lemma TableObjectReadable(b: M.Buf, vs: seq<nat>)
    requires Readable(b.data, vs)
    ensures Readable(M.TableObject(b).data, vs)
  {
    hide Readable;
    ReadablePrepended(b.data, Zeros(Padding(|b.data|, 4)), vs);
    ReadablePrepended(Zeros(Padding(|b.data|, 4)) + b.data, ToLE(0, 4), vs);
  }

  lemma EmptyLists()
    ensures EncodeOffsets([]) == [] && EncodeFields([]) == []
  {
  }

  /** Popping the bytes in front leaves every vtable behind them readable. */
  lemma ReadablePopped(d: bytes, n: nat, vs: seq<nat>)
    requires n <= |d| && Readable(d, vs) && forall i :: 0 <= i < |vs| ==> vs[i] <= |d| - n
    ensures Readable(d[n..], vs)
  {
    hide VTableAt;
    forall i | 0 <= i < |vs| ensures VTableAt(d[n..], vs[i]).Ok? { VTablePopped(d, n, vs[i]); }
  }

  lemma VTablePopped(d: bytes, n: nat, v: nat)
    requires n <= |d| && v <= |d| - n && VTableAt(d, v).Ok?
    ensures VTableAt(d[n..], v).Ok?
  {
    assert d[n..][|d| - n - v..|d| - n - v + 2] == d[|d| - v..|d| - v + 2];
  }

  lemma ScratchField(front: bytes, fields: seq<M.FieldLoc>, i: nat)
    requires i < |fields| && Locations(fields)
    ensures var s := front + EncodeFields(fields);
            var it := |s| - 8 * (|fields| - i);
            && it + 8 <= |s|
            && FromLE(s[it..it + 4]) == fields[i].off && FromLE(s[it + 4..it + 6]) == fields[i].id
  {
    hide FromLE, FieldRecord, EncodeFields;
    RecordAt(fields, i);
    RecordParts(fields[i]);
    var e := EncodeFields(fields);
    SliceInSlice(e, 8 * i, FieldRecord(fields[i]), 0, 4);
    SliceInSlice(e, 8 * i, FieldRecord(fields[i]), 4, 6);
    Slice(front, e, 8 * i, 8 * i + 4);
    Slice(front, e, 8 * i + 4, 8 * i + 6);
  }

  lemma SliceInSlice(e: bytes, at: nat, r: bytes, i: nat, j: nat)
    requires i <= j <= |r| && at + |r| <= |e| && e[at..at + |r|] == r
    ensures e[at + i..at + j] == r[i..j]
  {
    forall k | 0 <= k < j - i ensures e[at + i..at + j][k] == r[i..j][k] {
      assert e[at..at + |r|][i + k] == r[i + k];
    }
  }

  lemma FillStart(vt: bytes, fields: seq<M.FieldLoc>, loc: nat)
    ensures M.FieldsFit(fields[..0], loc, |vt|) && M.FillVTable(vt, fields[..0], loc) == vt
    ensures fields[..|fields|] == fields
  {
    assert fields[..0] == [];
  }

  lemma FillStep(vt: bytes, fields: seq<M.FieldLoc>, loc: nat, i: nat)
    requires i < |fields| && M.FieldsFit(fields, loc, |vt|)
    ensures fields[i].id + 2 <= |vt| && fields[i].off < loc
    ensures M.FieldsFit(fields[..i], loc, |vt|) && M.FieldsFit(fields[..i + 1], loc, |vt|)
    ensures M.FillVTable(vt, fields[..i + 1], loc)
            == M.WriteAt(M.FillVTable(vt, fields[..i], loc), fields[i].id, ToLE(loc - fields[i].off, 2))
  {
    hide M.WriteAt;
    assert fields[..i + 1][..i] == fields[..i];
  }

  lemma WriteAtFront(vt: bytes, rest: bytes, pos: nat, s: bytes)
    requires pos + |s| <= |vt|
    ensures V.Patched(vt + rest, |vt + rest| - pos, s) == M.WriteAt(vt, pos, s) + rest
  {
  }

  lemma {:induction false} FindsFirst(d: bytes, vs: seq<nat>, vt: bytes, i: nat)
    requires i < |vs| && M.SameVTable(d, vs[i], vt)
    requires forall j :: 0 <= j < i ==> !M.SameVTable(d, vs[j], vt)
    ensures M.FindVTable(d, vs, vt) == Some(vs[i])
    decreases i
  {
    hide M.SameVTable;
    if i > 0 { FindsFirst(d, vs[1..], vt, i - 1); }
  }

  lemma {:induction false} FindsNone(d: bytes, vs: seq<nat>, vt: bytes)
    requires forall j :: 0 <= j < |vs| ==> !M.SameVTable(d, vs[j], vt)
    ensures M.FindVTable(d, vs, vt) == None
    decreases |vs|
  {
    hide M.SameVTable;
    if vs != [] { FindsNone(d, vs[1..], vt); }
  }
}
