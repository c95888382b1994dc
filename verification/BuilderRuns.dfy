/**
 Whole buffers: any sequence of strings, shared strings, vectors, vectors of offsets,
 vectors of strings and tables, in any order and with any references to earlier objects,
 reads back from the finished buffer, every datum aligned from the buffer's start.
 */
module BuilderRuns {
  import opened Bytes
  import opened Wrappers
  import opened Table
  import opened BuilderModel
  import opened TableLayout
  import opened TableRoundTrip
  import opened Objects
  import opened VTableSharing

  /** A field of a table to be built; a reference names an earlier object by its index. */
  datatype FieldSpec =
    | ScalarSpec(id: nat, width: nat, value: nat, def: nat)
    | RefSpec(id: nat, obj: Option<nat>)

  datatype Command =
    | Str(s: bytes)
    | Shared(s: bytes)
    | Vec(len: nat, w: nat, raw: bytes)
    | Offs(objs: seq<nat>)
    | Strs(ss: seq<bytes>)
    | Tab(fields: seq<FieldSpec>)

  /** The builder, and the offset of every object created so far. */
  datatype Run = Run(st: Builder, offs: seq<nat>)

  function ResolveField(f: FieldSpec, offs: seq<nat>): Field {
    match f
    case ScalarSpec(id, width, value, def) => Scalar(id, width, value, def)
    case RefSpec(id, None) => Ref(id, 0)
    case RefSpec(id, Some(obj)) => Ref(id, if obj < |offs| then offs[obj] else 0)
  }

  function ResolveFields(fs: seq<FieldSpec>, offs: seq<nat>): (r: seq<Field>)
    ensures |r| == |fs|
  {
    seq(|fs|, i requires 0 <= i < |fs| => ResolveField(fs[i], offs))
  }

  function ResolveObjects(objs: seq<nat>, offs: seq<nat>): (r: seq<nat>)
    ensures |r| == |objs|
  {
    seq(|objs|, i requires 0 <= i < |objs| => if objs[i] < |offs| then offs[objs[i]] else 0)
  }

  predicate Written(st: Builder, offs: seq<nat>) {
    forall i :: 0 <= i < |offs| ==> 0 < offs[i] <= |st.buf.data|
  }

  lemma ResolvedWritten(st: Builder, offs: seq<nat>, objs: seq<nat>)
    requires Written(st, offs) && forall i :: 0 <= i < |objs| ==> objs[i] < |offs|
    ensures forall o :: o in ResolveObjects(objs, offs) ==> 0 < o <= |st.buf.data|
  {
    var r := ResolveObjects(objs, offs);
    forall o | o in r ensures 0 < o <= |st.buf.data| {
      var i :| 0 <= i < |r| && r[i] == o;
      assert objs[i] < |offs|;
    }
  }

  /**
   The command respects the source's asserts: references are to finished objects, and the buffer stays
   below its limit.
   */
  predicate Fits(run: Run, cmd: Command)
    requires Written(run.st, run.offs)
  {
    match cmd
    case Str(s) => |CreateString(run.st.buf, s).data| < LIMIT
    case Shared(s) => |CreateString(run.st.buf, s).data| < LIMIT
    case Vec(len, w, raw) =>
      (w == 1 || w == 2 || w == 4 || w == 8) && |raw| == len * w && |CreateVector(run.st.buf, len, w, raw).data| < LIMIT
    case Offs(objs) =>
      && (forall i :: 0 <= i < |objs| ==> objs[i] < |run.offs|)
      && (ResolvedWritten(run.st, run.offs, objs);
          |CreateOffsetVector(run.st.buf, ResolveObjects(objs, run.offs)).data| < LIMIT)
    case Strs(ss) => |CreateVectorOfStrings(run.st.buf, ss).data| < LIMIT
    case Tab(fs) =>
      && (forall i :: 0 <= i < |fs| ==> FieldClosed(fs[i], |run.offs|))
      && TableFits(run.st, ResolveFields(fs, run.offs))
  }

  function Step(run: Run, cmd: Command): Run
    requires Idle(run.st) && Written(run.st, run.offs) && Fits(run, cmd)
  {
    match cmd
    case Str(s) => Push(run, CreateString(run.st.buf, s))
    case Shared(s) =>
      var (st, off) := CreateSharedString(run.st, s);
      Run(st, run.offs + [off])
    case Vec(len, w, raw) => Push(run, CreateVector(run.st.buf, len, w, raw))
    case Offs(objs) =>
      ResolvedWritten(run.st, run.offs, objs);
      Push(run, CreateOffsetVector(run.st.buf, ResolveObjects(objs, run.offs)))
    case Strs(ss) => Push(run, CreateVectorOfStrings(run.st.buf, ss))
    case Tab(fs) =>
      var resolved := ResolveFields(fs, run.offs);
      Run(CreateTable(run.st, resolved), run.offs + [TableOffset(run.st, resolved)])
  }

  function Push(run: Run, buf: Buf): Run {
    Run(run.st.(buf := buf), run.offs + [|buf.data|])
  }

  // ---------- What an object means ----------

  /** Element i of the vector of strings at `off` leads to an aligned string with the contents `s`. */
  predicate StringElementReads(d: bytes, off: nat, i: nat, s: bytes) {
    var p := VectorGetPointer(d, |d| - off, i);
    p.Ok? && 0 <= p.value <= |d| && StringReads(d, |d| - p.value, s)
  }

  predicate StringVectorReads(d: bytes, off: nat, ss: seq<bytes>) {
    && off <= |d| && Aligned(off, 4)
    && VectorSize(d, |d| - off) == Ok(|ss|)
    && (forall i :: 0 <= i < |ss| ==> StringElementReads(d, off, i, ss[i]))
  }

  /** The object at `off` reads back as what `cmd` asked for. */
  ghost predicate Reads(d: bytes, offs: seq<nat>, cmd: Command, off: nat, force: bool) {
    match cmd
    case Str(s) => StringReads(d, off, s)
    case Shared(s) => StringReads(d, off, s)
    case Vec(len, w, raw) => VectorReads(d, off, len, w, raw)
    case Offs(objs) => OffsetVectorReads(d, off, ResolveObjects(objs, offs))
    case Strs(ss) => StringVectorReads(d, off, ss)
    case Tab(fs) => TableReads(d, off, ResolveFields(fs, offs), force) && VTableEven(d, off)
  }

  predicate FieldClosed(f: FieldSpec, n: nat) {
    match f
    case ScalarSpec(id, w, value, def) => w == 1 || w == 2 || w == 4 || w == 8
    case RefSpec(id, obj) => obj.Some? ==> obj.value < n
  }

  /** Widths are those of scalars, and references of a command are to objects that exist when it runs. */
  predicate Closed(cmd: Command, n: nat) {
    match cmd
    case Vec(len, w, raw) => w == 1 || w == 2 || w == 4 || w == 8
    case Offs(objs) => forall i :: 0 <= i < |objs| ==> objs[i] < n
    case Tab(fs) => forall i :: 0 <= i < |fs| ==> FieldClosed(fs[i], n)
    case _ => true
  }

  lemma StringVectorExtends(d: bytes, e: bytes, off: nat, ss: seq<bytes>)
    requires Extends(d, e) && StringVectorReads(d, off, ss)
    ensures StringVectorReads(e, off, ss)
  {
    LoadExtends(d, e, |d| - off, 4);
    forall i | 0 <= i < |ss| ensures StringElementReads(e, off, i, ss[i]) {
      assert StringElementReads(d, off, i, ss[i]);
      LoadExtends(d, e, |d| - off + 4 + i * 4, 4);
      StringReadsExtends(d, e, |d| - VectorGetPointer(d, |d| - off, i).value, ss[i]);
    }
  }

  /** Objects are undisturbed by later ones. */
  lemma ReadsExtends(d: bytes, e: bytes, offs: seq<nat>, more: seq<nat>, cmd: Command, off: nat, force: bool)
    requires Extends(d, e) && Reads(d, offs, cmd, off, force) && Closed(cmd, |offs|)
    ensures Reads(e, offs + more, cmd, off, force)
  {
    match cmd
    case Str(s) => StringReadsExtends(d, e, off, s);
    case Shared(s) => StringReadsExtends(d, e, off, s);
    case Vec(len, w, raw) => VectorReadsExtends(d, e, off, len, w, raw);
    case Offs(objs) =>
      assert ResolveObjects(objs, offs + more) == ResolveObjects(objs, offs);
      OffsetVectorReadsExtends(d, e, off, ResolveObjects(objs, offs));
    case Strs(ss) => StringVectorExtends(d, e, off, ss);
    case Tab(fs) =>
      assert ResolveFields(fs, offs + more) == ResolveFields(fs, offs);
      TableReadsExtends(d, e, off, ResolveFields(fs, offs), force);
      VTableEvenExtends(d, e, off);
  }

  // ---------- The invariant of every run ----------

  /** Strings in the pool can be read and are pairwise different. */
  predicate PoolOk(st: Builder) {
    && (forall i :: 0 <= i < |st.strings| ==> 0 < st.strings[i] <= |st.buf.data|
                                              && StringReads(st.buf.data, st.strings[i],
                                                  StringAt(st.buf.data, st.strings[i])))
    && (forall i, j :: 0 <= i < j < |st.strings| ==>
          StringAt(st.buf.data, st.strings[i]) != StringAt(st.buf.data, st.strings[j]))
  }

  predicate FieldAlignmentTracked(m: nat, f: FieldSpec, force: bool) {
    f.ScalarSpec? && (force || f.value != f.def) ==> m >= f.width
  }

  /** The widest alignment an object uses is covered by the buffer's. */
  predicate AlignmentTracked(m: nat, cmd: Command, force: bool) {
    && m >= 4
    && (cmd.Vec? && cmd.len > 0 ==> m >= cmd.w)
    && (cmd.Tab? ==> forall i :: 0 <= i < |cmd.fields| ==> FieldAlignmentTracked(m, cmd.fields[i], force))
  }

  ghost predicate RunOk(run: Run, cmds: seq<Command>) {
    && |run.offs| == |cmds|
    && Idle(run.st) && Written(run.st, run.offs) && PoolOk(run.st) && VTablesOk(run.st) && VTablesEven(run.st)
    && IsAlign(run.st.buf.minAlign)
    && (forall i :: 0 <= i < |cmds| ==>
          && Closed(cmds[i], i)
          && Reads(run.st.buf.data, run.offs, cmds[i], run.offs[i], run.st.forceDefaults)
          && AlignmentTracked(run.st.buf.minAlign, cmds[i], run.st.forceDefaults))
    && (forall i :: 0 <= i < |cmds| && cmds[i].Shared? ==> run.offs[i] in run.st.strings)
  }

  lemma StringAtExtends(d: bytes, e: bytes, off: nat, s: bytes)
    requires Extends(d, e) && StringReads(d, off, s)
    ensures StringAt(d, off) == s && StringAt(e, off) == s && StringReads(e, off, s)
  {
    StringReadsExtends(d, e, off, s);
  }

  lemma PoolExtends(st: Builder, r: Builder)
    requires PoolOk(st) && Grew(st.buf, r.buf) && r.strings == st.strings
    ensures PoolOk(r)
    ensures forall i :: 0 <= i < |st.strings| ==>
              StringAt(r.buf.data, st.strings[i]) == StringAt(st.buf.data, st.strings[i])
  {
    hide StringReads, StringAt, Extends;
    forall i | 0 <= i < |st.strings|
      ensures StringReads(r.buf.data, st.strings[i], StringAt(r.buf.data, st.strings[i]))
      ensures StringAt(r.buf.data, st.strings[i]) == StringAt(st.buf.data, st.strings[i])
    {
      StringAtExtends(st.buf.data, r.buf.data, st.strings[i], StringAt(st.buf.data, st.strings[i]));
    }
    assert |r.buf.data| >= |st.buf.data| by { GrewLonger(st.buf, r.buf); }
  }

  /** What a step has to establish about the object it creates. */
  ghost predicate Creates(run: Run, cmds: seq<Command>, cmd: Command, st: Builder, off: nat) {
    && Grew(run.st.buf, st.buf) && Idle(st) && PoolOk(st) && VTablesOk(st) && VTablesEven(st)
    && IsAlign(st.buf.minAlign)
    && st.forceDefaults == run.st.forceDefaults && st.dedup == run.st.dedup
    && 0 < off <= |st.buf.data|
    && Closed(cmd, |cmds|)
    && Reads(st.buf.data, run.offs, cmd, off, st.forceDefaults)
    && AlignmentTracked(st.buf.minAlign, cmd, st.forceDefaults)
    && (forall o :: o in run.st.strings ==> o in st.strings)
    && (cmd.Shared? ==> off in st.strings)
  }

  lemma CreatesKeepsRunOk(run: Run, cmds: seq<Command>, cmd: Command, st: Builder, off: nat)
    requires RunOk(run, cmds) && Creates(run, cmds, cmd, st, off)
    ensures RunOk(Run(st, run.offs + [off]), cmds + [cmd])
  {
    hide Reads, Idle, PoolOk, VTablesOk, IsAlign, Extends, Closed;
    var run', cmds' := Run(st, run.offs + [off]), cmds + [cmd];
    GrewLonger(run.st.buf, st.buf);
    forall i | 0 <= i < |cmds'|
      ensures Closed(cmds'[i], i)
      ensures Reads(st.buf.data, run'.offs, cmds'[i], run'.offs[i], st.forceDefaults)
      ensures AlignmentTracked(st.buf.minAlign, cmds'[i], st.forceDefaults)
    {
      if i < |cmds| {
        ClosedWeaken(cmds[i], i, |cmds|);
        ReadsExtends(run.st.buf.data, st.buf.data, run.offs, [off], cmds[i], run.offs[i], st.forceDefaults);
      } else {
        GrewRefl(st.buf);
        ReadsExtends(st.buf.data, st.buf.data, run.offs, [off], cmd, off, st.forceDefaults);
      }
    }
  }

  lemma ClosedWeaken(cmd: Command, m: nat, n: nat)
    requires Closed(cmd, m) && m <= n
    ensures Closed(cmd, n)
  {
  }

  // ---------- Each command ----------

  lemma StrCreates(run: Run, cmds: seq<Command>, s: bytes)
    requires RunOk(run, cmds) && Fits(run, Str(s))
    ensures var r := Step(run, Str(s));
            r.offs == run.offs + [r.offs[|run.offs|]] && Creates(run, cmds, Str(s), r.st, r.offs[|run.offs|])
  {
    hide CreateString, StringReads, IsAlign;
    CreateStringReads(run.st.buf, s);
    PoolExtends(run.st, Step(run, Str(s)).st);
    VTablesOkExtends(run.st, Step(run, Str(s)).st);
  }

  lemma VecCreates(run: Run, cmds: seq<Command>, len: nat, w: nat, raw: bytes)
    requires RunOk(run, cmds) && Fits(run, Vec(len, w, raw))
    ensures var r := Step(run, Vec(len, w, raw));
            r.offs == run.offs + [r.offs[|run.offs|]] && Creates(run, cmds, Vec(len, w, raw), r.st, r.offs[|run.offs|])
  {
    assert IsAlign(w);
    hide CreateVector, VectorReads, IsAlign;
    VectorLength(run.st.buf, len, w, raw);
    CreateVectorReads(run.st.buf, len, w, raw);
    PoolExtends(run.st, Step(run, Vec(len, w, raw)).st);
    VTablesOkExtends(run.st, Step(run, Vec(len, w, raw)).st);
  }

  lemma VectorLength(b: Buf, len: nat, w: nat, raw: bytes)
    requires (w == 1 || w == 2 || w == 4 || w == 8) && |raw| == len * w
    ensures len <= |raw| < |CreateVector(b, len, w, raw).data|
  {
    hide PreAlign, Padding;
    PushElementLonger(PushBytes(StartVector(b, len, w), raw), len);
  }

  lemma OffsCreates(run: Run, cmds: seq<Command>, objs: seq<nat>)
    requires RunOk(run, cmds) && Fits(run, Offs(objs))
    ensures var r := Step(run, Offs(objs));
            r.offs == run.offs + [r.offs[|run.offs|]] && Creates(run, cmds, Offs(objs), r.st, r.offs[|run.offs|])
  {
    hide CreateOffsetVector, OffsetVectorReads, IsAlign;
    ResolvedWritten(run.st, run.offs, objs);
    CreateOffsetVectorReads(run.st.buf, ResolveObjects(objs, run.offs));
    PoolExtends(run.st, Step(run, Offs(objs)).st);
    VTablesOkExtends(run.st, Step(run, Offs(objs)).st);
  }

  /** The strings of a vector are all written. */
  predicate StringsWritten(b: Buf, r: Buf, offs: seq<nat>, ss: seq<bytes>) {
    && Grew(b, r) && |offs| == |ss|
    && (forall i :: 0 <= i < |ss| ==> 0 < offs[i] <= |r.data| && StringReads(r.data, offs[i], ss[i]))
  }

  lemma {:induction false} CreateStringsReads(b: Buf, ss: seq<bytes>)
    requires |CreateStrings(b, ss).0.data| < LIMIT
    ensures StringsWritten(b, CreateStrings(b, ss).0, CreateStrings(b, ss).1, ss)
    decreases |ss|
  {
    hide CreateString, StringsWritten;
    if ss == [] {
      NoStrings(b);
    } else {
      var n := |ss| - 1;
      CreateStringsReads(b, ss[..n]);
      var (b', offs) := CreateStrings(b, ss[..n]);
      OneMoreString(b, b', offs, ss[..n], ss[n]);
      assert ss == ss[..n] + [ss[n]];
    }
  }

  lemma NoStrings(b: Buf)
    ensures StringsWritten(b, b, [], [])
  {
    GrewRefl(b);
  }

  lemma OneMoreString(b: Buf, b': Buf, offs: seq<nat>, ss: seq<bytes>, s: bytes)
    requires StringsWritten(b, b', offs, ss) && |s| < LIMIT
    ensures var r := CreateString(b', s);
            StringsWritten(b, r, offs + [|r.data|], ss + [s])
  {
    hide CreateString, StringReads, IsAlign, Extends;
    var r := CreateString(b', s);
    CreateStringReads(b', s);
    GrewTransitive(b, b', r);
    assert (ss + [s])[..|ss|] == ss;
    forall i | 0 <= i < |ss| ensures StringReads(r.data, offs[i], ss[i]) {
      StringReadsExtends(b'.data, r.data, offs[i], ss[i]);
    }
  }

  lemma CreateVectorOfStringsReads(b: Buf, ss: seq<bytes>)
    requires |CreateVectorOfStrings(b, ss).data| < LIMIT
    ensures var r := CreateVectorOfStrings(b, ss);
            && Grew(b, r) && r.minAlign >= 4 && |b.data| < |r.data|
            && StringVectorReads(r.data, |r.data|, ss)
  {
    hide CreateStrings, StringReads, IsAlign, CreateOffsetVector;
    var (b', offs) := CreateStrings(b, ss);
    OffsetVectorLonger(b', offs);
    StartVectorLonger(b', |offs|);
    CreateStringsReads(b, ss);
    forall o | o in offs ensures 0 < o <= |b'.data| {
      var i :| 0 <= i < |offs| && offs[i] == o;
      assert 0 < offs[i];
    }
    var r := CreateOffsetVector(b', offs);
    CreateOffsetVectorReads(b', offs);
    GrewTransitive(b, b', r);
    GrewLonger(b, b');
    StringsThroughOffsets(b'.data, r.data, offs, ss);
  }

  lemma StringsThroughOffsets(d: bytes, e: bytes, offs: seq<nat>, ss: seq<bytes>)
    requires Extends(d, e) && |offs| == |ss|
    requires forall i :: 0 <= i < |ss| ==> StringReads(d, offs[i], ss[i])
    requires OffsetVectorReads(e, |e|, offs)
    ensures StringVectorReads(e, |e|, ss)
  {
    forall i | 0 <= i < |ss| ensures StringElementReads(e, |e|, i, ss[i]) {
      assert StringReads(d, offs[i], ss[i]);
      StringReadsExtends(d, e, offs[i], ss[i]);
      assert VectorGetPointer(e, 0, i) == Ok(|e| - offs[i]);
    }
  }

  lemma StrsCreates(run: Run, cmds: seq<Command>, ss: seq<bytes>)
    requires RunOk(run, cmds) && Fits(run, Strs(ss))
    ensures var r := Step(run, Strs(ss));
            r.offs == run.offs + [r.offs[|run.offs|]] && Creates(run, cmds, Strs(ss), r.st, r.offs[|run.offs|])
  {
    hide CreateVectorOfStrings, StringVectorReads, IsAlign;
    CreateVectorOfStringsReads(run.st.buf, ss);
    PoolExtends(run.st, Step(run, Strs(ss)).st);
    VTablesOkExtends(run.st, Step(run, Strs(ss)).st);
  }

  /** Sharing: an equal string already in the pool is reused and the bytes written for the new one are given back. */
  lemma SharedStringFacts(st: Builder, s: bytes)
    requires PoolOk(st) && |CreateString(st.buf, s).data| < LIMIT
    ensures var (r, off) := CreateSharedString(st, s);
            && Grew(st.buf, r.buf) && r.buf.minAlign >= 4 && PoolOk(r)
            && r == st.(buf := r.buf, strings := r.strings)
            && 0 < off <= |r.buf.data| && StringReads(r.buf.data, off, s)
            && off in r.strings && (forall o :: o in st.strings ==> o in r.strings)
            && ((exists o :: o in st.strings && StringAt(st.buf.data, o) == s) ==>
                  r.buf.data == st.buf.data && off in st.strings)
  {
    hide CreateString, StringReads, StringAt, Extends, IsAlign;
    var b := CreateString(st.buf, s);
    CreateStringReads(st.buf, s);
    var mid := st.(buf := b);
    PoolExtends(st, mid);
    GrewRefl(b);
    StringAtExtends(b.data, b.data, |b.data|, s);
    SharedStringChoice(st, mid, s, CreateSharedString(st, s).0, CreateSharedString(st, s).1);
  }

  /** `mid` is the builder with the new string written, `r` after the pool was consulted. */
  lemma SharedStringChoice(st: Builder, mid: Builder, s: bytes, r: Builder, off: nat)
    requires PoolOk(st) && PoolOk(mid) && mid == st.(buf := mid.buf)
    requires Grew(st.buf, mid.buf) && mid.buf.minAlign >= 4 && 0 < |mid.buf.data|
    requires forall i :: 0 <= i < |st.strings| ==>
               StringAt(mid.buf.data, st.strings[i]) == StringAt(st.buf.data, st.strings[i])
    requires StringReads(mid.buf.data, |mid.buf.data|, s) && StringAt(mid.buf.data, |mid.buf.data|) == s
    requires var found := FindString(mid.buf.data, st.strings, |mid.buf.data|);
             if found.Some? then r == st.(buf := Buf(st.buf.data, mid.buf.minAlign)) && off == found.value
             else r == mid.(strings := st.strings + [|mid.buf.data|]) && off == |mid.buf.data|
    ensures Grew(st.buf, r.buf) && r.buf.minAlign >= 4 && PoolOk(r)
    ensures 0 < off <= |r.buf.data| && StringReads(r.buf.data, off, s)
    ensures off in r.strings && (forall o :: o in st.strings ==> o in r.strings)
    ensures (exists o :: o in st.strings && StringAt(st.buf.data, o) == s) ==>
              r.buf.data == st.buf.data && off in st.strings
  {
    hide StringReads, StringAt, Extends, IsAlign;
    if FindString(mid.buf.data, st.strings, |mid.buf.data|).Some? {
      var i :| 0 <= i < |st.strings| && st.strings[i] == off;
      GrewRefl(st.buf);
    } else {
      forall i | 0 <= i < |st.strings| ensures StringAt(mid.buf.data, st.strings[i]) != s {
        assert st.strings[i] in st.strings;
      }
      assert forall o :: o in r.strings <==> o in st.strings || o == off;
      forall o | o in st.strings ensures StringAt(st.buf.data, o) != s {
        var i :| 0 <= i < |st.strings| && st.strings[i] == o;
      }
    }
  }

  lemma SharedCreates(run: Run, cmds: seq<Command>, s: bytes)
    requires RunOk(run, cmds) && Fits(run, Shared(s))
    ensures var r := Step(run, Shared(s));
            r.offs == run.offs + [r.offs[|run.offs|]] && Creates(run, cmds, Shared(s), r.st, r.offs[|run.offs|])
  {
    hide CreateSharedString, StringReads, IsAlign, PoolOk, VTablesOk, RunOk, Extends;
    assert PoolOk(run.st) && Idle(run.st) && |run.offs| == |cmds| by { RunOkParts(run, cmds); }
    SharedStringFacts(run.st, s);
    var (r, off) := CreateSharedString(run.st, s);
    GrewLonger(run.st.buf, r.buf);
    RunOkParts(run, cmds);
    VTablesOkExtends(run.st, r);
  }

  lemma RunOkParts(run: Run, cmds: seq<Command>)
    requires RunOk(run, cmds)
    ensures PoolOk(run.st) && VTablesOk(run.st) && VTablesEven(run.st) && Idle(run.st) && |run.offs| == |cmds|
            && Written(run.st, run.offs) && IsAlign(run.st.buf.minAlign)
  {
  }

  lemma ResolvedAlignment(fs: seq<FieldSpec>, offs: seq<nat>, m: nat, force: bool)
    requires forall i :: 0 <= i < |fs| && !ResolveFields(fs, offs)[i].Elided(force) ==>
               m >= ResolveFields(fs, offs)[i].Width()
    ensures forall i :: 0 <= i < |fs| ==> FieldAlignmentTracked(m, fs[i], force)
  {
    forall i | 0 <= i < |fs| ensures FieldAlignmentTracked(m, fs[i], force) {
      assert ResolveFields(fs, offs)[i] == ResolveField(fs[i], offs);
    }
  }

  lemma TabCreates(run: Run, cmds: seq<Command>, fs: seq<FieldSpec>)
    requires RunOk(run, cmds) && Fits(run, Tab(fs))
    ensures var r := Step(run, Tab(fs));
            r.offs == run.offs + [r.offs[|run.offs|]] && Creates(run, cmds, Tab(fs), r.st, r.offs[|run.offs|])
  {
    hide CreateTable, TableOffset, TableReads, VTableEven, VTablesEven, IsAlign, PoolOk, VTablesOk, RunOk, TableFits,
         Extends;
    RunOkParts(run, cmds);
    var resolved := ResolveFields(fs, run.offs);
    CreateTableReads(run.st, resolved);
    var st := CreateTable(run.st, resolved);
    CreateTableIdle(run.st, resolved);
    CreateTableVTables(run.st, resolved);
    CreateTableEven(run.st, resolved);
    PoolExtends(run.st, st);
    ResolvedAlignment(fs, run.offs, st.buf.minAlign, st.forceDefaults);
  }

  /** A finished table leaves the builder ready for the next object. */
  lemma CreateTableIdle(st: Builder, fs: seq<Field>)
    requires Idle(st) && TableFits(st, fs)
    ensures var r := CreateTable(st, fs);
            Idle(r) && r.strings == st.strings && r.forceDefaults == st.forceDefaults && r.dedup == st.dedup
  {
    AddedFieldsEndable(st, fs);
    EndTableIdle(AddedFields(st, fs), |st.buf.data|);
  }

  lemma EndTableIdle(st: Builder, start: nat)
    requires Endable(st, start) && CanEnd(st, start) && VTablesWritten(st)
    ensures Idle(EndTable(st, start))
  {
    hide NewVTable, UsedVTable, SharedVTable, TableLoc, Endable, CanEnd, Extends, LoadSigned, LoadBytes;
    var r := EndTable(st, start);
    EndTableUsesVTable(st, start);
    GrewLonger(st.buf, r.buf);
    assert UsedVTable(st, start) <= |r.buf.data|;
  }

  lemma CreateTableVTables(st: Builder, fs: seq<Field>)
    requires Idle(st) && TableFits(st, fs) && VTablesOk(st)
    ensures VTablesOk(CreateTable(st, fs))
  {
    hide EndTable, Stored, AddFields, AllWellFormed, DistinctIds, VTableSize;
    AddedFieldsEndable(st, fs);
    var added := AddedFields(st, fs);
    VTablesOkExtends(st, added);
    EndTableKeepsVTables(added, |st.buf.data|);
  }

  // ---------- Runs ----------

  lemma StepKeepsRunOk(run: Run, cmds: seq<Command>, cmd: Command)
    requires RunOk(run, cmds) && Fits(run, cmd)
    ensures RunOk(Step(run, cmd), cmds + [cmd])
    ensures run.offs <= Step(run, cmd).offs && Extends(run.st.buf.data, Step(run, cmd).st.buf.data)
    ensures Step(run, cmd).st.forceDefaults == run.st.forceDefaults && Step(run, cmd).st.dedup == run.st.dedup
  {
    hide RunOk, Fits, Creates, Step, Idle, Written;
    RunOkParts(run, cmds);
    StepCreates(run, cmds, cmd);
    var r := Step(run, cmd);
    CreatesKeepsRunOk(run, cmds, cmd, r.st, r.offs[|run.offs|]);
    CreatesParts(run, cmds, cmd, r.st, r.offs[|run.offs|]);
    assert r == Run(r.st, run.offs + [r.offs[|run.offs|]]);
  }

  lemma CreatesParts(run: Run, cmds: seq<Command>, cmd: Command, st: Builder, off: nat)
    requires Creates(run, cmds, cmd, st, off)
    ensures Extends(run.st.buf.data, st.buf.data)
    ensures st.forceDefaults == run.st.forceDefaults && st.dedup == run.st.dedup
  {
  }

  lemma StepCreates(run: Run, cmds: seq<Command>, cmd: Command)
    requires RunOk(run, cmds) && Fits(run, cmd)
    ensures var r := Step(run, cmd);
            r.offs == run.offs + [r.offs[|run.offs|]] && Creates(run, cmds, cmd, r.st, r.offs[|run.offs|])
  {
    hide Step, Fits, Creates;
    match cmd
    case Str(s) => StrCreates(run, cmds, s);
    case Shared(s) => SharedCreates(run, cmds, s);
    case Vec(len, w, raw) => VecCreates(run, cmds, len, w, raw);
    case Offs(objs) => OffsCreates(run, cmds, objs);
    case Strs(ss) => StrsCreates(run, cmds, ss);
    case Tab(fs) => TabCreates(run, cmds, fs);
  }

  function Fresh(forceDefaults: bool, dedup: bool): Builder {
    EMPTY.(forceDefaults := forceDefaults, dedup := dedup)
  }

  /** Runs the commands; None when an assert of the source would stop one of them. */
  function Execute(init: Builder, cmds: seq<Command>): Option<Run>
    decreases |cmds|
  {
    if cmds == [] then Some(Run(init, []))
    else
      var n := |cmds| - 1;
      var before := Execute(init, cmds[..n]);
      if before.Some? && Idle(before.value.st) && Written(before.value.st, before.value.offs)
          && Fits(before.value, cmds[n])
      then Some(Step(before.value, cmds[n]))
      else None
  }

  lemma {:induction false} ExecuteOk(init: Builder, cmds: seq<Command>)
    requires RunOk(Run(init, []), []) && Execute(init, cmds).Some?
    ensures RunOk(Execute(init, cmds).value, cmds)
    ensures Execute(init, cmds).value.st.forceDefaults == init.forceDefaults
    ensures Execute(init, cmds).value.st.dedup == init.dedup
    decreases |cmds|
  {
    if cmds != [] {
      hide RunOk, Step, Fits;
      var n := |cmds| - 1;
      ExecuteOk(init, cmds[..n]);
      StepKeepsRunOk(Execute(init, cmds[..n]).value, cmds[..n], cmds[n]);
      assert cmds == cmds[..n] + [cmds[n]];
    }
  }

  lemma FreshOk(forceDefaults: bool, dedup: bool)
    ensures RunOk(Run(Fresh(forceDefaults, dedup), []), [])
  {
  }

  // ---------- The finished buffer ----------

  /**
   Every datum of the object lies at a position, counted from the start, divisible by its
   size: lengths, offsets, elements, fields, the lengths of the strings of a vector, and the
   two-byte words of the table's vtable.
   */
  ghost predicate AlignedFromStart(d: bytes, cmd: Command, off: nat) {
    && off <= |d|
    && Aligned(|d| - off, 4)
    && (cmd.Vec? ==> forall i :: 0 <= i < cmd.len ==> Aligned(|d| - off + 4 + i * cmd.w, cmd.w))
    && (cmd.Offs? ==> forall i :: 0 <= i < |cmd.objs| ==> Aligned(|d| - off + 4 + i * 4, 4))
    && (cmd.Strs? ==> forall i :: 0 <= i < |cmd.ss| ==>
          Aligned(|d| - off + 4 + i * 4, 4) && ElementAlignedFromStart(d, off, i))
    && (cmd.Tab? ==> && (forall i :: 0 <= i < |cmd.fields| ==> FieldAlignedFromStart(d, |d| - off, cmd.fields[i]))
                     && VTableAlignedFromStart(d, |d| - off))
  }

  /** Element i of the vector of references at `off` leads to a multiple of four, where the object's first word lies. */
  predicate ElementAlignedFromStart(d: bytes, off: nat, i: nat) {
    var p := VectorGetPointer(d, |d| - off, i);
    p.Ok? && 0 <= p.value <= |d| && Aligned(p.value, 4)
  }

  /** The vtable of the table at `t` lies at an even position, and with it all its two-byte words. */
  predicate VTableAlignedFromStart(d: bytes, t: nat) {
    var v := GetVTable(d, t);
    v.Ok? && 0 <= v.value <= |d| && Aligned(v.value, 2)
  }

  predicate FieldAlignedFromStart(d: bytes, t: nat, f: FieldSpec) {
    var fo := GetOptionalFieldOffset(d, t, f.id);
    fo.Ok? && (fo.value != 0 ==> Aligned(t + fo.value, if f.ScalarSpec? then f.width else 4))
  }

  lemma StartAligned(total: nat, off: nat, m: nat, a: nat)
    requires IsAlign(m) && IsAlign(a) && a <= m && off <= total
    requires Aligned(total, m) && Aligned(off, a)
    ensures Aligned(total - off, a)
  {
    AlignedWeaker(total, m, a);
    AlignedDifference(total, off, a);
  }

  /** Elements behind an aligned one, in strides of the alignment, are aligned. */
  lemma {:induction false} StridesAligned(n: nat, a: nat, i: nat)
    requires a > 0 && Aligned(n, a)
    ensures Aligned(n + i * a, a)
    decreases i
  {
    if i > 0 {
      StridesAligned(n, a, i - 1);
      assert n + i * a == a + (n + (i - 1) * a);
      RemAdd(a, n + (i - 1) * a, a);
    }
  }

  lemma ElementsAligned(d: bytes, off: nat, m: nat, w: nat, len: nat)
    requires IsAlign(m) && IsAlign(w) && Aligned(|d|, m) && 4 <= off <= |d| && w <= m && Aligned(off - 4, w)
    ensures forall i :: 0 <= i < len ==> Aligned(|d| - off + 4 + i * w, w)
  {
    hide IsAlign, Aligned;
    StartAligned(|d|, off - 4, m, w);
    forall i | 0 <= i < len ensures Aligned(|d| - off + 4 + i * w, w) {
      StridesAligned(|d| - off + 4, w, i);
    }
  }

  lemma FourBehind(off: nat)
    requires Aligned(off, 4) && 0 < off
    ensures 4 <= off && Aligned(off - 4, 4)
  {
  }

  lemma ObjectAligned(d: bytes, offs: seq<nat>, cmd: Command, off: nat, m: nat, force: bool, n: nat)
    requires IsAlign(m) && Aligned(|d|, m) && 0 < off <= |d|
    requires Reads(d, offs, cmd, off, force) && AlignmentTracked(m, cmd, force) && Closed(cmd, n)
    ensures AlignedFromStart(d, cmd, off)
  {
    hide IsAlign, Aligned, GetOptionalFieldOffset, VectorBytes, StringBytes, VectorSize, GetVTable, VectorGetPointer,
         FieldAlignedFromStart;
    FourAndTwo();
    StartAligned(|d|, off, m, 4);
    match cmd
    case Str(s) =>
    case Shared(s) =>
    case Vec(len, w, raw) => if len > 0 { ElementWidth(w); ElementsAligned(d, off, m, w, len); }
    case Offs(objs) => FourBehind(off); ElementsAligned(d, off, m, 4, |objs|);
    case Strs(ss) => FourBehind(off); ElementsAligned(d, off, m, 4, |ss|); StringsAligned(d, off, ss, m);
    case Tab(fs) =>
      StartAligned(|d|, |d| - GetVTable(d, |d| - off).value, m, 2);
      forall i | 0 <= i < |fs| ensures FieldAlignedFromStart(d, |d| - off, fs[i]) {
        TableFieldAligned(d, offs, fs, off, m, force, i, n);
      }
  }

  lemma FourAndTwo()
    ensures IsAlign(4) && IsAlign(2)
  {
  }

  lemma ElementWidth(w: nat)
    requires w == 1 || w == 2 || w == 4 || w == 8
    ensures IsAlign(w)
  {
  }

  lemma StringsAligned(d: bytes, off: nat, ss: seq<bytes>, m: nat)
    requires IsAlign(m) && m >= 4 && Aligned(|d|, m) && off <= |d| && StringVectorReads(d, off, ss)
    ensures forall i :: 0 <= i < |ss| ==> ElementAlignedFromStart(d, off, i)
  {
    hide IsAlign, Aligned, VectorGetPointer, StringBytes, VectorSize;
    FourAndTwo();
    forall i | 0 <= i < |ss| ensures ElementAlignedFromStart(d, off, i) {
      assert StringElementReads(d, off, i, ss[i]);
      StartAligned(|d|, |d| - VectorGetPointer(d, |d| - off, i).value, m, 4);
    }
  }

  lemma TableFieldAligned(d: bytes, offs: seq<nat>, fs: seq<FieldSpec>, off: nat, m: nat, force: bool, i: nat, n: nat)
    requires IsAlign(m) && m >= 4 && Aligned(|d|, m) && i < |fs| && off <= |d|
    requires TableReads(d, off, ResolveFields(fs, offs), force) && FieldAlignmentTracked(m, fs[i], force)
    requires FieldClosed(fs[i], n)
    ensures FieldAlignedFromStart(d, |d| - off, fs[i])
  {
    assert IsAlign(4) && (fs[i].ScalarSpec? ==> IsAlign(fs[i].width));
    hide Rem, Load, IsAlign;
    var f := ResolveFields(fs, offs)[i];
    assert f == ResolveField(fs[i], offs);
    assert FieldReads(d, |d| - off, f, force) && FieldAligned(d, |d| - off, f);
    var fo := GetOptionalFieldOffset(d, |d| - off, f.id).value;
    if fo != 0 {
      assert |d| - (|d| - off + fo) == off - fo;
      StartAligned(|d|, off - fo, m, f.Width());
    }
  }

  /**
   The buffer handed out after the run is finished with object `root` as its root; empty if there is no
   such object.
   */
  function FinishedBuffer(run: Run, root: nat): bytes {
    if root < |run.offs| && run.offs[root] <= |run.st.buf.data| && IsAlign(run.st.buf.minAlign)
    then Finish(run.st, run.offs[root]).buf.data
    else []
  }

  /** Object `i` reads back from `d` as it was given, and lies aligned from the start of the buffer. */
  ghost predicate Intact(d: bytes, run: Run, cmds: seq<Command>, i: nat) {
    && i < |cmds| && i < |run.offs| && run.offs[i] <= |d|
    && Reads(d, run.offs, cmds[i], run.offs[i], run.st.forceDefaults)
    && AlignedFromStart(d, cmds[i], run.offs[i])
  }

  lemma FinishedObject(run: Run, cmds: seq<Command>, d: bytes, i: nat)
    requires RunOk(run, cmds) && i < |cmds| && |d| >= |run.st.buf.data|
    requires Extends(run.st.buf.data, d) && Aligned(|d|, run.st.buf.minAlign)
    ensures Intact(d, run, cmds, i)
  {
    hide IsAlign, Reads, AlignedFromStart, Closed, Extends, Aligned, PoolOk, VTablesOk, Idle;
    ClosedWeaken(cmds[i], i, |run.offs|);
    ReadsExtends(run.st.buf.data, d, run.offs, [], cmds[i], run.offs[i], run.st.forceDefaults);
    assert run.offs + [] == run.offs;
    ObjectAligned(d, run.offs, cmds[i], run.offs[i], run.st.buf.minAlign, run.st.forceDefaults, i);
  }

  lemma RootParts(run: Run, cmds: seq<Command>, root: nat)
    requires RunOk(run, cmds) && root < |cmds|
    ensures |run.offs| == |cmds| && 0 < run.offs[root] <= |run.st.buf.data| && IsAlign(run.st.buf.minAlign)
            && 4 <= run.st.buf.minAlign <= 32
  {
    assert AlignmentTracked(run.st.buf.minAlign, cmds[root], run.st.forceDefaults);
  }

  lemma FinishedObjects(run: Run, cmds: seq<Command>, root: nat)
    requires RunOk(run, cmds) && root < |cmds| && |FinishedBuffer(run, root)| < LIMIT
    ensures var d := FinishedBuffer(run, root);
            && GetRoot(d) == Ok(|d| - run.offs[root])
            && (forall i :: 0 <= i < |cmds| ==> Intact(d, run, cmds, i))
  {
    hide RunOk;
    RootParts(run, cmds, root);
    var b := run.st.buf;
    var d := FinishedBuffer(run, root);
    FinishFacts(b, run.offs[root]);
    GrewLonger(b, FinishBuf(b, run.offs[root]));
    hide IsAlign, Intact, FinishBuf, GetRoot, Extends, Aligned;
    forall i | 0 <= i < |cmds| ensures Intact(d, run, cmds, i) {
      FinishedObject(run, cmds, d, i);
    }
  }

  // ---------- Theorems over every run ----------

  /**
   Build, then read: whatever was built before, after and around it, every object of the
   finished buffer reads back as it was given, and lies aligned from the start of the buffer.
   */
  lemma BuildThenRead(force: bool, dedup: bool, cmds: seq<Command>, root: nat)
    requires Execute(Fresh(force, dedup), cmds).Some? && root < |cmds|
    requires |FinishedBuffer(Execute(Fresh(force, dedup), cmds).value, root)| < LIMIT
    ensures var run := Execute(Fresh(force, dedup), cmds).value;
            && |run.offs| == |cmds|
            && var d := FinishedBuffer(run, root);
            && GetRoot(d) == Ok(|d| - run.offs[root])
            && run.st.forceDefaults == force
            && (forall i :: 0 <= i < |cmds| ==> Intact(d, run, cmds, i))
  {
    hide Execute, Intact, RunOk, FinishedBuffer, GetRoot;
    FreshOk(force, dedup);
    ExecuteOk(Fresh(force, dedup), cmds);
    var run := Execute(Fresh(force, dedup), cmds).value;
    RunOkParts(run, cmds);
    RootParts(run, cmds, root);
    FinishedObjects(run, cmds, root);
  }

  /** CreateSharedString returns equal offsets for exactly the equal strings. */
  lemma SharedStringsShared(force: bool, dedup: bool, cmds: seq<Command>, i: nat, j: nat)
    requires Execute(Fresh(force, dedup), cmds).Some?
    requires i < |cmds| && j < |cmds| && cmds[i].Shared? && cmds[j].Shared?
    ensures var run := Execute(Fresh(force, dedup), cmds).value;
            |run.offs| == |cmds| && (run.offs[i] == run.offs[j] <==> cmds[i].s == cmds[j].s)
  {
    FreshOk(force, dedup);
    ExecuteOk(Fresh(force, dedup), cmds);
    var run := Execute(Fresh(force, dedup), cmds).value;
    hide Execute, Idle, VTablesOk, IsAlign, AlignmentTracked;
    var d := run.st.buf.data;
    assert Reads(d, run.offs, cmds[i], run.offs[i], force) && Reads(d, run.offs, cmds[j], run.offs[j], force);
    assert StringAt(d, run.offs[i]) == cmds[i].s && StringAt(d, run.offs[j]) == cmds[j].s;
    var p :| 0 <= p < |run.st.strings| && run.st.strings[p] == run.offs[i];
    var q :| 0 <= q < |run.st.strings| && run.st.strings[q] == run.offs[j];
  }

  /** With sharing on, the remembered vtables of every run are readable and pairwise different. */
  lemma VTablesStayDifferent(force: bool, cmds: seq<Command>, i: nat, j: nat)
    requires Execute(Fresh(force, true), cmds).Some?
    requires i < j < |Execute(Fresh(force, true), cmds).value.st.vtables|
    ensures var st := Execute(Fresh(force, true), cmds).value.st;
            && VTableAt(st.buf.data, st.vtables[i]).Ok? && VTableAt(st.buf.data, st.vtables[j]).Ok?
            && VTableAt(st.buf.data, st.vtables[i]) != VTableAt(st.buf.data, st.vtables[j])
  {
    FreshOk(force, true);
    ExecuteOk(Fresh(force, true), cmds);
    hide Execute, VTableAt, PoolOk;
  }

  /** Sharing keeps meaning over whole runs: each table reads the same values with it on and off. */
  lemma SharingKeepsMeaning(force: bool, cmds: seq<Command>, k: nat, f: nat)
    requires Execute(Fresh(force, true), cmds).Some? && Execute(Fresh(force, false), cmds).Some?
    requires k < |cmds| && cmds[k].Tab? && f < |cmds[k].fields| && cmds[k].fields[f].ScalarSpec?
    ensures var on, off := Execute(Fresh(force, true), cmds).value, Execute(Fresh(force, false), cmds).value;
            && |on.offs| == |cmds| == |off.offs|
            && var s := cmds[k].fields[f];
            && GetField(on.st.buf.data, |on.st.buf.data| - on.offs[k], s.id, s.width, s.def) == Ok(s.value)
            && GetField(off.st.buf.data, |off.st.buf.data| - off.offs[k], s.id, s.width, s.def) == Ok(s.value)
            && (GetOptionalFieldOffset(on.st.buf.data, |on.st.buf.data| - on.offs[k], s.id) == Ok(0) <==>
                GetOptionalFieldOffset(off.st.buf.data, |off.st.buf.data| - off.offs[k], s.id) == Ok(0))
  {
    hide Execute, RunOk, GetField, GetOptionalFieldOffset;
    FreshOk(force, true);
    ExecuteOk(Fresh(force, true), cmds);
    FreshOk(force, false);
    ExecuteOk(Fresh(force, false), cmds);
    RunOkParts(Execute(Fresh(force, true), cmds).value, cmds);
    RunOkParts(Execute(Fresh(force, false), cmds).value, cmds);
    RunFieldReads(Execute(Fresh(force, true), cmds).value, cmds, k, f);
    RunFieldReads(Execute(Fresh(force, false), cmds).value, cmds, k, f);
  }

  /** References too: with sharing on and off each leads to the same object, which reads as it was given in both. */
  lemma SharingKeepsReferences(force: bool, cmds: seq<Command>, k: nat, f: nat)
    requires Execute(Fresh(force, true), cmds).Some? && Execute(Fresh(force, false), cmds).Some?
    requires k < |cmds| && cmds[k].Tab? && f < |cmds[k].fields| && cmds[k].fields[f].RefSpec?
    ensures ReferenceReads(Execute(Fresh(force, true), cmds).value, cmds, k, f)
    ensures ReferenceReads(Execute(Fresh(force, false), cmds).value, cmds, k, f)
  {
    hide Execute, RunOk, ReferenceReads;
    FreshOk(force, true);
    ExecuteOk(Fresh(force, true), cmds);
    FreshOk(force, false);
    ExecuteOk(Fresh(force, false), cmds);
    RunReferenceReads(Execute(Fresh(force, true), cmds).value, cmds, k, f);
    RunReferenceReads(Execute(Fresh(force, false), cmds).value, cmds, k, f);
  }

  /** Following reference field `f` of table `k` leads to the object it names, as that object was given. */
  ghost predicate ReferenceReads(run: Run, cmds: seq<Command>, k: nat, f: nat)
    requires k < |cmds| && cmds[k].Tab? && f < |cmds[k].fields| && cmds[k].fields[f].RefSpec?
  {
    var d, s := run.st.buf.data, cmds[k].fields[f];
    && |run.offs| == |cmds|
    && match s.obj
       case None => GetPointer(d, |d| - run.offs[k], s.id) == Ok(None)
       case Some(o) =>
         && o < k
         && GetPointer(d, |d| - run.offs[k], s.id) == Ok(Some(|d| - run.offs[o]))
         && Reads(d, run.offs, cmds[o], run.offs[o], run.st.forceDefaults)
  }

  lemma RunReferenceReads(run: Run, cmds: seq<Command>, k: nat, f: nat)
    requires RunOk(run, cmds) && k < |cmds| && cmds[k].Tab? && f < |cmds[k].fields| && cmds[k].fields[f].RefSpec?
    ensures ReferenceReads(run, cmds, k, f)
  {
    hide FieldAligned, PoolOk, VTablesOk, VTablesEven, Idle, GetPointer, VTableEven, StringReads, VectorReads,
         OffsetVectorReads, StringVectorReads;
    var d, s := run.st.buf.data, cmds[k].fields[f];
    assert Closed(cmds[k], k) && Reads(d, run.offs, cmds[k], run.offs[k], run.st.forceDefaults);
    assert FieldClosed(s, k);
    var r := ResolveFields(cmds[k].fields, run.offs)[f];
    assert r == ResolveField(s, run.offs);
    assert FieldReads(d, |d| - run.offs[k], r, run.st.forceDefaults);
  }

  lemma RunFieldReads(run: Run, cmds: seq<Command>, k: nat, f: nat)
    requires RunOk(run, cmds) && k < |cmds| && cmds[k].Tab? && f < |cmds[k].fields| && cmds[k].fields[f].ScalarSpec?
    ensures var s := cmds[k].fields[f];
            FieldReads(run.st.buf.data, |run.st.buf.data| - run.offs[k], Scalar(s.id, s.width, s.value, s.def),
                run.st.forceDefaults)
  {
    hide FieldReads, FieldAligned, PoolOk, VTablesOk, Idle, Written;
    assert Reads(run.st.buf.data, run.offs, cmds[k], run.offs[k], run.st.forceDefaults);
    assert ResolveFields(cmds[k].fields, run.offs)[f] == ResolveField(cmds[k].fields[f], run.offs);
  }
}
