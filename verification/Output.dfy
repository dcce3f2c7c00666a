/** The bytes the generator writes, length fields patched afterwards at `uint16_t` positions, and exactly
    when they are a class file. */
module Output {
  import opened Words
  import opened Ir
  import opened ConstantPool
  import opened ClassFile
  import opened Emission
  import opened StackMap

  /** A method before it is written; the frames in the order in which they were recorded. */
  datatype Method_ = Method_(maxStack: u16, maxLocals: u16, code: seq<byte>, frames: seq<u16>)

  function IndexOf(b: Build, name: string): u16 {
    if Str(name) in b.index then b.index[Str(name)] else 0
  }

  // ----- the stack map table -----

  function FrameOf(b: Build, targets: seq<u16>, i: nat): Frame
    requires i < |targets|
  {
    if i == 0 then AppendFrame(Delta(targets, 0), [ObjectType(IndexOf(b, LONG_ARRAY_CLASS)), LongType])
    else SameExtended(Delta(targets, i))
  }

  /** The frames of the sorted targets: the first one adds the two locals. */
  function FramesOf(b: Build, targets: seq<u16>): (fs: seq<Frame>)
    ensures |fs| == |targets|
  {
    seq(|targets|, i requires 0 <= i < |targets| => FrameOf(b, targets, i))
  }

  /** The length that the writer counts up frame by frame. */
  function FramesLength(n: nat): nat {
    if n == 0 then 2 else 3 * n + 6
  }

  function AddStackMap(b: Build, res: seq<byte>, frames: seq<u16>): (r: seq<byte>)
    ensures |r| == |res| + 8 + |WriteFrames(FramesOf(b, Sorted(frames)))|
  {
    var r1 := res + BigEndian(IndexOf(b, STACK_MAP_TABLE), 2) + BigEndian(0, 4) + BigEndian(|frames|, 2)
              + WriteFrames(FramesOf(b, Sorted(frames)));
    Overwrite(r1, ToU16(|res| + 2), BigEndian(FramesLength(|frames|), 4))
  }

  // ----- methods -----

  /** The fixed members of a Code attribute around the code. */
  function CodeHead(b: Build, m: Method_, length: int): (r: seq<byte>)
    ensures |r| == 18 + |m.code|
  {
    BigEndian(IndexOf(b, CODE), 2) + BigEndian(length, 4) + BigEndian(m.maxStack, 2) + BigEndian(m.maxLocals, 2)
    + BigEndian(|m.code|, 4) + m.code + BigEndian(0, 2) + BigEndian(if m.frames == [] then 0 else 1, 2)
  }

  function CodeLength(m: Method_): nat {
    |m.code| + 12 + (if m.frames == [] then 0 else FramesLength(|m.frames|) + 6)
  }

  function AddCode(b: Build, res: seq<byte>, m: Method_): seq<byte> {
    hide AddStackMap, CodeHead;
    var r1 := res + CodeHead(b, m, 0);
    Overwrite(if m.frames == [] then r1 else AddStackMap(b, r1, m.frames), ToU16(|res| + 2),
              BigEndian(CodeLength(m), 4))
  }

  function MethodHead(b: Build, access: u16, name: string, descriptor: string): seq<byte> {
    BigEndian(access, 2) + BigEndian(IndexOf(b, name), 2) + BigEndian(IndexOf(b, descriptor), 2) + BigEndian(1, 2)
  }

  function AddMethod(b: Build, res: seq<byte>, access: u16, name: string, descriptor: string, m: Method_): seq<byte> {
    AddCode(b, res + MethodHead(b, access, name, descriptor), m)
  }

  function ClinitRegisters(b: Build): seq<byte> {
    [NEW] + BigEndian(IndexOf(b, THREAD_LOCAL_CLASS), 2) + [DUP]
    + [INVOKESPECIAL] + BigEndian(IndexOf(b, THREAD_LOCAL_INIT_METHODREF), 2)
    + [PUTSTATIC] + BigEndian(IndexOf(b, REGISTERS_FIELDREF), 2)
    + [GETSTATIC] + BigEndian(IndexOf(b, REGISTERS_FIELDREF), 2)
    + [BIPUSH, 32] + [NEWARRAY, 11]
    + [INVOKEVIRTUAL] + BigEndian(IndexOf(b, THREAD_LOCAL_SET_METHODREF), 2)
  }

  /** Fills `registers` with a ThreadLocal of a long array, and `memory` with a long array. */
  function ClinitCode(b: Build): seq<byte> {
    ClinitRegisters(b)
    + [SIPUSH] + BigEndian(1024, 2) + [NEWARRAY, 11]
    + [PUTSTATIC] + BigEndian(IndexOf(b, MEMORY_FIELDREF), 2) + [RETURN]
  }

  function Clinit(b: Build): Method_ {
    Method_(3, 0, ClinitCode(b), [])
  }

  function Main(g: Gen): Method_ {
    Method_(5, 4, g.code, g.frames)
  }

  function MainPrologue(b: Build): (p: seq<byte>)
    ensures |p| == 10
  {
    Prologue(IndexOf(b, REGISTERS_FIELDREF), IndexOf(b, THREAD_LOCAL_GET_METHODREF), IndexOf(b, LONG_ARRAY_CLASS))
  }

  // ----- the whole file -----

  const FIELD_ACCESS: u16 := 0x101A
  const METHOD_ACCESS: u16 := 0x1009
  const CLASS_ACCESS: u16 := 0x1001

  function Fields(b: Build): seq<byte> {
    BigEndian(2, 2)
    + (BigEndian(FIELD_ACCESS, 2) + BigEndian(IndexOf(b, REGISTERS_FIELD_NAME), 2)
       + BigEndian(IndexOf(b, REGISTERS_FIELD_DESCRIPTOR), 2)
       + BigEndian(1, 2) + BigEndian(IndexOf(b, SIGNATURE), 2) + BigEndian(2, 4)
       + BigEndian(IndexOf(b, REGISTERS_FIELD_SIGNATURE), 2))
    + (BigEndian(FIELD_ACCESS, 2) + BigEndian(IndexOf(b, MEMORY_FIELD_NAME), 2)
       + BigEndian(IndexOf(b, LONG_ARRAY_DESCRIPTOR), 2)
       + BigEndian(0, 2))
  }

  /** Everything before the methods; the pool count is patched after the pool. */
  function Head(b: Build): seq<byte> {
    Overwrite(BigEndian(MAGIC, 4) + BigEndian(0, 2) + BigEndian(52, 2) + BigEndian(0, 2) + WriteEntries(b.entries), 8,
              BigEndian(|b.index| + 1, 2))
    + BigEndian(CLASS_ACCESS, 2) + BigEndian(IndexOf(b, THIS_CLASS), 2) + BigEndian(IndexOf(b, SUPER_CLASS), 2)
    + BigEndian(0, 2)
    + Fields(b) + BigEndian(2, 2)
  }

  /** The file for a finished main method. */
  function FileBytes(b: Build, g: Gen): seq<byte> {
    AddMethod(b, AddMethod(b, Head(b), METHOD_ACCESS, CLINIT_METHOD_NAME, NO_ARGS_VOID_DESCRIPTOR, Clinit(b)),
              METHOD_ACCESS, MAIN_METHOD_NAME, MAIN_METHOD_DESCRIPTOR, Main(g))
    + BigEndian(0, 2)
  }

  /** What the generator produces, or why it stops. */
  function Generate(ir: seq<Element>, junk: Junk): Result<seq<byte>> {
    var b := PoolTo(ir, junk, |ir|);
    match MainMethod(b.index, ir, MainPrologue(b))
    case Err(e) => Err(e)
    case Ok(g) => Ok(FileBytes(b, g))
  }

  // ----- the class file meant -----

  function CodeAttribute(b: Build, m: Method_): Attribute {
    Attribute(IndexOf(b, CODE), WriteCode(CodeInfo(m.maxStack, m.maxLocals, m.code, [],
      if m.frames == [] then []
      else [Attribute(IndexOf(b, STACK_MAP_TABLE), WriteStackMap(FramesOf(b, Sorted(m.frames))))])))
  }

  function MethodInfo(b: Build, name: string, descriptor: string, m: Method_): MemberInfo {
    MemberInfo(METHOD_ACCESS, IndexOf(b, name), IndexOf(b, descriptor), [CodeAttribute(b, m)])
  }

  function ClassFor(b: Build, g: Gen): Class_ {
    Class_(0, 52, b.entries, Body(CLASS_ACCESS, IndexOf(b, THIS_CLASS), IndexOf(b, SUPER_CLASS), [],
      [MemberInfo(FIELD_ACCESS, IndexOf(b, REGISTERS_FIELD_NAME), IndexOf(b, REGISTERS_FIELD_DESCRIPTOR),
                  [Attribute(IndexOf(b, SIGNATURE), BigEndian(IndexOf(b, REGISTERS_FIELD_SIGNATURE), 2))]),
       MemberInfo(FIELD_ACCESS, IndexOf(b, MEMORY_FIELD_NAME), IndexOf(b, LONG_ARRAY_DESCRIPTOR), [])],
      [MethodInfo(b, CLINIT_METHOD_NAME, NO_ARGS_VOID_DESCRIPTOR, Clinit(b)),
       MethodInfo(b, MAIN_METHOD_NAME, MAIN_METHOD_DESCRIPTOR, Main(g))],
      []))
  }

  // ----- length fields -----

  lemma {:induction false} FramesBytes(fs: seq<Frame>)
    requires forall i :: 0 <= i < |fs| ==>
               if i == 0 then && fs[i].AppendFrame? && |fs[i].locals| == 2
                              && fs[i].locals[0].ObjectType? && fs[i].locals[1].LongType?
               else fs[i].SameExtended?
    ensures |WriteFrames(fs)| + 2 == FramesLength(|fs|)
  {
    hide BigEndian;
    if fs != [] {
      FramesBytes(fs[..|fs| - 1]);
      var f := fs[|fs| - 1];
      if |fs| == 1 {
        TwoTypes(f.locals);
      }
    }
  }

  lemma TwoTypes(ts: seq<TypeInfo>)
    requires |ts| == 2 && ts[0].ObjectType? && ts[1].LongType?
    ensures |WriteTypes(ts)| == 4
  {
    hide BigEndian;
    assert |WriteTypes(ts[1..])| == 1 + |WriteTypes(ts[1..][1..])|;
  }

  /** The counted length of the frames is the number of bytes written. */
  lemma StackMapLength(b: Build, frames: seq<u16>)
    ensures |WriteFrames(FramesOf(b, Sorted(frames)))| + 2 == FramesLength(|frames|)
    ensures |WriteStackMap(FramesOf(b, Sorted(frames)))| == FramesLength(|frames|)
  {
    hide WriteFrames, Sorted;
    SortedKeeps(frames);
    assert |multiset(frames)| == |frames| && |multiset(Sorted(frames))| == |Sorted(frames)|;
    FramesBytes(FramesOf(b, Sorted(frames)));
  }

  lemma CodeAttributeLength(b: Build, m: Method_)
    ensures |CodeAttribute(b, m).info| == CodeLength(m)
  {
    hide BigEndian, WriteStackMap, FramesOf, Sorted, IndexOf;
    StackMapLength(b, m.frames);
    if m.frames != [] {
      var a := CodeInfo(m.maxStack, m.maxLocals, m.code, [],
                        [Attribute(IndexOf(b, STACK_MAP_TABLE), WriteStackMap(FramesOf(b, Sorted(m.frames))))]);
      assert WriteAttributes(a.attributes) == WriteAttribute(a.attributes[0]) + WriteAttributes([]);
    }
  }

  // ----- exactly when the length fields are right -----

  lemma OverwriteMiddle(a: seq<byte>, x: seq<byte>, c: seq<byte>, y: seq<byte>)
    requires |x| == |y|
    ensures Overwrite(a + x + c, |a|, y) == a + y + c
  {
    assert (a + x + c)[..|a|] == a;
    assert (a + x + c)[|a| + |y|..] == c;
  }

  lemma StackMapWritten(b: Build, res: seq<byte>, frames: seq<u16>)
    requires |res| + 2 < 65536
    ensures AddStackMap(b, res, frames)
         == res + WriteAttribute(Attribute(IndexOf(b, STACK_MAP_TABLE), WriteStackMap(FramesOf(b, Sorted(frames)))))
  {
    hide BigEndian, WriteFrames, FramesOf, Sorted, IndexOf, Overwrite, FramesLength;
    StackMapLength(b, frames);
    SortedLength(frames);
    var fs := FramesOf(b, Sorted(frames));
    var name, zero, length := BigEndian(IndexOf(b, STACK_MAP_TABLE), 2), BigEndian(0, 4),
      BigEndian(FramesLength(|frames|), 4);
    var count, rest := BigEndian(|frames|, 2), WriteFrames(fs);
    assert res + name + zero + count + rest == (res + name) + zero + (count + rest);
    OverwriteMiddle(res + name, zero, count + rest, length);
    assert (res + name) + length + (count + rest) == res + (name + length + (count + rest));
  }

  lemma SortedLength(s: seq<u16>)
    ensures |Sorted(s)| == |s|
  {
    SortedKeeps(s);
    assert |multiset(s)| == |s| && |multiset(Sorted(s))| == |Sorted(s)|;
  }

  /** Where the last length field of a method goes: that of its stack map table if it has one. */
  function LastLength(start: nat, m: Method_): nat {
    if m.frames == [] then start + 10 else start + 8 + 14 + |m.code| + 4 + 2
  }

  lemma HeadSizes(b: Build, name: string, descriptor: string, m: Method_, length: int)
    ensures |MethodHead(b, METHOD_ACCESS, name, descriptor)| == 8
    ensures |CodeHead(b, m, length)| == 18 + |m.code|
  {
    hide BigEndian, IndexOf;
  }

  /** Patching the length after the name of an attribute. */
  lemma PatchLength(res: seq<byte>, name: seq<byte>, zero: seq<byte>, inner: seq<byte>, tail: seq<byte>,
                    length: seq<byte>)
    requires |zero| == |length|
    ensures Overwrite(res + (name + zero + inner) + tail, |res| + |name|, length)
            == res + (name + length + (inner + tail))
  {
    hide Overwrite;
    assert res + (name + zero + inner) + tail == (res + name) + zero + (inner + tail);
    OverwriteMiddle(res + name, zero, inner + tail, length);
    assert (res + name) + length + (inner + tail) == res + (name + length + (inner + tail));
  }

  lemma CodeWritten(b: Build, res: seq<byte>, m: Method_)
    requires |res| + 2 < 65536 && (m.frames != [] ==> |res| + 20 + |m.code| < 65536)
    ensures AddCode(b, res, m) == res + WriteAttribute(CodeAttribute(b, m))
  {
    hide BigEndian, IndexOf, Overwrite, AddStackMap, FramesOf, Sorted, WriteStackMap, CodeLength, WriteAttribute;
    hide CodeInner, CodeHead;
    CodeAttributeLength(b, m);
    HeadSizes(b, CODE, CODE, m, 0);
    var sm := Attribute(IndexOf(b, STACK_MAP_TABLE), WriteStackMap(FramesOf(b, Sorted(m.frames))));
    var tail := if m.frames == [] then [] else WriteAttribute(sm);
    CodeHeadIs(b, m);
    if m.frames == [] {
      assert res + CodeHead(b, m, 0) + tail == res + CodeHead(b, m, 0);
    } else {
      StackMapWritten(b, res + CodeHead(b, m, 0), m.frames);
    }
    PatchLength(res, BigEndian(IndexOf(b, CODE), 2), BigEndian(0, 4), CodeInner(m), tail, BigEndian(CodeLength(m), 4));
    CodeInfoIs(b, m);
    AttributeIs(CodeAttribute(b, m));
  }

  /** The members of a Code attribute after its length, before its attributes. */
  function CodeInner(m: Method_): seq<byte> {
    BigEndian(m.maxStack, 2) + BigEndian(m.maxLocals, 2) + BigEndian(|m.code|, 4) + m.code + BigEndian(0, 2)
    + BigEndian(if m.frames == [] then 0 else 1, 2)
  }

  lemma CodeHeadIs(b: Build, m: Method_)
    ensures CodeHead(b, m, 0) == BigEndian(IndexOf(b, CODE), 2) + BigEndian(0, 4) + CodeInner(m)
  {
    hide BigEndian, IndexOf;
  }

  lemma AttributeIs(a: Attribute)
    ensures WriteAttribute(a) == BigEndian(a.name, 2) + BigEndian(|a.info|, 4) + a.info
  {
  }

  lemma CodeInfoIs(b: Build, m: Method_)
    ensures CodeAttribute(b, m).info
         == CodeInner(m) + if m.frames == [] then []
                           else WriteAttribute(Attribute(IndexOf(b, STACK_MAP_TABLE),
                                                         WriteStackMap(FramesOf(b, Sorted(m.frames)))))
  {
    hide BigEndian, IndexOf, FramesOf, Sorted, WriteStackMap, WriteAttribute;
    var sm := Attribute(IndexOf(b, STACK_MAP_TABLE), WriteStackMap(FramesOf(b, Sorted(m.frames))));
    var attrs := if m.frames == [] then [] else [sm];
    assert WriteAttributes(attrs) == if m.frames == [] then [] else WriteAttribute(sm) by {
      if m.frames != [] {
        assert attrs[1..] == [];
        assert WriteAttribute(sm) + [] == WriteAttribute(sm);
      }
    }
  }

  lemma MethodWritten(b: Build, res: seq<byte>, name: string, descriptor: string, m: Method_)
    requires LastLength(|res|, m) < 65536
    ensures AddMethod(b, res, METHOD_ACCESS, name, descriptor, m)
            == res + WriteMember(MethodInfo(b, name, descriptor, m))
  {
    hide BigEndian, IndexOf, AddCode, CodeAttribute, WriteAttribute;
    HeadSizes(b, name, descriptor, m, 0);
    var head := MethodHead(b, METHOD_ACCESS, name, descriptor);
    CodeWritten(b, res + head, m);
    OneAttribute(b, name, descriptor, m);
    var attr := CodeAttribute(b, m);
    assert res + head + WriteAttribute(attr) == res + (head + WriteAttribute(attr));
  }

  /** The fields section is the encoding of the two fields. */
  lemma FieldsWritten(b: Build, g: Gen)
    ensures Fields(b) == BigEndian(2, 2) + WriteMembers(ClassFor(b, g).body.fields)
  {
    hide BigEndian, IndexOf;
    var ms := ClassFor(b, g).body.fields;
    var sig := ms[0].attributes;
    assert WriteAttributes(sig) == WriteAttribute(sig[0]) + WriteAttributes(sig[1..]);
    assert WriteAttributes(sig[1..]) == [];
    assert WriteMembers(ms) == WriteMember(ms[0]) + WriteMembers(ms[1..]);
    assert WriteMembers(ms[1..]) == WriteMember(ms[1]) + WriteMembers(ms[1..][1..]);
    assert WriteMembers(ms[1..][1..]) == [];
    assert ms[1].attributes == [];
    FieldBytes(b, ms[0], ms[1]);
  }

  lemma FieldBytes(b: Build, f: MemberInfo, m: MemberInfo)
    requires f.access == FIELD_ACCESS && f.name == IndexOf(b, REGISTERS_FIELD_NAME)
    requires f.descriptor == IndexOf(b, REGISTERS_FIELD_DESCRIPTOR)
    requires |f.attributes| == 1 && WriteAttributes(f.attributes) == WriteAttribute(f.attributes[0]) + []
    requires f.attributes[0] == Attribute(IndexOf(b, SIGNATURE), BigEndian(IndexOf(b, REGISTERS_FIELD_SIGNATURE), 2))
    requires m.access == FIELD_ACCESS && m.name == IndexOf(b, MEMORY_FIELD_NAME)
    requires m.descriptor == IndexOf(b, LONG_ARRAY_DESCRIPTOR)
    requires m.attributes == []
    ensures Fields(b) == BigEndian(2, 2) + (WriteMember(f) + (WriteMember(m) + []))
  {
    hide BigEndian, IndexOf;
  }

  lemma HeadWritten(b: Build, g: Gen)
    requires |b.index| == |b.entries|
    ensures Head(b) == BigEndian(MAGIC, 4) + BigEndian(0, 2) + BigEndian(52, 2) + BigEndian(|b.entries| + 1, 2)
            + WriteEntries(b.entries)
      + BigEndian(CLASS_ACCESS, 2) + BigEndian(IndexOf(b, THIS_CLASS), 2) + BigEndian(IndexOf(b, SUPER_CLASS), 2)
      + BigEndian(0, 2)
      + (BigEndian(2, 2) + WriteMembers(ClassFor(b, g).body.fields)) + BigEndian(2, 2)
  {
    hide BigEndian, IndexOf, WriteEntries, Overwrite, WriteMembers, Fields;
    FieldsWritten(b, g);
    OverwriteMiddle(BigEndian(MAGIC, 4) + BigEndian(0, 2) + BigEndian(52, 2), BigEndian(0, 2), WriteEntries(b.entries),
                    BigEndian(|b.index| + 1, 2));
  }

  /** Where main starts in the file. */
  function MainStart(b: Build): nat {
    |AddMethod(b, Head(b), METHOD_ACCESS, CLINIT_METHOD_NAME, NO_ARGS_VOID_DESCRIPTOR, Clinit(b))|
  }

  /** The file is the encoding of the class when the last length field starts below 65536. */
  lemma FileWritten(b: Build, g: Gen)
    requires |b.index| == |b.entries| && LastLength(MainStart(b), Main(g)) < 65536
    ensures FileBytes(b, g) == WriteClass(ClassFor(b, g))
  {
    hide BigEndian, IndexOf, WriteEntries, AddMethod, WriteMember, Head, ClinitCode, Sorted, WriteMembers, WriteIndices;
    hide WriteAttributes;
    var c := ClassFor(b, g);
    var clinit, main_ := c.body.methods[0], c.body.methods[1];
    MethodStarts(b, Head(b), CLINIT_METHOD_NAME, NO_ARGS_VOID_DESCRIPTOR, Clinit(b));
    MethodWritten(b, Head(b), CLINIT_METHOD_NAME, NO_ARGS_VOID_DESCRIPTOR, Clinit(b));
    MethodWritten(b, Head(b) + WriteMember(clinit), MAIN_METHOD_NAME, MAIN_METHOD_DESCRIPTOR, Main(g));
    HeadWritten(b, g);
    TwoMembers(clinit, main_);
    assert WriteIndices([]) == [] && WriteAttributes([]) == [] by { NoMembers(); }
    FileJoined(c, WriteMember(clinit), WriteMember(main_));
  }

  lemma NoMembers()
    ensures WriteIndices([]) == [] && WriteAttributes([]) == []
  {
  }

  lemma TwoMembers(m: MemberInfo, n: MemberInfo)
    ensures WriteMembers([m, n]) == WriteMember(m) + WriteMember(n)
  {
    hide WriteMember;
    assert [m, n][1..] == [n] && [n][1..] == [];
    assert WriteMembers([n]) == WriteMember(n) + WriteMembers([]);
  }

  lemma FileJoined(c: Class_, x: seq<byte>, y: seq<byte>)
    requires c.minor == 0 && c.major == 52 && |c.body.interfaces| == |c.body.attributes| == 0
    requires |c.body.fields| == |c.body.methods| == 2
    requires WriteIndices(c.body.interfaces) == [] && WriteAttributes(c.body.attributes) == []
    requires WriteMembers(c.body.methods) == x + y
    ensures WriteClass(c)
         == BigEndian(MAGIC, 4) + BigEndian(0, 2) + BigEndian(52, 2) + BigEndian(|c.pool| + 1, 2) + WriteEntries(c.pool)
            + BigEndian(c.body.access, 2) + BigEndian(c.body.this_, 2) + BigEndian(c.body.super_, 2) + BigEndian(0, 2)
            + (BigEndian(2, 2) + WriteMembers(c.body.fields)) + BigEndian(2, 2) + x + y + BigEndian(0, 2)
  {
    hide BigEndian, WriteEntries, WriteMembers, WriteIndices, WriteAttributes;
  }

  /** A method is longer than what comes before its Code attribute's length. */
  lemma MethodStarts(b: Build, res: seq<byte>, name: string, descriptor: string, m: Method_)
    ensures |AddMethod(b, res, METHOD_ACCESS, name, descriptor, m)| >= |res| + 26 + |m.code|
  {
    hide BigEndian, IndexOf, Overwrite, AddStackMap;
    HeadSizes(b, name, descriptor, m, 0);
  }

  // ----- a length field past the 16-bit positions -----

  lemma OverwriteBelow(r: seq<byte>, start: nat, bytes: seq<byte>, q: nat)
    requires start + |bytes| <= |r| && start + |bytes| <= q <= q + 4 <= |r|
    ensures Overwrite(r, start, bytes)[q..q + 4] == r[q..q + 4]
  {
  }

  lemma SliceMiddle(a: seq<byte>, x: seq<byte>, c: seq<byte>)
    ensures (a + x + c)[|a|..|a| + |x|] == x
  {
  }

  /** The last length field of a method that starts too late stays zero. */
  lemma LengthMissing(b: Build, res: seq<byte>, name: string, descriptor: string, m: Method_)
    requires LastLength(|res|, m) >= 65536
    ensures var q := LastLength(|res|, m);
            var r := AddMethod(b, res, METHOD_ACCESS, name, descriptor, m);
            q + 4 <= |r| && r[q..q + 4] == BigEndian(0, 4)
  {
    hide BigEndian, IndexOf, Overwrite, FramesOf, Sorted, WriteFrames, CodeInner, CodeHead, MethodHead;
    HeadSizes(b, name, descriptor, m, 0);
    var q := LastLength(|res|, m);
    var r0 := res + MethodHead(b, METHOD_ACCESS, name, descriptor);
    var r1 := r0 + CodeHead(b, m, 0);
    if m.frames == [] {
      CodeHeadIs(b, m);
      var name_ := BigEndian(IndexOf(b, CODE), 2);
      assert r1 == (r0 + name_) + BigEndian(0, 4) + CodeInner(m);
      SliceMiddle(r0 + name_, BigEndian(0, 4), CodeInner(m));
      OverwriteBelow(r1, ToU16(|r0| + 2), BigEndian(CodeLength(m), 4), q);
    } else {
      StackMapMissing(b, r1, m.frames);
      OverwriteBelow(AddStackMap(b, r1, m.frames), ToU16(|r0| + 2), BigEndian(CodeLength(m), 4), q);
    }
  }

  lemma StackMapMissing(b: Build, res: seq<byte>, frames: seq<u16>)
    requires |res| + 2 >= 65536
    ensures var q := |res| + 2;
            var r := AddStackMap(b, res, frames);
            q + 4 <= |r| && r[q..q + 4] == BigEndian(0, 4)
  {
    hide BigEndian, IndexOf, Overwrite, FramesOf, Sorted, WriteFrames, FramesLength;
    var q := |res| + 2;
    var name, rest := BigEndian(IndexOf(b, STACK_MAP_TABLE), 2), BigEndian(|frames|, 2)
      + WriteFrames(FramesOf(b, Sorted(frames)));
    var r1 := res + name + BigEndian(0, 4) + BigEndian(|frames|, 2) + WriteFrames(FramesOf(b, Sorted(frames)));
    assert r1 == (res + name) + BigEndian(0, 4) + rest;
    SliceMiddle(res + name, BigEndian(0, 4), rest);
    OverwriteBelow(r1, ToU16(q), BigEndian(FramesLength(|frames|), 4), q);
  }

  lemma NotZero(n: nat)
    requires 0 < n < 0x1_0000_0000
    ensures BigEndian(n, 4) != BigEndian(0, 4)
  {
    hide BigEndian;
    Unsigned32(n);
    Unsigned32(0);
  }

  /** In the encoding of a method the last length field is not zero. */
  lemma LengthThere(b: Build, x: seq<byte>, name: string, descriptor: string, m: Method_, y: seq<byte>)
    requires |m.code| < 65536 && |m.frames| < 0x100_0000
    ensures var q := LastLength(|x|, m);
            var r := x + WriteMember(MethodInfo(b, name, descriptor, m)) + y;
            q + 4 <= |r| && r[q..q + 4] != BigEndian(0, 4)
  {
    hide BigEndian, IndexOf, FramesOf, Sorted, WriteStackMap, WriteAttribute, CodeInner, CodeLength;
    var attr := CodeAttribute(b, m);
    var head := MethodHead(b, METHOD_ACCESS, name, descriptor);
    HeadSizes(b, name, descriptor, m, 0);
    OneAttribute(b, name, descriptor, m);
    AttributeIs(attr);
    CodeAttributeLength(b, m);
    var an, al := BigEndian(attr.name, 2), BigEndian(|attr.info|, 4);
    if m.frames == [] {
      assert x + (head + (an + al + attr.info)) + y == (x + head + an) + al + (attr.info + y);
      SliceMiddle(x + head + an, al, attr.info + y);
      LengthsSmall(m);
      NotZero(|attr.info|);
    } else {
      var sm := Attribute(IndexOf(b, STACK_MAP_TABLE), WriteStackMap(FramesOf(b, Sorted(m.frames))));
      CodeInfoIs(b, m);
      AttributeIs(sm);
      StackMapLength(b, m.frames);
      InnerSize(m);
      var sn, sl := BigEndian(sm.name, 2), BigEndian(|sm.info|, 4);
      JoinNine(x, head, an, al, CodeInner(m), sn, sl, sm.info, y);
      SliceMiddle(x + head + an + al + CodeInner(m) + sn, sl, sm.info + y);
      NotZero(|sm.info|);
    }
  }

  lemma JoinNine(x: seq<byte>, head: seq<byte>, an: seq<byte>, al: seq<byte>, inner: seq<byte>, sn: seq<byte>,
                 sl: seq<byte>, info: seq<byte>, y: seq<byte>)
    ensures x + (head + (an + al + (inner + (sn + sl + info)))) + y
            == (x + head + an + al + inner + sn) + sl + (info + y)
  {
  }

  lemma InnerSize(m: Method_)
    ensures |CodeInner(m)| == 12 + |m.code|
  {
    hide BigEndian;
  }

  lemma LengthsSmall(m: Method_)
    requires |m.code| < 65536 && |m.frames| < 0x100_0000
    ensures 0 < CodeLength(m) < 0x1_0000_0000
  {
  }

  lemma OneAttribute(b: Build, name: string, descriptor: string, m: Method_)
    ensures WriteMember(MethodInfo(b, name, descriptor, m))
            == MethodHead(b, METHOD_ACCESS, name, descriptor) + WriteAttribute(CodeAttribute(b, m))
  {
    hide BigEndian, IndexOf, WriteAttribute, CodeAttribute;
    var attr := CodeAttribute(b, m);
    assert WriteAttributes([attr]) == WriteAttribute(attr) by {
      assert [attr][1..] == [];
      assert WriteAttribute(attr) + [] == WriteAttribute(attr);
    }
    assert MethodInfo(b, name, descriptor, m).attributes == [attr];
  }

  /** Wrong positions do not change how much is written. */
  lemma MethodSize(b: Build, res: seq<byte>, name: string, descriptor: string, m: Method_)
    ensures |AddMethod(b, res, METHOD_ACCESS, name, descriptor, m)|
            == |res| + |WriteMember(MethodInfo(b, name, descriptor, m))|
  {
    hide BigEndian, IndexOf, FramesOf, Sorted, WriteAttribute, CodeInner, CodeHead, MethodHead, WriteFrames;
    hide WriteStackMap, WriteMember;
    HeadSizes(b, name, descriptor, m, 0);
    OneAttribute(b, name, descriptor, m);
    AttributeIs(CodeAttribute(b, m));
    CodeAttributeLength(b, m);
    StackMapLength(b, m.frames);
  }

  /** The file is the encoding of the class exactly when the last length field starts below 65536. */
  lemma FileIsClass(b: Build, g: Gen)
    requires |b.index| == |b.entries| && |g.code| < 65536 && |g.frames| < 0x100_0000
    ensures FileBytes(b, g) == WriteClass(ClassFor(b, g)) <==> LastLength(MainStart(b), Main(g)) < 65536
  {
    hide BigEndian, IndexOf, AddMethod, WriteMember, Head, Sorted, WriteClass, WriteMembers;
    var q := LastLength(MainStart(b), Main(g));
    if q < 65536 {
      FileWritten(b, g);
    } else {
      var r := AddMethod(b, Head(b), METHOD_ACCESS, CLINIT_METHOD_NAME, NO_ARGS_VOID_DESCRIPTOR, Clinit(b));
      LengthMissing(b, r, MAIN_METHOD_NAME, MAIN_METHOD_DESCRIPTOR, Main(g));
      var f := AddMethod(b, r, METHOD_ACCESS, MAIN_METHOD_NAME, MAIN_METHOD_DESCRIPTOR, Main(g));
      assert FileBytes(b, g)[q..q + 4] == f[q..q + 4];
      var x := ClassBefore(b, g);
      LengthThere(b, x, MAIN_METHOD_NAME, MAIN_METHOD_DESCRIPTOR, Main(g), BigEndian(0, 2));
    }
  }

  /** The encoding of the class up to main is as long as what the generator wrote up to main. */
  lemma ClassBefore(b: Build, g: Gen) returns (x: seq<byte>)
    requires |b.index| == |b.entries|
    ensures |x| == MainStart(b)
    ensures WriteClass(ClassFor(b, g))
            == x + WriteMember(MethodInfo(b, MAIN_METHOD_NAME, MAIN_METHOD_DESCRIPTOR, Main(g))) + BigEndian(0, 2)
  {
    hide BigEndian, IndexOf, WriteEntries, AddMethod, WriteMember, Head, ClinitCode, Sorted, WriteMembers, WriteIndices;
    hide WriteAttributes, WriteClass;
    var c := ClassFor(b, g);
    var clinit, main_ := c.body.methods[0], c.body.methods[1];
    x := Head(b) + WriteMember(clinit);
    MethodSize(b, Head(b), CLINIT_METHOD_NAME, NO_ARGS_VOID_DESCRIPTOR, Clinit(b));
    HeadWritten(b, g);
    TwoMembers(clinit, main_);
    NoMembers();
    FileJoined(c, WriteMember(clinit), WriteMember(main_));
  }
}
