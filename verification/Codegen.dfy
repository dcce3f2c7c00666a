/** The code generator's objects: the output buffer, the constant map, the label tables and the code of a
    method, changed step by step. Every method is proved against the functions of Emission, ConstantPool and
    Output. */
module Codegen {
  import opened Words
  import opened Ir
  import opened Constants
  import opened ConstantPool
  import opened ClassFile
  import opened Emission
  import opened StackMap
  import opened Output
  import opened Table
  import opened Buffer
  import opened Labels

  /** The code of one method while it is built. */
  class Code {
    var maxStack: u16
    var maxLocals: u16
    const code: Bytecode
    const stackMapFrames: StackMapFrames

    ghost function Repr(): set<object>
      reads this, stackMapFrames
    {
      {this, code, stackMapFrames, stackMapFrames.items}
    }

    ghost predicate Valid()
      reads this, code, stackMapFrames
    {
      code as object != stackMapFrames && this as object != code && this as object != stackMapFrames
      && stackMapFrames.items as object != code && stackMapFrames.items as object != this
      && stackMapFrames.Valid()
    }

    constructor ()
      ensures Valid() && fresh(Repr())
      ensures maxStack == 0 && maxLocals == 0 && code.items == [] && stackMapFrames.Targets() == []
    {
      maxStack, maxLocals := 0, 0;
      code := new Bytecode();
      stackMapFrames := new StackMapFrames();
    }
  }

  class Codegen {
    const ir: seq<Element>
    /** The numbers that the C program leaves unset for label operands. */
    const junk: Junk
    const res: Bytecode
    const constantMap: Table<u16>
    const labels: LabelTables
    /** The entries written so far, and the bytes before them. */
    ghost var entries: seq<Entry>
    ghost var before: seq<byte>

    /** The constant map and the buffer. */
    ghost predicate PoolValid()
      reads this, constantMap, constantMap.values
    {
      && constantMap.Valid()
      && res as object != this && res as object != constantMap && res as object != constantMap.values
      && this as object != constantMap && this as object != constantMap.values
      && constantMap as object != constantMap.values
    }

    ghost predicate Valid()
      reads this, constantMap, constantMap.values, labels, labels.Repr
    {
      && PoolValid() && labels.Valid()
      && {this, res, constantMap, constantMap.values} !! labels.Repr
    }

    ghost function Pool(): Build
      reads this, constantMap
    {
      Build(entries, constantMap.M)
    }

    /** While the pool is written, the buffer ends with its entries. */
    ghost predicate Pooling()
      reads this, res
    {
      res.items == before + WriteEntries(entries)
    }

    /** The table's array is the one it was, or a new one. */
    twostate predicate MapKept()
      reads this, constantMap
    {
      constantMap.values == old(constantMap.values) || fresh(constantMap.values)
    }

    /** The array of the frames is the one it was, or a new one. */
    twostate predicate FramesKept(c: Code)
      reads c, c.stackMapFrames
    {
      c.stackMapFrames.items == old(c.stackMapFrames.items) || fresh(c.stackMapFrames.items)
    }

    constructor (ir: seq<Element>, junk: Junk)
      ensures Valid() && fresh(labels.Repr) && fresh(res) && fresh(constantMap) && fresh(constantMap.values)
      ensures this.ir == ir && this.junk == junk && Pool() == Build([], map[]) && res.items == []
      ensures labels.Offsets() == map[] && labels.References() == map[]
    {
      hide Probing, Holds, Count;
      this.ir, this.junk := ir, junk;
      res := new Bytecode();
      constantMap := new Table<u16>();
      labels := new LabelTables();
      entries, before := [], [];
    }

    // ----- constants -----

    method AddConstant(key: Key) returns (added: bool)
      requires PoolValid()
      modifies constantMap, constantMap.values
      ensures PoolValid() && MapKept()
      ensures added == (key !in old(constantMap.M)) && Pool() == old(Pool()).AddKey(key)
    {
      hide Probing, Holds, Count;
      var value := ToU16(constantMap.size + 1);
      var known := constantMap.Get(key);
      added := known.None?;
      if added {
        var isNew := constantMap.Set(key, value);
      }
    }

    method GetConstant(key: Key) returns (r: Option<u16>)
      requires PoolValid()
      ensures r == if key in constantMap.M then Some(constantMap.M[key]) else None
    {
      hide Probing, Holds, Count;
      r := constantMap.Get(key);
    }

    /** The index of a key, or the failure for a key that is not in the pool. */
    method GetConstantIndex(key: Key) returns (r: Result<u16>)
      requires PoolValid()
      ensures r == if key in constantMap.M then Ok(constantMap.M[key]) else Err(MissingConstant(key))
    {
      hide Probing, Holds, Count;
      var index := GetConstant(key);
      return if index.Some? then Ok(index.get) else Err(MissingConstant(key));
    }

    method ConstantClassInfo(nameIndex: u16)
      requires Pooling()
      modifies res, this`entries
      ensures Pooling() && entries == old(entries) + [Class(nameIndex)] && before == old(before)
    {
      hide BigEndian, WriteEntries;
      res.WriteByte(7);
      res.WriteBytes(nameIndex, 2);
      EntryAppended(entries, Class(nameIndex));
      assert res.items == old(res.items) + WriteEntry(Class(nameIndex));
      entries := entries + [Class(nameIndex)];
    }

    /** The entries with two indices: a name-and-type pair, or a member reference. */
    method ConstantPairInfo(tag: byte, first: u16, second: u16, ghost e: Entry)
      requires Pooling() && WriteEntry(e) == [tag] + BigEndian(first, 2) + BigEndian(second, 2)
      modifies res, this`entries
      ensures Pooling() && entries == old(entries) + [e] && before == old(before)
    {
      hide BigEndian, WriteEntries, WriteEntry;
      res.WriteByte(tag);
      res.WriteBytes(first, 2);
      res.WriteBytes(second, 2);
      EntryAppended(entries, e);
      assert res.items == old(res.items) + WriteEntry(e);
      entries := entries + [e];
    }

    method ConstantUtf8Info(length: u16, bytes: string)
      requires Pooling() && length == |bytes|
      modifies res, this`entries
      ensures Pooling() && entries == old(entries) + [Utf8(bytes)] && before == old(before)
    {
      hide BigEndian, WriteEntries;
      res.WriteByte(1);
      res.WriteBytes(length, 2);
      WriteChars(length, bytes);
      EntryAppended(entries, Utf8(bytes));
      assert res.items == old(res.items) + WriteEntry(Utf8(bytes));
      entries := entries + [Utf8(bytes)];
    }

    method WriteChars(length: u16, bytes: string)
      requires length == |bytes|
      modifies res
      ensures res.items == old(res.items) + Chars(bytes)
    {
      var i := 0;
      while i < length
        invariant 0 <= i <= |bytes|
        invariant res.items == old(res.items) + Chars(bytes)[..i]
      {
        assert Chars(bytes)[..i + 1] == Chars(bytes)[..i] + [bytes[i] as int % 256];
        res.WriteByte(bytes[i] as int % 256);
        i := i + 1;
      }
      assert Chars(bytes)[..|bytes|] == Chars(bytes);
    }

    method ConstantIntegerInfo(value: Int32)
      requires Pooling()
      modifies res, this`entries
      ensures Pooling() && entries == old(entries) + [Integer(value)] && before == old(before)
    {
      hide BigEndian, WriteEntries;
      res.WriteByte(3);
      res.WriteBytes(value, 4);
      EntryAppended(entries, Integer(value));
      assert res.items == old(res.items) + WriteEntry(Integer(value));
      entries := entries + [Integer(value)];
    }

    // ----- the add functions -----

    method AddUtf8ToPool(s: string) returns (index: u16)
      requires PoolValid() && Pooling() && |s| < 65536
      modifies res, this`entries, constantMap, constantMap.values
      ensures PoolValid() && Pooling() && before == old(before) && MapKept()
      ensures Pool() == AddUtf8(old(Pool()), s) && index == Utf8Index(old(Pool()), s)
    {
      hide Probing, Holds, Count, BigEndian, WriteEntries, WriteEntry;
      var known := GetConstant(Str(s));
      if known.None? {
        var added := AddConstant(Str(s));
        ConstantUtf8Info(|s|, s);
        return ToU16(constantMap.size);
      }
      return known.get;
    }

    method AddClassToPool(className: string, key: string)
      requires PoolValid() && Pooling() && |className| < 65536
      modifies res, this`entries, constantMap, constantMap.values
      ensures PoolValid() && Pooling() && before == old(before) && MapKept()
      ensures Pool() == AddClass(old(Pool()), className, key)
    {
      hide Probing, Holds, Count, BigEndian, WriteEntries, AddUtf8, Utf8Index;
      var index := AddUtf8ToPool(className);
      ConstantClassInfo(index);
      var added := AddConstant(Str(key));
    }

    method AddNameAndTypeToPool(key: string, name: string, descriptor: string)
      requires PoolValid() && Pooling() && |name| < 65536 && |descriptor| < 65536
      modifies res, this`entries, constantMap, constantMap.values
      ensures PoolValid() && Pooling() && before == old(before) && MapKept()
      ensures Pool() == AddNameAndType(old(Pool()), key, name, descriptor)
    {
      hide Probing, Holds, Count, BigEndian, WriteEntries, AddUtf8, Utf8Index;
      var nameIndex := AddUtf8ToPool(name);
      var descriptorIndex := AddUtf8ToPool(descriptor);
      ConstantPairInfo(12, nameIndex, descriptorIndex, NameAndType(nameIndex, descriptorIndex));
      var added := AddConstant(Str(key));
    }

    method AddMethodrefToPool(classKey: string, methodKey: string, nameAndTypeKey: string, name: string,
                              descriptor: string)
      requires PoolValid() && Pooling() && |name| < 65536 && |descriptor| < 65536
      requires Str(classKey) in AddNameAndType(Pool(), nameAndTypeKey, name, descriptor).index
      modifies res, this`entries, constantMap, constantMap.values
      ensures PoolValid() && Pooling() && before == old(before) && MapKept()
      ensures Pool() == AddMethodref(old(Pool()), classKey, methodKey, nameAndTypeKey, name, descriptor)
    {
      hide Probing, Holds, Count, BigEndian, WriteEntries, AddNameAndType;
      AddNameAndTypeToPool(nameAndTypeKey, name, descriptor);
      var nameAndTypeIndex := ToU16(constantMap.size);
      var found := GetConstantIndex(Str(classKey));
      var classIndex := found.value;
      ConstantPairInfo(10, classIndex, nameAndTypeIndex, Methodref(classIndex, nameAndTypeIndex));
      var added := AddConstant(Str(methodKey));
    }

    method AddFieldrefToPool(classKey: string, fieldKey: string, nameAndTypeKey: string, name: string,
                             descriptor: string)
      requires PoolValid() && Pooling() && |name| < 65536 && |descriptor| < 65536
      requires Str(classKey) in AddNameAndType(Pool(), nameAndTypeKey, name, descriptor).index
      modifies res, this`entries, constantMap, constantMap.values
      ensures PoolValid() && Pooling() && before == old(before) && MapKept()
      ensures Pool() == AddFieldref(old(Pool()), classKey, fieldKey, nameAndTypeKey, name, descriptor)
    {
      hide Probing, Holds, Count, BigEndian, WriteEntries, AddNameAndType;
      AddNameAndTypeToPool(nameAndTypeKey, name, descriptor);
      var nameAndTypeIndex := ToU16(constantMap.size);
      var found := GetConstantIndex(Str(classKey));
      var classIndex := found.value;
      ConstantPairInfo(9, classIndex, nameAndTypeIndex, Fieldref(classIndex, nameAndTypeIndex));
      var added := AddConstant(Str(fieldKey));
    }

    /** The number of an R1 or R2 instruction, once per value. */
    method LoadConstantFromInstructionAt(i: nat)
      requires PoolValid() && Pooling() && i < |ir| && ir[i].Instr?
      modifies res, this`entries, constantMap, constantMap.values
      ensures PoolValid() && Pooling() && before == old(before) && MapKept()
      ensures Pool() == if HasNumber(ir[i]) then AddNumber(old(Pool()), NumberOf(ir[i], junk(i))) else old(Pool())
    {
      hide Probing, Holds, Count, BigEndian, WriteEntries;
      var imm: Int32 := junk(i);
      match ir[i].ins {
        case R1(_, _, op) => if op.UImm? { imm := op.imm; }
        case R2(_, _, _, op) => if op.Imm? { imm := op.imm; }
        case _ => return;
      }
      var added := AddConstant(Num(imm));
      if added {
        ConstantIntegerInfo(imm);
      }
    }

    // ----- the whole pool -----

    /** A new class: its name becomes entry `r` and its info the next one. */
    method AddNewClass(name: string, key: string, ghost r: nat)
      requires PoolValid() && Pooling() && IsClass(name, key, r) && Pool() == FixedTo(r)
      modifies res, this`entries, constantMap, constantMap.values
      ensures PoolValid() && Pooling() && before == old(before) && MapKept()
      ensures Pool() == FixedTo(r + 2)
    {
      hide FixedTo, NameAt, EntryAt, AddClass, Probing, Holds, Count, WriteEntries;
      ClassStep(r);
      AddClassToPool(name, key);
    }

    method AddClasses()
      requires PoolValid() && Pooling() && Pool() == FixedTo(0)
      modifies res, this`entries, constantMap, constantMap.values
      ensures PoolValid() && Pooling() && before == old(before) && MapKept()
      ensures Pool() == FixedTo(10)
    {
      hide Probing, Holds, Count, WriteEntries, FixedTo, IsClass;
      FiveClasses();
      AddNewClass(SUPER_CLASS_NAME, SUPER_CLASS, 0);
      AddNewClass(THIS_CLASS_NAME, THIS_CLASS, 2);
      AddNewClass(THREAD_LOCAL, THREAD_LOCAL_CLASS, 4);
      AddNewClass(LONG_ARRAY_DESCRIPTOR, LONG_ARRAY_CLASS, 6);
      AddNewClass(STRING_ARRAY_DESCRIPTOR, STRING_ARRAY_CLASS, 8);
    }

    /** A name that is new: it becomes entry `r`. */
    method AddName(s: string, ghost r: nat)
      requires PoolValid() && Pooling() && IsName(s, r) && Pool() == FixedTo(r)
      modifies res, this`entries, constantMap, constantMap.values
      ensures PoolValid() && Pooling() && before == old(before) && MapKept()
      ensures Pool() == FixedTo(r + 1)
    {
      hide FixedTo, NameAt, EntryAt, AddUtf8, Utf8Index, Probing, Holds, Count, WriteEntries;
      Utf8New(r);
      var index := AddUtf8ToPool(s);
    }

    method AddFieldNames()
      requires PoolValid() && Pooling() && Pool() == FixedTo(10)
      modifies res, this`entries, constantMap, constantMap.values
      ensures PoolValid() && Pooling() && before == old(before) && MapKept()
      ensures Pool() == FixedTo(17)
    {
      hide Probing, Holds, Count, WriteEntries, FixedTo, IsName;
      FieldNames();
      AddName(REGISTERS_FIELD_NAME, 10);
      AddName(REGISTERS_FIELD_DESCRIPTOR, 11);
      AddName(REGISTERS_FIELD_SIGNATURE, 12);
      AddName(REGISTERS_FIELD, 13);
      AddName(MEMORY_FIELD_NAME, 14);
      AddName(MEMORY_FIELD, 15);
      AddName(SIGNATURE, 16);
    }

    method AddMethodNames()
      requires PoolValid() && Pooling() && Pool() == FixedTo(17)
      modifies res, this`entries, constantMap, constantMap.values
      ensures PoolValid() && Pooling() && before == old(before) && MapKept()
      ensures Pool() == FixedTo(24)
    {
      hide Probing, Holds, Count, WriteEntries, FixedTo, IsName;
      MethodNames();
      AddName(INIT_METHOD_NAME, 17);
      AddName(CLINIT_METHOD_NAME, 18);
      AddName(MAIN_METHOD_NAME, 19);
      AddName(MAIN_METHOD_DESCRIPTOR, 20);
      AddName(NO_ARGS_VOID_DESCRIPTOR, 21);
      AddName(CODE, 22);
      AddName(STACK_MAP_TABLE, 23);
    }

    method AddInitMethodref()
      requires PoolValid() && Pooling() && Pool() == FixedTo(24)
      modifies res, this`entries, constantMap, constantMap.values
      ensures PoolValid() && Pooling() && before == old(before) && MapKept()
      ensures Pool() == FixedTo(26)
    {
      hide Probing, Holds, Count, BigEndian, WriteEntries, AddUtf8, Utf8Index, AddClass, AddNameAndType, AddMethodref;
      hide AddFieldref, FixedTo, Ascii;
      NameAndTypeStep(24, 17, 21);
      RefStep(Pool(), 24, NameAt(24), NameAt(17), NameAt(21), 5);
      AddMethodrefToPool(THREAD_LOCAL_CLASS, THREAD_LOCAL_INIT_METHODREF, INIT_METHOD_NAMEANDTYPE, INIT_METHOD_NAME,
                         NO_ARGS_VOID_DESCRIPTOR);
    }

    method AddSetMethodref()
      requires PoolValid() && Pooling() && Pool() == FixedTo(26)
      modifies res, this`entries, constantMap, constantMap.values
      ensures PoolValid() && Pooling() && before == old(before) && MapKept()
      ensures Pool() == FixedTo(30)
    {
      hide Probing, Holds, Count, BigEndian, WriteEntries, AddUtf8, Utf8Index, AddClass, AddNameAndType, AddMethodref;
      hide AddFieldref, FixedTo, Ascii;
      NameAndTypeStep(26, 26, 27);
      RefStep(Pool(), 28, NameAt(28), NameAt(26), NameAt(27), 5);
      AddMethodrefToPool(THREAD_LOCAL_CLASS, THREAD_LOCAL_SET_METHODREF, THREAD_LOCAL_SET_METHOD_NAMEANDTYPE,
        THREAD_LOCAL_SET_METHOD_NAME, THREAD_LOCAL_SET_METHOD_DESCRIPTOR);
    }

    method AddGetMethodref()
      requires PoolValid() && Pooling() && Pool() == FixedTo(30)
      modifies res, this`entries, constantMap, constantMap.values
      ensures PoolValid() && Pooling() && before == old(before) && MapKept()
      ensures Pool() == FixedTo(34)
    {
      hide Probing, Holds, Count, BigEndian, WriteEntries, AddUtf8, Utf8Index, AddClass, AddNameAndType, AddMethodref;
      hide AddFieldref, FixedTo, Ascii;
      NameAndTypeStep(30, 30, 31);
      RefStep(Pool(), 32, NameAt(32), NameAt(30), NameAt(31), 5);
      AddMethodrefToPool(THREAD_LOCAL_CLASS, THREAD_LOCAL_GET_METHODREF, THREAD_LOCAL_GET_METHOD_NAMEANDTYPE,
        THREAD_LOCAL_GET_METHOD_NAME, THREAD_LOCAL_GET_METHOD_DESCRIPTOR);
    }

    method AddFieldrefs()
      requires PoolValid() && Pooling() && Pool() == FixedTo(34)
      modifies res, this`entries, constantMap, constantMap.values
      ensures PoolValid() && Pooling() && before == old(before) && MapKept()
      ensures Pool() == FixedTo(38)
    {
      hide Probing, Holds, Count, BigEndian, WriteEntries, AddUtf8, Utf8Index, AddClass, AddNameAndType, AddMethodref;
      hide AddFieldref, FixedTo, Ascii;
      NameAndTypeStep(34, 10, 11);
      RefStep(Pool(), 34, NameAt(34), NameAt(10), NameAt(11), 3);
      AddFieldrefToPool(THIS_CLASS, REGISTERS_FIELDREF, REGISTERS_FIELD_NAMEANDTYPE, REGISTERS_FIELD_NAME,
                        REGISTERS_FIELD_DESCRIPTOR);
      AddMemoryFieldref();
    }

    method AddMemoryFieldref()
      requires PoolValid() && Pooling() && Pool() == FixedTo(36)
      modifies res, this`entries, constantMap, constantMap.values
      ensures PoolValid() && Pooling() && before == old(before) && MapKept()
      ensures Pool() == FixedTo(38)
    {
      hide Probing, Holds, Count, BigEndian, WriteEntries, AddUtf8, Utf8Index, AddClass, AddNameAndType, AddMethodref;
      hide AddFieldref, FixedTo, Ascii;
      NameAndTypeStep(36, 14, 6);
      RefStep(Pool(), 36, NameAt(36), NameAt(14), NameAt(6), 3);
      AddFieldrefToPool(THIS_CLASS, MEMORY_FIELDREF, MEMORY_FIELD_NAMEANDTYPE, MEMORY_FIELD_NAME,
                        LONG_ARRAY_DESCRIPTOR);
    }

    method AddNumbers()
      requires PoolValid() && Pooling() && Pool() == FixedTo(38)
      modifies res, this`entries, constantMap, constantMap.values
      ensures PoolValid() && Pooling() && before == old(before) && MapKept()
      ensures Pool() == PoolTo(ir, junk, |ir|)
    {
      hide Probing, Holds, Count, BigEndian, WriteEntries, FixedTo, HasNumber, NumberOf, AddNumber;
      ghost var was := constantMap.values;
      var i := 0;
      while i < |ir|
        invariant 0 <= i <= |ir|
        invariant PoolValid() && Pooling() && before == old(before)
                  && (constantMap.values == was || fresh(constantMap.values))
        invariant Pool() == PoolTo(ir, junk, i)
      {
        if ir[i].Instr? {
          LoadConstantFromInstructionAt(i);
        } else {
          NoNumber(ir[i]);
        }
        i := i + 1;
      }
    }

    /** All entries, in their order. */
    method AddEntries()
      requires PoolValid() && Pooling() && Pool() == FixedTo(0)
      modifies res, this`entries, constantMap, constantMap.values
      ensures PoolValid() && Pooling() && before == old(before) && MapKept()
      ensures Pool() == PoolTo(ir, junk, |ir|)
    {
      hide Probing, Holds, Count, WriteEntries, FixedTo, PoolTo;
      AddClasses();
      AddFieldNames();
      AddMethodNames();
      AddInitMethodref();
      AddSetMethodref();
      AddGetMethodref();
      AddFieldrefs();
      AddNumbers();
    }

    /** The count, the entries, and the count again once it is known. */
    method ConstantPool()
      requires PoolValid() && Pool() == Build([], map[])
      modifies res, this`entries, this`before, constantMap, constantMap.values
      ensures PoolValid() && Pool() == PoolTo(ir, junk, |ir|) && MapKept()
      ensures res.items == Overwrite(old(res.items) + BigEndian(0, 2) + WriteEntries(entries), |old(res.items)|,
                                     BigEndian(|constantMap.M| + 1, 2))
    {
      hide Probing, Holds, Count, BigEndian, FixedTo, PoolTo, Overwrite;
      var poolSizeIndex := |res.items|;
      res.WriteBytes(0, 2);
      before := res.items;
      assert res.items == before + WriteEntries([]);
      NothingFixed();
      AddEntries();
      res.OverwriteBytes(poolSizeIndex, constantMap.size + 1, 2);
    }

    // ----- the code of main -----

    ghost predicate CodeReady(c: Code)
      reads this, constantMap, labels, c, c.code, c.stackMapFrames
    {
      c.Valid() && c.Repr() !! labels.Repr && c.Repr() !! {this, res, constantMap, constantMap.values}
    }

    /** What the generator has written of a method, with its label tables, as a value. */
    ghost function State(c: Code): Gen
      requires labels.Valid() && c.Valid()
      reads labels, labels.Repr, c, c.code, c.stackMapFrames, c.stackMapFrames.items
    {
      Gen(c.code.items, labels.Offsets(), labels.References(), c.stackMapFrames.Targets())
    }

    method AddStackFrame(c: Code, targetOffset: nat)
      requires Valid() && CodeReady(c)
      modifies c.stackMapFrames, c.stackMapFrames.items
      ensures Valid() && CodeReady(c) && FramesKept(c)
      ensures State(c) == old(State(c)).AddFrame(targetOffset)
    {
      hide Probing, Holds, Count, LabelTables.Valid, LabelTables.Offsets, LabelTables.References, Table.Valid;
      c.stackMapFrames.Append(ToU16(targetOffset));
    }

    static method WriteLoadRegister(code: Bytecode, r: Reg)
      modifies code
      ensures code.items == old(code.items) + LoadRegister(r)
    {
      code.WriteByte(ALOAD_1);
      code.WriteByte(BIPUSH);
      code.WriteByte(r);
      code.WriteByte(LALOAD);
    }

    static method WriteStoreRegister(code: Bytecode, r: Reg)
      modifies code
      ensures code.items == old(code.items) + StoreRegister(r)
    {
      if r == 0 {
        code.WriteByte(POP2);
        return;
      }
      code.WriteByte(LSTORE_2);
      code.WriteByte(ALOAD_1);
      code.WriteByte(BIPUSH);
      code.WriteByte(r);
      code.WriteByte(LLOAD_2);
      code.WriteByte(LASTORE);
    }

    /** Fails when the number has no constant. */
    method WriteLoadConstant(c: Code, constant: Int32) returns (r: Result<()>)
      requires PoolValid() && c.code as object != constantMap && c.code as object != constantMap.values
      requires c.code as object != this
      modifies c.code
      ensures r == if Num(constant) in constantMap.M then Ok(()) else Err(MissingConstant(Num(constant)))
      ensures r.Ok? ==> c.code.items == old(c.code.items) + LoadConstant(constantMap.M[Num(constant)])
    {
      hide Probing, Holds, Count, LabelTables.Valid, LabelTables.Offsets, LabelTables.References, Table.Valid;
      hide BigEndian;
      c.code.WriteByte(LDC_W);
      var index := GetConstantIndex(Num(constant));
      if index.Err? {
        return Err(index.error);
      }
      c.code.WriteBytes(index.value, 2);
      c.code.WriteByte(I2L);
      return Ok(());
    }

    method WriteJump(c: Code, name: string)
      requires Valid() && CodeReady(c)
      modifies labels.Repr, c.code
      ensures Valid() && CodeReady(c) && fresh(labels.Repr - old(labels.Repr))
      ensures State(c) == Jump(old(State(c)), name)
    {
      hide Probing, Holds, Count, LabelTables.Valid, LabelTables.Offsets, LabelTables.References, Table.Valid;
      hide BigEndian;
      labels.AddLabelReference(name, |c.code.items|, |c.code.items| + 1);
      c.code.WriteByte(GOTO_W);
      c.code.WriteBytes(0, 4);
    }

    /** A conditional branch: compare, skip the jump when it is not taken, jump. */
    method WriteBranch(c: Code, rd: Reg, rs1: Reg, skip: byte, name: string)
      requires Valid() && CodeReady(c)
      modifies labels.Repr, c.code, c.stackMapFrames, c.stackMapFrames.items
      ensures Valid() && CodeReady(c) && fresh(labels.Repr - old(labels.Repr))
      ensures FramesKept(c)
      ensures State(c) == Branch(old(State(c)), rd, rs1, skip, name)
    {
      hide Probing, Holds, Count, LabelTables.Valid, LabelTables.Offsets, LabelTables.References, Table.Valid;
      hide BigEndian, LoadRegister;
      WriteCompare(c.code, rd, rs1);
      AddStackFrame(c, |c.code.items| + 8);
      WriteSkip(c.code, skip);
      WriteJump(c, name);
    }

    static method WriteCompare(code: Bytecode, rd: Reg, rs1: Reg)
      modifies code
      ensures code.items == old(code.items) + LoadRegister(rd) + LoadRegister(rs1) + [LCMP]
    {
      hide LoadRegister;
      WriteLoadRegister(code, rd);
      WriteLoadRegister(code, rs1);
      code.WriteByte(LCMP);
    }

    static method WriteSkip(code: Bytecode, skip: byte)
      modifies code
      ensures code.items == old(code.items) + [skip] + BigEndian(8, 2)
    {
      hide BigEndian;
      code.WriteByte(skip);
      code.WriteBytes(8, 2);
    }

    method WriteR3(c: Code, m: Mnemonic, rd: Reg, rs1: Reg, rs2: Reg)
      requires Valid() && CodeReady(c)
      modifies c.code
      ensures Valid() && CodeReady(c)
      ensures Ok(State(c)) == EmitInstruction(constantMap.M, R3(m, rd, rs1, rs2), old(State(c)))
    {
      hide Probing, Holds, Count, LabelTables.Valid, LabelTables.Offsets, LabelTables.References, Table.Valid;
      hide LoadRegister, StoreRegister, Branch, Jump;
      WriteLoadRegister(c.code, rs1);
      WriteLoadRegister(c.code, rs2);
      if m == ADD {
        c.code.WriteByte(LADD);
      }
      WriteStoreRegister(c.code, rd);
    }

    /** Fails when the immediate has no constant. */
    method WriteAddi(c: Code, rd: Reg, rs1: Reg, imm: Imm12) returns (r: Result<()>)
      requires Valid() && CodeReady(c)
      modifies c.code
      ensures Valid() && CodeReady(c)
      ensures EmitInstruction(constantMap.M, R2(ADDI, rd, rs1, Imm(imm)), old(State(c)))
              == if r.Ok? then Ok(State(c)) else Err(r.error)
    {
      hide Probing, Holds, Count, LabelTables.Valid, LabelTables.Offsets, LabelTables.References, Table.Valid;
      hide LoadRegister, StoreRegister, LoadConstant, Branch, Jump;
      WriteLoadRegister(c.code, rs1);
      var found := WriteLoadConstant(c, imm);
      if found.Err? {
        return found;
      }
      c.code.WriteByte(LADD);
      WriteStoreRegister(c.code, rd);
      return Ok(());
    }

    method WriteR2(c: Code, m: Mnemonic, rd: Reg, rs1: Reg, op: Operand12) returns (r: Result<()>)
      requires Valid() && CodeReady(c)
      modifies labels.Repr, c.code, c.stackMapFrames, c.stackMapFrames.items
      ensures Valid() && CodeReady(c) && fresh(labels.Repr - old(labels.Repr))
      ensures FramesKept(c)
      ensures EmitInstruction(constantMap.M, R2(m, rd, rs1, op), old(State(c)))
              == if r.Ok? then Ok(State(c)) else Err(r.error)
    {
      hide Probing, Holds, Count, LabelTables.Valid, LabelTables.Offsets, LabelTables.References, Table.Valid;
      hide EmitInstruction;
      EmitR2Is(constantMap.M, m, rd, rs1, op, State(c));
      if m == ADDI {
        if op.Label? {
          return Err(UndefinedOperand);
        }
        r := WriteAddi(c, rd, rs1, op.imm);
        return;
      } else if m == BNE || m == BLT {
        if op.Imm? {
          return Err(UndefinedOperand);
        }
        WriteBranch(c, rd, rs1, if m == BNE then IFEQ else IFGT, op.name);
      }
      return Ok(());
    }

    method WriteR1(c: Code, m: Mnemonic, rd: Reg, op: Operand20) returns (r: Result<()>)
      requires Valid() && CodeReady(c)
      modifies labels.Repr, c.code, c.stackMapFrames, c.stackMapFrames.items
      ensures Valid() && CodeReady(c) && fresh(labels.Repr - old(labels.Repr))
      ensures FramesKept(c)
      ensures EmitInstruction(constantMap.M, R1(m, rd, op), old(State(c)))
              == if r.Ok? then Ok(State(c)) else Err(r.error)
    {
      hide Probing, Holds, Count, LabelTables.Valid, LabelTables.Offsets, LabelTables.References, Table.Valid, Branch;
      hide Jump;
      if m == J {
        if op.UImm? {
          return Err(UndefinedOperand);
        }
        WriteJump(c, op.name);
      }
      return Ok(());
    }

    method WriteInstruction(i: nat, c: Code) returns (r: Result<()>)
      requires Valid() && CodeReady(c) && i < |ir| && ir[i].Instr?
      modifies labels.Repr, c.code, c.stackMapFrames, c.stackMapFrames.items
      ensures Valid() && CodeReady(c) && fresh(labels.Repr - old(labels.Repr))
      ensures FramesKept(c)
      ensures EmitInstruction(constantMap.M, ir[i].ins, old(State(c))) == if r.Ok? then Ok(State(c)) else Err(r.error)
    {
      hide Probing, Holds, Count, LabelTables.Valid, LabelTables.Offsets, LabelTables.References, Table.Valid, Branch;
      hide Jump;
      match ir[i].ins {
        case R3(m, rd, rs1, rs2) =>
          WriteR3(c, m, rd, rs1, rs2);
          r := Ok(());
        case R2(m, rd, rs1, op) => r := WriteR2(c, m, rd, rs1, op);
        case R1(m, rd, op) => r := WriteR1(c, m, rd, op);
        case Mem(_, _, _, _) => r := Ok(());
      }
    }

    method WriteLabel(i: nat, c: Code)
      requires Valid() && CodeReady(c) && i < |ir| && ir[i].LabelDecl?
      modifies labels.Repr
      ensures Valid() && CodeReady(c) && fresh(labels.Repr - old(labels.Repr))
      ensures EmitElement(constantMap.M, ir, i, old(State(c))) == Ok(State(c))
    {
      hide Probing, Holds, Count, LabelTables.Valid, LabelTables.Offsets, LabelTables.References, Table.Valid;
      if i + 1 == |ir| || ir[i + 1].Instr? {
        labels.SetCodeLabelOffset(ir[i].name, |c.code.items|);
      }
    }

    /** Writes the way from one reference to its label over the operand. */
    method PatchReference(c: Code, name: string, reference: Ref) returns (r: Result<()>)
      requires Valid() && CodeReady(c) && reference.branch + 4 <= |c.code.items|
      modifies c.code, c.stackMapFrames, c.stackMapFrames.items
      ensures Valid() && CodeReady(c) && FramesKept(c)
      ensures r == if Str(name) in labels.Offsets() then Ok(()) else Err(MissingOffset(name))
      ensures var g := old(State(c));
              State(c) == if r.Err? then g else
                var target := g.offsets[Str(name)];
                g.(code := Overwrite(g.code, reference.branch,
                                     BigEndian(target - reference.opcode, 4))).AddFrame(target)
    {
      hide Probing, Holds, Count, LabelTables.Valid, LabelTables.Offsets, LabelTables.References, Table.Valid;
      hide Overwrite, BigEndian;
      var target := labels.GetCodeLabelOffset(name);
      if target.Err? {
        return Err(target.error);
      }
      c.code.OverwriteBytes(reference.branch, target.value as int - reference.opcode, 4);
      AddStackFrame(c, target.value);
      return Ok(());
    }

    /** Patches every reference to a label, and records a frame for each. */
    method UpdateLabelReference(c: Code, name: string) returns (r: Result<()>)
      requires Valid() && CodeReady(c) && State(c).InRange()
      modifies c.code, c.stackMapFrames, c.stackMapFrames.items
      ensures Valid() && CodeReady(c) && FramesKept(c)
      ensures RefsInside(old(State(c)), name)
      ensures PatchRefs(old(State(c)), name, old(State(c)).RefsTo(name), |old(State(c)).RefsTo(name)|)
           == if r.Ok? then Ok(State(c)) else Err(r.error)
    {
      hide Probing, Holds, Count, LabelTables.Valid, LabelTables.Offsets, LabelTables.References, Table.Valid;
      hide Overwrite, BigEndian, PatchRefs;
      RefsInRange(State(c), name);
      PatchRefsNone(State(c), name, State(c).RefsTo(name));
      var references := labels.GetLabelReferences(name);
      if references.None? {
        return Ok(());
      }
      ghost var g, was := State(c), c.stackMapFrames.items;
      ghost var rs := g.RefsTo(name);
      var i := 0;
      while i < |references.get.items|
        invariant 0 <= i <= |rs| && references.get.items == rs && RefsInside(g, name)
        invariant Valid() && CodeReady(c) && (c.stackMapFrames.items == was || fresh(c.stackMapFrames.items))
        invariant PatchRefs(g, name, rs, i) == Ok(State(c))
      {
        PatchRefsStep(g, name, rs, i, State(c));
        var done := PatchReference(c, name, references.get.items[i]);
        if done.Err? {
          PatchRefsErr(g, name, rs, i + 1, |rs|, done.error);
          return Err(done.error);
        }
        i := i + 1;
      }
      return Ok(());
    }

    method LoadRegistersIntoLocal(c: Code)
      requires Valid() && CodeReady(c)
      requires Str(REGISTERS_FIELDREF) in constantMap.M && Str(THREAD_LOCAL_GET_METHODREF) in constantMap.M
      requires Str(LONG_ARRAY_CLASS) in constantMap.M
      modifies c.code
      ensures c.code.items == old(c.code.items) + MainPrologue(Pool())
    {
      hide Probing, Holds, Count, LabelTables.Valid, LabelTables.Offsets, LabelTables.References, Table.Valid;
      hide BigEndian;
      c.code.WriteByte(GETSTATIC);
      var index := GetConstantIndex(Str(REGISTERS_FIELDREF));
      c.code.WriteBytes(index.value, 2);
      c.code.WriteByte(INVOKEVIRTUAL);
      index := GetConstantIndex(Str(THREAD_LOCAL_GET_METHODREF));
      c.code.WriteBytes(index.value, 2);
      c.code.WriteByte(CHECKCAST);
      index := GetConstantIndex(Str(LONG_ARRAY_CLASS));
      c.code.WriteBytes(index.value, 2);
      c.code.WriteByte(ASTORE_1);
    }

    /** First pass: code with empty jump operands, label offsets and references. */
    method FirstPass(c: Code) returns (r: Result<()>)
      requires Valid() && CodeReady(c) && State(c).InRange()
      modifies labels.Repr, c.code, c.stackMapFrames, c.stackMapFrames.items
      ensures Valid() && CodeReady(c)
      ensures fresh(labels.Repr - old(labels.Repr)) && FramesKept(c)
      ensures Pass1(constantMap.M, ir, |ir|, old(State(c))) == if r.Ok? then Ok(State(c)) else Err(r.error)
    {
      hide Probing, Holds, Count, LabelTables.Valid, LabelTables.Offsets, LabelTables.References, Table.Valid;
      hide EmitInstruction;
      ghost var g, labelRepr, was := State(c), labels.Repr, c.stackMapFrames.items;
      var i := 0;
      while i < |ir|
        invariant 0 <= i <= |ir| && Valid() && CodeReady(c)
        invariant fresh(labels.Repr - labelRepr) && (c.stackMapFrames.items == was || fresh(c.stackMapFrames.items))
        invariant Pass1(constantMap.M, ir, i, g) == Ok(State(c))
      {
        match ir[i] {
          case Directive(_, _) =>
          case LabelDecl(_) => WriteLabel(i, c);
          case Instr(_) =>
            var done := WriteInstruction(i, c);
            if done.Err? {
              Pass1Err(constantMap.M, ir, i + 1, |ir|, g, done.error);
              return Err(done.error);
            }
        }
        i := i + 1;
      }
      return Ok(());
    }

    /** Second pass: the operands, label by label. */
    method SecondPass(c: Code) returns (r: Result<()>)
      requires Valid() && CodeReady(c) && State(c).InRange()
      modifies c.code, c.stackMapFrames, c.stackMapFrames.items
      ensures Valid() && CodeReady(c) && FramesKept(c)
      ensures Pass2(ir, |ir|, old(State(c))) == if r.Ok? then Ok(State(c)) else Err(r.error)
    {
      hide Probing, Holds, Count, LabelTables.Valid, LabelTables.Offsets, LabelTables.References, Table.Valid;
      hide PatchRefs;
      ghost var g, was := State(c), c.stackMapFrames.items;
      var i := 0;
      while i < |ir|
        invariant 0 <= i <= |ir| && Valid() && CodeReady(c)
                  && (c.stackMapFrames.items == was || fresh(c.stackMapFrames.items))
        invariant Pass2(ir, i, g) == Ok(State(c))
      {
        if ir[i].LabelDecl? {
          KeptInRange(g, State(c));
          var done := UpdateLabelReference(c, ir[i].name);
          if done.Err? {
            Pass2Err(ir, i + 1, |ir|, g, done.error);
            return Err(done.error);
          }
        }
        i := i + 1;
      }
      return Ok(());
    }

    method MainMethodCode(c: Code) returns (r: Result<()>)
      requires Valid() && CodeReady(c) && labels.Offsets() == map[] && labels.References() == map[]
      requires c.code.items == [] && c.stackMapFrames.Targets() == []
      requires Str(REGISTERS_FIELDREF) in constantMap.M && Str(THREAD_LOCAL_GET_METHODREF) in constantMap.M
      requires Str(LONG_ARRAY_CLASS) in constantMap.M
      modifies labels.Repr, c, c.code, c.stackMapFrames, c.stackMapFrames.items
      ensures Valid() && CodeReady(c) && FramesKept(c)
      ensures MainMethod(constantMap.M, ir, MainPrologue(Pool())) == if r.Ok? then Ok(State(c)) else Err(r.error)
      ensures r.Ok? ==> c.maxStack == 5 && c.maxLocals == 4
    {
      hide Probing, Holds, Count, LabelTables.Valid, LabelTables.Offsets, LabelTables.References, Table.Valid, Pass1;
      hide Pass2, MainPrologue;
      c.maxStack := 5;
      c.maxLocals := 2 + 2;
      LoadRegistersIntoLocal(c);
      assert State(c) == Gen(MainPrologue(Pool()), map[], map[], []);
      var done := FirstPass(c);
      if done.Err? {
        return done;
      }
      done := SecondPass(c);
      if done.Err? {
        return done;
      }
      c.code.WriteByte(RETURN);
      return Ok(());
    }

    // ----- the class file -----

    /** The index of a fixed key. */
    method IndexOfKey(name: string) returns (index: u16)
      requires PoolValid() && Str(name) in constantMap.M
      ensures index == IndexOf(Pool(), name)
    {
      var found := GetConstantIndex(Str(name));
      index := found.value;
    }

    method WriteIndexOf(name: string)
      requires PoolValid() && Str(name) in constantMap.M
      modifies res
      ensures PoolValid() && res.items == old(res.items) + BigEndian(IndexOf(Pool(), name), 2)
    {
      hide Table.Valid, BigEndian, IndexOf;
      var index := IndexOfKey(name);
      res.WriteBytes(index, 2);
    }

    /** The frames in sorted order as deltas; counts the bytes it writes. */
    method AddStackTableAttributeEntries(frames: StackMapFrames) returns (attributeLength: nat)
      requires PoolValid() && Str(LONG_ARRAY_CLASS) in constantMap.M && Apart(frames)
      modifies res, frames.items
      ensures PoolValid() && frames.Valid() && frames.items == old(frames.items) && frames.size == old(frames.size)
      ensures frames.Targets() == Sorted(old(frames.Targets()))
      ensures res.items == old(res.items) + WriteFrames(FramesOf(Pool(), Sorted(old(frames.Targets()))))
      ensures attributeLength == FramesLength(frames.size)
    {
      hide Table.Valid, BigEndian, Sorted, Previous, Delta, WriteFrames, WriteFrame, FramesOf, FrameOf, FramesLength;
      hide IndexOf;
      attributeLength := 2;
      frames.Sort();
      ghost var s, b := frames.Targets(), Pool();
      ghost var fs := FramesOf(b, s);
      var previousOffsetDeltas: u16 := 0;
      NothingWritten(s, fs);
      var i := 0;
      while i < frames.size
        invariant 0 <= i <= frames.size == |s| == |fs| && frames.Targets() == s && Apart(frames) && PoolValid()
        invariant Pool() == b
        invariant previousOffsetDeltas == Previous(s, i) && attributeLength == FramesLength(i)
        invariant res.items == old(res.items) + WriteFrames(fs[..i])
      {
        DeltaNext(s, i);
        FrameNext(b, s, i);
        attributeLength := attributeLength + 1;
        var offsetDelta := WriteFrameEntry(frames, i, previousOffsetDeltas);
        attributeLength := attributeLength + if i != 0 then 2 else 2 + 1 + 2 + 1;
        previousOffsetDeltas := ToU16(previousOffsetDeltas as int + offsetDelta);
        i := i + 1;
      }
      assert fs[..|s|] == fs;
    }

    /** One frame: the first adds the two locals, the others repeat them. */
    method WriteFrameEntry(frames: StackMapFrames, i: nat, previousOffsetDeltas: u16) returns (offsetDelta: u16)
      requires PoolValid() && Str(LONG_ARRAY_CLASS) in constantMap.M && Apart(frames)
      requires i < frames.size && previousOffsetDeltas == Previous(frames.Targets(), i)
      modifies res
      ensures PoolValid() && Apart(frames) && offsetDelta == Delta(frames.Targets(), i)
      ensures res.items == old(res.items) + WriteFrame(FrameOf(Pool(), frames.Targets(), i))
    {
      hide Table.Valid, BigEndian, Previous, Delta, IndexOf, WriteFrame;
      DeltaNext(frames.Targets(), i);
      if i != 0 {
        offsetDelta := ToU16(frames.items[i] as int - previousOffsetDeltas - i);
        WriteSameFrame(offsetDelta);
      } else {
        offsetDelta := frames.items[i];
        WriteFirstFrame(offsetDelta);
      }
    }

    ghost predicate Apart(frames: StackMapFrames)
      reads this, constantMap, frames
    {
      && frames.Valid() && {frames as object, frames.items} !! {this, res, constantMap, constantMap.values}
      && frames as object != frames.items
    }

    method WriteSameFrame(offsetDelta: u16)
      modifies res
      ensures res.items == old(res.items) + WriteFrame(SameExtended(offsetDelta))
    {
      hide BigEndian;
      res.WriteByte(251);
      res.WriteBytes(offsetDelta, 2);
    }

    method WriteFirstFrame(offsetDelta: u16)
      requires PoolValid() && Str(LONG_ARRAY_CLASS) in constantMap.M
      modifies res
      ensures PoolValid()
      ensures res.items == old(res.items)
              + WriteFrame(AppendFrame(offsetDelta, [ObjectType(IndexOf(Pool(), LONG_ARRAY_CLASS)), LongType]))
    {
      hide Table.Valid, BigEndian, IndexOf;
      res.WriteByte(251 + 2);
      res.WriteBytes(offsetDelta, 2);
      res.WriteByte(7);
      WriteIndexOf(LONG_ARRAY_CLASS);
      res.WriteByte(4);
      FirstFrameBytes(offsetDelta, IndexOf(Pool(), LONG_ARRAY_CLASS));
    }

    method AddStackTableAttribute(frames: StackMapFrames) returns (length: nat)
      requires PoolValid() && Str(LONG_ARRAY_CLASS) in constantMap.M && Str(STACK_MAP_TABLE) in constantMap.M
      requires Apart(frames)
      modifies res, frames.items
      ensures PoolValid() && frames.Valid() && frames.items == old(frames.items) && frames.size == old(frames.size)
      ensures res.items == AddStackMap(Pool(), old(res.items), old(frames.Targets()))
      ensures length == FramesLength(|old(frames.Targets())|) + 6
    {
      hide Table.Valid, BigEndian, IndexOf, Sorted, FramesOf, WriteFrames, FramesLength, Overwrite;
      WriteIndexOf(STACK_MAP_TABLE);
      var attributeLengthIndex := ToU16(|res.items|);
      res.WriteBytes(0, 4);
      res.WriteBytes(frames.size, 2);
      var attributeLength := AddStackTableAttributeEntries(frames);
      res.OverwriteBytes(attributeLengthIndex, attributeLength, 4);
      length := attributeLength + 6;
    }

    ghost function MethodOf(c: Code): Method_
      requires c.Valid()
      reads c, c.code, c.stackMapFrames, c.stackMapFrames.items
    {
      Method_(c.maxStack, c.maxLocals, c.code.items, c.stackMapFrames.Targets())
    }

    ghost predicate Writable(c: Code)
      reads this, constantMap, c, c.code, c.stackMapFrames
    {
      && PoolKeys(constantMap.M) && c.Valid() && c.Repr() !! {this, res, constantMap, constantMap.values}
    }

    method AddCodeAttribute(c: Code)
      requires PoolValid() && Writable(c)
      modifies res, c.stackMapFrames.items
      ensures PoolValid() && res.items == AddCode(Pool(), old(res.items), old(MethodOf(c)))
    {
      hide Table.Valid, BigEndian, IndexOf, AddStackMap, FramesLength, Overwrite;
      var hasFrames := c.stackMapFrames.size > 0;
      var attributeLengthIndex := WriteCodeHead(c);
      var attributeLength := |c.code.items| + 12;
      if hasFrames {
        var length := AddStackTableAttribute(c.stackMapFrames);
        attributeLength := attributeLength + length;
      }
      res.OverwriteBytes(attributeLengthIndex, attributeLength, 4);
    }

    /** The members of a Code attribute before its attributes, the length left open. */
    method WriteCodeHead(c: Code) returns (attributeLengthIndex: u16)
      requires PoolValid() && Writable(c)
      modifies res
      ensures PoolValid() && Writable(c)
      ensures res.items == old(res.items) + CodeHead(Pool(), MethodOf(c), 0)
      ensures attributeLengthIndex == ToU16(|old(res.items)| + 2)
    {
      hide Table.Valid, BigEndian, IndexOf, CodeInner;
      CodeHeadIs(Pool(), MethodOf(c));
      WriteIndexOf(CODE);
      attributeLengthIndex := ToU16(|res.items|);
      res.WriteBytes(0, 4);
      WriteCodeInner(c);
    }

    method WriteCodeInner(c: Code)
      requires PoolValid() && Writable(c)
      modifies res
      ensures PoolValid() && Writable(c)
      ensures res.items == old(res.items) + CodeInner(MethodOf(c))
    {
      hide Table.Valid, BigEndian, IndexOf;
      res.WriteBytes(c.maxStack, 2);
      res.WriteBytes(c.maxLocals, 2);
      res.WriteBytes(|c.code.items|, 4);
      CopyCode(c.code);
      res.WriteBytes(0, 2);
      res.WriteBytes(if c.stackMapFrames.size > 0 then 1 else 0, 2);
    }

    method CopyCode(code: Bytecode)
      requires code != res
      modifies res
      ensures res.items == old(res.items) + code.items
    {
      var i := 0;
      while i < |code.items|
        invariant 0 <= i <= |code.items| && res.items == old(res.items) + code.items[..i]
      {
        assert code.items[..i + 1] == code.items[..i] + [code.items[i]];
        res.WriteByte(code.items[i]);
        i := i + 1;
      }
      assert code.items[..|code.items|] == code.items;
    }

    method AddMethod(mask: u16, name: string, descriptor: string, c: Code)
      requires PoolValid() && Writable(c) && Str(name) in constantMap.M && Str(descriptor) in constantMap.M
      modifies res, c.stackMapFrames.items
      ensures PoolValid()
      ensures res.items == Output.AddMethod(Pool(), old(res.items), mask, name, descriptor, old(MethodOf(c)))
    {
      hide Table.Valid, BigEndian, IndexOf, AddCode;
      res.WriteBytes(mask, 2);
      WriteIndexOf(name);
      WriteIndexOf(descriptor);
      res.WriteBytes(1, 2);
      assert res.items == old(res.items) + MethodHead(Pool(), mask, name, descriptor);
      AddCodeAttribute(c);
    }

    method WriteHeader()
      modifies res
      ensures res.items == old(res.items) + BigEndian(MAGIC, 4) + BigEndian(0, 2) + BigEndian(52, 2)
    {
      hide BigEndian;
      res.WriteBytes(MAGIC, 4);
      res.WriteBytes(0, 2);
      res.WriteBytes(52, 2);
    }

    method WriteClassIndices()
      requires PoolValid() && PoolKeys(constantMap.M)
      modifies res
      ensures PoolValid()
      ensures res.items == old(res.items) + BigEndian(CLASS_ACCESS, 2) + BigEndian(IndexOf(Pool(), THIS_CLASS), 2)
                           + BigEndian(IndexOf(Pool(), SUPER_CLASS), 2) + BigEndian(0, 2)
    {
      hide Table.Valid, BigEndian, IndexOf;
      res.WriteBytes(CLASS_ACCESS, 2);
      WriteIndexOf(THIS_CLASS);
      WriteIndexOf(SUPER_CLASS);
      res.WriteBytes(0, 2);
    }

    /** A field, with the generic signature of `registers` or without. */
    method AddField(mask: u16, name: string, descriptor: string, hasSignature: bool)
      requires PoolValid() && PoolKeys(constantMap.M) && Str(name) in constantMap.M && Str(descriptor) in constantMap.M
      modifies res
      ensures PoolValid()
      ensures res.items == old(res.items)
        + (BigEndian(mask, 2) + BigEndian(IndexOf(Pool(), name), 2) + BigEndian(IndexOf(Pool(), descriptor), 2)
           + (if hasSignature then
                BigEndian(1, 2) + BigEndian(IndexOf(Pool(), SIGNATURE), 2) + BigEndian(2, 4)
                    + BigEndian(IndexOf(Pool(), REGISTERS_FIELD_SIGNATURE), 2)
              else BigEndian(0, 2)))
    {
      hide Table.Valid, BigEndian, IndexOf;
      res.WriteBytes(mask, 2);
      WriteIndexOf(name);
      WriteIndexOf(descriptor);
      if hasSignature {
        res.WriteBytes(1, 2);
        WriteIndexOf(SIGNATURE);
        res.WriteBytes(2, 4);
        WriteIndexOf(REGISTERS_FIELD_SIGNATURE);
      } else {
        res.WriteBytes(0, 2);
      }
    }

    method WriteFields()
      requires PoolValid() && PoolKeys(constantMap.M)
      modifies res
      ensures PoolValid() && res.items == old(res.items) + Fields(Pool())
    {
      hide Table.Valid, BigEndian, IndexOf;
      res.WriteBytes(2, 2);
      AddField(FIELD_ACCESS, REGISTERS_FIELD_NAME, REGISTERS_FIELD_DESCRIPTOR, true);
      AddField(FIELD_ACCESS, MEMORY_FIELD_NAME, LONG_ARRAY_DESCRIPTOR, false);
    }

    method WriteCodeIndex(code: Bytecode, op: byte, name: string)
      requires PoolValid() && Str(name) in constantMap.M && code as object != this && code as object != constantMap
      requires code as object != constantMap.values
      modifies code
      ensures PoolValid() && code.items == old(code.items) + [op] + BigEndian(IndexOf(Pool(), name), 2)
    {
      hide Table.Valid, BigEndian, IndexOf;
      code.WriteByte(op);
      var index := IndexOfKey(name);
      code.WriteBytes(index, 2);
    }

    /** A fresh ThreadLocal holding a fresh array of 32 longs. */
    method InitializeRegisters(code: Bytecode)
      requires PoolValid() && PoolKeys(constantMap.M) && code as object != this && code as object != constantMap
      requires code as object != constantMap.values
      requires code.items == []
      modifies code
      ensures PoolValid() && code.items == ClinitRegisters(Pool())
    {
      hide Table.Valid, BigEndian, IndexOf;
      WriteCodeIndex(code, NEW, THREAD_LOCAL_CLASS);
      code.WriteByte(DUP);
      WriteCodeIndex(code, INVOKESPECIAL, THREAD_LOCAL_INIT_METHODREF);
      WriteCodeIndex(code, PUTSTATIC, REGISTERS_FIELDREF);
      WriteCodeIndex(code, GETSTATIC, REGISTERS_FIELDREF);
      code.WriteByte(BIPUSH);
      code.WriteByte(32);
      code.WriteByte(NEWARRAY);
      code.WriteByte(11);
      WriteCodeIndex(code, INVOKEVIRTUAL, THREAD_LOCAL_SET_METHODREF);
    }

    /** Then the memory array of 1024 longs. */
    method ClinitMethodCode(c: Code)
      requires PoolValid() && Writable(c) && c.code.items == []
      modifies c, c.code
      ensures PoolValid() && Writable(c) && c.maxStack == 3 && c.maxLocals == old(c.maxLocals)
      ensures c.code.items == ClinitCode(Pool()) && c.stackMapFrames.Targets() == old(c.stackMapFrames.Targets())
    {
      hide Table.Valid, BigEndian, IndexOf, ClinitRegisters;
      c.maxStack := 3;
      InitializeRegisters(c.code);
      c.code.WriteByte(SIPUSH);
      c.code.WriteBytes(8192 / 8, 2);
      c.code.WriteByte(NEWARRAY);
      c.code.WriteByte(11);
      WriteCodeIndex(c.code, PUTSTATIC, MEMORY_FIELDREF);
      c.code.WriteByte(RETURN);
    }

    /** <clinit> and main. */
    method Methods() returns (r: Result<()>)
      requires Valid() && PoolKeys(constantMap.M) && labels.Offsets() == map[] && labels.References() == map[]
      modifies res, labels.Repr
      ensures PoolValid()
      ensures MainMethod(constantMap.M, ir, MainPrologue(Pool())).Ok? == r.Ok?
      ensures r.Err? ==> MainMethod(constantMap.M, ir, MainPrologue(Pool())) == Err(r.error)
      ensures r.Ok? ==>
        var g := MainMethod(constantMap.M, ir, MainPrologue(Pool())).value;
        var clinit := Output.AddMethod(Pool(), old(res.items) + BigEndian(2, 2), METHOD_ACCESS, CLINIT_METHOD_NAME,
                                       NO_ARGS_VOID_DESCRIPTOR, Clinit(Pool()));
        res.items == Output.AddMethod(Pool(), clinit, METHOD_ACCESS, MAIN_METHOD_NAME, MAIN_METHOD_DESCRIPTOR, Main(g))
    {
      hide Probing, Holds, Count, LabelTables.Valid, LabelTables.Offsets, LabelTables.References, Table.Valid;
      hide BigEndian, IndexOf;
      hide MainMethod, Output.AddMethod, ClinitCode, MainPrologue;
      res.WriteBytes(2, 2);
      AddClinit();
      var mainCode := new Code();
      var done := MainMethodCode(mainCode);
      if done.Err? {
        return done;
      }
      AddMethod(METHOD_ACCESS, MAIN_METHOD_NAME, MAIN_METHOD_DESCRIPTOR, mainCode);
      return Ok(());
    }

    method AddClinit()
      requires PoolValid() && PoolKeys(constantMap.M)
      modifies res
      ensures PoolValid()
      ensures res.items == Output.AddMethod(Pool(), old(res.items), METHOD_ACCESS, CLINIT_METHOD_NAME,
                                            NO_ARGS_VOID_DESCRIPTOR, Clinit(Pool()))
    {
      hide Table.Valid, BigEndian, IndexOf, Output.AddMethod, ClinitCode;
      var clinitCode := new Code();
      ClinitMethodCode(clinitCode);
      AddMethod(METHOD_ACCESS, CLINIT_METHOD_NAME, NO_ARGS_VOID_DESCRIPTOR, clinitCode);
    }

    /** The whole file, or the reason for which the generator stops. */
    method GenerateBytecode() returns (r: Result<()>)
      requires Valid() && Pool() == Build([], map[]) && res.items == [] && labels.Offsets() == map[]
               && labels.References() == map[]
      modifies this, res, constantMap, constantMap.values, labels.Repr
      ensures Generate(ir, junk) == if r.Ok? then Ok(res.items) else Err(r.error)
    {
      hide Probing, Holds, Count, LabelTables.Valid, LabelTables.Offsets, LabelTables.References, Table.Valid;
      hide BigEndian, IndexOf;
      hide MainMethod, Output.AddMethod, MainPrologue, PoolTo, WriteEntries, Overwrite, Fields, PoolKeys;
      WriteHeader();
      assert res.items == BigEndian(MAGIC, 4) + BigEndian(0, 2) + BigEndian(52, 2);
      ConstantPool();
      KeysThere(ir, junk);
      WriteClassIndices();
      WriteFields();
      assert res.items + BigEndian(2, 2) == Head(Pool());
      var done := Methods();
      if done.Err? {
        return done;
      }
      res.WriteBytes(0, 2);
      return Ok(());
    }
  }

  /** An R2 instruction that is neither ADDI with a constant nor a mistake. */
  lemma EmitR2Is(pool: Pool, m: Mnemonic, rd: Reg, rs1: Reg, op: Operand12, g: Gen)
    ensures var r := EmitInstruction(pool, R2(m, rd, rs1, op), g);
            if m == ADDI then op.Label? ==> r == Err(UndefinedOperand)
            else if m == BNE || m == BLT then
              r == if op.Imm? then Err(UndefinedOperand)
                   else Ok(Branch(g, rd, rs1, if m == BNE then IFEQ else IFGT, op.name))
            else r == Ok(g)
  {
    hide Branch;
  }

  /** The keys that the sections after the pool look up. */
  ghost predicate PoolKeys(m: map<Key, u16>) {
    && Str(LONG_ARRAY_CLASS) in m && Str(STACK_MAP_TABLE) in m && Str(CODE) in m && Str(THIS_CLASS) in m
    && Str(SUPER_CLASS) in m
    && Str(SIGNATURE) in m && Str(REGISTERS_FIELD_SIGNATURE) in m && Str(REGISTERS_FIELD_NAME) in m
    && Str(REGISTERS_FIELD_DESCRIPTOR) in m
    && Str(MEMORY_FIELD_NAME) in m && Str(LONG_ARRAY_DESCRIPTOR) in m && Str(THREAD_LOCAL_CLASS) in m
    && Str(THREAD_LOCAL_INIT_METHODREF) in m && Str(REGISTERS_FIELDREF) in m && Str(THREAD_LOCAL_SET_METHODREF) in m
    && Str(MEMORY_FIELDREF) in m && Str(THREAD_LOCAL_GET_METHODREF) in m && Str(CLINIT_METHOD_NAME) in m
    && Str(NO_ARGS_VOID_DESCRIPTOR) in m && Str(MAIN_METHOD_NAME) in m && Str(MAIN_METHOD_DESCRIPTOR) in m
  }

  lemma KeyThere(ir: seq<Element>, junk: Junk, i: nat)
    requires i < 38
    ensures Str(NameAt(i)) in PoolTo(ir, junk, |ir|).index
  {
    hide NameAt;
    PoolGrows(ir, junk, 0, |ir|);
    FixedIndexIs(38, i);
  }

  lemma KeysThere(ir: seq<Element>, junk: Junk)
    ensures PoolKeys(PoolTo(ir, junk, |ir|).index)
  {
    hide PoolTo, NameAt;
    forall i | 0 <= i < 38 ensures Str(NameAt(i)) in PoolTo(ir, junk, |ir|).index {
      KeyThere(ir, junk, i);
    }
    ClassNames();
    TextNames();
    RefNames();
  }

  lemma ClassNames()
    ensures NameAt(7) == LONG_ARRAY_CLASS && NameAt(3) == THIS_CLASS && NameAt(1) == SUPER_CLASS
    ensures NameAt(5) == THREAD_LOCAL_CLASS
  {
  }

  lemma TextNames()
    ensures NameAt(23) == STACK_MAP_TABLE && NameAt(22) == CODE && NameAt(16) == SIGNATURE
    ensures NameAt(12) == REGISTERS_FIELD_SIGNATURE
    ensures NameAt(10) == REGISTERS_FIELD_NAME && NameAt(11) == REGISTERS_FIELD_DESCRIPTOR
    ensures NameAt(14) == MEMORY_FIELD_NAME
    ensures NameAt(6) == LONG_ARRAY_DESCRIPTOR && NameAt(18) == CLINIT_METHOD_NAME
    ensures NameAt(21) == NO_ARGS_VOID_DESCRIPTOR
    ensures NameAt(19) == MAIN_METHOD_NAME && NameAt(20) == MAIN_METHOD_DESCRIPTOR
  {
  }

  lemma RefNames()
    ensures NameAt(25) == THREAD_LOCAL_INIT_METHODREF && NameAt(35) == REGISTERS_FIELDREF
    ensures NameAt(29) == THREAD_LOCAL_SET_METHODREF
    ensures NameAt(37) == MEMORY_FIELDREF && NameAt(33) == THREAD_LOCAL_GET_METHODREF
  {
  }

  lemma NothingWritten(s: seq<u16>, fs: seq<Frame>)
    ensures Previous(s, 0) == 0 && WriteFrames(fs[..0]) == [] && FramesLength(0) == 2
  {
  }

  lemma DeltaNext(s: seq<u16>, i: nat)
    requires i < |s|
    ensures Delta(s, i) == if i == 0 then s[0] else ToU16(s[i] as int - Previous(s, i) - i)
    ensures Previous(s, i + 1) == ToU16(Previous(s, i) as int + Delta(s, i))
  {
  }

  lemma FrameNext(b: Build, s: seq<u16>, i: nat)
    requires i < |s|
    ensures var fs := FramesOf(b, s); WriteFrames(fs[..i + 1]) == WriteFrames(fs[..i]) + WriteFrame(FrameOf(b, s, i))
    ensures FramesLength(i + 1) == FramesLength(i) + if i != 0 then 3 else 7
  {
    hide WriteFrame, FrameOf;
    var fs := FramesOf(b, s);
    assert fs[..i + 1][..i] == fs[..i];
  }

  lemma FirstFrameBytes(d: u16, index: u16)
    ensures WriteFrame(AppendFrame(d, [ObjectType(index), LongType]))
         == [253] + BigEndian(d, 2) + [7] + BigEndian(index, 2) + [4]
  {
    hide BigEndian;
    var ts := [ObjectType(index), LongType];
    assert ts[1..] == [LongType] && ts[1..][1..] == [];
    assert WriteTypes(ts[1..]) == WriteType(LongType) + WriteTypes([]);
  }

  ghost predicate RefsInside(g: Gen, name: string) {
    forall i :: 0 <= i < |g.RefsTo(name)| ==> g.RefsTo(name)[i].branch + 4 <= |g.code|
  }

  lemma RefsInRange(g: Gen, name: string)
    requires g.InRange()
    ensures RefsInside(g, name)
  {
  }

  lemma KeptInRange(g: Gen, h: Gen)
    requires g.InRange() && |h.code| == |g.code| && h.refs == g.refs
    ensures h.InRange()
  {
  }

  lemma PatchRefsNone(g: Gen, name: string, rs: seq<Ref>)
    requires forall i :: 0 <= i < |rs| ==> rs[i].branch + 4 <= |g.code|
    ensures PatchRefs(g, name, rs, 0) == Ok(g)
  {
  }

  lemma PatchRefsStep(g: Gen, name: string, rs: seq<Ref>, i: nat, h: Gen)
    requires i < |rs| && (forall k :: 0 <= k < |rs| ==> rs[k].branch + 4 <= |g.code|)
    requires PatchRefs(g, name, rs, i) == Ok(h)
    ensures |h.code| == |g.code|
    ensures PatchRefs(g, name, rs, i + 1)
         == if Str(name) !in h.offsets then Err(MissingOffset(name))
            else Ok(h.(code := Overwrite(h.code, rs[i].branch,
                                         BigEndian(h.offsets[Str(name)] as int - rs[i].opcode,
                                                   4))).AddFrame(h.offsets[Str(name)]))
  {
    hide Overwrite, BigEndian;
  }

  lemma {:induction false} PatchRefsErr(g: Gen, name: string, rs: seq<Ref>, k: nat, n: nat, e: Error)
    requires k <= n <= |rs| && (forall i :: 0 <= i < |rs| ==> rs[i].branch + 4 <= |g.code|)
    requires PatchRefs(g, name, rs, k) == Err(e)
    ensures PatchRefs(g, name, rs, n) == Err(e)
    decreases n
  {
    if k < n {
      PatchRefsErr(g, name, rs, k, n - 1, e);
    }
  }

  lemma {:induction false} Pass1Err(pool: map<Key, u16>, ir: seq<Element>, k: nat, n: nat, g: Gen, e: Error)
    requires k <= n <= |ir| && g.InRange() && Pass1(pool, ir, k, g) == Err(e)
    ensures Pass1(pool, ir, n, g) == Err(e)
    decreases n
  {
    if k < n {
      Pass1Err(pool, ir, k, n - 1, g, e);
    }
  }

  lemma {:induction false} Pass2Err(ir: seq<Element>, k: nat, n: nat, g: Gen, e: Error)
    requires k <= n <= |ir| && g.InRange() && Pass2(ir, k, g) == Err(e)
    ensures Pass2(ir, n, g) == Err(e)
    decreases n
  {
    if k < n {
      Pass2Err(ir, k, n - 1, g, e);
    }
  }

  /** `s` is the text of entry `r`. */
  predicate IsName(s: string, r: nat) {
    r < 38 && s == NameAt(r) && EntryAt(r) == Utf8(NameAt(r)) && |s| < 65536
  }

  predicate IsClass(name: string, key: string, r: nat) {
    IsName(name, r) && r < 37 && key == NameAt(r + 1) && EntryAt(r + 1) == Class(r + 1)
  }

  lemma FiveClasses()
    ensures IsClass(SUPER_CLASS_NAME, SUPER_CLASS, 0)
    ensures IsClass(THIS_CLASS_NAME, THIS_CLASS, 2)
    ensures IsClass(THREAD_LOCAL, THREAD_LOCAL_CLASS, 4)
    ensures IsClass(LONG_ARRAY_DESCRIPTOR, LONG_ARRAY_CLASS, 6)
    ensures IsClass(STRING_ARRAY_DESCRIPTOR, STRING_ARRAY_CLASS, 8)
  {
  }

  lemma FieldNames()
    ensures IsName(REGISTERS_FIELD_NAME, 10)
    ensures IsName(REGISTERS_FIELD_DESCRIPTOR, 11)
    ensures IsName(REGISTERS_FIELD_SIGNATURE, 12)
    ensures IsName(REGISTERS_FIELD, 13)
    ensures IsName(MEMORY_FIELD_NAME, 14)
    ensures IsName(MEMORY_FIELD, 15)
    ensures IsName(SIGNATURE, 16)
  {
  }

  lemma MethodNames()
    ensures IsName(INIT_METHOD_NAME, 17)
    ensures IsName(CLINIT_METHOD_NAME, 18)
    ensures IsName(MAIN_METHOD_NAME, 19)
    ensures IsName(MAIN_METHOD_DESCRIPTOR, 20)
    ensures IsName(NO_ARGS_VOID_DESCRIPTOR, 21)
    ensures IsName(CODE, 22)
    ensures IsName(STACK_MAP_TABLE, 23)
  {
  }

  lemma NothingFixed()
    ensures FixedTo(0) == Build([], map[])
  {
  }

  lemma NoNumber(e: Element)
    requires !e.Instr?
    ensures !HasNumber(e)
  {
  }

  lemma EntryAppended(es: seq<Entry>, e: Entry)
    ensures WriteEntries(es + [e]) == WriteEntries(es) + WriteEntry(e)
  {
    hide WriteEntry;
    assert (es + [e])[..|es|] == es;
  }
}
