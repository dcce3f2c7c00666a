/** A bound on the number of instructions that keeps every 16-bit position in the file exact. */
module Bounds {
  import opened Words
  import opened Ir
  import opened Emission
  import opened Layout
  import opened Assembly
  import opened Constants
  import opened ConstantPool
  import opened ClassFile
  import opened Output
  import opened Compiled

  function Instructions(ir: seq<Element>, n: nat): nat
    requires n <= |ir|
  {
    if n == 0 then 0 else Instructions(ir, n - 1) + if ir[n - 1].Instr? then 1 else 0
  }

  /** Main is at most 11 + 17n bytes for n instructions. */
  lemma {:induction false} CodeBound(ir: seq<Element>, n: nat)
    requires n <= |ir|
    ensures Offset(ir, n) <= 10 + 17 * Instructions(ir, n)
  {
    if n > 0 {
      CodeBound(ir, n - 1);
    }
  }

  lemma EntryBound(i: nat)
    requires i < 38
    ensures |WriteEntry(EntryAt(i))| <= 30
  {
    hide NameAt;
    NameBound(i);
  }

  lemma NameBound(i: nat)
    requires i < 38
    ensures EntryAt(i).Utf8? ==> |NameAt(i)| <= 27
  {
  }

  lemma {:induction false} FixedBound(r: nat)
    requires r <= 38
    ensures |WriteEntries(EntriesTo(r))| <= 30 * r
  {
    hide EntryAt, WriteEntry;
    if r > 0 {
      FixedBound(r - 1);
      EntryBound(r - 1);
      assert EntriesTo(r)[..r - 1] == EntriesTo(r - 1);
    }
  }

  /** An instruction adds at most one number, of five bytes, to the pool. */
  lemma {:induction false} PoolBound(ir: seq<Element>, junk: Junk, n: nat)
    requires n <= |ir|
    ensures |WriteEntries(PoolTo(ir, junk, n).entries)| <= 1140 + 5 * Instructions(ir, n)
  {
    hide FixedIndex, EntriesTo, NumberOf, WriteEntries, AddNumber;
    if n == 0 {
      FixedBound(38);
    } else {
      PoolBound(ir, junk, n - 1);
      if HasNumber(ir[n - 1]) {
        NumberBound(PoolTo(ir, junk, n - 1), NumberOf(ir[n - 1], junk(n - 1)));
      }
    }
  }

  lemma NumberBound(b: Build, v: Int32)
    ensures |WriteEntries(AddNumber(b, v).entries)| <= |WriteEntries(b.entries)| + 5
  {
    if Num(v) !in b.index {
      assert (b.entries + [Integer(v)])[..|b.entries|] == b.entries;
    }
  }

  lemma HeadBytes(b: Build)
    ensures |Head(b)| == 46 + |WriteEntries(b.entries)|
  {
    hide BigEndian, IndexOf, WriteEntries;
  }

  lemma MainStartIs(b: Build)
    ensures MainStart(b) == 101 + |WriteEntries(b.entries)|
  {
    hide BigEndian, IndexOf, WriteEntries, Head, Overwrite, MethodHead, CodeHead;
    HeadBytes(b);
    HeadSizes(b, CLINIT_METHOD_NAME, NO_ARGS_VOID_DESCRIPTOR, Clinit(b), 0);
    ClinitBytes(b);
  }

  lemma ClinitBytes(b: Build)
    ensures |ClinitCode(b)| == 29
  {
    hide BigEndian, IndexOf;
  }

  /** At most one entry for each instruction after the fixed ones. */
  lemma {:induction false} EntriesBound(ir: seq<Element>, junk: Junk, n: nat)
    requires n <= |ir|
    ensures |PoolTo(ir, junk, n).entries| <= 38 + Instructions(ir, n)
  {
    hide FixedIndex, NumberOf;
    if n > 0 {
      EntriesBound(ir, junk, n - 1);
    }
  }

  /** 2900 instructions, of any kind, and any number of labels are within reach of the 16-bit positions. */
  lemma SmallPrograms(ir: seq<Element>, junk: Junk)
    requires Instructions(ir, |ir|) <= 2900
    requires forall j :: 0 <= j < |ir| && ir[j].Instr? ==> !UsesWrongOperand(ir[j].ins)
    ensures Fits(ir) && |PoolTo(ir, junk, |ir|).entries| < 65535 && LastLengthAt(ir, junk) < 65536
  {
    hide Offset, PoolTo, WriteEntries, MainStart, MainPrologue, Instructions, UsesWrongOperand, Frames, Assemble;
    var b := PoolTo(ir, junk, |ir|);
    CodeBound(ir, |ir|);
    PoolBound(ir, junk, |ir|);
    EntriesBound(ir, junk, |ir|);
    MainStartIs(b);
    ConstantsFound(ir, junk);
    AssembleEnds(b.index, ir, MainPrologue(b));
  }

  /** So whatever is generated for so few instructions reads back as the class meant. */
  lemma SmallFiles(ir: seq<Element>, junk: Junk)
    requires Generate(ir, junk).Ok? && UniqueLabels(ir) && Instructions(ir, |ir|) <= 2900
    ensures Produced(ir, junk)
    ensures ReadClass(Generate(ir, junk).value) == Got(ClassFor(PoolTo(ir, junk, |ir|), MainOf(ir, junk)), [])
  {
    hide Generate, UniqueLabels, Instructions, PoolTo, ReadClass, ClassFor, LastLengthAt, UsesWrongOperand;
    hide TargetsHaveCode, WriteClass;
    hide CodeOf, FramesOf;
    GenerationSucceeds(ir, junk);
    SmallPrograms(ir, junk);
    FileReadsBack(ir, junk);
  }
}
