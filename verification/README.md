# Verified model of rv2jvm

rv2jvm compiles RISC-V assembly to one JVM class file, `RvRuntime`. This project models the compiler from source text
to the last byte of the class file and proves what it is for: the main method that comes out passes the verifier's type
checker and does what the program says, under conditions that are stated exactly where the code falls short of that.

- **Front end.** `Lexer`, `Mnemonics`, `Parser`, `Seman`: the scanner and the recursive-descent parser as objects with
  a moving cursor, the hand-written trie of mnemonics, and the label check over a hash table. `Grammar` says which
  program a list of tokens denotes, without the parser, and `Sentences` that the parser reads exactly that.
  `RoundTrip` and `Pseudo` say which sources are a way of writing a program, which programs can be written, that
  printing and reading back is the identity, and what pseudo-instructions and immediates stand for.
- **Tables and buffers.** `Table` is the open-addressing hash table as a class over an array; `Buffer`, `Labels` and
  `StackMap` hold the growing bytecode, the label tables and the list of frames with its bubble sort.
- **Code generator.** `Codegen` holds the generator's objects. Every method is proved against functions of `Emission`,
  `ConstantPool` and `Output`, which describe the two passes, the pool and the file as values.
- **What the bytes mean.** `Layout`, `Patching` and `Assembly` show that two passes with back-patching write what a
  one-pass assembler with known label offsets would write. `RiscV` steps the IR; `Opcodes` has the machine's own table
  of instructions, `Jvm` steps the bytes of main and `Initializer` those of the class initializer; `Simulation`,
  `Agreement` and `Preparation` relate them over whole runs. `Verifier`, `TypeSafety` and `MainTyping` do the same for
  the verifier's type checking, `Coverage` ties the frames to the jump instructions, and `Unimplemented` shows what
  becomes of three-register instructions other than ADD. `ClassFile` reads and writes class files, `Loading` finds what a JVM looks for
  in them. `Compiled`, `Bounds` and `Compiler` put it all together; `Failures` gives a program for each condition
  under which the compiler fails.

`Compiler.Compile` carries the end-to-end statement; `Compiler.WrittenMeans` says it of every way of writing a program.

Sections quoted: The Java Virtual Machine Specification, Java SE 8 Edition (2.9, 4.1, 4.4, 4.5, 4.6, 4.7, 4.10.1, 5.2,
6.5), and The RISC-V Instruction Set Manual, Volume I: Unprivileged ISA (2.4, 2.5).

## Where the code and its documentation part

The model follows the code.

- BLT jumps on equal operands too: LCMP and IFGT skip the jump only when the first operand is greater. `Agreement.BltStep`
  and `Agreement.RunsMeet` give the exact condition, for a step and for a run, and `Agreement.BltCounterexample` a program
  that never ends.
- `j` is parsed as JAL, and no code is generated for JAL, so a jump written as `j` disappears (`Compiler.JumpsDropped`).
  J is treated at the level of the IR.
- The repository's README names RV32I; registers are 64-bit longs. `Compiled.ClassRunsProgram` uses 64-bit registers.
  `Agreement.RunsMeetRv32` says exactly when a run is the 32-bit one in the low halves, `Compiled.ClassRunsRv32` carries
  it to the loaded main, and `Failures.OverflowFails` gives a program without BLT that ends on RV32I while its main never
  returns.
- A label whose next element is another label gets no offset; a jump to it stops the compiler
  (`Compiled.GenerationSucceeds`, `Compiled.GenerationStops`, and `Failures.TwoLabelsFail` for a program).
- Two jumps to one label, and a jump to the place behind a conditional branch, record a frame twice; the delta then wraps
  and the class does not verify (`MainTyping.FramesDistinct`, `StackMap.DeltasRoundTrip`, `StackMap.NothingWraps`, and
  `Failures.TwoJumpsFail` for a program).
- Positions of length fields are kept in 16 bits; past them a length field stays zero (`Output.FileIsClass`, and
  `Failures.LongFails` for a program whose code is still short enough for a method).
- The grammar allows dots in identifiers, no leading zeros, small letters only in register names, and labels that are
  identifiers; the scanner rejects dots, and the parser takes leading zeros, `X5`, `x` for `x0`, and any lexeme but a line
  end as a label. `Grammar` is the language that is read.

## Model

| member | source | states |
|---|---|---|
| Compiler.Compile | rv2jvm/src/compiler.c:11-18 | The whole compiler succeeds exactly when the sources, one after the other, are a way of writing a program whose labels are unique and declared, whose operands are of the right kind and whose jump targets have code, and its file then delivers that program as `Compiler.Delivered` says; otherwise the error says what is wrong with the sources |
| Compiler.Delivered | rv2jvm/src/codegen.c:963-979 | The file of any program with unique labels that generation takes reads, while code and pool fit the format, as the class meant exactly within the 16-bit positions, and always for up to 2900 instructions; within them the class initializes itself and has a main, and for supported programs the verifier takes main exactly when the targets are recorded once, every J is followed by one, and a store to a non-zero register precedes the first; if also no BLT of the run compares equal operands, main never gets stuck and returns with some registers exactly when the program ends with them |
| Compiler.FrontError | rv2jvm/src/compiler.c:11-18 | When the front end fails, some source spells no tokens, or the tokens denote no program |
| Compiler.GenerateError | rv2jvm/src/codegen.c:908-939 | When generation fails, an operand is of the wrong kind, or the label named is declared and jumped to and has no code |
| Compiler.WrittenMeans | rv2jvm/src/compiler.c:11-18 | However such a program is written down, in one source or several, with labels on lines of their own or not and blank lines anywhere, the sources compile to a class file that initializes itself and whose main is type safe, never gets stuck, and computes the program |
| Compiler.CountdownMeans | rv2jvm/src/compiler.c:11-18 | A program with a loop, written as text, meets everything that the end-to-end statements ask; the main of its class file passes the type checker and computes it |
| Compiler.FaithfulMeans | rv2jvm/src/compiler.c:11-18 | A supported program within the 16-bit positions that the verifier takes and whose run compares no equal operands by BLT compiles to a class file that initializes itself and whose main is type safe, never gets stuck even when the program never ends, and returns with some registers exactly when the program ends with them |
| Compiler.SupportedForm | rv2jvm/src/parser.c:488-539 | Every supported program without a J can be written down, if its labels can |
| Compiler.JumpsDropped | rv2jvm/src/parser.c:682-686 | No text denotes a J instruction, and the R1 instructions that texts denote generate no code |
| Compiled.ClassRunsProgram | rv2jvm/src/codegen.c:963-979 | Loaded from the generated bytes and run on zeroed registers, main returns with given registers exactly when the program, stepped by the RISC-V specification with 64-bit registers, halts with them, for every run in which no BLT compares equal operands |
| Compiled.ClassRunsRv32 | rv2jvm/src/codegen.c:963-979 | Main returns with registers whose low halves are those of the RV32I run, exactly when that run ends, as long as no jump parts the two runs |
| Compiled.ClassNeverStuck | rv2jvm/src/codegen.c:963-979 | After any number of steps the loaded main of a supported program is running or has returned, whether or not the program ends |
| Compiled.ClassInitializes | rv2jvm/src/codegen.c:724-761 | Before main the loaded class initializes itself, whatever the program is: the static initializer is type safe and ends with 32 zeroed registers behind the ThreadLocal and 1024 zeroed longs of memory |
| Compiled.ClassLinked | rv2jvm/src/codegen.c:563-617 | The class meant is a public class RvRuntime with the static fields `registers` and `memory` that the code uses |
| Compiled.ClassHeader | rv2jvm/src/codegen.c:941-956 | Its version, its flags and those of its fields and methods are the numbers of the source, and its one attribute is the Signature of `registers` |
| Compiled.ClassRejected | rv2jvm/src/codegen.c:829-848 | With a three-register instruction other than ADD that has a target, the loaded main is never type safe |
| Compiled.ClassVerifies | rv2jvm/src/codegen.c:908-956 | The loaded main passes the type checker of section 4.10.1, with its own limits of stack and locals, exactly when no two jumps share a target, none goes right behind a conditional branch, every J is followed by a target, and a store to a non-zero register precedes the first target |
| Compiled.ClassCovers | rv2jvm/src/codegen.c:636-671 | The stack map table read back with the class has a frame exactly at each place that the jump instructions of main lead to, precisely when no two jumps share a target and none goes right behind a conditional branch; for programs of any instructions with declared labels |
| Compiled.FileReadsBack | rv2jvm/src/codegen.c:963-979 | The bytes generated for any program, whatever its instructions mean, are the encoding of the intended class, and read back as it, exactly while the last length field starts below 65536, and then the public static main and the static initializer are found by the names and descriptors of the specification, with their code and frames; the hypotheses are that labels are unique and that code and pool fit the format |
| Compiled.GenerationSucceeds | rv2jvm/src/codegen.c:908-939 | For programs of any size generation stops exactly at an operand of the wrong kind or at a jumped-to label that no instruction follows |
| Compiled.GenerationStops | rv2jvm/src/codegen.c:282-292 | Without operands of the wrong kind, a failing generation names a declared and jumped-to label of which no declaration is followed by an instruction or the end |
| Compiled.ConstantsFound | rv2jvm/src/codegen.c:813-820 | Every ADDI finds its constant in the pool whatever the unset operands add to it, so the first pass stops only at undefined operands |
| Compiled.PoolMeans | rv2jvm/src/codegen.c:509-562 | While the pool fits 16 bits, every index that main uses resolves to the number, field, method or class it was meant for |
| Compiled.FramesFew | rv2jvm/src/codegen.c:673-685 | The number of frames of a program that fits a method fits its 16-bit field |
| Bounds.CodeBound | rv2jvm/src/codegen.c:829-890 | Main has at most 11 + 17n bytes for n instructions, counted before the final RETURN |
| Bounds.SmallPrograms | rv2jvm/src/codegen.c:673-722 | Programs of up to 2900 instructions, of any kind, fit a method and the pool and keep every 16-bit position exact |
| Bounds.SmallFiles | rv2jvm/src/codegen.c:963-979 | Whatever is generated for up to 2900 instructions with unique labels reads back as the class meant |
| Simulation.MainIsCorrect | rv2jvm/src/codegen.c:908-939 | For every start, the emitted main returns with given registers exactly when the program's run halts with them |
| Simulation.MainNeverStuck | rv2jvm/src/codegen.c:908-939 | From every start, after any number of steps, the emitted main is running or has returned |
| Simulation.RunsAgree | rv2jvm/src/codegen.c:829-890 | After any number of program steps the machine is at the offset of the program's next element with equal registers, register 0 still 0 and an empty stack |
| Simulation.StepRuns | rv2jvm/src/codegen.c:829-890 | One instruction: its code, started at its offset with an empty stack, reaches the offset of the next element with the registers of the next state |
| Simulation.OpcodesAgree | rv2jvm/src/codegen.c:93-119 | Every opcode number of main is that of the machine's own table, taken from section 6.5 |
| Preparation.InitializerOpcodes | rv2jvm/src/codegen.c:93-119 | So is every opcode number of the initializer |
| Preparation.InitializerPrepares | rv2jvm/src/codegen.c:724-761 | The initializer, run by section 6.5, stores a ThreadLocal that holds 32 zeros and an array of 1024 zeros |
| Preparation.InitializerVerifies | rv2jvm/src/codegen.c:724-761 | The initializer passes the type checker with three stack words and no locals, the new object being used only after its constructor |
| Simulation.PrologueRuns | rv2jvm/src/codegen.c:763-775 | The prologue leaves the register array in local 1 |
| Simulation.JumpTarget | rv2jvm/src/codegen.c:892-906 | The patched operand of a jump leads to the offset of the element that declares its label, in every program that both passes take |
| Simulation.JumpLands | rv2jvm/src/codegen.c:777-789 | The one declaration of a jumped-to label takes an offset |
| Agreement.BltStep | rv2jvm/src/codegen.c:864-871 | A step as emitted equals the specified step exactly unless a BLT that leads elsewhere compares equal operands |
| Agreement.BltPrograms | rv2jvm/src/codegen.c:864-871 | All steps from all registers are as specified exactly for programs without such a BLT |
| Agreement.BltRuns | rv2jvm/src/codegen.c:864-871 | The first steps of a run that meets no such comparison are the specified steps |
| Agreement.RunsMeet | rv2jvm/src/codegen.c:864-871 | The emitted run is the specified run, step for step, exactly when no BLT in it compares equal operands |
| Agreement.BltCounterexample | rv2jvm/src/codegen.c:864-871 | `loop: blt x0, x0, loop` ends at once by the specification and never ends as emitted |
| Agreement.MainMeetsSpecification | rv2jvm/src/codegen.c:908-939 | Main returns exactly when and as the specified run ends, from every start from which no BLT compares equal operands |
| Agreement.LowStep | rv2jvm/src/codegen.c:829-854 | ADD and ADDI on longs keep each 32-bit register in the low half of its long |
| Agreement.LowRuns | rv2jvm/src/codegen.c:829-890 | The 32-bit and 64-bit runs keep the same place and the same low halves as long as branches decide alike |
| Agreement.MainMeetsRv32 | rv2jvm/src/codegen.c:791-854 | Main returns exactly when the RV32I run ends, with its registers in the low halves, from every start within 32 bits from which no jump parts the two runs |
| Agreement.BranchFreeAlike | rv2jvm/src/codegen.c:791-854 | Without jumps nothing parts the runs, from any start |
| Agreement.RunsMeetRv32 | rv2jvm/src/codegen.c:829-890 | From registers within 32 bits, the emitted 64-bit run is at the place of the specified 32-bit run and holds its registers in the low halves after every number of steps, exactly when no jump that leads elsewhere is taken by only one of the two |
| Agreement.StepTogether | rv2jvm/src/codegen.c:829-890 | One step keeps the two together exactly when it is not such a jump |
| Agreement.SameChoicesNeverPart | rv2jvm/src/codegen.c:855-871 | Branches that decide alike on both widths, no BLT among them comparing equal operands, part nothing |
| Assembly.TwoPassesAssemble | rv2jvm/src/codegen.c:908-939 | The two passes succeed exactly when every element can be translated and every jump target has an offset, and then they write what the one-pass assembler writes and record exactly its frames |
| Assembly.JumpOperand | rv2jvm/src/codegen.c:892-906 | After the second pass every GOTO_W holds, as a signed 32-bit big-endian number, the way from its opcode to its label |
| Assembly.PatchesDisjoint | rv2jvm/src/codegen.c:353-361 | The patched regions of two jumps do not meet |
| Assembly.OtherBytesKept | rv2jvm/src/codegen.c:353-361 | Outside the patched regions the second pass leaves what the first pass wrote |
| Assembly.LabelOffsetIs | rv2jvm/src/codegen.c:777-789 | With unique labels, a label followed by code stands for the offset of its own element |
| Layout.Pass1Lays | rv2jvm/src/codegen.c:914-928 | The first pass stops exactly at an element it cannot translate and otherwise lays out all elements with empty jump operands, the label offsets, references and branch frames in closed form |
| Layout.EmitIsCode | rv2jvm/src/codegen.c:829-890 | One element appends its code, its frame and its reference |
| Patching.Pass2Lays | rv2jvm/src/codegen.c:930-936 | The second pass stops exactly at a jumped-to label without an offset and otherwise sets every operand to its distance and appends one frame per reference |
| Patching.PatchRefsLays | rv2jvm/src/codegen.c:892-906 | Patching the references of one label sets exactly the operands of the jumps to it |
| Patching.OverwriteLay | rv2jvm/src/codegen.c:353-361 | Overwriting one operand changes the distance of that jump and nothing else |
| Patching.RefInside | rv2jvm/src/codegen.c:822-827 | A recorded reference is a jump inside the code and its 16-bit position is exact |
| MainTyping.MainVerifies | rv2jvm/src/codegen.c:636-671 | Type checking of main with the decoded frames, five stack words and four locals succeeds exactly under distinct targets, targets behind every J, and a store to a non-zero register before the first target |
| MainTyping.FramesAre | rv2jvm/src/codegen.c:328-338 | The recorded frames are exactly the targets of the conditional skips and of the jumps, in every program that both passes take |
| MainTyping.FrameKinds | rv2jvm/src/codegen.c:855-906 | The frames of the first pass are the places behind conditional branches, those of the second pass the targets of the jumps: offsets of elements or of the final RETURN |
| MainTyping.FramesDistinct | rv2jvm/src/codegen.c:892-906 | No frame is recorded twice exactly when no two jumps share a target and none goes right behind a conditional branch |
| Unimplemented.UnfinishedRejected | rv2jvm/src/codegen.c:829-848 | Whatever its frames, a main with a three-register instruction other than ADD and a target needs six stack words and is rejected |
| Unimplemented.AllChecked | rv2jvm/src/codegen.c:829-939 | Type checking reaches every instruction that walking through the code reaches |
| Coverage.FramesCovered | rv2jvm/src/codegen.c:328-338 | In the finished bytes, walked instruction by instruction, a frame is recorded exactly where an IFEQ, IFGT or GOTO_W with its operand leads, and an instruction starts there |
| Coverage.MainCovered | rv2jvm/src/codegen.c:829-939 | Main is whole instructions from its first byte to its last, and its jump instructions are those of its conditional branches and jumps |
| Coverage.TableCovers | rv2jvm/src/codegen.c:636-671 | The decoded stack map table has a frame exactly where the jump instructions lead, precisely when no target was recorded twice |
| TypeSafety.ChecksElements | rv2jvm/src/codegen.c:829-890 | Byte-by-byte type checking of main is the same as a check on its elements, with the stack never above max_stack and empty at every frame |
| TypeSafety.TypableUnset | rv2jvm/src/codegen.c:799-811 | Until local 2 holds a long the element check passes exactly if a store to a non-zero register comes before the next frame or there is no further frame |
| StackMap.StackMapFrames.Append | rv2jvm/src/codegen.c:328-338 | Appends a target, doubling the array when it is full |
| StackMap.StackMapFrames.Sort | rv2jvm/src/codegen.c:619-634 | The unbounded bubble sort ends, inversions falling on each swapping pass, with the sorted arrangement of the targets |
| StackMap.StackMapFrames.Pass | rv2jvm/src/codegen.c:622-633 | A pass permutes, removes inversions when it swaps, and leaves a sorted array when it does not |
| StackMap.SwapInversions | rv2jvm/src/codegen.c:624-630 | Swapping a neighbouring pair that is out of order removes exactly one inversion |
| StackMap.SortedUnique | rv2jvm/src/codegen.c:619-634 | A list has one sorted permutation |
| StackMap.DeltasRoundTrip | rv2jvm/src/codegen.c:636-671 | Decoding the written deltas by section 4.7.4 gives the sorted targets exactly when no target occurs twice |
| StackMap.NothingWraps | rv2jvm/src/codegen.c:654-668 | No 16-bit subtraction of the writer wraps exactly when no target occurs twice |
| StackMap.DecodedTwice | rv2jvm/src/codegen.c:654-656 | From the first repeated target on the decoded offsets are 65536 and more |
| StackMap.SortedRises | rv2jvm/src/codegen.c:619-634 | The sorted targets rise strictly exactly when they are distinct |
| ConstantPool.PoolAgrees | rv2jvm/src/codegen.c:509-562 | Between any two instructions while entries fit 16 bits, the index table and the entries agree: one entry per key, and every key resolves, through its cross-references, to what it names |
| ConstantPool.PoolGrows | rv2jvm/src/codegen.c:485-507 | Numbers never move an entry or an index |
| ConstantPool.NumbersAre | rv2jvm/src/codegen.c:485-507 | The numbers in the pool are exactly the immediates of R1 and R2 instructions and, for each label operand, the unset number |
| ConstantPool.AddNumberAgrees | rv2jvm/src/codegen.c:485-507 | Adding a new number keeps the agreement while the index fits 16 bits |
| ConstantPool.FixedAgrees | rv2jvm/src/codegen.c:514-551 | After any number of the fixed keys the table and the entries agree |
| ConstantPool.FixedMeans | rv2jvm/src/codegen.c:514-551 | Each fixed index stands for the class, member, field or method its key was meant for |
| ConstantPool.NamesDiffer | rv2jvm/src/codegen.c:21-65 | No two keys of the fixed part are the same string |
| ConstantPool.ClassStep | rv2jvm/src/codegen.c:447-452 | A new class adds its name and its info at the next two indices |
| ConstantPool.NameAndTypeStep | rv2jvm/src/codegen.c:454-461 | A name-and-type pair reuses known names and adds new ones before the pair |
| ConstantPool.RefStep | rv2jvm/src/codegen.c:463-483 | A member reference points to its class and to the pair right before it |
| ClassFile.EntriesTrip | rv2jvm/src/codegen.c:389-433 | The pool bytes decode to exactly the entries written |
| ClassFile.ClassTrip | rv2jvm/src/codegen.c:963-979 | A reader following section 4.1 takes in every byte of a written class and gives the class back |
| ClassFile.ClassBack | rv2jvm/src/codegen.c:963-979 | Bytes that the reader takes as a class are that class written, so no two files read as the same class |
| ClassFile.CodeTrip | rv2jvm/src/codegen.c:687-710 | A Code attribute reads back with its stack, locals, code and attributes |
| ClassFile.StackMapTrip | rv2jvm/src/codegen.c:636-685 | A stack map table reads back frame by frame |
| Output.FileIsClass | rv2jvm/src/codegen.c:673-722 | The patched file is the encoding of the class exactly when its last length field starts below 65536 |
| Output.LengthMissing | rv2jvm/src/codegen.c:678-683 | A length field past the 16-bit positions stays zero |
| Output.CodeWritten | rv2jvm/src/codegen.c:687-710 | Within the 16-bit positions the patched Code attribute holds as length the number of bytes that follow |
| Output.StackMapWritten | rv2jvm/src/codegen.c:673-685 | The same for the stack map table |
| Output.CodeAttributeLength | rv2jvm/src/codegen.c:691-709 | The length counted while writing is the length of the attribute |
| Output.FieldsWritten | rv2jvm/src/codegen.c:586-617 | The fields section is the encoding of the two fields, the Signature length being 2 |
| Words.UnsignedBigEndian | rv2jvm/src/codegen.c:345-361 | Bytes written most significant first read back as the value modulo the width |
| Words.Signed32 | rv2jvm/src/codegen.c:353-361 | A signed 32-bit value survives its four bytes |
| Words.BigEndianUnsigned | rv2jvm/src/codegen.c:345-351 | Any bytes read as a number are that number written |
| Words.BytesInOrder | rv2jvm/src/codegen.c:345-361 | The bytes of 16-bit and 32-bit fields, one by one |
| Words.ReadInOrder | rv2jvm/src/codegen.c:345-361 | The number that two or four bytes stand for |
| Words.WrapsKeep | rv2jvm/src/parser.c:345-402 | The 12, 16, 20, 32 and 64-bit conversions keep the low bits |
| Buffer.Bytecode.WriteByte | rv2jvm/src/codegen.c:340-343 | Appends one byte |
| Buffer.Bytecode.WriteBytes | rv2jvm/src/codegen.c:345-351 | Appends the low bytes of a value, most significant first |
| Buffer.Bytecode.OverwriteBytes | rv2jvm/src/codegen.c:353-361 | Replaces as many bytes from a position and no others |
| Table.Table.FindSlot | rv2jvm/src/table.c:108-120 | Probing a table that is not full ends, by cyclic distance to an empty slot, at the key's slot or at the first empty one on its path |
| Table.Table.GrowCapacity | rv2jvm/src/table.c:122-151 | Doubling and rehashing keeps every binding, the count and the probing invariant, for any load up to a full table |
| Table.Table.Set | rv2jvm/src/table.c:153-167 | Updates the map at the key, counts its size, and returns true exactly for a new key; the load stays at most three quarters |
| Table.Table.Get | rv2jvm/src/table.c:169-180 | Returns the bound value, or nothing exactly when the key is absent |
| Table.Stored | rv2jvm/src/table.c:108-167 | Writing where probing stopped keeps a table a table, for the updated map, with one more binding exactly for a new key |
| Table.FoundEmpty | rv2jvm/src/table.c:108-120 | The place where probing stops is filled exactly when the key is bound, and then holds its value |
| Table.SomeEmpty | rv2jvm/src/table.c:155-157 | A table that is not full has an empty slot |
| Labels.LabelTables.SetCodeLabelOffset | rv2jvm/src/codegen.c:267-280 | Records the 16-bit offset of a label and touches no reference |
| Labels.LabelTables.GetCodeLabelOffset | rv2jvm/src/codegen.c:282-292 | The offset of a label, or failure exactly when it has none |
| Labels.LabelTables.GetLabelReferences | rv2jvm/src/codegen.c:294-303 | The list of a label's references, shared with the table, or nothing |
| Labels.LabelTables.AddLabelReference | rv2jvm/src/codegen.c:305-326 | Appends to the label's list in place, creating it for a new label, and changes no other list |
| Codegen.Codegen.AddConstant | rv2jvm/src/codegen.c:213-238 | Gives a new key the next index and keeps a known one |
| Codegen.Codegen.GetConstantIndex | rv2jvm/src/codegen.c:250-265 | The index of a key in the table, or the failure naming the key |
| Codegen.Codegen.AddUtf8ToPool | rv2jvm/src/codegen.c:435-445 | Adds a text once and returns its index either way |
| Codegen.Codegen.AddClassToPool | rv2jvm/src/codegen.c:447-452 | The pool after a class, as entries, table and bytes |
| Codegen.Codegen.AddNameAndTypeToPool | rv2jvm/src/codegen.c:454-461 | The pool after a name-and-type pair |
| Codegen.Codegen.AddMethodrefToPool | rv2jvm/src/codegen.c:463-472 | The pool after a method reference |
| Codegen.Codegen.AddFieldrefToPool | rv2jvm/src/codegen.c:474-483 | The pool after a field reference |
| Codegen.Codegen.LoadConstantFromInstructionAt | rv2jvm/src/codegen.c:485-507 | Adds the number of an R1 or R2 instruction once, an arbitrary one for a label operand |
| Codegen.Codegen.ConstantPool | rv2jvm/src/codegen.c:509-562 | Writes all entries and then their number plus one over the count field |
| Codegen.Codegen.AddStackFrame | rv2jvm/src/codegen.c:328-338 | Records one target |
| Codegen.Codegen.WriteLoadRegister | rv2jvm/src/codegen.c:791-797 | Appends the load of a register |
| Codegen.Codegen.WriteStoreRegister | rv2jvm/src/codegen.c:799-811 | Appends the store to a register, POP2 for X0 |
| Codegen.Codegen.WriteLoadConstant | rv2jvm/src/codegen.c:813-820 | Appends LDC_W of the number's index and I2L, or fails exactly when the number has no index |
| Codegen.Codegen.WriteJump | rv2jvm/src/codegen.c:822-827 | Records the reference and appends GOTO_W with an empty operand |
| Codegen.Codegen.WriteBranch | rv2jvm/src/codegen.c:855-871 | Appends comparison, skip and jump and records the frame behind them |
| Codegen.Codegen.WriteInstruction | rv2jvm/src/codegen.c:829-890 | The state after one instruction, or the error |
| Codegen.Codegen.WriteLabel | rv2jvm/src/codegen.c:777-789 | The state after a label: an offset only before an instruction or at the end |
| Codegen.Codegen.UpdateLabelReference | rv2jvm/src/codegen.c:892-906 | All references of a label patched in place, one frame for each, or the error |
| Codegen.Codegen.LoadRegistersIntoLocal | rv2jvm/src/codegen.c:763-775 | Appends the prologue |
| Codegen.Codegen.FirstPass | rv2jvm/src/codegen.c:914-928 | The state after the first pass, or the error |
| Codegen.Codegen.SecondPass | rv2jvm/src/codegen.c:930-936 | The state after the second pass, or the error |
| Codegen.Codegen.MainMethodCode | rv2jvm/src/codegen.c:908-939 | The finished code of main with its frames, or the error |
| Codegen.Codegen.AddStackTableAttributeEntries | rv2jvm/src/codegen.c:636-671 | Sorts the frames in place, writes their deltas, and counts exactly the bytes written |
| Codegen.Codegen.AddStackTableAttribute | rv2jvm/src/codegen.c:673-685 | The stack map attribute with its length patched in |
| Codegen.Codegen.AddCodeAttribute | rv2jvm/src/codegen.c:687-710 | The Code attribute with its length patched in |
| Codegen.Codegen.AddMethod | rv2jvm/src/codegen.c:712-722 | One method of the file |
| Codegen.Codegen.WriteFields | rv2jvm/src/codegen.c:586-617 | The two fields |
| Codegen.Codegen.ClinitMethodCode | rv2jvm/src/codegen.c:724-761 | The code of the class initializer |
| Codegen.Codegen.GenerateBytecode | rv2jvm/src/codegen.c:963-979 | The object's buffer ends as the file described by Output, or the method fails with its error |
| Lexer.TokensAreSpelled | rv2jvm/src/lexer.c:87-150 | The scanner reads a token list from a text exactly when the text spells it: spaces, tabs and returns anywhere, longest lexemes, nothing after a terminator |
| Lexer.SourcesAreSpelled | rv2jvm/src/lexer.c:152-169 | From several sources the scanner reads exactly the tokens they spell, the first source first, and one end marker; it reads nothing when some source spells no tokens |
| Lexer.Lexer.SkipWhitespace | rv2jvm/src/lexer.c:87-101 | The cursor moves over exactly the leading blanks |
| Lexer.Lexer.Identifier | rv2jvm/src/lexer.c:103-109 | The longest run of letters, digits and underscores |
| Lexer.Lexer.Number | rv2jvm/src/lexer.c:111-117 | The longest run of digits |
| Lexer.Lexer.ScanToken | rv2jvm/src/lexer.c:120-150 | The next token and the cursor behind it, the end marker, or the error |
| Lexer.Lex | rv2jvm/src/lexer.c:152-169 | The tokens of all sources one after the other and one end marker, or the first error |
| Mnemonics.TrieIsTable | rv2jvm/src/parser.c:71-327 | A lexeme is read as a mnemonic exactly when, lower-cased, it is that mnemonic's name |
| Mnemonics.Sound | rv2jvm/src/parser.c:92-327 | Whatever the trie answers is the name it was given |
| Mnemonics.Complete | rv2jvm/src/parser.c:92-327 | The trie knows every name |
| Parser.Parser.Consume | rv2jvm/src/parser.c:29-39 | Moves over a token of the expected kind, or fails |
| Parser.Parser.Label | rv2jvm/src/parser.c:58-69 | Declares the lexeme before a colon |
| Parser.Parser.Number | rv2jvm/src/parser.c:345-365 | A sign and a saturating decimal, cut to 32 bits |
| Parser.Parser.Reg | rv2jvm/src/parser.c:329-381 | A register, or failure exactly when the token is not one |
| Parser.Parser.MemoryOperand | rv2jvm/src/parser.c:390-402 | An optional offset and a register in parentheses |
| Parser.Parser.ParseR3Instruction | rv2jvm/src/parser.c:541-560 | Appends the instruction that the tokens spell, or fails exactly when they spell none |
| Parser.Parser.ParseMemInstruction | rv2jvm/src/parser.c:562-578 | The same for a memory instruction |
| Parser.Parser.ParseR2OpInstruction | rv2jvm/src/parser.c:580-609 | The same for two registers and an immediate or a label |
| Parser.Parser.ParseR1OpInstruction | rv2jvm/src/parser.c:611-638 | The same for one register and an immediate or a label |
| Parser.Parser.ParseSpecialInstruction | rv2jvm/src/parser.c:640-730 | The same for a pseudo-instruction |
| Parser.Parser.Instruction | rv2jvm/src/parser.c:732-767 | A mnemonic, its operands and a line end, or failure |
| Parser.Parse | rv2jvm/src/parser.c:769-789 | The elements that the tokens spell, or failure exactly when they spell none; the cursor never passes the end marker |
| Parser.LineEnds | rv2jvm/src/parser.c:732-767 | A line consumes at least one token and no more than there are |
| Sentences.ParserIsGrammar | rv2jvm/src/parser.c:769-789 | The parser reads a program from a list of tokens exactly when the list denotes it by the grammar: line ends anywhere between elements, labels anywhere before a line, instructions that end with their line |
| Sentences.LineReads | rv2jvm/src/parser.c:732-767 | A line is read as an instruction exactly when it denotes it |
| Sentences.OperandsRead | rv2jvm/src/parser.c:541-730 | Operands are read exactly as the mnemonic's form says, pseudo-instructions as what they stand for |
| Sentences.FormsAgree | rv2jvm/src/parser.c:488-539 | The parser's grouping of the mnemonics is that of the forms, listed mnemonic by mnemonic |
| Sentences.WordSpells | rv2jvm/src/parser.c:71-90 | A word is read as a mnemonic exactly when it spells its name in small or capital letters |
| Sentences.RegisterReads | rv2jvm/src/parser.c:329-343 | A word is read as a register exactly when it is `x` or `X` and the digits of its number, leading zeros or not |
| Sentences.Operand12Reads | rv2jvm/src/parser.c:580-609 | An immediate has the low twelve bits of the number written, saturated at the largest long; a word is a label |
| Sentences.Operand20Reads | rv2jvm/src/parser.c:611-638 | The same with twenty bits |
| Sentences.ValueIs | rv2jvm/src/parser.c:345-365 | Digits are read as the number they stand for |
| Grammar.DenotesJoin | rv2jvm/src/parser.c:769-789 | One list of tokens after the other denotes one program after the other |
| RoundTrip.PrintedReads | rv2jvm/src/parser.c:541-789 | Printing a program in the parser's form and reading the text back is the identity |
| RoundTrip.WrittenReads | rv2jvm/src/lexer.c:87-169 | However a program is written down, in one source or several, it is read back |
| RoundTrip.FrontIsWritten | rv2jvm/src/compiler.c:11-18 | The front end reads a program from the sources exactly when each spells its tokens and these, in order, denote the program |
| RoundTrip.SourcesInOrder | rv2jvm/src/lexer.c:152-169 | The program of several sources is that of the first ones followed by that of the others |
| RoundTrip.SpacedReads | rv2jvm/src/lexer.c:87-169 | Any spacing of the printed tokens reads back |
| RoundTrip.ProgramDenotes | rv2jvm/src/parser.c:769-789 | The printed tokens of a program denote it |
| RoundTrip.Denotable | rv2jvm/src/parser.c:769-789 | The programs that some text denotes are exactly those of the parser's form |
| RoundTrip.TokensRead | rv2jvm/src/parser.c:769-789 | The printed tokens of a program parse to that program |
| RoundTrip.ElementsForm | rv2jvm/src/parser.c:404-767 | Every program that parses has the form |
| RoundTrip.TextSpells | rv2jvm/src/lexer.c:103-150 | Printed tokens stay apart |
| RoundTrip.NumberReads | rv2jvm/src/parser.c:345-365 | A printed 32-bit number reads back |
| Pseudo.PseudoExpands | rv2jvm/src/parser.c:640-730 | MV, NOT, SEQZ, SNEZ, J, JR, RET and NOP denote what the line they abbreviate denotes |
| Pseudo.ImmediateIsLow12 | rv2jvm/src/parser.c:345-365 | An immediate is the sign-extended low 12 bits of the number written exactly when the number's magnitude fits a long or ends in the same twelve bits as the largest long |
| Seman.ReferencedLabelsExist | rv2jvm/src/seman.c:6-47 | Accepts exactly the programs whose labels are unique and whose label operands are all declared; a duplicate reported is the first one, an unknown label the first unknown |
| Failures.TwoLabelsFail | rv2jvm/src/codegen.c:777-789 | `a:`, `b:`, `bne x1, x0, a` passes the front end and the label check, and generation stops for want of an offset of `a` |
| Failures.TwoJumpsFail | rv2jvm/src/codegen.c:892-906 | Two `bne` to one label compile, and the loaded main fails the type checker |
| Failures.LongFails | rv2jvm/src/codegen.c:673-685 | 4360 ADDs under one loop are accepted and fit a method, and the file neither is the encoding of the class nor reads as it, its last length field lying past 65535 |
| Failures.OverflowFails | rv2jvm/src/codegen.c:829-854 | `addi x1, x0, 1`, 32 times `add x1, x1, x1`, `a:`, `bne x1, x0, a` passes every check and ends on RV32I, and the loaded main never returns |

## Left out

- Files, command line, messages: reading sources and writing `RvRuntime.class` are parameters and results; `exit` is an error result.
- Allocation: `malloc`, `realloc` and `free`, `table_free`, `free_tokens`; no allocation fails. The table and the frame list are arrays that are replaced when they grow; the byte buffers are sequence fields, so their doubling is not modelled.
- Sizes of the host: counts and capacities are unbounded where C uses `size_t`; 16-bit, 32-bit and 64-bit fields of the source are wrapped explicitly.
- Class loading beyond finding the class, its two static fields, its initializer and main: other checks of the format, resolution in other classes, and threads. ThreadLocal is an object that holds what was last put into it.
- Memory instructions, R3 instructions other than ADD, R2 instructions other than ADDI, BNE and BLT, and R1 instructions other than J: the bytes written for them are modelled, their meaning is not, since the generator leaves them unimplemented; `Compiled.ClassRejected` shows that the first kind makes a class that the verifier rejects.
- Reading the other member of an operand union (ADDI with a label, BNE, BLT or J with a number) is undefined in C; the generator fails with `UndefinedOperand` here.
- The number that a label operand adds to the pool is unset in C; it is an arbitrary function of the instruction here, the same for every read of one run. The list of a new label's references is unset in C as well; it is the empty list here.
- Table values that are null pointers: the compiler stores none.
- Directives: never made by the parser; kept as elements that generate nothing.
- File names and line numbers of tokens, which serve messages only. Lower-casing a mnemonic in place is a function of its lexeme; no later reader sees the token.
- The scanner's `match` and `peek_next`, which nothing calls, and the check for trailing characters after a decimal, which a decimal token never has.
- `lex` with no source at all reads an unset token; the command line rules it out.
- Compiler.Compile: the end-to-end meaning is stated for programs within the 16-bit positions. Past them the file does not read as the class (`Compiled.FileReadsBack`); what a reader makes of it instead is not stated, since the lengths land on other bytes of the file.
