/** The main method as one formula, and what it means for the two passes to compute it. */
module Assembly {
  import opened Words
  import opened Ir
  import opened Emission
  import opened Layout
  import opened Patching

  /** How far the jump of element `j` goes; a jump to an undeclared label is never patched. */
  function Distance(ir: seq<Element>, j: nat): int
    requires j < |ir|
  {
    if Jumps(ir[j]) && Declared(ir, JumpLabel(ir[j])) then LabelOffset(ir, JumpLabel(ir[j])) - JumpAt(ir, j) else 0
  }

  function Aims(ir: seq<Element>): (ds: seq<int>)
    ensures |ds| == |ir|
  {
    seq(|ir|, j requires 0 <= j < |ir| => Distance(ir, j))
  }

  /** The one-pass assembler: every jump is written with its distance at once. */
  function Assemble(pool: Pool, ir: seq<Element>, p: seq<byte>): seq<byte> {
    p + Lay(pool, ir, Aims(ir), |ir|) + [RETURN]
  }

  function Frames(ir: seq<Element>): seq<u16> {
    BranchFrames(ir, |ir|) + LabelFrames(ir, |ir|)
  }

  /** `l` is declared right before an instruction or at the end. */
  ghost predicate HasCode(ir: seq<Element>, l: string) {
    exists t :: 0 <= t < |ir| && ir[t] == LabelDecl(l) && (t + 1 == |ir| || ir[t + 1].Instr?)
  }

  /** Every declared label that some jump names has code. */
  ghost predicate TargetsHaveCode(ir: seq<Element>) {
    forall i, j :: 0 <= i < |ir| && 0 <= j < |ir| && ir[i].LabelDecl? && JumpsTo(ir[j], ir[i].name) ==>
      HasCode(ir, ir[i].name)
  }

  // ----- the recorded offsets -----

  lemma {:induction false} OffsetsKeys(ir: seq<Element>, n: nat, l: string)
    requires n <= |ir|
    ensures Str(l) in Offsets(ir, n) <==> exists t :: 0 <= t < n && TakesOffset(ir, t) && ir[t].name == l
  {
    hide Offset, Size, ToU16;
    if n > 0 {
      OffsetsKeys(ir, n - 1, l);
    }
  }

  lemma {:induction false} OffsetsAt(ir: seq<Element>, n: nat, t: nat)
    requires t < n <= |ir| && UniqueLabels(ir) && TakesOffset(ir, t)
    ensures Str(ir[t].name) in Offsets(ir, n) && Offsets(ir, n)[Str(ir[t].name)] == ToU16(Offset(ir, t))
  {
    hide Offset, Size, ToU16;
    if t < n - 1 {
      OffsetsAt(ir, n - 1, t);
    }
  }

  /** With unique labels, a label followed by code stands for the offset of its own element. */
  lemma LabelOffsetIs(ir: seq<Element>, t: nat)
    requires t < |ir| && UniqueLabels(ir) && Fits(ir) && TakesOffset(ir, t)
    ensures LabelOffset(ir, ir[t].name) == Offset(ir, t)
  {
    OffsetsAt(ir, |ir|, t);
    OffsetMonotone(ir, t, |ir|);
  }

  lemma LabelHasCode(ir: seq<Element>, l: string)
    ensures Str(l) in Offsets(ir, |ir|) <==> HasCode(ir, l)
  {
    hide Offsets;
    OffsetsKeys(ir, |ir|, l);
    if HasCode(ir, l) {
      var t :| 0 <= t < |ir| && ir[t] == LabelDecl(l) && (t + 1 == |ir| || ir[t + 1].Instr?);
      assert TakesOffset(ir, t) && ir[t].name == l;
    }
    if t :| 0 <= t < |ir| && TakesOffset(ir, t) && ir[t].name == l {
      assert ir[t] == LabelDecl(l);
    }
  }

  lemma PatchableIs(ir: seq<Element>)
    ensures Patchable(ir, |ir|) <==> TargetsHaveCode(ir)
  {
    hide Refs, Offsets, JumpsTo, HasCode;
    forall i | 0 <= i < |ir| && ir[i].LabelDecl?
      ensures Refs(ir, |ir|, ir[i].name) == [] <==> forall j :: 0 <= j < |ir| ==> !JumpsTo(ir[j], ir[i].name)
      ensures Str(ir[i].name) in Offsets(ir, |ir|) <==> HasCode(ir, ir[i].name)
    {
      NoRefs(ir, |ir|, ir[i].name);
      LabelHasCode(ir, ir[i].name);
    }
  }

  // ----- the distances -----

  lemma {:induction false} DistancesAt(ir: seq<Element>, n: nat, j: nat)
    requires j < |ir| && n <= |ir|
    ensures Distances(ir, n)[j]
         == if Jumps(ir[j]) && LabelDecl(JumpLabel(ir[j])) in ir[..n]
            then LabelOffset(ir, JumpLabel(ir[j])) - JumpAt(ir, j) else 0
  {
    hide Jumps, JumpLabel, JumpAt, LabelOffset;
    if n > 0 {
      DistancesAt(ir, n - 1, j);
      assert ir[..n] == ir[..n - 1] + [ir[n - 1]];
    }
  }

  lemma DistancesAre(ir: seq<Element>)
    ensures Distances(ir, |ir|) == Aims(ir)
  {
    hide Jumps, JumpLabel, JumpAt, LabelOffset, Distances;
    forall j | 0 <= j < |ir| ensures Distances(ir, |ir|)[j] == Aims(ir)[j] {
      DistancesAt(ir, |ir|, j);
      assert ir[..|ir|] == ir;
    }
  }

  /** The two passes refine the one-pass assembler: they succeed exactly when every element can be
      translated and every jump target has an offset, and then they write the same code. */
  lemma TwoPassesAssemble(pool: Pool, ir: seq<Element>, p: seq<byte>)
    requires |p| == 10 && Fits(ir)
    ensures var r := MainMethod(pool, ir, p);
            && (r.Ok? <==> AllEmit(pool, ir) && TargetsHaveCode(ir))
            && (r.Ok? ==> r.value.code == Assemble(pool, ir, p) && r.value.frames == Frames(ir))
  {
    hide Pass1, Pass2, Code, Size, Distances, Jumps, JumpsTo, JumpAt, Refs, Emits, Patchable, TargetsHaveCode;
    Pass1Lays(pool, ir, |ir|, p);
    var r := Pass1(pool, ir, |ir|, Gen(p, map[], map[], []));
    if r.Ok? {
      DistancesStart(ir);
      Pass2Lays(pool, ir, |ir|, p, r.value);
      PatchableIs(ir);
      DistancesAre(ir);
    }
  }

  lemma DistancesStart(ir: seq<Element>)
    ensures Distances(ir, 0) == Zeros(ir)
  {
  }

  // ----- the patched bytes -----

  lemma {:induction false} LayAt(pool: Pool, ir: seq<Element>, p: seq<byte>, ds: seq<int>, j: nat, n: nat)
    requires j < n <= |ir| == |ds| && |p| == 10 && AllEmit(pool, ir)
    ensures Offset(ir, j + 1) <= Offset(ir, n) == |p + Lay(pool, ir, ds, n)|
    ensures Offset(ir, j) <= Offset(ir, j + 1)
    ensures (p + Lay(pool, ir, ds, n))[Offset(ir, j)..Offset(ir, j + 1)] == Code(pool, ir[j], ds[j])
  {
    hide Code, Size;
    LaySize(pool, ir, ds, n);
    LaySize(pool, ir, ds, n - 1);
    var a := p + Lay(pool, ir, ds, n - 1);
    var b := Code(pool, ir[n - 1], ds[n - 1]);
    assert p + Lay(pool, ir, ds, n) == a + b;
    if j < n - 1 {
      LayAt(pool, ir, p, ds, j, n - 1);
      assert (a + b)[Offset(ir, j)..Offset(ir, j + 1)] == a[Offset(ir, j)..Offset(ir, j + 1)];
    } else {
      assert (a + b)[|a|..] == b;
    }
  }

  /** Where the code of element `j` is in the finished method. */
  lemma AssembleAt(pool: Pool, ir: seq<Element>, p: seq<byte>, j: nat)
    requires j < |ir| && |p| == 10 && AllEmit(pool, ir)
    ensures Offset(ir, j) <= Offset(ir, j + 1) <= Offset(ir, |ir|) == |Assemble(pool, ir, p)| - 1
    ensures Assemble(pool, ir, p)[Offset(ir, j)..Offset(ir, j + 1)] == Code(pool, ir[j], Distance(ir, j))
  {
    hide Code, Size, Lay, Distance;
    LayAt(pool, ir, p, Aims(ir), j, |ir|);
    var a := p + Lay(pool, ir, Aims(ir), |ir|);
    assert (a + [RETURN])[Offset(ir, j)..Offset(ir, j + 1)] == a[Offset(ir, j)..Offset(ir, j + 1)];
  }

  lemma AssembleEnds(pool: Pool, ir: seq<Element>, p: seq<byte>)
    requires |p| == 10 && AllEmit(pool, ir)
    ensures |Assemble(pool, ir, p)| == Offset(ir, |ir|) + 1
    ensures Assemble(pool, ir, p)[..10] == p
    ensures Assemble(pool, ir, p)[Offset(ir, |ir|)] == RETURN
  {
    hide Code, Size, Lay;
    LaySize(pool, ir, Aims(ir), |ir|);
  }

  /** Every jump to a declared label holds, as a signed 32-bit big-endian number, the way from its opcode
      to the label. */
  lemma JumpOperand(pool: Pool, ir: seq<Element>, p: seq<byte>, j: nat)
    requires j < |ir| && |p| == 10 && AllEmit(pool, ir) && Fits(ir) && Jumps(ir[j]) && Declared(ir, JumpLabel(ir[j]))
    ensures var code, at := Assemble(pool, ir, p), JumpAt(ir, j);
            && at + 5 < |code| && code[at] == GOTO_W
            && Signed(code[at + 1..at + 5]) == LabelOffset(ir, JumpLabel(ir[j])) - at
  {
    hide LabelOffset, JumpLabel, Assemble, Code, Signed, BigEndian;
    AssembleAt(pool, ir, p, j);
    AssembleEnds(pool, ir, p);
    RefInside(pool, ir, j);
    var code, at, d := Assemble(pool, ir, p), JumpAt(ir, j), Distance(ir, j);
    CodeJump(pool, ir[j], d);
    Tail(code, Offset(ir, j), Offset(ir, j + 1));
    Signed32(d);
  }

  lemma Tail(code: seq<byte>, a: nat, b: nat)
    requires a + 5 <= b <= |code|
    ensures var c := code[a..b]; code[b - 5] == c[|c| - 5] && code[b - 4..b] == c[|c| - 4..]
  {
  }

  lemma CodeJump(pool: Pool, e: Element, d: int)
    requires Jumps(e) && Emits(pool, e)
    ensures var c := Code(pool, e, d); |c| >= 5 && c[|c| - 5] == GOTO_W && c[|c| - 4..] == BigEndian(d, 4)
  {
  }

  /** The patched regions do not meet. */
  lemma PatchesDisjoint(pool: Pool, ir: seq<Element>, i: nat, j: nat)
    requires i < j < |ir| && AllEmit(pool, ir) && Fits(ir) && Jumps(ir[i]) && Jumps(ir[j])
    ensures JumpAt(ir, i) + 5 <= JumpAt(ir, j)
  {
    hide Size;
    RefInside(pool, ir, i);
    OffsetMonotone(ir, i + 1, j);
  }

  ghost predicate IsPatch(ir: seq<Element>, n: nat, k: nat)
    requires n <= |ir|
  {
    exists j :: 0 <= j < n && Jumps(ir[j]) && JumpAt(ir, j) < k < JumpAt(ir, j) + 5
  }

  lemma CodeOutside(pool: Pool, e: Element, x: int, y: int, k: nat)
    requires Emits(pool, e) && k < Size(e) && (Jumps(e) ==> k <= Size(e) - 5)
    ensures Code(pool, e, x)[k] == Code(pool, e, y)[k]
  {
  }

  /** Outside the patched regions the second pass leaves what the first pass wrote. */
  lemma {:induction false} OtherBytesKept(pool: Pool, ir: seq<Element>, p: seq<byte>, ds: seq<int>, es: seq<int>,
                                          n: nat, k: nat)
    requires n <= |ir| == |ds| == |es| && |p| == 10 && AllEmit(pool, ir) && Fits(ir)
    requires k < Offset(ir, n) && !IsPatch(ir, n, k)
    ensures |p + Lay(pool, ir, ds, n)| == |p + Lay(pool, ir, es, n)| == Offset(ir, n)
    ensures (p + Lay(pool, ir, ds, n))[k] == (p + Lay(pool, ir, es, n))[k]
  {
    hide Code, Size, Jumps, JumpAt;
    LaySize(pool, ir, ds, n);
    LaySize(pool, ir, es, n);
    if n > 0 {
      LaySize(pool, ir, ds, n - 1);
      LaySize(pool, ir, es, n - 1);
      if k < Offset(ir, n - 1) {
        assert !IsPatch(ir, n - 1, k);
        OtherBytesKept(pool, ir, p, ds, es, n - 1, k);
      } else {
        if Jumps(ir[n - 1]) { RefInside(pool, ir, n - 1); }
        CodeOutside(pool, ir[n - 1], ds[n - 1], es[n - 1], k - Offset(ir, n - 1));
      }
    }
  }
}
