/** The recorded frames against the jumps, and the verifier's verdict on the emitted main method. */
module MainTyping {
  import opened Words
  import opened Ir
  import opened Emission
  import opened Layout
  import opened Patching
  import opened Assembly
  import opened Constants
  import opened ConstantPool
  import opened ClassFile
  import opened RiscV
  import opened Simulation
  import opened Jvm
  import opened StackMap
  import opened Output
  import opened Verifier
  import opened TypeSafety

  // ----- frame coverage -----

  lemma {:induction false} BranchFramesAre(ir: seq<Element>, n: nat, x: u16)
    requires n <= |ir|
    ensures x in BranchFrames(ir, n)
       <==> exists j :: 0 <= j < n && Jumps(ir[j]) && Size(ir[j]) == 17 && x == ToU16(Offset(ir, j + 1))
  {
    hide Jumps, Size, Offset, ToU16;
    if n > 0 {
      BranchFramesAre(ir, n - 1, x);
    }
  }

  lemma {:induction false} LabelFramesAre(ir: seq<Element>, n: nat, x: u16)
    requires n <= |ir|
    ensures x in LabelFrames(ir, n)
       <==> exists i, j :: 0 <= i < n && 0 <= j < |ir| && ir[i].LabelDecl? && JumpsTo(ir[j], ir[i].name)
              && x == LabelOffset(ir, ir[i].name)
  {
    hide Jumps, JumpsTo, LabelOffset, Refs;
    if n > 0 {
      LabelFramesAre(ir, n - 1, x);
      if ir[n - 1].LabelDecl? {
        var l := ir[n - 1].name;
        NoRefs(ir, |ir|, l);
        var k := |Refs(ir, |ir|, l)|;
        assert x in Repeat(LabelOffset(ir, l), k)
          <==> k > 0 && x == LabelOffset(ir, l) by { RepeatHas(LabelOffset(ir, l), k, x); }
      }
    }
  }

  lemma RepeatHas(v: u16, k: nat, x: u16)
    ensures x in Repeat(v, k) <==> k > 0 && x == v
  {
    if k > 0 {
      assert Repeat(v, k)[0] == v;
    }
  }

  /** Frame coverage: the targets are exactly those of the conditional skips and of the jumps. */
  lemma FramesAre(pool: Pool, ir: seq<Element>, x: u16)
    requires Translatable(pool, ir)
    ensures x in Frames(ir)
       <==> exists i :: 0 <= i < |ir| && Jumps(ir[i])
              && (x == Offset(ir, Target(ir, JumpLabel(ir[i]))) || (ir[i].ins.R2? && x == Offset(ir, i + 1)))
  {
    hide Offset, BranchFrames, LabelFrames, Translatable, Target;
    FrameKinds(pool, ir, x);
  }

  lemma JumpFacts(pool: Pool, ir: seq<Element>, i: nat)
    requires Translatable(pool, ir) && i < |ir| && Jumps(ir[i])
    ensures var t := Target(ir, JumpLabel(ir[i]));
            t < |ir| && ir[t] == LabelDecl(JumpLabel(ir[i])) && LabelOffset(ir, JumpLabel(ir[i])) == Offset(ir, t)
    ensures Size(ir[i]) == 17 <==> ir[i].ins.R2?
    ensures ToU16(Offset(ir, i + 1)) == Offset(ir, i + 1)
  {
    hide Size, JumpAt, Offset;
    JumpTarget(pool, ir, i);
    RefInside(pool, ir, i);
    JumpSize(ir[i]);
  }

  lemma JumpSize(e: Element)
    requires Jumps(e)
    ensures Size(e) == 17 <==> e.ins.R2?
  {
  }

  // ----- the decoded table -----

  lemma {:induction false} OffsetsDecode(b: Build, s: seq<u16>, i: nat)
    requires i < |s|
    ensures OffsetAt(FramesOf(b, s), i) == Decoded(Deltas(s), i)
  {
    hide Delta;
    if i > 0 {
      OffsetsDecode(b, s, i - 1);
    }
  }

  lemma {:induction false} LocalsDecode(b: Build, s: seq<u16>, es: seq<Entry>, i: nat)
    requires i < |s| && Resolve(es, IndexOf(b, LONG_ARRAY_CLASS)) == LongArray
    ensures LocalsAt(es, FramesOf(b, s), i) == [TArray, TLong]
  {
    hide Delta, IndexOf, Resolve;
    if i > 0 {
      LocalsDecode(b, s, es, i - 1);
    }
  }

  lemma {:induction false} TableDecodes(b: Build, s: seq<u16>, es: seq<Entry>, n: nat, k: int)
    requires n <= |s| && Resolve(es, IndexOf(b, LONG_ARRAY_CLASS)) == LongArray
    ensures var table := TableTo(es, FramesOf(b, s), n);
            && (k in table <==> exists i :: 0 <= i < n && k == Decoded(Deltas(s), i))
            && (k in table ==> table[k] == Base(true))
  {
    hide Delta, IndexOf, Resolve, LocalsAt, OffsetAt, FramesOf, Deltas, Decoded;
    if n > 0 {
      TableDecodes(b, s, es, n - 1, k);
      OffsetsDecode(b, s, n - 1);
      LocalsDecode(b, s, es, n - 1);
    }
  }

  /** The table holds exactly the targets, each with both locals. */
  ghost predicate HasTargets(frames: seq<u16>, table: map<int, Typing>) {
    forall k :: (k in table <==> 0 <= k < 65536 && k in frames) && (k in table ==> table[k] == Base(true))
  }

  /** With distinct targets the verifier sees exactly the recorded targets. */
  lemma TableIsFrames(b: Build, frames: seq<u16>, es: seq<Entry>)
    requires Distinct(frames) && Resolve(es, IndexOf(b, LONG_ARRAY_CLASS)) == LongArray
    ensures HasTargets(frames, TableTo(es, FramesOf(b, Sorted(frames)), |FramesOf(b, Sorted(frames))|))
  {
    hide Delta, IndexOf, Resolve, FramesOf, Deltas, Decoded, TableTo, Distinct, Rising, Sorted;
    var s := Sorted(frames);
    SortedRises(frames);
    DeltasRoundTrip(s);
    SortedLength(frames);
    var table := TableTo(es, FramesOf(b, s), |s|);
    forall k ensures (k in table <==> 0 <= k < 65536 && k in frames) && (k in table ==> table[k] == Base(true)) {
      TableDecodes(b, s, es, |s|, k);
      if 0 <= k < 65536 {
        SameMembers(frames, k);
      }
    }
  }

  lemma SameMembers(frames: seq<u16>, x: u16)
    ensures x in frames <==> x in Sorted(frames)
  {
    SortedKeeps(frames);
    assert x in frames <==> x in multiset(frames);
    assert x in Sorted(frames) <==> x in multiset(Sorted(frames));
  }

  /** With a repeated target some decoded frame lies outside the code. */
  lemma TableTooFar(b: Build, frames: seq<u16>, es: seq<Entry>)
    requires !Distinct(frames) && Resolve(es, IndexOf(b, LONG_ARRAY_CLASS)) == LongArray
    ensures exists k :: k in TableTo(es, FramesOf(b, Sorted(frames)), |FramesOf(b, Sorted(frames))|) && k >= 65536
  {
    hide Delta, IndexOf, Resolve, FramesOf, Deltas, Decoded, TableTo, Distinct, Sorted;
    var s := Sorted(frames);
    SortedRises(frames);
    SortedLength(frames);
    var k :| 0 < k < |s| && s[k - 1] >= s[k];
    assert s[k - 1] == s[k];
    DecodedTwice(s, k, k);
    TableDecodes(b, s, es, |s|, Decoded(Deltas(s), k));
  }

  // ----- the verdict -----

  /** Some instruction stores to a non-zero register before every frame target. */
  ghost predicate StoresFirst(ir: seq<Element>) {
    exists j :: 0 <= j < |ir| && SetsLocal2(ir[j]) && forall x :: x in Frames(ir) ==> Offset(ir, j + 1) <= x
  }

  /** Every J is directly followed by a frame target. */
  ghost predicate GotosFollowed(ir: seq<Element>) {
    forall j :: 0 <= j < |ir| && Jumps(ir[j]) && ir[j].ins.R1? ==> IsTarget(ir, Offset(ir, j + 1))
  }

  ghost predicate IsTarget(ir: seq<Element>, k: nat) {
    k < 65536 && k in Frames(ir)
  }

  /** The emitted method passes the type checker exactly when the frame targets are distinct, a store to a
      non-zero register comes before the first of them, and every J is followed by one. */
  lemma MainVerifies(pool: Pool, ir: seq<Element>, p: seq<byte>, es: seq<Entry>, b: Build)
    requires Compilable(pool, ir) && Numbers(pool, es) && PrologueMeans(es, p)
    requires Resolve(es, IndexOf(b, LONG_ARRAY_CLASS)) == LongArray
    ensures Verifies(Assemble(pool, ir, p), es, FramesOf(b, Sorted(Frames(ir))), MaxStack, 1, MaxLocals)
       <==> Distinct(Frames(ir)) && GotosFollowed(ir) && (Frames(ir) == [] || StoresFirst(ir))
  {
    hide Compilable, Numbers, PrologueMeans, Assemble, FramesOf, Sorted, Frames, TableTo, CheckFrom, Resolve, IndexOf;
    hide Distinct, LocalsFit;
    hide StoresFirst, GotosFollowed;
    var fs := FramesOf(b, Sorted(Frames(ir)));
    var table := TableTo(es, fs, |fs|);
    SortedLength(Frames(ir));
    MainSize(pool, ir, p, es);
    MainLocals(Assemble(pool, ir, p), es, b, Frames(ir));
    if Distinct(Frames(ir)) {
      TableIsFrames(b, Frames(ir), es);
      CompilableParts(pool, ir);
      FramesTable(pool, ir, table);
      FramesInCode(ir, table);
      MainChecks(pool, ir, p, es, table);
      ClosedForm(ir, table);
    } else {
      TableTooFar(b, Frames(ir), es);
    }
  }

  /** Four locals are enough: the argument, the register array and a long. */
  lemma MainLocals(code: seq<byte>, es: seq<Entry>, b: Build, frames: seq<u16>)
    requires Resolve(es, IndexOf(b, LONG_ARRAY_CLASS)) == LongArray
    ensures LocalsFit(code, es, FramesOf(b, Sorted(frames)), 1, MaxLocals)
  {
    hide Resolve, IndexOf, Delta, Sorted, Starts, LocalsAt;
    var s := Sorted(frames);
    forall i: nat | i < |FramesOf(b, s)| ensures 1 + Words_(LocalsAt(es, FramesOf(b, s), i)) <= MaxLocals {
      LocalsDecode(b, s, es, i);
      assert [TArray, TLong] == [] + [TArray] + [TLong];
      WordsPush([TArray], TLong);
      WordsPush([], TArray);
      NoWords();
    }
  }

  lemma MainSize(pool: Pool, ir: seq<Element>, p: seq<byte>, es: seq<Entry>)
    requires Compilable(pool, ir) && PrologueMeans(es, p)
    ensures |p| == 10 && |Assemble(pool, ir, p)| == Offset(ir, |ir|) + 1 < 65536
  {
    hide Offset, Lay;
    AssembleEnds(pool, ir, p);
  }

  lemma CompilableParts(pool: Pool, ir: seq<Element>)
    requires Compilable(pool, ir)
    ensures Supported(ir) && Translatable(pool, ir)
  {
  }

  lemma FramesTable(pool: Pool, ir: seq<Element>, table: map<int, Typing>)
    requires Translatable(pool, ir) && HasTargets(Frames(ir), table)
    ensures TableOf(ir, table)
  {
    hide Translatable, Frames, Offset, Target, JumpLabel, Base;
    forall k | k in table ensures exists j :: 0 <= j <= |ir| && k == Offset(ir, j) {
      FramesAre(pool, ir, k);
      var i :| 0 <= i < |ir| && Jumps(ir[i])
        && (k == Offset(ir, Target(ir, JumpLabel(ir[i]))) || (ir[i].ins.R2? && k == Offset(ir, i + 1)));
    }
    forall i | 0 <= i < |ir| && Jumps(ir[i])
      ensures Offset(ir, Target(ir, JumpLabel(ir[i]))) in table && (ir[i].ins.R2? ==> Offset(ir, i + 1) in table)
    {
      JumpFacts(pool, ir, i);
      JumpSmall(pool, ir, i);
      FramesAre(pool, ir, Offset(ir, Target(ir, JumpLabel(ir[i]))));
      FramesAre(pool, ir, Offset(ir, i + 1));
    }
  }

  lemma JumpSmall(pool: Pool, ir: seq<Element>, i: nat)
    requires Translatable(pool, ir) && i < |ir|
    ensures Offset(ir, Target(ir, if Jumps(ir[i]) then JumpLabel(ir[i]) else "")) < 65536 && Offset(ir, i + 1) < 65536
  {
    OffsetMonotone(ir, i + 1, |ir|);
    OffsetMonotone(ir, Target(ir, if Jumps(ir[i]) then JumpLabel(ir[i]) else ""), |ir|);
  }

  lemma FramesInCode(ir: seq<Element>, table: map<int, Typing>)
    requires TableOf(ir, table)
    ensures forall k :: k in table ==> 10 <= k <= Offset(ir, |ir|)
  {
    hide Offset;
    forall k | k in table ensures 10 <= k <= Offset(ir, |ir|) {
      var j :| 0 <= j <= |ir| && k == Offset(ir, j);
      OffsetMonotone(ir, j, |ir|);
    }
  }

  lemma MainChecks(pool: Pool, ir: seq<Element>, p: seq<byte>, es: seq<Entry>, table: map<int, Typing>)
    requires Compilable(pool, ir) && Numbers(pool, es) && PrologueMeans(es, p) && |p| == 10 && TableOf(ir, table)
    requires forall k :: k in table ==> 10 <= k
    ensures CheckFrom(Assemble(pool, ir, p), es, table, MaxStack, 0, After(Typing(TTop, TTop, [])))
       <==> Typable(ir, table, 0, NotSet)
  {
    hide Compilable, Numbers, Assemble, CheckFrom, TableOf, Typable, Resolve, Prologue;
    var field: u16, get: u16, array_: u16 :| p == Prologue(field, get, array_)
      && Resolve(es, field) == RegistersField && Resolve(es, get) == GetMethod && Resolve(es, array_) == LongArray;
    var code := Assemble(pool, ir, p);
    CompilableFits(pool, ir);
    AssembleEnds(pool, ir, p);
    PrologueTyped(code, es, table, field, get, array_);
    ChecksElements(pool, ir, p, es, table, 0, NotSet);
  }

  lemma ClosedForm(ir: seq<Element>, table: map<int, Typing>)
    requires TableOf(ir, table) && HasTargets(Frames(ir), table) && Offset(ir, |ir|) + 1 < 65536
    requires Supported(ir)
    ensures Typable(ir, table, 0, NotSet) <==> GotosFollowed(ir) && (Frames(ir) == [] || StoresFirst(ir))
  {
    hide Typable, TableOf, Frames, Supported, Jumps, SetsLocal2;
    TypableUnset(ir, table, 0);
    FramesInCode(ir, table);
    NoFrames(ir, table);
    TimesAgree(ir, table);
  }

  lemma NoFrames(ir: seq<Element>, table: map<int, Typing>)
    requires HasTargets(Frames(ir), table) && forall k :: k in table ==> 10 <= k
    ensures NoFrameFrom(ir, table, 0) <==> Frames(ir) == []
  {
    hide Frames, Base;
    if Frames(ir) != [] {
      assert Frames(ir)[0] in table;
    }
  }

  lemma TimesAgree(ir: seq<Element>, table: map<int, Typing>)
    requires HasTargets(Frames(ir), table) && forall k :: k in table ==> 10 <= k
    ensures SetInTime(ir, table, 0) <==> StoresFirst(ir)
  {
    hide Frames, Base, SetsLocal2;
    if StoresFirst(ir) {
      var j :| 0 <= j < |ir| && SetsLocal2(ir[j]) && forall x :: x in Frames(ir) ==> Offset(ir, j + 1) <= x;
      forall k | k in table && k >= Offset(ir, 0) ensures Offset(ir, j + 1) <= k {
        assert k in Frames(ir);
      }
    }
    if SetInTime(ir, table, 0) {
      var j :| 0 <= j < |ir| && SetsLocal2(ir[j]) && forall k :: k in table && k >= Offset(ir, 0)
                                                       ==> Offset(ir, j + 1) <= k;
      forall x | x in Frames(ir) ensures Offset(ir, j + 1) <= x {
        assert x in table;
      }
    }
  }

  // ----- distinct targets, in terms of the program -----

  /** Where the jump of element `i` goes. */
  function Aim(ir: seq<Element>, i: nat): nat
    requires i < |ir| && Jumps(ir[i])
  {
    Offset(ir, Target(ir, JumpLabel(ir[i])))
  }

  /** No two jumps go to the same place, and no jump goes to the place right after a conditional branch. */
  ghost predicate JumpsApart(ir: seq<Element>) {
    && (forall i, j :: 0 <= i < j < |ir| && Jumps(ir[i]) && Jumps(ir[j]) ==> Aim(ir, i) != Aim(ir, j))
    && (forall i, j :: 0 <= i < |ir| && 0 <= j < |ir| && Jumps(ir[i]) && Jumps(ir[j]) && ir[j].ins.R2?
          ==> Aim(ir, i) != Offset(ir, j + 1))
  }

  lemma DistinctJoin(a: seq<u16>, b: seq<u16>)
    ensures Distinct(a + b) <==> Distinct(a) && Distinct(b) && forall x :: x in a ==> x !in b
  {
    if Distinct(a + b) {
      forall i, j | 0 <= i < j < |a| ensures a[i] != a[j] {
        assert (a + b)[i] != (a + b)[j];
      }
      forall i, j | 0 <= i < j < |b| ensures b[i] != b[j] {
        assert (a + b)[|a| + i] != (a + b)[|a| + j];
      }
      forall i, j | 0 <= i < |a| && 0 <= j < |b| ensures a[i] != b[j] {
        assert (a + b)[i] != (a + b)[|a| + j];
      }
    }
    if Distinct(a) && Distinct(b) && forall x :: x in a ==> x !in b {
      forall i, j | 0 <= i < j < |a + b| ensures (a + b)[i] != (a + b)[j] {
        if i < |a| && j >= |a| {
          assert a[i] in a;
        }
      }
    }
  }

  lemma {:induction false} BranchFramesDistinct(pool: Pool, ir: seq<Element>, n: nat)
    requires Translatable(pool, ir) && n <= |ir|
    ensures Distinct(BranchFrames(ir, n))
    ensures forall x :: x in BranchFrames(ir, n) ==> x <= Offset(ir, n)
  {
    hide Jumps, Translatable;
    if n > 0 {
      BranchFramesDistinct(pool, ir, n - 1);
      OffsetFits(pool, ir, n);
      if Jumps(ir[n - 1]) && Size(ir[n - 1]) == 17 {
        DistinctJoin(BranchFrames(ir, n - 1), [ToU16(Offset(ir, n))]);
      }
    }
  }

  lemma OffsetFits(pool: Pool, ir: seq<Element>, n: nat)
    requires Translatable(pool, ir) && n <= |ir|
    ensures ToU16(Offset(ir, n)) == Offset(ir, n)
  {
    OffsetMonotone(ir, n, |ir|);
  }

  lemma RepeatDistinct(v: u16, k: nat)
    ensures Distinct(Repeat(v, k)) <==> k <= 1
  {
    if k > 1 {
      assert Repeat(v, k)[0] == Repeat(v, k)[1];
    }
  }

  ghost predicate AtMostOne(ir: seq<Element>, n: nat, l: string)
    requires n <= |ir|
  {
    forall i, j :: 0 <= i < j < n && JumpsTo(ir[i], l) ==> !JumpsTo(ir[j], l)
  }

  lemma {:induction false} TwoRefs(ir: seq<Element>, n: nat, l: string)
    requires n <= |ir|
    ensures |Refs(ir, n, l)| <= 1 <==> AtMostOne(ir, n, l)
  {
    hide JumpsTo, JumpAt, ToU16;
    if n > 0 {
      TwoRefs(ir, n - 1, l);
      NoRefs(ir, n - 1, l);
      assert |Refs(ir, n, l)| == |Refs(ir, n - 1, l)| + if JumpsTo(ir[n - 1], l) then 1 else 0;
      OneMoreJump(ir, n, l);
    }
  }

  lemma OneMoreJump(ir: seq<Element>, n: nat, l: string)
    requires 0 < n <= |ir|
    ensures AtMostOne(ir, n, l)
       <==> if JumpsTo(ir[n - 1], l) then forall j :: 0 <= j < n - 1 ==> !JumpsTo(ir[j], l) else AtMostOne(ir, n - 1, l)
  {
    hide JumpsTo;
  }

  /** The jumps to labels among the first `n` elements go to different places. */
  ghost predicate AimsApart(ir: seq<Element>, n: nat) {
    forall i, j :: (&& 0 <= i < j < |ir| && Jumps(ir[i]) && Jumps(ir[j])
                    && Target(ir, JumpLabel(ir[i])) < n && Target(ir, JumpLabel(ir[j])) < n) ==>
      Aim(ir, i) != Aim(ir, j)
  }

  lemma {:induction false} LabelFramesDistinct(pool: Pool, ir: seq<Element>, n: nat)
    requires Translatable(pool, ir) && n <= |ir|
    ensures Distinct(LabelFrames(ir, n)) <==> AimsApart(ir, n)
  {
    hide Translatable, Distinct, LabelOffset, Refs, AimsApart;
    if n == 0 {
      NothingApart(ir);
    } else {
      LabelFramesDistinct(pool, ir, n - 1);
      if ir[n - 1].LabelDecl? {
        var l := ir[n - 1].name;
        var v, k := LabelOffset(ir, l), |Refs(ir, |ir|, l)|;
        DistinctJoin(LabelFrames(ir, n - 1), Repeat(v, k));
        RepeatDistinct(v, k);
        RepeatHas(v, k, v);
        LabelFramesAre(ir, n - 1, v);
        TwoRefs(ir, |ir|, l);
        NoRefs(ir, |ir|, l);
        OneMoreLabel(pool, ir, n, v);
        RepeatOnly(v, k, LabelFrames(ir, n - 1));
      } else {
        OneMoreElement(ir, n);
      }
    }
  }

  lemma NothingApart(ir: seq<Element>)
    ensures Distinct([]) && AimsApart(ir, 0)
  {
  }

  lemma RepeatOnly(v: u16, k: nat, s: seq<u16>)
    ensures (forall x :: x in s ==> x !in Repeat(v, k)) <==> k == 0 || v !in s
  {
    RepeatHas(v, k, v);
    forall x ensures x in Repeat(v, k) <==> k > 0 && x == v {
      RepeatHas(v, k, x);
    }
  }

  lemma OneMoreElement(ir: seq<Element>, n: nat)
    requires 0 < n <= |ir| && !ir[n - 1].LabelDecl?
    ensures AimsApart(ir, n) <==> AimsApart(ir, n - 1)
  {
    hide Aim, Jumps;
  }

  lemma OneMoreLabel(pool: Pool, ir: seq<Element>, n: nat, v: u16)
    requires Translatable(pool, ir) && 0 < n <= |ir| && ir[n - 1].LabelDecl? && v == LabelOffset(ir, ir[n - 1].name)
    ensures AimsApart(ir, n)
       <==> && AimsApart(ir, n - 1)
            && AtMostOne(ir, |ir|, ir[n - 1].name)
            && (forall j :: 0 <= j < |ir| && JumpsTo(ir[j], ir[n - 1].name) ==> NewAim(ir, n, v))
  {
    hide Translatable, LabelOffset, Aim, Target, JumpsTo, Jumps, JumpLabel, NewAim;
    var l := ir[n - 1].name;
    if AimsApart(ir, n) {
      forall i, j | 0 <= i < j < |ir| && JumpsTo(ir[i], l) ensures !JumpsTo(ir[j], l) {
        if JumpsTo(ir[j], l) {
          AimOf(pool, ir, i, n - 1);
          AimOf(pool, ir, j, n - 1);
          assert false;
        }
      }
      forall j | 0 <= j < |ir| && JumpsTo(ir[j], l) ensures NewAim(ir, n, v) {
        AimOf(pool, ir, j, n - 1);
        AimIsNew(pool, ir, n, v, j);
      }
    }
    if && AimsApart(ir, n - 1) && AtMostOne(ir, |ir|, l)
       && (forall j :: 0 <= j < |ir| && JumpsTo(ir[j], l) ==> NewAim(ir, n, v)) {
      forall i, j | && 0 <= i < j < |ir| && Jumps(ir[i]) && Jumps(ir[j])
                    && Target(ir, JumpLabel(ir[i])) < n && Target(ir, JumpLabel(ir[j])) < n
        ensures Aim(ir, i) != Aim(ir, j)
      {
        AimsDiffer(pool, ir, n, v, i, j);
      }
    }
  }

  /** No label before element `n - 1` that is jumped to stands for `v`. */
  ghost predicate NewAim(ir: seq<Element>, n: nat, v: u16)
    requires 0 < n <= |ir|
  {
    forall i, k :: 0 <= i < n - 1 && 0 <= k < |ir| && ir[i].LabelDecl? && JumpsTo(ir[k], ir[i].name)
      ==> v != LabelOffset(ir, ir[i].name)
  }

  lemma AimOf(pool: Pool, ir: seq<Element>, j: nat, t: nat)
    requires Translatable(pool, ir) && j < |ir| && t < |ir| && ir[t].LabelDecl? && JumpsTo(ir[j], ir[t].name)
    ensures Jumps(ir[j]) && Target(ir, JumpLabel(ir[j])) == t
    ensures Aim(ir, j) == Offset(ir, t) == LabelOffset(ir, ir[t].name)
  {
    hide Translatable, LabelOffset, Offset;
    JumpFacts(pool, ir, j);
    LabelPlace(pool, ir, t, ir[t].name);
  }

  lemma AimIsNew(pool: Pool, ir: seq<Element>, n: nat, v: u16, j: nat)
    requires Translatable(pool, ir) && 0 < n <= |ir| && ir[n - 1].LabelDecl? && v == LabelOffset(ir, ir[n - 1].name)
    requires AimsApart(ir, n) && j < |ir| && JumpsTo(ir[j], ir[n - 1].name)
    ensures NewAim(ir, n, v)
  {
    hide Translatable, LabelOffset, Aim, Target, JumpsTo, Jumps, JumpLabel;
    AimOf(pool, ir, j, n - 1);
    forall i, k | 0 <= i < n - 1 && 0 <= k < |ir| && ir[i].LabelDecl? && JumpsTo(ir[k], ir[i].name)
      ensures v != LabelOffset(ir, ir[i].name)
    {
      AimOf(pool, ir, k, i);
      assert k != j;
      assert Aim(ir, k) != Aim(ir, j) by {
        if k < j { assert Aim(ir, k) != Aim(ir, j); } else { assert Aim(ir, j) != Aim(ir, k); }
      }
    }
  }

  lemma AimsDiffer(pool: Pool, ir: seq<Element>, n: nat, v: u16, i: nat, j: nat)
    requires Translatable(pool, ir) && 0 < n <= |ir| && ir[n - 1].LabelDecl? && v == LabelOffset(ir, ir[n - 1].name)
    requires AimsApart(ir, n - 1) && AtMostOne(ir, |ir|, ir[n - 1].name)
    requires forall j :: 0 <= j < |ir| && JumpsTo(ir[j], ir[n - 1].name) ==> NewAim(ir, n, v)
    requires i < j < |ir| && Jumps(ir[i]) && Jumps(ir[j]) && Target(ir, JumpLabel(ir[i])) < n
    requires Target(ir, JumpLabel(ir[j])) < n
    ensures Aim(ir, i) != Aim(ir, j)
  {
    hide Translatable, LabelOffset, Offset, Jumps, JumpLabel;
    var s, t := Target(ir, JumpLabel(ir[i])), Target(ir, JumpLabel(ir[j]));
    AimOf(pool, ir, i, s);
    AimOf(pool, ir, j, t);
    if s == n - 1 && t == n - 1 {
      assert false;
    } else if s == n - 1 {
      assert NewAim(ir, n, v);
    } else if t == n - 1 {
      assert NewAim(ir, n, v);
    }
  }

  lemma LabelPlace(pool: Pool, ir: seq<Element>, t: nat, l: string)
    requires Translatable(pool, ir) && t < |ir| && ir[t].LabelDecl?
    ensures Target(ir, l) == t <==> l == ir[t].name
  {
  }

  /** What the two kinds of frames are for. */
  lemma FrameKinds(pool: Pool, ir: seq<Element>, x: u16)
    requires Translatable(pool, ir)
    ensures x in BranchFrames(ir, |ir|)
       <==> exists j :: 0 <= j < |ir| && Jumps(ir[j]) && ir[j].ins.R2? && x == Offset(ir, j + 1)
    ensures x in LabelFrames(ir, |ir|) <==> exists i :: 0 <= i < |ir| && Jumps(ir[i]) && x == Aim(ir, i)
  {
    hide Size, Refs, Offset, LabelOffset, BranchFrames, LabelFrames, Translatable, Target, Aim;
    BranchFramesAre(ir, |ir|, x);
    LabelFramesAre(ir, |ir|, x);
    forall i | 0 <= i < |ir| && Jumps(ir[i])
      ensures var t := Target(ir, JumpLabel(ir[i]));
              t < |ir| && ir[t] == LabelDecl(JumpLabel(ir[i])) && LabelOffset(ir, JumpLabel(ir[i])) == Aim(ir, i)
      ensures Size(ir[i]) == 17 <==> ir[i].ins.R2?
      ensures ToU16(Offset(ir, i + 1)) == Offset(ir, i + 1)
    {
      JumpFacts(pool, ir, i);
      AimIs(ir, i);
    }
  }

  lemma AimIs(ir: seq<Element>, i: nat)
    requires i < |ir| && Jumps(ir[i])
    ensures Aim(ir, i) == Offset(ir, Target(ir, JumpLabel(ir[i])))
  {
  }

  /** Every target is recorded once exactly when the jumps go to different places and none goes right
      behind a conditional branch. */
  lemma FramesDistinct(pool: Pool, ir: seq<Element>)
    requires Translatable(pool, ir)
    ensures Distinct(Frames(ir)) <==> JumpsApart(ir)
  {
    hide Translatable, Distinct, LabelOffset, Refs, Target, BranchFrames, LabelFrames, Aim, Offset;
    DistinctJoin(BranchFrames(ir, |ir|), LabelFrames(ir, |ir|));
    BranchFramesDistinct(pool, ir, |ir|);
    LabelFramesDistinct(pool, ir, |ir|);
    forall i | 0 <= i < |ir| && Jumps(ir[i])
      ensures Aim(ir, i) < 65536 && Offset(ir, i + 1) < 65536 && Target(ir, JumpLabel(ir[i])) < |ir|
      ensures Aim(ir, i) in LabelFrames(ir, |ir|)
      ensures ir[i].ins.R2? ==> Offset(ir, i + 1) in BranchFrames(ir, |ir|)
    {
      JumpFacts(pool, ir, i);
      JumpSmall(pool, ir, i);
      AimIs(ir, i);
      FrameKinds(pool, ir, Aim(ir, i));
      FrameKinds(pool, ir, Offset(ir, i + 1));
    }
    if JumpsApart(ir) {
      forall x | x in BranchFrames(ir, |ir|) ensures x !in LabelFrames(ir, |ir|) {
        FrameKinds(pool, ir, x);
      }
    }
  }
}
