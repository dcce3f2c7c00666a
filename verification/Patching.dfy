/** The second pass: patching the recorded references one by one gives the code laid out with the final
    jump distances, changes no other byte, and stops exactly at a referenced label without an offset. */
module Patching {
  import opened Words
  import opened Ir
  import opened Emission
  import opened Layout

  ghost predicate AllEmit(pool: Pool, ir: seq<Element>) {
    forall j :: 0 <= j < |ir| ==> Emits(pool, ir[j])
  }

  lemma {:induction false} LaySize(pool: Pool, ir: seq<Element>, ds: seq<int>, n: nat)
    requires n <= |ir| == |ds| && AllEmit(pool, ir)
    ensures |Lay(pool, ir, ds, n)| + 10 == Offset(ir, n)
  {
    hide Code, Size;
    if n > 0 {
      LaySize(pool, ir, ds, n - 1);
    }
  }

  // ----- one patch -----

  /** The four bytes of a patch lie in the code of the jump itself. */
  lemma PatchCode(pool: Pool, e: Element, x: int, d: int)
    requires Jumps(e) && Emits(pool, e)
    ensures var at := (if Size(e) == 17 then 12 else 0) + 1;
            && |Code(pool, e, x)| == at + 4
            && Overwrite(Code(pool, e, x), at, BigEndian(d, 4)) == Code(pool, e, d)
  {
  }

  lemma OverwriteRight(a: seq<byte>, b: seq<byte>, start: nat, bytes: seq<byte>)
    requires |a| <= start && start + |bytes| <= |a| + |b|
    ensures Overwrite(a + b, start, bytes) == a + Overwrite(b, start - |a|, bytes)
  {
    var s := start - |a|;
    assert (a + b)[..start] == a + b[..s];
    assert (a + b)[start + |bytes|..] == b[s + |bytes|..];
    assert a + (b[..s] + bytes + b[s + |bytes|..]) == (a + b[..s]) + bytes + b[s + |bytes|..];
  }

  lemma OverwriteLeft(a: seq<byte>, b: seq<byte>, start: nat, bytes: seq<byte>)
    requires start + |bytes| <= |a|
    ensures Overwrite(a + b, start, bytes) == Overwrite(a, start, bytes) + b
  {
    assert (a + b)[..start] == a[..start];
    assert (a + b)[start + |bytes|..] == a[start + |bytes|..] + b;
  }

  lemma LayNext(pool: Pool, ir: seq<Element>, p: seq<byte>, ds: seq<int>, n: nat)
    requires 0 < n <= |ir| == |ds| && AllEmit(pool, ir)
    ensures p + Lay(pool, ir, ds, n) == (p + Lay(pool, ir, ds, n - 1)) + Code(pool, ir[n - 1], ds[n - 1])
  {
    hide Code;
  }

  /** Patching the jump of element `j` changes the distance of that jump and nothing else. */
  lemma {:induction false} OverwriteLay(pool: Pool, ir: seq<Element>, p: seq<byte>, ds: seq<int>, j: nat, n: nat,
                                        d: int)
    requires j < n <= |ir| == |ds| && |p| == 10 && AllEmit(pool, ir) && Jumps(ir[j])
    ensures JumpAt(ir, j) + 5 <= |p + Lay(pool, ir, ds, n)|
    ensures Overwrite(p + Lay(pool, ir, ds, n), JumpAt(ir, j) + 1, BigEndian(d, 4)) == p + Lay(pool, ir, ds[j := d], n)
  {
    hide Code, Size, Overwrite, Jumps, Lay, BigEndian;
    var a := p + Lay(pool, ir, ds, n - 1);
    var b := Code(pool, ir[n - 1], ds[n - 1]);
    LayNext(pool, ir, p, ds, n);
    LayNext(pool, ir, p, ds[j := d], n);
    LaySize(pool, ir, ds, n - 1);
    LaySize(pool, ir, ds, n);
    if n - 1 == j {
      PatchCode(pool, ir[j], ds[j], d);
      OverwriteRight(a, b, JumpAt(ir, j) + 1, BigEndian(d, 4));
      LaySame(pool, ir, ds, ds[j := d], j);
    } else {
      OverwriteLay(pool, ir, p, ds, j, n - 1, d);
      OverwriteLeft(a, b, JumpAt(ir, j) + 1, BigEndian(d, 4));
    }
  }

  lemma {:induction false} LaySame(pool: Pool, ir: seq<Element>, ds: seq<int>, es: seq<int>, n: nat)
    requires n <= |ir| == |ds| == |es| && ds[..n] == es[..n]
    ensures Lay(pool, ir, ds, n) == Lay(pool, ir, es, n)
  {
    hide Code;
    if n > 0 {
      assert ds[n - 1] == ds[..n][n - 1] == es[..n][n - 1] == es[n - 1];
      assert ds[..n - 1] == ds[..n][..n - 1] == es[..n][..n - 1] == es[..n - 1];
      LaySame(pool, ir, ds, es, n - 1);
    }
  }

  // ----- all the patches of one label -----

  lemma {:induction false} RefsPrefix(ir: seq<Element>, m: nat, n: nat, l: string)
    requires m <= n <= |ir|
    ensures Refs(ir, m, l) <= Refs(ir, n, l)
    decreases n
  {
    hide JumpsTo, JumpAt, ToU16;
    if m < n {
      RefsPrefix(ir, m, n - 1, l);
    }
  }

  lemma {:induction false} OffsetMonotone(ir: seq<Element>, m: nat, n: nat)
    requires m <= n <= |ir|
    ensures Offset(ir, m) <= Offset(ir, n)
    decreases n
  {
    hide Size;
    if m < n {
      OffsetMonotone(ir, m, n - 1);
    }
  }

  function LabelOffset(ir: seq<Element>, l: string): u16 {
    if Str(l) in Offsets(ir, |ir|) then Offsets(ir, |ir|)[Str(l)] else 0
  }

  /** The jumps among the first `m` elements that go to `l` get their distance. */
  function Aimed(ir: seq<Element>, ds: seq<int>, l: string, m: nat): (es: seq<int>)
    requires m <= |ir| == |ds|
    ensures |es| == |ir|
  {
    seq(|ir|, j requires 0 <= j < |ir| => if j < m && JumpsTo(ir[j], l) then LabelOffset(ir, l) - JumpAt(ir, j)
                                          else ds[j])
  }

  function Repeat(x: u16, k: nat): (s: seq<u16>)
    ensures |s| == k
  {
    seq(k, _ => x)
  }

  lemma AimedStep(ir: seq<Element>, ds: seq<int>, l: string, m: nat)
    requires m < |ir| == |ds|
    ensures Aimed(ir, ds, l, m + 1)
         == if JumpsTo(ir[m], l) then Aimed(ir, ds, l, m)[m := LabelOffset(ir, l) - JumpAt(ir, m)]
            else Aimed(ir, ds, l, m)
  {
    hide JumpsTo, JumpAt, LabelOffset;
  }

  ghost predicate Codes(pool: Pool, ir: seq<Element>, p: seq<byte>, ds: seq<int>, g: Gen)
    requires |ds| == |ir|
  {
    && |p| == 10 && AllEmit(pool, ir) && Fits(ir)
    && g.code == p + Lay(pool, ir, ds, |ir|)
    && |g.code| == Offset(ir, |ir|)
    && g.offsets == Offsets(ir, |ir|)
    && forall l :: g.RefsTo(l) == Refs(ir, |ir|, l)
  }

  /** A recorded reference is a jump inside the code, with its position intact. */
  lemma RefInside(pool: Pool, ir: seq<Element>, j: nat)
    requires j < |ir| && AllEmit(pool, ir) && Jumps(ir[j]) && Fits(ir)
    ensures JumpAt(ir, j) + 5 == Offset(ir, j + 1) <= Offset(ir, |ir|)
    ensures ToU16(JumpAt(ir, j) + 1) == JumpAt(ir, j) + 1 && ToU16(JumpAt(ir, j)) == JumpAt(ir, j)
  {
    OffsetMonotone(ir, j + 1, |ir|);
  }

  lemma {:induction false} RefsInside(pool: Pool, ir: seq<Element>, n: nat, l: string)
    requires n <= |ir| && AllEmit(pool, ir) && Fits(ir)
    ensures forall i :: 0 <= i < |Refs(ir, n, l)| ==> Refs(ir, n, l)[i].branch + 4 <= Offset(ir, |ir|)
  {
    hide Jumps, JumpLabel, JumpAt, Size;
    if n > 0 {
      RefsInside(pool, ir, n - 1, l);
      if Jumps(ir[n - 1]) {
        RefInside(pool, ir, n - 1);
      }
    }
  }

  /** `g` with the jumps of the first `m` elements to `l` patched. */
  function Patched(pool: Pool, ir: seq<Element>, p: seq<byte>, ds: seq<int>, g: Gen, l: string, m: nat): Gen
    requires m <= |ir| == |ds|
  {
    g.(code := p + Lay(pool, ir, Aimed(ir, ds, l, m), |ir|),
       frames := g.frames + Repeat(LabelOffset(ir, l), |Refs(ir, m, l)|))
  }

  /** One turn of the patching loop. */
  lemma PatchStep(pool: Pool, ir: seq<Element>, p: seq<byte>, ds: seq<int>, g: Gen, l: string, m: nat)
    requires |ds| == |ir| && Codes(pool, ir, p, ds, g) && m < |ir|
    requires Str(l) in g.offsets && JumpsTo(ir[m], l)
    ensures var h := Patched(pool, ir, p, ds, g, l, m);
            var at := JumpAt(ir, m);
            && at + 5 <= |h.code|
            && h.(code := Overwrite(h.code, at + 1, BigEndian(LabelOffset(ir, l) - at, 4))).AddFrame(LabelOffset(ir, l))
            == Patched(pool, ir, p, ds, g, l, m + 1)
  {
    hide Code, Size, Lay, JumpAt, Jumps, JumpLabel, Overwrite, Aimed, LabelOffset;
    var k := |Refs(ir, m, l)|;
    AimedStep(ir, ds, l, m);
    OverwriteLay(pool, ir, p, Aimed(ir, ds, l, m), m, |ir|, LabelOffset(ir, l) - JumpAt(ir, m));
    assert g.frames + Repeat(LabelOffset(ir, l), k) + [LabelOffset(ir, l)]
           == g.frames + Repeat(LabelOffset(ir, l), k + 1);
  }

  /** The references of the first `m` elements are the first ones of the whole list. */
  lemma RefAtEnd(pool: Pool, ir: seq<Element>, m: nat, l: string)
    requires m < |ir| && AllEmit(pool, ir) && Fits(ir) && JumpsTo(ir[m], l)
    ensures var rs, k := Refs(ir, |ir|, l), |Refs(ir, m, l)|;
            && k + 1 == |Refs(ir, m + 1, l)| <= |rs|
            && JumpAt(ir, m) + 1 < 65536
            && rs[k] == Ref(JumpAt(ir, m), JumpAt(ir, m) + 1)
  {
    hide JumpAt, Jumps, JumpLabel;
    RefsPrefix(ir, m + 1, |ir|, l);
    RefInside(pool, ir, m);
  }

  lemma PatchRefsNext(g: Gen, l: string, rs: seq<Ref>, k: nat, h: Gen)
    requires 0 < k <= |rs| && forall i :: 0 <= i < |rs| ==> rs[i].branch + 4 <= |g.code|
    requires PatchRefs(g, l, rs, k - 1) == Ok(h) && Str(l) in g.offsets
    ensures |h.code| == |g.code| && h.offsets == g.offsets
    ensures PatchRefs(g, l, rs, k)
         == Ok(h.(code := Overwrite(h.code, rs[k - 1].branch, BigEndian(h.offsets[Str(l)] - rs[k - 1].opcode, 4)))
                .AddFrame(h.offsets[Str(l)]))
  {
  }

  lemma PatchJump(pool: Pool, ir: seq<Element>, p: seq<byte>, ds: seq<int>, g: Gen, l: string, m: nat)
    requires |ds| == |ir| && Codes(pool, ir, p, ds, g) && m < |ir|
    requires Str(l) in g.offsets && JumpsTo(ir[m], l)
    requires forall i :: 0 <= i < |Refs(ir, |ir|, l)| ==> Refs(ir, |ir|, l)[i].branch + 4 <= |g.code|
    requires |Refs(ir, m, l)| <= |Refs(ir, |ir|, l)|
    requires PatchRefs(g, l, Refs(ir, |ir|, l), |Refs(ir, m, l)|) == Ok(Patched(pool, ir, p, ds, g, l, m))
    ensures |Refs(ir, m + 1, l)| <= |Refs(ir, |ir|, l)|
    ensures PatchRefs(g, l, Refs(ir, |ir|, l), |Refs(ir, m + 1, l)|) == Ok(Patched(pool, ir, p, ds, g, l, m + 1))
  {
    hide PatchRefs, Lay, JumpAt, Jumps, JumpsTo, Overwrite, Aimed, Patched, Refs;
    RefAtEnd(pool, ir, m, l);
    PatchStep(pool, ir, p, ds, g, l, m);
    PatchRefsNext(g, l, Refs(ir, |ir|, l), |Refs(ir, m + 1, l)|, Patched(pool, ir, p, ds, g, l, m));
  }

  lemma {:induction false} PatchRefsLays(pool: Pool, ir: seq<Element>, p: seq<byte>, ds: seq<int>, g: Gen, l: string,
                                         m: nat)
    requires |ds| == |ir| && Codes(pool, ir, p, ds, g) && m <= |ir|
    requires Str(l) in g.offsets
    requires forall i :: 0 <= i < |Refs(ir, |ir|, l)| ==> Refs(ir, |ir|, l)[i].branch + 4 <= |g.code|
    ensures |Refs(ir, m, l)| <= |Refs(ir, |ir|, l)|
    ensures PatchRefs(g, l, Refs(ir, |ir|, l), |Refs(ir, m, l)|) == Ok(Patched(pool, ir, p, ds, g, l, m))
  {
    hide Jumps, JumpsTo, Patched, Codes;
    if m == 0 {
      PatchedNone(pool, ir, p, ds, g, l);
    } else {
      PatchRefsLays(pool, ir, p, ds, g, l, m - 1);
      if JumpsTo(ir[m - 1], l) {
        PatchJump(pool, ir, p, ds, g, l, m - 1);
      } else {
        PatchedSame(pool, ir, p, ds, g, l, m - 1);
      }
    }
  }

  lemma PatchedNone(pool: Pool, ir: seq<Element>, p: seq<byte>, ds: seq<int>, g: Gen, l: string)
    requires |ds| == |ir| && Codes(pool, ir, p, ds, g)
    ensures Patched(pool, ir, p, ds, g, l, 0) == g
  {
    hide Lay;
    AimedNone(ir, ds, l);
    assert g.frames + Repeat(LabelOffset(ir, l), 0) == g.frames;
  }

  lemma PatchedSame(pool: Pool, ir: seq<Element>, p: seq<byte>, ds: seq<int>, g: Gen, l: string, m: nat)
    requires m < |ir| == |ds| && !JumpsTo(ir[m], l)
    ensures Patched(pool, ir, p, ds, g, l, m + 1) == Patched(pool, ir, p, ds, g, l, m)
  {
    hide Lay, Aimed, JumpsTo;
    AimedStep(ir, ds, l, m);
  }

  lemma AimedNone(ir: seq<Element>, ds: seq<int>, l: string)
    requires |ir| == |ds|
    ensures Aimed(ir, ds, l, 0) == ds
  {
  }

  lemma {:induction false} PatchRefsStops(g: Gen, l: string, rs: seq<Ref>, k: nat)
    requires 0 < k <= |rs| && forall i :: 0 <= i < |rs| ==> rs[i].branch + 4 <= |g.code|
    requires Str(l) !in g.offsets
    ensures PatchRefs(g, l, rs, k).Err?
  {
    if k > 1 {
      PatchRefsStops(g, l, rs, k - 1);
    }
  }

  // ----- all the labels -----

  /** The distances once the labels among the first `n` elements are patched. */
  function Distances(ir: seq<Element>, n: nat): (ds: seq<int>)
    requires n <= |ir|
    ensures |ds| == |ir|
  {
    if n == 0 then Zeros(ir)
    else if ir[n - 1].LabelDecl? then Aimed(ir, Distances(ir, n - 1), ir[n - 1].name, |ir|)
    else Distances(ir, n - 1)
  }

  /** The frames of the patched references, label by label. */
  function LabelFrames(ir: seq<Element>, n: nat): seq<u16>
    requires n <= |ir|
  {
    if n == 0 then []
    else if ir[n - 1].LabelDecl? then
      LabelFrames(ir, n - 1) + Repeat(LabelOffset(ir, ir[n - 1].name), |Refs(ir, |ir|, ir[n - 1].name)|)
    else LabelFrames(ir, n - 1)
  }

  /** No label among the first `n` elements is jumped to without having an offset. */
  ghost predicate Patchable(ir: seq<Element>, n: nat)
    requires n <= |ir|
  {
    forall i :: 0 <= i < n && ir[i].LabelDecl? && Refs(ir, |ir|, ir[i].name) != []
      ==> Str(ir[i].name) in Offsets(ir, |ir|)
  }

  ghost predicate PassedTwo(pool: Pool, ir: seq<Element>, n: nat, p: seq<byte>, g: Gen, r: Gen)
    requires n <= |ir|
  {
    && Codes(pool, ir, p, Distances(ir, n), r)
    && r.frames == g.frames + LabelFrames(ir, n)
  }

  /** A declared label with an offset: all its references are patched. */
  lemma Pass2Patches(pool: Pool, ir: seq<Element>, n: nat, p: seq<byte>, g: Gen, h: Gen)
    requires n < |ir| && ir[n].LabelDecl? && PassedTwo(pool, ir, n, p, g, h) && Str(ir[n].name) in h.offsets
    requires forall i :: 0 <= i < |h.RefsTo(ir[n].name)| ==> h.RefsTo(ir[n].name)[i].branch + 4 <= |h.code|
    ensures var rs := h.RefsTo(ir[n].name);
            var r := PatchRefs(h, ir[n].name, rs, |rs|);
            r.Ok? && PassedTwo(pool, ir, n + 1, p, g, r.value)
  {
    hide Lay, JumpAt, Jumps, JumpLabel, Overwrite, Aimed, BigEndian, PatchRefs, Refs, LabelOffset;
    var l := ir[n].name;
    PatchRefsLays(pool, ir, p, Distances(ir, n), h, l, |ir|);
    LaySize(pool, ir, Distances(ir, n + 1), |ir|);
    Joined(g.frames, LabelFrames(ir, n), Repeat(LabelOffset(ir, l), |Refs(ir, |ir|, l)|));
  }

  lemma Joined(a: seq<u16>, b: seq<u16>, c: seq<u16>)
    ensures a + b + c == a + (b + c)
  {
  }

  lemma Pass2Step(pool: Pool, ir: seq<Element>, n: nat, p: seq<byte>, g: Gen, h: Gen)
    requires n < |ir| && ir[n].LabelDecl? && PassedTwo(pool, ir, n, p, g, h)
    requires forall i :: 0 <= i < |h.RefsTo(ir[n].name)| ==> h.RefsTo(ir[n].name)[i].branch + 4 <= |h.code|
    ensures var rs := h.RefsTo(ir[n].name);
            var r := PatchRefs(h, ir[n].name, rs, |rs|);
            && (r.Ok? <==> (rs != [] ==> Str(ir[n].name) in Offsets(ir, |ir|)))
            && (r.Ok? ==> PassedTwo(pool, ir, n + 1, p, g, r.value))
  {
    hide Code, Size, Lay, JumpAt, Jumps, JumpLabel, JumpsTo, Overwrite, Aimed, BigEndian, LabelOffset;
    var l := ir[n].name;
    var rs := h.RefsTo(l);
    assert rs == Refs(ir, |ir|, l);
    if Str(l) in h.offsets {
      Pass2Patches(pool, ir, n, p, g, h);
    } else if rs != [] {
      PatchRefsStops(h, l, rs, |rs|);
    } else {
      AimedNothing(ir, Distances(ir, n), l);
      assert g.frames + LabelFrames(ir, n) == g.frames + LabelFrames(ir, n + 1);
    }
  }

  lemma {:induction false} NoRefs(ir: seq<Element>, n: nat, l: string)
    requires n <= |ir|
    ensures Refs(ir, n, l) == [] <==> forall j :: 0 <= j < n ==> !JumpsTo(ir[j], l)
  {
    hide JumpsTo, JumpAt, ToU16;
    if n > 0 {
      NoRefs(ir, n - 1, l);
      assert Refs(ir, n, l) == [] <==> Refs(ir, n - 1, l) == [] && !JumpsTo(ir[n - 1], l);
    }
  }

  lemma AimedNothing(ir: seq<Element>, ds: seq<int>, l: string)
    requires |ir| == |ds| && Refs(ir, |ir|, l) == []
    ensures Aimed(ir, ds, l, |ir|) == ds
  {
    hide JumpsTo, JumpAt, LabelOffset, Refs;
    NoRefs(ir, |ir|, l);
  }

  lemma {:induction false} Pass2Lays(pool: Pool, ir: seq<Element>, n: nat, p: seq<byte>, g: Gen)
    requires n <= |ir| && g.InRange() && Codes(pool, ir, p, Zeros(ir), g)
    ensures var r := Pass2(ir, n, g);
            && (r.Ok? <==> Patchable(ir, n))
            && (r.Ok? ==> PassedTwo(pool, ir, n, p, g, r.value))
  {
    hide Code, Size, Lay, JumpAt, Jumps, JumpLabel, Overwrite, Aimed, PatchRefs, Refs, Offsets;
    if n == 0 {
      assert g.frames + LabelFrames(ir, 0) == g.frames;
    } else {
      Pass2Lays(pool, ir, n - 1, p, g);
      var r := Pass2(ir, n - 1, g);
      if r.Ok? && ir[n - 1].LabelDecl? {
        Pass2Step(pool, ir, n - 1, p, g, r.value);
      }
    }
  }
}
