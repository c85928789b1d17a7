/** Enumeration of the "information flow hint" variants of a plan
    (DatasetGenerator.py): every triple of the plan may be flipped, that is
    have its subject and object swapped, and a variant records which were. */
module DatasetGenerator {
  import opened Wrappers
  import opened Builtins

  /** One flip variant of a flat triple list: the (possibly flipped) triple
      lines, and for each position whether it was flipped. */
  datatype Variant = Variant(perm: seq<string>, flips: seq<bool>)

  /** A plan with flip marks: one list of (triple line, flipped) per sentence. */
  type FlowPlan = seq<seq<(string, bool)>>

  function Pow2(n: nat): (r: nat)
    ensures r >= 1
  {
    if n == 0 then 1 else 2 * Pow2(n - 1)
  }

  /** Bit `i` of `k`, least significant first, for `i < n`. */
  function Bits(k: nat, n: nat): (b: seq<bool>)
    ensures |b| == n
  {
    if n == 0 then [] else [k % 2 == 1] + Bits(k / 2, n - 1)
  }

  /** The number whose bits, least significant first, are `b`. */
  function BitsIndex(b: seq<bool>): nat {
    if b == [] then 0 else (if b[0] then 1 else 0) + 2 * BitsIndex(b[1..])
  }

  /** A triple line has a flipped form when it splits into at least three
      fields; otherwise `comps[2]` raises IndexError. */
  predicate Flippable(triple: string) {
    |Split(triple, Sep)| >= 3
  }

  /** `comps[2] + ' | ' + comps[1] + ' | ' + comps[0]`, None for the
      IndexError, extra fields dropped. */
  function FlipTriple(triple: string): (r: Option<string>)
    ensures r.Some? <==> Flippable(triple)
  {
    var comps := Split(triple, Sep);
    if |comps| < 3 then None else Some(comps[2] + Sep + comps[1] + Sep + comps[0])
  }

  /** Flipping `"s | p | o"` gives `"o | p | s"`. */
  lemma FlipTripleOfLine(s: string, p: string, o: string)
    requires Clean(s) && Clean(p) && !Contains(o, Sep)
    ensures FlipTriple(Join3(s, p, o)) == Some(Join3(o, p, s))
  {
    SplitJoin3(s, p, o);
  }

  /** Flipping a line of clean fields twice gives the line back. */
  lemma FlipTwice(s: string, p: string, o: string)
    requires Clean(s) && Clean(p) && Clean(o)
    ensures FlipTriple(Join3(s, p, o)).Some?
    ensures FlipTriple(FlipTriple(Join3(s, p, o)).value) == Some(Join3(s, p, o))
  {
    FlipTripleOfLine(s, p, o);
    FlipTripleOfLine(o, p, s);
  }

  /** The two outputs yielded for every variant of the tail: the head kept,
      then the head flipped. */
  function Interleave(head: string, flipped: string, tail: seq<Variant>): (r: seq<Variant>)
    ensures |r| == 2 * |tail|
  {
    if tail == [] then []
    else
      [Variant([head] + tail[0].perm, [false] + tail[0].flips),
       Variant([flipped] + tail[0].perm, [true] + tail[0].flips)]
      + Interleave(head, flipped, tail[1..])
  }

  /** Output k extends variant k / 2 of the tail, with the head flipped
      exactly when k is odd. */
  lemma {:induction false} InterleaveAt(head: string, flipped: string, tail: seq<Variant>, k: nat)
    requires k < 2 * |tail|
    ensures Interleave(head, flipped, tail)[k]
      == Variant([if k % 2 == 0 then head else flipped] + tail[k / 2].perm,
                 [k % 2 == 1] + tail[k / 2].flips)
  {
    if k >= 2 {
      InterleaveAt(head, flipped, tail[1..], k - 2);
    }
  }

  /** `triplelist_to_perms` collected into a list; None when some triple is
      not flippable (the generator raises before its first yield). */
  function Perms(ts: seq<string>): Option<seq<Variant>> {
    if |ts| == 0 then Some([Variant([], [])])
    else
      match FlipTriple(ts[0])
      case None => None
      case Some(rev) =>
        match Perms(ts[1..])
        case None => None
        case Some(tail) => Some(Interleave(ts[0], rev, tail))
  }

  /** The enumeration fails exactly when some triple cannot be flipped. */
  lemma {:induction false} PermsDefined(ts: seq<string>)
    ensures Perms(ts).Some? <==> forall i :: 0 <= i < |ts| ==> Flippable(ts[i])
  {
    if |ts| > 0 {
      PermsDefined(ts[1..]);
      assert forall i :: 1 <= i < |ts| ==> ts[1..][i - 1] == ts[i];
    }
  }

  /** An input of n triples has 2^n variants. */
  lemma {:induction false} PermsCount(ts: seq<string>)
    requires Perms(ts).Some?
    ensures |Perms(ts).value| == Pow2(|ts|)
  {
    if |ts| > 0 {
      PermsCount(ts[1..]);
    }
  }

  /** The k-th variant has the input's length, flips exactly the positions
      of the set bits of k, and holds the flipped triple where it flips. */
  lemma {:induction false} PermsAt(ts: seq<string>, k: nat)
    requires Perms(ts).Some? && k < |Perms(ts).value|
    ensures |Perms(ts).value[k].perm| == |ts|
    ensures Perms(ts).value[k].flips == Bits(k, |ts|)
    ensures forall i :: 0 <= i < |ts| ==>
      if Perms(ts).value[k].flips[i] then FlipTriple(ts[i]) == Some(Perms(ts).value[k].perm[i])
      else Perms(ts).value[k].perm[i] == ts[i]
  {
    if |ts| > 0 {
      var rev := FlipTriple(ts[0]).value;
      var tail := Perms(ts[1..]).value;
      assert Perms(ts).value == Interleave(ts[0], rev, tail);
      PermsAt(ts[1..], k / 2);
      InterleaveAt(ts[0], rev, tail, k);
      ConsVariant(FlipTriple, ts, rev, k % 2 == 1, tail[k / 2], Perms(ts).value[k]);
    }
  }

  /** Putting the head, kept or flipped, in front of a variant of the tail
      gives a variant of the whole list. */
  lemma ConsVariant(flip: string -> Option<string>, ts: seq<string>, rev: string, b: bool,
                    w: Variant, v: Variant)
    requires |ts| > 0 && flip(ts[0]) == Some(rev)
    requires |w.perm| == |ts| - 1 && |w.flips| == |ts| - 1
    requires forall i :: 0 <= i < |ts| - 1 ==>
      if w.flips[i] then flip(ts[1..][i]) == Some(w.perm[i]) else w.perm[i] == ts[1..][i]
    requires v == Variant([if b then rev else ts[0]] + w.perm, [b] + w.flips)
    ensures |v.perm| == |ts|
    ensures forall i :: 0 <= i < |ts| ==>
      if v.flips[i] then flip(ts[i]) == Some(v.perm[i]) else v.perm[i] == ts[i]
  {
    forall i | 0 <= i < |ts|
      ensures if v.flips[i] then flip(ts[i]) == Some(v.perm[i]) else v.perm[i] == ts[i]
    {
      if i > 0 {
        assert v.perm[i] == w.perm[i - 1] && v.flips[i] == w.flips[i - 1];
        assert ts[1..][i - 1] == ts[i];
      }
    }
  }

  /** The first variant is the unchanged list with no flips. */
  lemma {:induction false} PermsFirst(ts: seq<string>)
    requires Perms(ts).Some?
    ensures |Perms(ts).value| > 0
    ensures Perms(ts).value[0] == Variant(ts, seq(|ts|, i => false))
  {
    PermsCount(ts);
    PermsAt(ts, 0);
    BitsOfZero(|ts|);
    var v := Perms(ts).value[0];
    assert v.perm == ts;
  }

  lemma {:induction false} BitsOfZero(n: nat)
    ensures Bits(0, n) == seq(n, i => false)
  {
    if n > 0 {
      BitsOfZero(n - 1);
    }
  }

  lemma {:induction false} BitsIndexBound(b: seq<bool>)
    ensures BitsIndex(b) < Pow2(|b|)
  {
    if b != [] {
      BitsIndexBound(b[1..]);
    }
  }

  lemma {:induction false} BitsOfIndex(b: seq<bool>)
    ensures Bits(BitsIndex(b), |b|) == b
  {
    if b != [] {
      BitsOfIndex(b[1..]);
      var k := BitsIndex(b);
      assert k % 2 == (if b[0] then 1 else 0) && k / 2 == BitsIndex(b[1..]);
    }
  }

  lemma {:induction false} IndexOfBits(k: nat, n: nat)
    requires k < Pow2(n)
    ensures BitsIndex(Bits(k, n)) == k
  {
    if n > 0 {
      IndexOfBits(k / 2, n - 1);
      assert Bits(k, n)[1..] == Bits(k / 2, n - 1);
    }
  }

  /** Every flip vector of the right length occurs exactly once among the
      variants: at the index whose bits it spells. */
  lemma VariantsEnumerateFlipVectors(ts: seq<string>, b: seq<bool>)
    requires Perms(ts).Some? && |b| == |ts|
    ensures BitsIndex(b) < |Perms(ts).value|
    ensures Perms(ts).value[BitsIndex(b)].flips == b
    ensures forall k :: 0 <= k < |Perms(ts).value| && Perms(ts).value[k].flips == b ==>
      k == BitsIndex(b)
  {
    PermsCount(ts);
    BitsIndexBound(b);
    PermsAt(ts, BitsIndex(b));
    BitsOfIndex(b);
    forall k | 0 <= k < |Perms(ts).value| && Perms(ts).value[k].flips == b
      ensures k == BitsIndex(b)
    {
      PermsAt(ts, k);
      IndexOfBits(k, |ts|);
    }
  }

  /** The list comprehension `[triple for sent in plan for triple in sent]`. */
  function Flatten<T>(xss: seq<seq<T>>): seq<T> {
    if xss == [] then [] else xss[0] + Flatten(xss[1..])
  }

  function Sum(lens: seq<nat>): nat {
    if lens == [] then 0 else lens[0] + Sum(lens[1..])
  }

  /** `list(zip(a, b))`: pairs up to the shorter length. */
  function Zip<A, B>(a: seq<A>, b: seq<B>): (r: seq<(A, B)>)
    ensures |r| == if |a| < |b| then |a| else |b|
  {
    if |a| == 0 || |b| == 0 then [] else [(a[0], b[0])] + Zip(a[1..], b[1..])
  }

  lemma {:induction false} ZipAt<A, B>(a: seq<A>, b: seq<B>, i: nat)
    requires i < |a| && i < |b|
    ensures Zip(a, b)[i] == (a[i], b[i])
  {
    if i > 0 {
      ZipAt(a[1..], b[1..], i - 1);
    }
  }

  /** `xs` cut into consecutive pieces of the given lengths. */
  function Chunk<T>(xs: seq<T>, lens: seq<nat>): seq<seq<T>>
    requires Sum(lens) == |xs|
  {
    if lens == [] then [] else [xs[..lens[0]]] + Chunk(xs[lens[0]..], lens[1..])
  }

  /** There is one piece per length, of that length. */
  lemma {:induction false} ChunkShape<T>(xs: seq<T>, lens: seq<nat>)
    requires Sum(lens) == |xs|
    ensures |Chunk(xs, lens)| == |lens|
    ensures forall j :: 0 <= j < |lens| ==> |Chunk(xs, lens)[j]| == lens[j]
  {
    if lens != [] {
      ChunkShape(xs[lens[0]..], lens[1..]);
    }
  }

  /** Cutting loses and duplicates nothing: the pieces concatenate to `xs`. */
  lemma {:induction false} FlattenChunk<T>(xs: seq<T>, lens: seq<nat>)
    requires Sum(lens) == |xs|
    ensures Flatten(Chunk(xs, lens)) == xs
  {
    if lens != [] {
      var rest := Chunk(xs[lens[0]..], lens[1..]);
      FlattenChunk(xs[lens[0]..], lens[1..]);
      assert ([xs[..lens[0]]] + rest)[1..] == rest;
    }
  }

  /** The inner loop of `flow_hints_permutations` (lines 33-38): walk the
      sentence lengths, cutting the zipped variant at `count`. */
  method Rechunk(flatPerm: seq<string>, flips: seq<bool>, sentLens: seq<nat>)
    returns (plan: FlowPlan)
    requires |flatPerm| == |flips| == Sum(sentLens)
    ensures plan == Chunk(Zip(flatPerm, flips), sentLens)
  {
    var pairs := Zip(flatPerm, flips);
    plan := [];
    var count: nat := 0;
    var j := 0;
    assert sentLens[0..] == sentLens && pairs[0..] == pairs;
    while j < |sentLens|
      invariant 0 <= j <= |sentLens|
      invariant |pairs| == |flatPerm| == |flips| == Sum(sentLens)
      invariant count + Sum(sentLens[j..]) == |pairs|
      invariant plan + Chunk(pairs[count..], sentLens[j..]) == Chunk(pairs, sentLens)
    {
      var length := sentLens[j];
      ChunkStep(pairs, plan, count, sentLens, j);
      var sentTriplets := Zip(flatPerm[count..count + length], flips[count..count + length]);
      assert sentTriplets == pairs[count..count + length] by {
        ZipSlice(flatPerm, flips, count, count + length);
      }
      plan := plan + [sentTriplets];
      count := count + length;
      j := j + 1;
    }
    assert Chunk(pairs[count..], sentLens[j..]) == [];
  }

  lemma ChunkStep<T>(xs: seq<T>, plan: seq<seq<T>>, count: nat, lens: seq<nat>, j: nat)
    requires j < |lens| && count + Sum(lens[j..]) == |xs| && Sum(lens) == |xs|
    requires plan + Chunk(xs[count..], lens[j..]) == Chunk(xs, lens)
    ensures count + lens[j] + Sum(lens[j + 1..]) == |xs|
    ensures (plan + [xs[count..count + lens[j]]]) + Chunk(xs[count + lens[j]..], lens[j + 1..])
      == Chunk(xs, lens)
  {
    assert lens[j..][1..] == lens[j + 1..];
    assert xs[count..][..lens[j]] == xs[count..count + lens[j]];
    assert xs[count..][lens[j]..] == xs[count + lens[j]..];
    assert Chunk(xs[count..], lens[j..])
      == [xs[count..count + lens[j]]] + Chunk(xs[count + lens[j]..], lens[j + 1..]);
  }

  lemma ZipSlice<A, B>(a: seq<A>, b: seq<B>, lo: nat, hi: nat)
    requires |a| == |b| && lo <= hi <= |a|
    ensures Zip(a[lo..hi], b[lo..hi]) == Zip(a, b)[lo..hi]
  {
    forall i | 0 <= i < hi - lo
      ensures Zip(a[lo..hi], b[lo..hi])[i] == Zip(a, b)[lo..hi][i]
    {
      ZipAt(a[lo..hi], b[lo..hi], i);
      ZipAt(a, b, lo + i);
    }
  }

  /** `flow_hints_permutations(plan)` collected into a list: one plan per
      flip variant, each cut back into the input's sentence lengths. */
  method FlowHintsPermutations(plan: seq<seq<string>>) returns (r: Option<seq<FlowPlan>>)
    ensures r.Some? <==> forall i :: 0 <= i < |Flatten(plan)| ==> Flippable(Flatten(plan)[i])
    ensures r.Some? ==> Perms(Flatten(plan)).Some?
    ensures r.Some? ==> |r.value| == |Perms(Flatten(plan)).value| == Pow2(|Flatten(plan)|)
    ensures r.Some? ==> forall k :: 0 <= k < |r.value| ==>
      && |r.value[k]| == |plan|
      && (forall j :: 0 <= j < |plan| ==> |r.value[k][j]| == |plan[j]|)
      && Flatten(r.value[k]) == Zip(Perms(Flatten(plan)).value[k].perm,
                                    Perms(Flatten(plan)).value[k].flips)
    ensures r.Some? ==> r.value[0] == Unflipped(plan)
  {
    var sentLens := seq(|plan|, j requires 0 <= j < |plan| => |plan[j]|);
    var flatTripleset := Flatten(plan);
    SumOfLengths(plan, sentLens);
    var variants := Perms(flatTripleset);
    if variants.None? {
      PermsDefined(flatTripleset);
      return None;
    }
    var vs := variants.value;
    PermsLengths(flatTripleset);
    var plans := RechunkAll(vs, sentLens);
    PermsCount(flatTripleset);
    ChunkedVariants(plan, sentLens, vs, plans);
    PermsDefined(flatTripleset);
    r := Some(plans);
  }

  /** The outer loop of `flow_hints_permutations` (lines 32-40): one
      re-chunked plan per variant, in the enumeration's order. */
  method RechunkAll(vs: seq<Variant>, sentLens: seq<nat>) returns (plans: seq<FlowPlan>)
    requires forall k :: 0 <= k < |vs| ==> |vs[k].perm| == |vs[k].flips| == Sum(sentLens)
    ensures |plans| == |vs|
    ensures forall k :: 0 <= k < |vs| ==> plans[k] == Chunk(Zip(vs[k].perm, vs[k].flips), sentLens)
  {
    plans := [];
    var k := 0;
    while k < |vs|
      invariant 0 <= k <= |vs|
      invariant |plans| == k
      invariant forall m :: 0 <= m < k ==> plans[m] == Chunk(Zip(vs[m].perm, vs[m].flips), sentLens)
    {
      var p := Rechunk(vs[k].perm, vs[k].flips, sentLens);
      plans := plans + [p];
      k := k + 1;
    }
  }

  /** Every variant has the input's length. */
  lemma PermsLengths(ts: seq<string>)
    requires Perms(ts).Some?
    ensures forall k :: 0 <= k < |Perms(ts).value| ==>
      |Perms(ts).value[k].perm| == |ts| && |Perms(ts).value[k].flips| == |ts|
  {
    forall k | 0 <= k < |Perms(ts).value|
      ensures |Perms(ts).value[k].perm| == |ts| && |Perms(ts).value[k].flips| == |ts|
    {
      PermsAt(ts, k);
    }
  }

  lemma ChunkedVariants(plan: seq<seq<string>>, lens: seq<nat>, vs: seq<Variant>, plans: seq<FlowPlan>)
    requires |lens| == |plan| && forall j :: 0 <= j < |plan| ==> lens[j] == |plan[j]|
    requires Perms(Flatten(plan)) == Some(vs)
    requires forall k :: 0 <= k < |vs| ==>
      |vs[k].perm| == |Flatten(plan)| && |vs[k].flips| == |Flatten(plan)|
    requires Sum(lens) == |Flatten(plan)| && |plans| == |vs|
    requires forall k :: 0 <= k < |vs| ==> plans[k] == Chunk(Zip(vs[k].perm, vs[k].flips), lens)
    ensures forall k :: 0 <= k < |plans| ==>
      && |plans[k]| == |plan|
      && (forall j :: 0 <= j < |plan| ==> |plans[k][j]| == |plan[j]|)
      && Flatten(plans[k]) == Zip(vs[k].perm, vs[k].flips)
    ensures |plans| > 0 && plans[0] == Unflipped(plan)
  {
    forall k | 0 <= k < |plans|
      ensures |plans[k]| == |plan|
      ensures forall j :: 0 <= j < |plan| ==> |plans[k][j]| == |plan[j]|
      ensures Flatten(plans[k]) == Zip(vs[k].perm, vs[k].flips)
    {
      FlattenChunk(Zip(vs[k].perm, vs[k].flips), lens);
      ChunkShape(Zip(vs[k].perm, vs[k].flips), lens);
    }
    PermsFirst(Flatten(plan));
    UnflippedChunks(plan, lens);
  }

  /** The plan every triple of which is marked as not flipped. */
  function Unflipped(plan: seq<seq<string>>): FlowPlan {
    seq(|plan|, j requires 0 <= j < |plan| => seq(|plan[j]|, i requires 0 <= i < |plan[j]| => (plan[j][i], false)))
  }

  lemma {:induction false} SumOfLengths(plan: seq<seq<string>>, lens: seq<nat>)
    requires |lens| == |plan| && forall j :: 0 <= j < |plan| ==> lens[j] == |plan[j]|
    ensures Sum(lens) == |Flatten(plan)|
  {
    if plan != [] {
      SumOfLengths(plan[1..], lens[1..]);
    }
  }

  lemma {:induction false} UnflippedChunks(plan: seq<seq<string>>, lens: seq<nat>)
    requires |lens| == |plan| && forall j :: 0 <= j < |plan| ==> lens[j] == |plan[j]|
    ensures Sum(lens) == |Flatten(plan)|
    ensures Chunk(Zip(Flatten(plan), seq(|Flatten(plan)|, i => false)), lens) == Unflipped(plan)
  {
    SumOfLengths(plan, lens);
    if plan != [] {
      UnflippedChunks(plan[1..], lens[1..]);
      var flat := Flatten(plan);
      var pairs := Zip(flat, seq(|flat|, i => false));
      var tailFlat := Flatten(plan[1..]);
      var tailPairs := Zip(tailFlat, seq(|tailFlat|, i => false));
      forall i | 0 <= i < |pairs|
        ensures pairs[i] == (flat[i], false)
      {
        ZipAt(flat, seq(|flat|, i => false), i);
      }
      forall i | 0 <= i < |tailPairs|
        ensures tailPairs[i] == (tailFlat[i], false)
      {
        ZipAt(tailFlat, seq(|tailFlat|, i => false), i);
      }
      assert flat == plan[0] + tailFlat;
      assert pairs[..lens[0]] == Unflipped(plan)[0];
      assert pairs[lens[0]..] == tailPairs;
      assert Unflipped(plan)[1..] == Unflipped(plan[1..]);
    }
  }
}
