/** Scoring realizations against references (EvalOracle.py): the object
    form of the plan encoding, the best score of an entry, and the grouping
    of a flat list of generations back into entries by their ids. */
module EvalOracle {
  import opened Wrappers
  import opened Builtins
  import opened DatasetReader
  import opened DatasetGenerator
  import opened Preprocess

  // ----- encode_plan -----

  /** The triple encoder of `encode_plan`, which cannot fail. */
  function ObjectTriple(t: FlowTriple): Option<string> {
    Some(EncodeTripleObject(t))
  }

  /** `encode_plan`. */
  method EncodePlan(flowtripleset: seq<seq<FlowTriple>>) returns (r: string)
    ensures Linearise(flowtripleset, ObjectTriple) == Some(r)
  {
    var enc := "";
    var j := 0;
    while j < |flowtripleset|
      invariant 0 <= j <= |flowtripleset|
      invariant PlanText(flowtripleset[..j], ObjectTriple) == Some(enc)
    {
      enc := enc + "<sentence> ";
      var st := EncodeObjectSentence(flowtripleset[j]);
      enc := enc + st;
      PlanStep(flowtripleset, ObjectTriple, j);
      j := j + 1;
    }
    assert flowtripleset[..j] == flowtripleset;
    r := RStrip(enc);
  }

  /** The inner loop of `encode_plan` (lines 13-14). */
  method EncodeObjectSentence(sent: seq<FlowTriple>) returns (r: string)
    ensures SentenceText(sent, ObjectTriple) == Some(r)
  {
    r := "";
    var i := 0;
    while i < |sent|
      invariant 0 <= i <= |sent|
      invariant SentenceText(sent[..i], ObjectTriple) == Some(r)
    {
      SentenceStep(sent, ObjectTriple, i);
      r := r + EncodeTripleObject(sent[i]) + " ";
      i := i + 1;
    }
    assert sent[..i] == sent;
  }

  /** The lines `refine_xml` would write for a plan of objects. */
  function Lines(p: seq<seq<FlowTriple>>): FlowPlan {
    seq(|p|, j requires 0 <= j < |p| =>
      seq(|p[j]|, i requires 0 <= i < |p[j]| =>
        (Join3(p[j][i].first, p[j][i].pred, p[j][i].second), p[j][i].flipped)))
  }

  /** `encode_plan` produces what `string_encode_plan` produces for the
      plan's lines, when the fields split back cleanly. */
  lemma EncodePlanAsStringPlan(p: seq<seq<FlowTriple>>)
    requires forall j, i :: 0 <= j < |p| && 0 <= i < |p[j]| ==>
      Clean(p[j][i].first) && Clean(p[j][i].pred) && !Contains(p[j][i].second, Sep)
    ensures Linearise(p, ObjectTriple) == Linearise(Lines(p), LineTriple)
  {
    var q := Lines(p);
    forall j, i | 0 <= j < |p| && 0 <= i < |p[j]|
      ensures ObjectTriple(p[j][i]) == LineTriple(q[j][i])
    {
      EncodeObjectAsLine(p[j][i]);
    }
    LineariseRespects(p, ObjectTriple, q, LineTriple);
  }

  /** `encode_plan` ignores the `flipped` field. */
  lemma EncodePlanIgnoresFlipped(p: seq<seq<FlowTriple>>, q: seq<seq<FlowTriple>>)
    requires |p| == |q|
    requires forall j :: 0 <= j < |p| ==> |p[j]| == |q[j]|
    requires forall j, i :: 0 <= j < |p| && 0 <= i < |p[j]| ==>
      p[j][i].first == q[j][i].first && p[j][i].pred == q[j][i].pred && p[j][i].second == q[j][i].second
    ensures Linearise(p, ObjectTriple) == Linearise(q, ObjectTriple)
  {
    LineariseRespects(p, ObjectTriple, q, ObjectTriple);
  }

  // ----- entry_bleu -----

  function MaxOf(s: seq<real>): (m: real)
    requires |s| > 0
    ensures m in s
    ensures forall i :: 0 <= i < |s| ==> s[i] <= m
  {
    if |s| == 1 then s[0]
    else
      var rest := MaxOf(s[1..]);
      assert forall i :: 1 <= i < |s| ==> s[i] == s[1..][i - 1];
      if s[0] >= rest then s[0] else rest
  }

  /** `refs_ = [[r] for r in refs]`. */
  function RefStreams(refs: seq<string>): seq<seq<string>> {
    seq(|refs|, i requires 0 <= i < |refs| => [refs[i]])
  }

  /** `entry_bleu`: the best score of the entry's generations against all
      its references; `max` of an empty list raises ValueError. */
  function EntryBleu(gens: seq<string>, refs: seq<string>, bleu: Scorer): (r: Result<real>)
    ensures r.Ok? <==> |gens| > 0
    ensures r.Ok? ==> exists i :: 0 <= i < |gens| && r.value == bleu(gens[i], RefStreams(refs))
    ensures r.Ok? ==> forall i :: 0 <= i < |gens| ==> bleu(gens[i], RefStreams(refs)) <= r.value
  {
    if |gens| == 0 then Err(ValueError)
    else
      var bleus := seq(|gens|, i requires 0 <= i < |gens| => bleu(gens[i], RefStreams(refs)));
      var m := MaxOf(bleus);
      assert forall i :: 0 <= i < |gens| ==> bleus[i] == bleu(gens[i], RefStreams(refs));
      assert exists i :: 0 <= i < |bleus| && m == bleus[i];
      Ok(m)
  }

  // ----- subset_bleus -----

  /** The maximal runs of equal consecutive ids among the first n, applied
      to a list parallel to the ids: a new run starts after position i
      exactly when `ids[i] != ids[i + 1]`. */
  function Groups<T>(xs: seq<T>, ids: seq<int>, n: nat): (g: seq<seq<T>>)
    requires 0 < n <= |xs| && (n == 1 || n <= |ids|)
    ensures |g| >= 1
  {
    if n == 1 then [[xs[0]]]
    else
      var g := Groups(xs, ids, n - 1);
      if ids[n - 2] == ids[n - 1] then g[..|g| - 1] + [g[|g| - 1] + [xs[n - 1]]]
      else g + [[xs[n - 1]]]
  }

  /** The pending groups plus the current one, if it has started. */
  function Close<T>(entries: seq<seq<T>>, cur: seq<T>): seq<seq<T>> {
    if cur == [] then entries else entries + [cur]
  }

  /** The references `subset_bleus` reads: `refs[i]` for every position
      but the last, which reads `refs[-1]`. */
  function RefsRead(n: nat, refs: seq<string>): (read: seq<string>)
    requires 1 <= n && 1 <= |refs| && n - 1 <= |refs|
    ensures |read| == n && read[..n - 1] == refs[..n - 1] && read[n - 1] == refs[|refs| - 1]
  {
    refs[..n - 1] + [refs[|refs| - 1]]
  }

  /** When `subset_bleus` runs without an IndexError. */
  predicate SubsetBleusDefined(gens: seq<string>, refs: seq<string>, ids: seq<int>) {
    |gens| >= 1 && |refs| >= 1 && (|gens| == 1 || (|refs| >= |gens| - 1 && |ids| >= |gens|))
  }

  /** `subset_bleus`: one score per maximal run of equal consecutive ids.
      An empty `gens` raises IndexError at `gens[-1]`, as do `refs` or `ids`
      too short for the indices the loop reads. */
  method SubsetBleus(gens: seq<string>, refs: seq<string>, ids: seq<int>, bleu: Scorer)
    returns (r: Result<seq<real>>)
    ensures r.Ok? <==> SubsetBleusDefined(gens, refs, ids)
    ensures r.Err? ==> r.error == IndexError
    ensures r.Ok? ==>
      var gg := Groups(gens, ids, |gens|);
      var rg := Groups(RefsRead(|gens|, refs), ids, |gens|);
      && |r.value| == |gg| == |rg|
      && forall k :: 0 <= k < |gg| ==> EntryBleu(gg[k], rg[k], bleu) == Ok(r.value[k])
  {
    var entries := GroupEntries(gens, refs, ids);
    if entries.Err? {
      return Err(entries.error);
    }
    var (gensEntries, refsEntries) := entries.value;
    GroupsSameShape(gens, RefsRead(|gens|, refs), ids, |gens|);
    GroupsNonEmpty(gens, ids, |gens|);
    var bleus: seq<real> := [];
    for k := 0 to |gensEntries|
      invariant |bleus| == k
      invariant forall m :: 0 <= m < k ==> EntryBleu(gensEntries[m], refsEntries[m], bleu) == Ok(bleus[m])
    {
      var b := EntryBleu(gensEntries[k], refsEntries[k], bleu);
      bleus := bleus + [b.value];
    }
    r := Ok(bleus);
  }

  /** Lines 39-57 of `subset_bleus`: `gens` and `refs` cut into
      `gens_entries` and `refs_entries` by the loop, then the last lex
      entry, which reads `gens[-1]` and `refs[-1]`. */
  method GroupEntries(gens: seq<string>, refs: seq<string>, ids: seq<int>)
    returns (r: Result<(seq<seq<string>>, seq<seq<string>>)>)
    ensures r.Ok? <==> SubsetBleusDefined(gens, refs, ids)
    ensures r.Err? ==> r.error == IndexError
    ensures r.Ok? ==> r.value == (Groups(gens, ids, |gens|), Groups(RefsRead(|gens|, refs), ids, |gens|))
  {
    if |gens| == 0 {
      return Err(IndexError);
    }
    var n := |gens|;
    var ok, gensEntries, curGens, refsEntries, curRefs := CutRuns(gens, refs, ids);
    if !ok || |refs| == 0 {
      return Err(IndexError);
    }
    LastEntry(gens, refs, ids, gensEntries, curGens, refsEntries, curRefs);
    curGens := curGens + [gens[n - 1]];
    curRefs := curRefs + [refs[|refs| - 1]];
    gensEntries := gensEntries + [curGens];
    refsEntries := refsEntries + [curRefs];
    r := Ok((gensEntries, refsEntries));
  }

  /** Lines 44-51 of `subset_bleus`: the loop over all positions but the
      last. It reads `refs[i]` and `ids[i + 1]`, so it stops with an
      IndexError exactly when one of them is too short; otherwise it ends
      with the groups of all but the last generation and reference. */
  method CutRuns(gens: seq<string>, refs: seq<string>, ids: seq<int>)
    returns (ok: bool, gensEntries: seq<seq<string>>, curGens: seq<string>,
             refsEntries: seq<seq<string>>, curRefs: seq<string>)
    requires |gens| >= 1
    ensures !ok <==> |gens| >= 2 && (|refs| < |gens| - 1 || |ids| < |gens|)
    ensures ok ==> Pending(gens, ids, |gens| - 1, gensEntries, curGens)
    ensures ok ==> Pending(refs, ids, |gens| - 1, refsEntries, curRefs)
  {
    var n := |gens|;
    gensEntries, refsEntries, curGens, curRefs := [], [], [], [];
    var i := 0;
    while i < n - 1
      invariant 0 <= i <= n - 1 && i <= |refs|
      invariant Pending(gens, ids, i, gensEntries, curGens)
      invariant Pending(refs, ids, i, refsEntries, curRefs)
    {
      if i >= |refs| || i + 1 >= |ids| {
        return false, gensEntries, curGens, refsEntries, curRefs;
      }
      gensEntries, curGens := Push(gens, ids, i, gensEntries, curGens);
      refsEntries, curRefs := Push(refs, ids, i, refsEntries, curRefs);
      i := i + 1;
    }
    ok := true;
  }

  /** Adding the last generation and `refs[-1]` to the state the loop
      ends in gives the groups of the generations and of the references
      read. */
  lemma LastEntry(gens: seq<string>, refs: seq<string>, ids: seq<int>,
                  gensEntries: seq<seq<string>>, curGens: seq<string>,
                  refsEntries: seq<seq<string>>, curRefs: seq<string>)
    requires |gens| >= 1 && |refs| >= 1
    requires Pending(gens, ids, |gens| - 1, gensEntries, curGens)
    requires Pending(refs, ids, |gens| - 1, refsEntries, curRefs)
    ensures gensEntries + [curGens + [gens[|gens| - 1]]] == Groups(gens, ids, |gens|)
    ensures refsEntries + [curRefs + [refs[|refs| - 1]]] == Groups(RefsRead(|gens|, refs), ids, |gens|)
  {
    Extend(gens, ids, |gens| - 1, gensEntries, curGens);
    LastReference(refs, ids, |gens|, refsEntries, curRefs);
  }

  lemma LastReference(refs: seq<string>, ids: seq<int>, n: nat, entries: seq<seq<string>>, cur: seq<string>)
    requires 1 <= n && |refs| >= 1 && n - 1 <= |refs|
    requires Pending(refs, ids, n - 1, entries, cur)
    ensures entries + [cur + [refs[|refs| - 1]]] == Groups(RefsRead(n, refs), ids, n)
  {
    var read := RefsRead(n, refs);
    PendingAgree(refs, read, ids, n - 1, entries, cur);
    Extend(read, ids, n - 1, entries, cur);
  }

  /** The state of the loop of `subset_bleus` after reading the first i
      elements of `xs`: the closed groups and the current one together are
      the grouping of those elements, and the current one is empty exactly
      when a new group starts at i. */
  ghost predicate Pending<T>(xs: seq<T>, ids: seq<int>, i: nat, entries: seq<seq<T>>, cur: seq<T>) {
    && i <= |xs|
    && (i == 0 ==> entries == [] && cur == [])
    && (i > 0 ==> i < |ids| && (cur == [] <==> ids[i - 1] != ids[i]) && Close(entries, cur) == Groups(xs, ids, i))
  }

  /** Appending `xs[i]` to the current group extends the grouping of the
      first i elements to the first i + 1. */
  lemma Extend<T>(xs: seq<T>, ids: seq<int>, i: nat, entries: seq<seq<T>>, cur: seq<T>)
    requires i < |xs| && Pending(xs, ids, i, entries, cur)
    ensures entries + [cur + [xs[i]]] == Groups(xs, ids, i + 1)
  {
    if i > 0 {
      var g := Groups(xs, ids, i);
      if cur != [] {
        assert g == entries + [cur];
        assert g[..|g| - 1] == entries && g[|g| - 1] == cur;
      } else {
        assert g == entries && cur + [xs[i]] == [xs[i]];
      }
    } else {
      assert cur + [xs[i]] == [xs[0]];
    }
  }

  /** One iteration of the loop of `subset_bleus` for one of its lists:
      `xs[i]` joins the current group, which is closed when the next id
      differs. The loop state is kept. */
  method Push(xs: seq<string>, ids: seq<int>, i: nat, entries: seq<seq<string>>, cur: seq<string>)
    returns (entries': seq<seq<string>>, cur': seq<string>)
    requires i < |xs| && i + 1 < |ids| && Pending(xs, ids, i, entries, cur)
    ensures Pending(xs, ids, i + 1, entries', cur')
  {
    Extend(xs, ids, i, entries, cur);
    cur' := cur + [xs[i]];
    entries' := entries;
    if ids[i] != ids[i + 1] {
      entries' := entries + [cur'];
      cur' := [];
    }
  }

  /** The loop state depends only on the elements read so far. */
  lemma PendingAgree<T>(xs: seq<T>, ys: seq<T>, ids: seq<int>, i: nat, entries: seq<seq<T>>, cur: seq<T>)
    requires Pending(xs, ids, i, entries, cur) && i <= |ys| && xs[..i] == ys[..i]
    ensures Pending(ys, ids, i, entries, cur)
  {
    if i > 0 {
      GroupsAgree(xs, ys, ids, i);
    }
  }

  /** The grouping of the first n elements reads only those. */
  lemma {:induction false} GroupsAgree<T>(xs: seq<T>, ys: seq<T>, ids: seq<int>, n: nat)
    requires 0 < n <= |xs| && n <= |ys| && (n == 1 || n <= |ids|)
    requires xs[..n] == ys[..n]
    ensures Groups(xs, ids, n) == Groups(ys, ids, n)
  {
    assert xs[n - 1] == xs[..n][n - 1];
    if n > 1 {
      assert xs[..n - 1] == xs[..n][..n - 1];
      assert ys[..n - 1] == ys[..n][..n - 1];
      GroupsAgree(xs, ys, ids, n - 1);
    }
  }

  lemma FlattenSnoc<T>(a: seq<seq<T>>, b: seq<T>)
    ensures Flatten(a + [b]) == Flatten(a) + b
  {
    if a != [] {
      assert (a + [b])[1..] == a[1..] + [b];
      FlattenSnoc(a[1..], b);
    } else {
      assert [b][1..] == [];
    }
  }

  /** One merge or one new group adds one element at the end of the
      concatenation. */
  lemma FlattenPush<T>(g: seq<seq<T>>, x: T, merge: bool, h: seq<seq<T>>)
    requires |g| >= 1
    requires h == if merge then g[..|g| - 1] + [g[|g| - 1] + [x]] else g + [[x]]
    ensures Flatten(h) == Flatten(g) + [x]
  {
    if merge {
      var front, last := g[..|g| - 1], g[|g| - 1];
      assert g == front + [last];
      FlattenSnoc(front, last);
      FlattenSnoc(front, last + [x]);
      assert Flatten(front) + (last + [x]) == (Flatten(front) + last) + [x];
    } else {
      FlattenSnoc(g, [x]);
    }
  }

  /** Concatenating the groups gives the list back, in order. */
  lemma {:induction false} GroupsFlatten<T>(xs: seq<T>, ids: seq<int>, n: nat)
    requires 0 < n <= |xs| && (n == 1 || n <= |ids|)
    ensures Flatten(Groups(xs, ids, n)) == xs[..n]
  {
    if n == 1 {
      assert [[xs[0]]][1..] == [];
      assert xs[..1] == [xs[0]];
    } else {
      var g := Groups(xs, ids, n - 1);
      var merge := ids[n - 2] == ids[n - 1];
      GroupsFlatten(xs, ids, n - 1);
      FlattenPush(g, xs[n - 1], merge, Groups(xs, ids, n));
      assert xs[..n - 1] + [xs[n - 1]] == xs[..n];
    }
  }


  /** No group is empty. */
  lemma {:induction false} GroupsNonEmpty<T>(xs: seq<T>, ids: seq<int>, n: nat)
    requires 0 < n <= |xs| && (n == 1 || n <= |ids|)
    ensures forall k :: 0 <= k < |Groups(xs, ids, n)| ==> |Groups(xs, ids, n)[k]| > 0
  {
    if n > 1 {
      GroupsNonEmpty(xs, ids, n - 1);
    }
  }

  /** The grouping depends only on the ids: lists of equal length are cut
      into groups of the same lengths, so the gens group and the refs group
      at each index line up. */
  lemma {:induction false} GroupsSameShape<A, B>(xs: seq<A>, ys: seq<B>, ids: seq<int>, n: nat)
    requires 0 < n <= |xs| && n <= |ys| && (n == 1 || n <= |ids|)
    ensures |Groups(xs, ids, n)| == |Groups(ys, ids, n)|
    ensures forall k :: 0 <= k < |Groups(xs, ids, n)| ==> |Groups(xs, ids, n)[k]| == |Groups(ys, ids, n)[k]|
  {
    if n > 1 {
      GroupsSameShape(xs, ys, ids, n - 1);
    }
  }

  /** A new group starts after position i. */
  predicate BreakAfter(ids: seq<int>, i: nat)
    requires i + 1 < |ids|
  {
    ids[i] != ids[i + 1]
  }

  /** The positions, among the first n, after which a new group starts. */
  function Breaks(ids: seq<int>, n: nat): set<nat>
    requires n <= |ids|
  {
    set i: nat | i + 1 < n && BreakAfter(ids, i)
  }

  /** There is one group more than there are neighbouring ids that differ. */
  lemma {:induction false} GroupsCount<T>(xs: seq<T>, ids: seq<int>, n: nat)
    requires 0 < n <= |xs| && n <= |ids|
    ensures |Groups(xs, ids, n)| == 1 + |Breaks(ids, n)|
  {
    if n == 1 {
      assert Breaks(ids, 1) == {};
    } else {
      GroupsCount(xs, ids, n - 1);
      if ids[n - 2] == ids[n - 1] {
        assert Breaks(ids, n) == Breaks(ids, n - 1);
      } else {
        assert Breaks(ids, n) == Breaks(ids, n - 1) + {n - 2};
      }
    }
  }

  /** The groups of the ids themselves are runs of one id each, and two
      neighbouring runs hold different ids: the runs are maximal. */
  lemma {:induction false} GroupsAreMaximalRuns(ids: seq<int>, n: nat)
    requires 0 < n <= |ids|
    ensures var g := Groups(ids, ids, n);
      && (forall k :: 0 <= k < |g| ==> |g[k]| > 0)
      && (forall k, a :: 0 <= k < |g| && 0 <= a < |g[k]| ==> g[k][a] == g[k][0])
      && (forall k :: 0 <= k < |g| - 1 ==> g[k][0] != g[k + 1][0])
      && g[|g| - 1][0] == ids[n - 1]
  {
    GroupsNonEmpty(ids, ids, n);
    if n > 1 {
      GroupsAreMaximalRuns(ids, n - 1);
      var h := Groups(ids, ids, n - 1);
      if ids[n - 2] == ids[n - 1] {
        MergeKeepsRuns(h, ids[n - 1]);
      } else {
        NewRunKeepsRuns(h, ids[n - 1]);
      }
    }
  }

  lemma MergeKeepsRuns(h: seq<seq<int>>, x: int)
    requires |h| >= 1 && forall k :: 0 <= k < |h| ==> |h[k]| > 0
    requires forall k, a :: 0 <= k < |h| && 0 <= a < |h[k]| ==> h[k][a] == h[k][0]
    requires forall k :: 0 <= k < |h| - 1 ==> h[k][0] != h[k + 1][0]
    requires h[|h| - 1][0] == x
    ensures var g := h[..|h| - 1] + [h[|h| - 1] + [x]];
      && (forall k, a :: 0 <= k < |g| && 0 <= a < |g[k]| ==> g[k][a] == g[k][0])
      && (forall k :: 0 <= k < |g| - 1 ==> g[k][0] != g[k + 1][0])
      && g[|g| - 1][0] == x
  {
    var g := h[..|h| - 1] + [h[|h| - 1] + [x]];
    assert forall k :: 0 <= k < |h| - 1 ==> g[k] == h[k];
    assert g[|g| - 1] == h[|h| - 1] + [x];
  }

  lemma NewRunKeepsRuns(h: seq<seq<int>>, x: int)
    requires |h| >= 1 && forall k :: 0 <= k < |h| ==> |h[k]| > 0
    requires forall k, a :: 0 <= k < |h| && 0 <= a < |h[k]| ==> h[k][a] == h[k][0]
    requires forall k :: 0 <= k < |h| - 1 ==> h[k][0] != h[k + 1][0]
    requires h[|h| - 1][0] != x
    ensures var g := h + [[x]];
      && (forall k, a :: 0 <= k < |g| && 0 <= a < |g[k]| ==> g[k][a] == g[k][0])
      && (forall k :: 0 <= k < |g| - 1 ==> g[k][0] != g[k + 1][0])
      && g[|g| - 1][0] == x
  {
  }

  /** Only neighbours are compared: generations with ids 7, 8, 7 form three
      groups, and the two of entry 7 are scored separately. */
  lemma NonAdjacentIdsSeparate()
    ensures Groups(["g1", "g2", "g3"], [7, 8, 7], 3) == [["g1"], ["g2"], ["g3"]]
  {
  }

  /** With one reference per generation, as `__main__` passes them, the
      references read are the references. */
  lemma RefsReadAll(refs: seq<string>)
    requires |refs| >= 1
    ensures RefsRead(|refs|, refs) == refs
  {
  }
}
