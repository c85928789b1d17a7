/** Linearising plans for the realizer and choosing the best plan by its
    realization's score (Preprocess.py). */
module Preprocess {
  import opened Wrappers
  import opened Builtins
  import opened DatasetReader
  import opened DatasetGenerator

  /** A BLEU scorer, `corpus_bleu(hypothesis, references).score`, left
      uninterpreted. */
  type Scorer = (string, seq<seq<string>>) -> real

  // ----- triples -----

  /** `encode_triple_string`: None where `comps[1]` or `comps[2]` raises
      IndexError, that is where the line has fewer than three fields. */
  function EncodeTripleString(triple: string): Option<string> {
    var comps := Split(triple, Sep);
    if |comps| < 3 then None
    else Some("<S> " + comps[0] + " <P> " + comps[1] + " <O> " + comps[2])
  }

  /** `encode_triple_object`. */
  function EncodeTripleObject(t: FlowTriple): string {
    "<S> " + t.first + " <P> " + t.pred + " <O> " + t.second
  }

  /** `encode_triple_string("s | p | o")` is `"<S> s <P> p <O> o"`. */
  lemma EncodeTripleOfLine(s: string, p: string, o: string)
    requires Clean(s) && Clean(p) && !Contains(o, Sep)
    ensures EncodeTripleString(Join3(s, p, o)) == Some("<S> " + s + " <P> " + p + " <O> " + o)
  {
    SplitJoin3(s, p, o);
  }

  /** The two triple encoders agree on an object and its line. */
  lemma EncodeObjectAsLine(t: FlowTriple)
    requires Clean(t.first) && Clean(t.pred) && !Contains(t.second, Sep)
    ensures EncodeTripleString(Join3(t.first, t.pred, t.second)) == Some(EncodeTripleObject(t))
  {
    EncodeTripleOfLine(t.first, t.pred, t.second);
  }

  /** Fields without `" | "` are not enough for that agreement: a subject
      that ends in a blank and a bar is cut one character early, whatever
      the predicate and the object are. */
  lemma EncodersDisagreeOnTrailingBar(t: FlowTriple, u: string)
    requires Clean(u) && t.first == u + " |"
    ensures !Contains(t.first, Sep)
    ensures EncodeTripleString(Join3(t.first, t.pred, t.second)) != Some(EncodeTripleObject(t))
  {
    TrailingBarIsFree(u);
    var rest := "| " + t.pred + Sep + t.second;
    assert Join3(t.first, t.pred, t.second) == u + Sep + rest;
    SplitPastCleanField(u, rest);
    var comps := Split(Join3(t.first, t.pred, t.second), Sep);
    assert comps[0] == u;
    if |comps| >= 3 {
      SubjectCut(u, comps[1], comps[2], t.pred, t.second);
    }
  }

  /** Right after a subject `u`, the string encoding continues with
      `" <P> "` while the object encoding of `u + " |"` continues with the bar. */
  lemma SubjectCut(u: string, p: string, o: string, p': string, o': string)
    ensures ("<S> " + u + " <P> " + p + " <O> " + o)[|u| + 5] == '<'
    ensures ("<S> " + (u + " |") + " <P> " + p' + " <O> " + o')[|u| + 5] == '|'
  {
    assert "<S> " + u + " <P> " + p + " <O> " + o == ("<S> " + u) + (" <P> " + p + " <O> " + o);
    assert "<S> " + (u + " |") + " <P> " + p' + " <O> " + o' == ("<S> " + u) + (" |" + " <P> " + p' + " <O> " + o');
  }

  /** Appending a blank and a bar to a clean field adds no separator. */
  lemma TrailingBarIsFree(u: string)
    requires Clean(u)
    ensures !Contains(u + " |", Sep)
  {
    var v := u + " |";
    forall i: nat
      ensures !OccursAt(v, Sep, i)
    {
      if i + 3 <= |u| {
        assert v[i..i + 3] == u[i..i + 3];
        assert !OccursAt(u, Sep, i);
      } else if i + 1 == |u| {
        assert v[i + 1] == ' ' && Sep[1] == '|';
      } else if i + 2 == |u| {
        assert u[|u| - 2..] == [v[i], v[i + 1]];
      }
    }
  }

  // ----- plans -----

  /** The text a sentence adds after its `'<sentence> '`: each triple's
      encoding followed by a blank; None once one triple cannot be encoded. */
  function SentenceText<T>(sent: seq<T>, enc: T -> Option<string>): Option<string> {
    if sent == [] then Some("")
    else
      var pre :- SentenceText(sent[..|sent| - 1], enc);
      var e :- enc(sent[|sent| - 1]);
      Some(pre + e + " ")
  }

  /** The accumulator `enc` after the loops over all sentences. */
  function PlanText<T>(plan: seq<seq<T>>, enc: T -> Option<string>): Option<string> {
    if plan == [] then Some("")
    else
      var pre :- PlanText(plan[..|plan| - 1], enc);
      var s :- SentenceText(plan[|plan| - 1], enc);
      Some(pre + "<sentence> " + s)
  }

  /** `enc.rstrip()` of the accumulated text. */
  function Linearise<T>(plan: seq<seq<T>>, enc: T -> Option<string>): Option<string> {
    var t :- PlanText(plan, enc);
    Some(RStrip(t))
  }

  /** The triple encoder of `string_encode_plan`: the line only, not the flag. */
  function LineTriple(t: (string, bool)): Option<string> {
    EncodeTripleString(t.0)
  }

  /** `string_encode_plan`. */
  method StringEncodePlan(plan: FlowPlan) returns (r: Option<string>)
    ensures r == Linearise(plan, LineTriple)
  {
    var enc := "";
    var j := 0;
    while j < |plan|
      invariant 0 <= j <= |plan|
      invariant PlanText(plan[..j], LineTriple) == Some(enc)
    {
      enc := enc + "<sentence> ";
      var st := EncodeSentence(plan[j]);
      if st.None? {
        PlanTextStops(plan, LineTriple, j);
        return None;
      }
      enc := enc + st.value;
      PlanStep(plan, LineTriple, j);
      j := j + 1;
    }
    assert plan[..j] == plan;
    r := Some(RStrip(enc));
  }

  /** The inner loop of `string_encode_plan` (lines 17-18): what one
      sentence appends after its `'<sentence> '`. */
  method EncodeSentence(sent: seq<(string, bool)>) returns (r: Option<string>)
    ensures r == SentenceText(sent, LineTriple)
  {
    var enc := "";
    var i := 0;
    while i < |sent|
      invariant 0 <= i <= |sent|
      invariant SentenceText(sent[..i], LineTriple) == Some(enc)
    {
      SentenceStep(sent, LineTriple, i);
      var e := EncodeTripleString(sent[i].0);
      if e.None? {
        SentenceTextStops(sent, LineTriple, i + 1);
        return None;
      }
      enc := enc + e.value + " ";
      i := i + 1;
    }
    assert sent[..i] == sent;
    r := Some(enc);
  }

  lemma SentenceStep<T>(sent: seq<T>, enc: T -> Option<string>, i: nat)
    requires i < |sent|
    ensures SentenceText(sent[..i + 1], enc) ==
      match SentenceText(sent[..i], enc)
      case None => None
      case Some(pre) => (match enc(sent[i]) case None => None case Some(e) => Some(pre + e + " "))
  {
    assert sent[..i + 1][..i] == sent[..i];
  }

  lemma PlanStep<T>(plan: seq<seq<T>>, enc: T -> Option<string>, j: nat)
    requires j < |plan|
    ensures PlanText(plan[..j + 1], enc) ==
      match PlanText(plan[..j], enc)
      case None => None
      case Some(pre) =>
        (match SentenceText(plan[j], enc) case None => None case Some(s) => Some(pre + "<sentence> " + s))
  {
    assert plan[..j + 1][..j] == plan[..j];
  }

  lemma {:induction false} SentenceTextStops<T>(sent: seq<T>, enc: T -> Option<string>, k: nat)
    requires k <= |sent| && SentenceText(sent[..k], enc).None?
    ensures SentenceText(sent, enc).None?
  {
    if k < |sent| {
      assert sent[..|sent| - 1][..k] == sent[..k];
      SentenceTextStops(sent[..|sent| - 1], enc, k);
    } else {
      assert sent[..k] == sent;
    }
  }

  /** A sentence that cannot be encoded makes the whole plan fail. */
  lemma {:induction false} PlanTextStops<T>(plan: seq<seq<T>>, enc: T -> Option<string>, j: nat)
    requires j < |plan| && SentenceText(plan[j], enc).None?
    ensures PlanText(plan, enc).None?
  {
    if j < |plan| - 1 {
      PlanTextStops(plan[..|plan| - 1], enc, j);
    }
  }

  /** The encoding exists exactly when every triple of the plan can be
      encoded. */
  lemma {:induction false} LineariseDefined<T>(plan: seq<seq<T>>, enc: T -> Option<string>)
    ensures Linearise(plan, enc).Some? <==>
      forall j, i :: 0 <= j < |plan| && 0 <= i < |plan[j]| ==> enc(plan[j][i]).Some?
  {
    if plan != [] {
      var init := plan[..|plan| - 1];
      LineariseDefined(init, enc);
      SentenceTextDefined(plan[|plan| - 1], enc);
      assert forall j :: 0 <= j < |init| ==> init[j] == plan[j];
    }
  }

  lemma {:induction false} SentenceTextDefined<T>(sent: seq<T>, enc: T -> Option<string>)
    ensures SentenceText(sent, enc).Some? <==> forall i :: 0 <= i < |sent| ==> enc(sent[i]).Some?
  {
    if sent != [] {
      var init := sent[..|sent| - 1];
      SentenceTextDefined(init, enc);
      assert forall i :: 0 <= i < |init| ==> init[i] == sent[i];
    }
  }

  /** Two plans of the same shape whose triples encode alike encode alike:
      the encoding sees a triple only through its encoder. */
  lemma {:induction false} LineariseRespects<A, B>(p: seq<seq<A>>, encA: A -> Option<string>,
                                                  q: seq<seq<B>>, encB: B -> Option<string>)
    requires |p| == |q|
    requires forall j :: 0 <= j < |p| ==> |p[j]| == |q[j]|
    requires forall j, i :: 0 <= j < |p| && 0 <= i < |p[j]| ==> encA(p[j][i]) == encB(q[j][i])
    ensures PlanText(p, encA) == PlanText(q, encB)
    ensures Linearise(p, encA) == Linearise(q, encB)
  {
    if p != [] {
      var n := |p| - 1;
      LineariseRespects(p[..n], encA, q[..n], encB);
      SentenceRespects(p[n], encA, q[n], encB);
    }
  }

  lemma {:induction false} SentenceRespects<A, B>(s: seq<A>, encA: A -> Option<string>,
                                                 t: seq<B>, encB: B -> Option<string>)
    requires |s| == |t|
    requires forall i :: 0 <= i < |s| ==> encA(s[i]) == encB(t[i])
    ensures SentenceText(s, encA) == SentenceText(t, encB)
  {
    if s != [] {
      SentenceRespects(s[..|s| - 1], encA, t[..|t| - 1], encB);
    }
  }

  /** `string_encode_plan` ignores the flip flags: plans that differ only in
      their boolean components encode identically. */
  lemma StringEncodeIgnoresFlips(p: FlowPlan, q: FlowPlan)
    requires |p| == |q|
    requires forall j :: 0 <= j < |p| ==> |p[j]| == |q[j]|
    requires forall j, i :: 0 <= j < |p| && 0 <= i < |p[j]| ==> p[j][i].0 == q[j][i].0
    ensures Linearise(p, LineTriple) == Linearise(q, LineTriple)
  {
    LineariseRespects(p, LineTriple, q, LineTriple);
  }

  /** Encoding a plan made of two parts concatenates the parts' texts: each
      sentence contributes `'<sentence> '` and its triples' encodings. */
  lemma {:induction false} PlanTextAppend<T>(p: seq<seq<T>>, q: seq<seq<T>>, enc: T -> Option<string>)
    requires PlanText(p, enc).Some? && PlanText(q, enc).Some?
    ensures PlanText(p + q, enc) == Some(PlanText(p, enc).value + PlanText(q, enc).value)
  {
    if q == [] {
      assert p + q == p;
      assert PlanText(q, enc) == Some("");
      assert PlanText(p, enc).value + "" == PlanText(p, enc).value;
    } else {
      var n := |q| - 1;
      assert (p + q)[..|p + q| - 1] == p + q[..n];
      assert (p + q)[|p + q| - 1] == q[n];
      assert PlanText(q[..n], enc).Some? && SentenceText(q[n], enc).Some?;
      PlanTextAppend(p, q[..n], enc);
      var a, b, c := PlanText(p, enc).value, PlanText(q[..n], enc).value, SentenceText(q[n], enc).value;
      assert PlanText(q, enc) == Some(b + "<sentence> " + c);
      assert PlanText(p + q, enc) == Some((a + b) + "<sentence> " + c);
      assert (a + b) + "<sentence> " + c == a + (b + "<sentence> " + c);
    }
  }

  /** The empty plan encodes as `''`; any other encodable plan as text that
      starts with `'<sentence>'` and has no trailing whitespace. */
  lemma LineariseForm<T>(plan: seq<seq<T>>, enc: T -> Option<string>)
    ensures plan == [] ==> Linearise(plan, enc) == Some("")
    ensures plan != [] && Linearise(plan, enc).Some? ==>
      var e := Linearise(plan, enc).value;
      |e| >= 10 && e[..10] == "<sentence>" && !IsSpace(e[|e| - 1])
  {
    if plan != [] && PlanText(plan, enc).Some? {
      var t := PlanText(plan, enc).value;
      PlanTextStart(plan, enc);
      var e := RStrip(t);
      assert !IsSpace(t[9]);
      assert |e| >= 10;
      assert e[..10] == t[..10];
    }
  }

  lemma {:induction false} PlanTextStart<T>(plan: seq<seq<T>>, enc: T -> Option<string>)
    requires plan != [] && PlanText(plan, enc).Some?
    ensures |PlanText(plan, enc).value| >= 11
    ensures PlanText(plan, enc).value[..11] == "<sentence> "
  {
    var init := plan[..|plan| - 1];
    if init != [] {
      PlanTextStart(init, enc);
    }
  }

  // ----- choosing the best plan -----

  /** `bleus` in `best_generation_index`: each generation scored against the
      single reference. */
  function Scores(generations: seq<string>, reference: string, bleu: Scorer): (s: seq<real>)
    ensures |s| == |generations|
  {
    seq(|generations|, i requires 0 <= i < |generations| => bleu(generations[i], [[reference]]))
  }

  /** `best_generation_index`: the first index of a maximal positive score,
      or -1 when no score exceeds 0.0. */
  method BestGenerationIndex(generations: seq<string>, reference: string, bleu: Scorer)
    returns (maxI: int)
    ensures var s := Scores(generations, reference, bleu);
      && (maxI == -1 <==> forall j :: 0 <= j < |s| ==> s[j] <= 0.0)
      && (maxI != -1 ==>
        && 0 <= maxI < |s| && s[maxI] > 0.0
        && (forall j :: 0 <= j < |s| ==> s[j] <= s[maxI])
        && (forall j :: 0 <= j < maxI ==> s[j] < s[maxI]))
  {
    var bleus := Scores(generations, reference, bleu);
    var maxScore := 0.0;
    maxI := -1;
    for i := 0 to |bleus|
      invariant maxI == -1 ==> maxScore == 0.0 && forall j :: 0 <= j < i ==> bleus[j] <= 0.0
      invariant maxI != -1 ==>
        && 0 <= maxI < i && maxScore == bleus[maxI] && maxScore > 0.0
        && (forall j :: 0 <= j < i ==> bleus[j] <= maxScore)
        && (forall j :: 0 <= j < maxI ==> bleus[j] < maxScore)
    {
      if bleus[i] > maxScore {
        maxScore := bleus[i];
        maxI := i;
      }
    }
  }

  /** `plans[best_i]` after `best_generation_index`, given the realizations
      of the plans (one per plan). An empty list raises IndexError (None);
      -1 selects the last plan. */
  method GetBestPlan<P>(plans: seq<P>, generations: seq<string>, reference: string, bleu: Scorer)
    returns (r: Option<P>)
    requires |generations| == |plans|
    ensures r.None? <==> |plans| == 0
    ensures var s := Scores(generations, reference, bleu);
      && ((forall j :: 0 <= j < |s| ==> s[j] <= 0.0) && r.Some? ==> r.value == plans[|plans| - 1])
      && ((exists j :: 0 <= j < |s| && s[j] > 0.0) ==>
        exists i :: 0 <= i < |plans| && r == Some(plans[i]) && s[i] > 0.0
          && (forall j :: 0 <= j < |s| ==> s[j] <= s[i])
          && (forall j :: 0 <= j < i ==> s[j] < s[i]))
  {
    var bestI := BestGenerationIndex(generations, reference, bleu);
    r := PyIndex(plans, bestI);
  }
}
