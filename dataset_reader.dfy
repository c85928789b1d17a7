/** Reading a corpus file into entries (DatasetReader.py). The XML document
    is an abstract element tree; what is modelled is how triple lines are
    split and cleaned, which failures propagate and which sections fall
    back to an empty list. */
module DatasetReader {
  import opened Wrappers
  import opened Builtins

  /** An XML element as ElementTree presents it: tag, attribute dictionary,
      text (None when the element has none) and children in document order. */
  datatype Element = Element(tag: string, attrib: map<string, string>, text: Option<string>,
                             children: seq<Element>)

  /** A fact of a plan; `flipped` says whether subject and object were swapped. */
  datatype FlowTriple = FlowTriple(first: string, pred: string, second: string, flipped: bool)

  datatype TagEntity = TagEntity(tag: string, entity: string)

  datatype Reference = Reference(tag: string, entity: string, refex: Option<string>,
                                 number: string, reftype: string)

  datatype Lex = Lex(comment: string, lid: string, text: string, template: string,
                     orderedtripleset: seq<seq<FlowTriple>>,
                     flowtripleset: seq<seq<FlowTriple>>,
                     references: seq<Reference>)

  datatype Entry = Entry(category: string, eid: string, size: string,
                         originaltripleset: seq<FlowTriple>,
                         modifiedtripleset: seq<FlowTriple>,
                         entitymap: seq<TagEntity>,
                         lexEntries: seq<Lex>)

  // ----- ElementTree access -----

  /** The first of the children with that tag. */
  function FirstWithTag(children: seq<Element>, tag: string): (r: Option<Element>)
    ensures r.Some? ==>
      exists i :: 0 <= i < |children| && children[i] == r.value && r.value.tag == tag
        && (forall j :: 0 <= j < i ==> children[j].tag != tag)
    ensures r.None? <==> forall i :: 0 <= i < |children| ==> children[i].tag != tag
  {
    if children == [] then None
    else if children[0].tag == tag then Some(children[0])
    else
      var r := FirstWithTag(children[1..], tag);
      assert r.Some? ==>
        exists i :: 1 <= i < |children| && children[i] == r.value && r.value.tag == tag
          && (forall j :: 0 <= j < i ==> children[j].tag != tag) by {
        if r.Some? {
          var i :| 0 <= i < |children[1..]| && children[1..][i] == r.value &&
            forall j :: 0 <= j < i ==> children[1..][j].tag != tag;
          assert forall j :: 1 <= j < i + 1 ==> children[j] == children[1..][j - 1];
        }
      }
      r
  }

  /** `e.find(tag)`: the first child with that tag. */
  function FindChild(e: Element, tag: string): Option<Element> {
    FirstWithTag(e.children, tag)
  }

  /** `e.findall(tag)`: the children with that tag, in order. */
  function FindAll(e: Element, tag: string): seq<Element> {
    Filter(e.children, tag)
  }

  /** The children with that tag, every one of them, in document order. */
  function Filter(children: seq<Element>, tag: string): (r: seq<Element>)
    ensures forall x :: x in r ==> x in children && x.tag == tag
  {
    if children == [] then []
    else (if children[0].tag == tag then [children[0]] else []) + Filter(children[1..], tag)
  }

  /** `Filter` keeps exactly the children with the tag: each of them, and
      nothing else. */
  lemma {:induction false} FilterMembers(children: seq<Element>, tag: string)
    ensures forall x :: x in Filter(children, tag) <==> x in children && x.tag == tag
  {
    if children != [] {
      FilterMembers(children[1..], tag);
      assert children == [children[0]] + children[1..];
    }
  }

  /** Filtering keeps document order: it works piece by piece. */
  lemma {:induction false} FilterAppend(a: seq<Element>, b: seq<Element>, tag: string)
    ensures Filter(a + b, tag) == Filter(a, tag) + Filter(b, tag)
  {
    if a != [] {
      assert (a + b)[0] == a[0] && (a + b)[1..] == a[1..] + b;
      FilterAppend(a[1..], b, tag);
    } else {
      assert a + b == b;
    }
  }

  /** `e.attrib[key]`. */
  function GetAttr(e: Element, key: string): Result<string> {
    if key in e.attrib then Ok(e.attrib[key]) else Err(KeyError)
  }

  /** `for x in e`: iterating over a missing element (None) raises TypeError. */
  function Children(e: Option<Element>): Result<seq<Element>> {
    if e.Some? then Ok(e.value.children) else Err(TypeError)
  }

  // ----- one line of text -----

  /** `a, b, ... = text.split(' | ')` with n names on the left. */
  function Unpack(text: Option<string>, n: nat): (r: Result<seq<string>>)
    ensures r.Ok? ==> |r.value| == n
  {
    match text
    case None => Err(AttributeError)
    case Some(s) =>
      var parts := Split(s, Sep);
      if |parts| == n then Ok(parts) else Err(ValueError)
  }

  /** `s.replace('\'', '')`. */
  function StripQuotes(s: string): string {
    RemoveChar(s, '\'')
  }

  /** A triple of the original, modified or sorted set (lines 71-72, 77-79,
      99-101): the flag keeps the constructor's default, False. */
  function TripleOf(e: Element): Result<FlowTriple> {
    var parts :- Unpack(e.text, 3);
    Ok(FlowTriple(StripQuotes(parts[0]), parts[1], StripQuotes(parts[2]), false))
  }

  /** A triple of the flow-induced set (lines 112-116). */
  function FlowTripleOf(e: Element): Result<FlowTriple> {
    var parts :- Unpack(e.text, 3);
    var flipped :- GetAttr(e, "flipped");
    Ok(FlowTriple(StripQuotes(parts[0]), parts[1], StripQuotes(parts[2]), flipped == "True"))
  }

  function TagEntityOf(e: Element): Result<TagEntity> {
    var parts :- Unpack(e.text, 2);
    Ok(TagEntity(parts[0], parts[1]))
  }

  function ReferenceOf(e: Element): Result<Reference> {
    var tag :- GetAttr(e, "tag");
    var entity :- GetAttr(e, "entity");
    var number :- GetAttr(e, "number");
    var reftype :- GetAttr(e, "type");
    Ok(Reference(tag, entity, e.text, number, reftype))
  }

  // ----- a loop that appends f(x) for every x, stopping at an exception -----

  function Traverse<A, B>(xs: seq<A>, f: A -> Result<B>): Result<seq<B>> {
    if xs == [] then Ok([])
    else
      var init :- Traverse(xs[..|xs| - 1], f);
      var last :- f(xs[|xs| - 1]);
      Ok(init + [last])
  }

  /** A traversal succeeds exactly when every element does, and then holds
      one result per element, in order. */
  lemma {:induction false} TraverseOk<A, B>(xs: seq<A>, f: A -> Result<B>)
    ensures Traverse(xs, f).Ok? <==> forall i :: 0 <= i < |xs| ==> f(xs[i]).Ok?
    ensures Traverse(xs, f).Ok? ==>
      |Traverse(xs, f).value| == |xs| &&
      forall i :: 0 <= i < |xs| ==> Traverse(xs, f).value[i] == f(xs[i]).value
  {
    if xs != [] {
      var init := xs[..|xs| - 1];
      TraverseOk(init, f);
      assert forall i :: 0 <= i < |init| ==> init[i] == xs[i];
    }
  }

  /** An exception raised in a prefix ends the whole loop with it. */
  lemma {:induction false} TraverseStops<A, B>(xs: seq<A>, f: A -> Result<B>, k: nat)
    requires k <= |xs| && Traverse(xs[..k], f).Err?
    ensures Traverse(xs, f) == Traverse(xs[..k], f)
  {
    if k < |xs| {
      assert xs[..|xs| - 1][..k] == xs[..k];
      TraverseStops(xs[..|xs| - 1], f, k);
    } else {
      assert xs[..k] == xs;
    }
  }

  lemma TraverseStep<A, B>(xs: seq<A>, f: A -> Result<B>, i: nat)
    requires i < |xs|
    ensures Traverse(xs[..i + 1], f) ==
      match Traverse(xs[..i], f)
      case Err(e) => Err(e)
      case Ok(init) => (match f(xs[i]) case Err(e) => Err(e) case Ok(y) => Ok(init + [y]))
  {
    assert xs[..i + 1][..i] == xs[..i];
  }

  // ----- the sections of an entry -----

  /** `originaltripleset` and `modifiedtripleset`: no `try`, so any
      exception propagates. */
  function TripleSet(tripleSet: Option<Element>): Result<seq<FlowTriple>> {
    var cs :- Children(tripleSet);
    Traverse(cs, TripleOf)
  }

  function SortedSentence(snt: Element): Result<seq<FlowTriple>> {
    Traverse(snt.children, TripleOf)
  }

  function FlowSentence(snt: Element): Result<seq<FlowTriple>> {
    Traverse(snt.children, FlowTripleOf)
  }

  function SortedSentences(sec: Option<Element>): Result<seq<seq<FlowTriple>>> {
    var cs :- Children(sec);
    Traverse(cs, SortedSentence)
  }

  function FlowSentences(sec: Option<Element>): Result<seq<seq<FlowTriple>>> {
    var cs :- Children(sec);
    Traverse(cs, FlowSentence)
  }

  /** A bare `except:` that resets the section to `[]`. */
  function OrEmpty<T>(r: Result<seq<T>>): seq<T> {
    if r.Ok? then r.value else []
  }

  function SortedSection(sec: Option<Element>): seq<seq<FlowTriple>> {
    OrEmpty(SortedSentences(sec))
  }

  function FlowSection(sec: Option<Element>): seq<seq<FlowTriple>> {
    OrEmpty(FlowSentences(sec))
  }

  function Entitymap(m: Option<Element>): Result<seq<TagEntity>> {
    var cs :- Children(m);
    Traverse(cs, TagEntityOf)
  }

  function ReferencesResult(refs: Option<Element>): Result<seq<Reference>> {
    var cs :- Children(refs);
    Traverse(cs, ReferenceOf)
  }

  /** `lex.find(tag).text`, with a missing element, a missing text and an
      empty text all read as `''` (lines 134-148). */
  function TextOf(lex: Element, tag: string): (r: string)
    ensures r == "" <==>
      FindChild(lex, tag).None? || FindChild(lex, tag).value.text in {None, Some("")}
    ensures r != "" ==> FindChild(lex, tag).value.text == Some(r)
  {
    match FindChild(lex, tag)
    case None => ""
    case Some(el) => if el.text.None? || el.text.value == "" then "" else el.text.value
  }

  function LexOf(lex: Element): Result<Lex> {
    var comment :- GetAttr(lex, "comment");
    var lid :- GetAttr(lex, "lid");
    Ok(Lex(comment, lid, TextOf(lex, "text"), TextOf(lex, "template"),
           SortedSection(FindChild(lex, "sortedtripleset")),
           FlowSection(FindChild(lex, "flowinducedtripleset")),
           OrEmpty(ReferencesResult(FindChild(lex, "references")))))
  }

  function EntryOf(e: Element): Result<Entry> {
    var eid :- GetAttr(e, "eid");
    var size :- GetAttr(e, "size");
    var category :- GetAttr(e, "category");
    var original :- TripleSet(FindChild(e, "originaltripleset"));
    var modified :- TripleSet(FindChild(e, "modifiedtripleset"));
    var entitymap :- Entitymap(FindChild(e, "entitymap"));
    var lexes :- Traverse(FindAll(e, "lex"), LexOf);
    Ok(Entry(category, eid, size, original, modified, entitymap, lexes))
  }

  /** `list(parse(file))` on the document's root element. */
  function EntriesOf(root: Element): Result<seq<Entry>> {
    var cs :- Children(FindChild(root, "entries"));
    Traverse(cs, EntryOf)
  }

  // ----- the loops of `parse` -----

  /** Lines 68-72 and 74-79. */
  method ReadTripleSet(tripleSet: Option<Element>) returns (r: Result<seq<FlowTriple>>)
    ensures r == TripleSet(tripleSet)
  {
    if tripleSet.None? {
      return Err(TypeError);
    }
    var cs := tripleSet.value.children;
    var tripleset: seq<FlowTriple> := [];
    var i := 0;
    while i < |cs|
      invariant 0 <= i <= |cs|
      invariant Traverse(cs[..i], TripleOf) == Ok(tripleset)
    {
      TraverseStep(cs, TripleOf, i);
      var t := TripleOf(cs[i]);
      if t.Err? {
        TraverseStops(cs, TripleOf, i + 1);
        return Err(t.error);
      }
      tripleset := tripleset + [t.value];
      i := i + 1;
    }
    assert cs[..i] == cs;
    r := Ok(tripleset);
  }

  /** The inner loop of lines 96-102: the triples of one sentence of the
      sorted set. */
  method ReadSortedSentence(snt: Element) returns (r: Result<seq<FlowTriple>>)
    ensures r == SortedSentence(snt)
  {
    var cs := snt.children;
    var sentTriples: seq<FlowTriple> := [];
    var j := 0;
    while j < |cs|
      invariant 0 <= j <= |cs|
      invariant Traverse(cs[..j], TripleOf) == Ok(sentTriples)
    {
      TraverseStep(cs, TripleOf, j);
      var t := TripleOf(cs[j]);
      if t.Err? {
        TraverseStops(cs, TripleOf, j + 1);
        return Err(t.error);
      }
      sentTriples := sentTriples + [t.value];
      j := j + 1;
    }
    assert cs[..j] == cs;
    r := Ok(sentTriples);
  }

  /** The inner loop of lines 109-117: the triples of one sentence of the
      flow-induced set, with their `flipped` flags. */
  method ReadFlowSentence(snt: Element) returns (r: Result<seq<FlowTriple>>)
    ensures r == FlowSentence(snt)
  {
    var cs := snt.children;
    var sentTriples: seq<FlowTriple> := [];
    var j := 0;
    while j < |cs|
      invariant 0 <= j <= |cs|
      invariant Traverse(cs[..j], FlowTripleOf) == Ok(sentTriples)
    {
      TraverseStep(cs, FlowTripleOf, j);
      var t := FlowTripleOf(cs[j]);
      if t.Err? {
        TraverseStops(cs, FlowTripleOf, j + 1);
        return Err(t.error);
      }
      sentTriples := sentTriples + [t.value];
      j := j + 1;
    }
    assert cs[..j] == cs;
    r := Ok(sentTriples);
  }

  /** Lines 93-104: the nested loops inside `try`, with `[]` on any
      exception. */
  method ReadSortedSection(sec: Option<Element>) returns (r: seq<seq<FlowTriple>>)
    ensures r == SortedSection(sec)
  {
    if sec.None? {
      return [];
    }
    var cs := sec.value.children;
    var tripleset: seq<seq<FlowTriple>> := [];
    var i := 0;
    while i < |cs|
      invariant 0 <= i <= |cs|
      invariant Traverse(cs[..i], SortedSentence) == Ok(tripleset)
    {
      TraverseStep(cs, SortedSentence, i);
      var snt := ReadSortedSentence(cs[i]);
      if snt.Err? {
        TraverseStops(cs, SortedSentence, i + 1);
        return [];
      }
      tripleset := tripleset + [snt.value];
      i := i + 1;
    }
    assert cs[..i] == cs;
    r := tripleset;
  }

  /** Lines 106-119: the same for the flow-induced set. */
  method ReadFlowSection(sec: Option<Element>) returns (r: seq<seq<FlowTriple>>)
    ensures r == FlowSection(sec)
  {
    if sec.None? {
      return [];
    }
    var cs := sec.value.children;
    var tripleset: seq<seq<FlowTriple>> := [];
    var i := 0;
    while i < |cs|
      invariant 0 <= i <= |cs|
      invariant Traverse(cs[..i], FlowSentence) == Ok(tripleset)
    {
      TraverseStep(cs, FlowSentence, i);
      var snt := ReadFlowSentence(cs[i]);
      if snt.Err? {
        TraverseStops(cs, FlowSentence, i + 1);
        return [];
      }
      tripleset := tripleset + [snt.value];
      i := i + 1;
    }
    assert cs[..i] == cs;
    r := tripleset;
  }

  /** Lines 81-85. */
  method ReadEntitymap(m: Option<Element>) returns (r: Result<seq<TagEntity>>)
    ensures r == Entitymap(m)
  {
    if m.None? {
      return Err(TypeError);
    }
    var cs := m.value.children;
    var entitymap: seq<TagEntity> := [];
    var i := 0;
    while i < |cs|
      invariant 0 <= i <= |cs|
      invariant Traverse(cs[..i], TagEntityOf) == Ok(entitymap)
    {
      TraverseStep(cs, TagEntityOf, i);
      var t := TagEntityOf(cs[i]);
      if t.Err? {
        TraverseStops(cs, TagEntityOf, i + 1);
        return Err(t.error);
      }
      entitymap := entitymap + [t.value];
      i := i + 1;
    }
    assert cs[..i] == cs;
    r := Ok(entitymap);
  }

  /** Lines 121-132. */
  method ReadReferences(refs: Option<Element>) returns (r: seq<Reference>)
    ensures r == OrEmpty(ReferencesResult(refs))
  {
    if refs.None? {
      return [];
    }
    var cs := refs.value.children;
    var references: seq<Reference> := [];
    var i := 0;
    while i < |cs|
      invariant 0 <= i <= |cs|
      invariant Traverse(cs[..i], ReferenceOf) == Ok(references)
    {
      TraverseStep(cs, ReferenceOf, i);
      var t := ReferenceOf(cs[i]);
      if t.Err? {
        TraverseStops(cs, ReferenceOf, i + 1);
        return [];
      }
      references := references + [t.value];
      i := i + 1;
    }
    assert cs[..i] == cs;
    r := references;
  }

  /** The body of the loop over `lex` elements (lines 90-152). */
  method ReadLex(lex: Element) returns (r: Result<Lex>)
    ensures r == LexOf(lex)
  {
    var comment :- GetAttr(lex, "comment");
    var lid :- GetAttr(lex, "lid");
    var orderedtripleset := ReadSortedSection(FindChild(lex, "sortedtripleset"));
    var flowinducedtripleset := ReadFlowSection(FindChild(lex, "flowinducedtripleset"));
    var references := ReadReferences(FindChild(lex, "references"));
    var text := TextOf(lex, "text");
    var template := TextOf(lex, "template");
    r := Ok(Lex(comment, lid, text, template, orderedtripleset, flowinducedtripleset, references));
  }

  /** The body of the loop over entries (lines 64-155). */
  method ReadEntry(e: Element) returns (r: Result<Entry>)
    ensures r == EntryOf(e)
  {
    var eid :- GetAttr(e, "eid");
    var size :- GetAttr(e, "size");
    var category :- GetAttr(e, "category");
    var original :- ReadTripleSet(FindChild(e, "originaltripleset"));
    var modified :- ReadTripleSet(FindChild(e, "modifiedtripleset"));
    var entitymap :- ReadEntitymap(FindChild(e, "entitymap"));
    var lexEntries := FindAll(e, "lex");
    var lexList: seq<Lex> := [];
    var i := 0;
    while i < |lexEntries|
      invariant 0 <= i <= |lexEntries|
      invariant Traverse(lexEntries[..i], LexOf) == Ok(lexList)
    {
      TraverseStep(lexEntries, LexOf, i);
      var l := ReadLex(lexEntries[i]);
      if l.Err? {
        TraverseStops(lexEntries, LexOf, i + 1);
        return Err(l.error);
      }
      lexList := lexList + [l.value];
      i := i + 1;
    }
    assert lexEntries[..i] == lexEntries;
    r := Ok(Entry(category, eid, size, original, modified, entitymap, lexList));
  }

  /** `list(parse(in_file))`, given the document's root element (lines 57-155). */
  method Parse(root: Element) returns (r: Result<seq<Entry>>)
    ensures r == EntriesOf(root)
  {
    var entries := FindChild(root, "entries");
    if entries.None? {
      return Err(TypeError);
    }
    var cs := entries.value.children;
    var parsed: seq<Entry> := [];
    var i := 0;
    while i < |cs|
      invariant 0 <= i <= |cs|
      invariant Traverse(cs[..i], EntryOf) == Ok(parsed)
    {
      TraverseStep(cs, EntryOf, i);
      var en := ReadEntry(cs[i]);
      if en.Err? {
        TraverseStops(cs, EntryOf, i + 1);
        return Err(en.error);
      }
      parsed := parsed + [en.value];
      i := i + 1;
    }
    assert cs[..i] == cs;
    r := Ok(parsed);
  }

  // ----- Entry.entitymap_to_dict -----

  /** `dict(map(lambda te: te.to_tuple(), entitymap))`: a later pair with
      the same tag overrides an earlier one. */
  function EntitymapToDict(entitymap: seq<TagEntity>): map<string, string> {
    if entitymap == [] then map[]
    else
      var last := entitymap[|entitymap| - 1];
      EntitymapToDict(entitymap[..|entitymap| - 1])[last.tag := last.entity]
  }

  /** The dictionary has a key for every tag of the map, and each key holds
      the entity of the last pair with that tag. */
  lemma {:induction false} EntitymapToDictLastWins(entitymap: seq<TagEntity>)
    ensures forall tag :: tag in EntitymapToDict(entitymap) <==>
      exists i :: 0 <= i < |entitymap| && entitymap[i].tag == tag
    ensures forall i :: (0 <= i < |entitymap| &&
      (forall j :: i < j < |entitymap| ==> entitymap[j].tag != entitymap[i].tag)) ==>
      (entitymap[i].tag in EntitymapToDict(entitymap) &&
       EntitymapToDict(entitymap)[entitymap[i].tag] == entitymap[i].entity)
  {
    if entitymap != [] {
      var init := entitymap[..|entitymap| - 1];
      EntitymapToDictLastWins(init);
      assert forall i :: 0 <= i < |init| ==> init[i] == entitymap[i];
    }
  }

  // ----- properties of parsing -----

  /** A triple line `"a | p | b"` reads as `a` and `b` without quotes and
      `p` untouched; the flow-induced form takes its flag from the
      `flipped` attribute, which must be present. */
  lemma TripleOfLine(e: Element, a: string, p: string, b: string)
    requires e.text == Some(Join3(a, p, b))
    requires Clean(a) && Clean(p) && !Contains(b, Sep)
    ensures TripleOf(e) == Ok(FlowTriple(StripQuotes(a), p, StripQuotes(b), false))
    ensures FlowTripleOf(e) ==
      if "flipped" in e.attrib
      then Ok(FlowTriple(StripQuotes(a), p, StripQuotes(b), e.attrib["flipped"] == "True"))
      else Err(KeyError)
  {
    SplitJoin3(a, p, b);
  }

  /** Reading a line fails exactly when it has no text or does not split
      into three fields; only the entities lose their quotes. */
  lemma TripleOfFields(e: Element)
    ensures TripleOf(e).Ok? <==> e.text.Some? && |Split(e.text.value, Sep)| == 3
    ensures TripleOf(e).Ok? ==>
      && '\'' !in TripleOf(e).value.first
      && '\'' !in TripleOf(e).value.second
      && TripleOf(e).value.pred == Split(e.text.value, Sep)[1]
      && !TripleOf(e).value.flipped
  {
  }

  /** The predicate keeps its quotes: the line joined from `a'`, `p'` and
      `b'` reads as `FlowTriple("a", "p'", "b", False)`. */
  lemma PredicateKeepsQuotes(e: Element, a: string, p: string, b: string)
    requires a == "a'" && p == "p'" && b == "b'" && e.text == Some(Join3(a, p, b))
    ensures TripleOf(e) == Ok(FlowTriple("a", p, "b", false))
  {
    NoSeparatorInShort(a);
    NoSeparatorInShort(p);
    NoSeparatorInShort(b);
    TripleOfLine(e, a, p, b);
    QuoteAfterLetter('a');
    QuoteAfterLetter('b');
  }

  lemma QuoteAfterLetter(x: char)
    requires x != '\''
    ensures StripQuotes([x, '\'']) == [x]
  {
    var q := ['\''];
    assert [x, '\''][1..] == q && q[1..] == [];
    assert RemoveChar(q, '\'') == [];
    assert RemoveChar([x, '\''], '\'') == [x] + RemoveChar(q, '\'');
  }

  lemma NoSeparatorInShort(s: string)
    requires |s| < |Sep|
    ensures !Contains(s, Sep)
  {
  }

  /** A missing set, or one line of it that cannot be read, makes the whole
      entry fail with that exception. */
  lemma TripleSetPropagates(tripleSet: Option<Element>)
    ensures tripleSet.None? ==> TripleSet(tripleSet) == Err(TypeError)
    ensures tripleSet.Some? ==>
      (TripleSet(tripleSet).Err? <==> exists i :: 0 <= i < |tripleSet.value.children| && TripleOf(tripleSet.value.children[i]).Err?)
  {
    if tripleSet.Some? {
      TraverseOk(tripleSet.value.children, TripleOf);
    }
  }

  /** A section that is missing or holds one unreadable line is `[]`. */
  lemma {:induction false} SectionFallback(sec: Option<Element>, flow: bool)
    requires sec.None? || exists j, i ::
      0 <= j < |sec.value.children| && 0 <= i < |sec.value.children[j].children| &&
      (if flow then FlowTripleOf(sec.value.children[j].children[i])
       else TripleOf(sec.value.children[j].children[i])).Err?
    ensures (if flow then FlowSection(sec) else SortedSection(sec)) == []
  {
    if sec.Some? {
      var cs := sec.value.children;
      var j, i :| 0 <= j < |cs| && 0 <= i < |cs[j].children| &&
        (if flow then FlowTripleOf(cs[j].children[i]) else TripleOf(cs[j].children[i])).Err?;
      if flow {
        TraverseOk(cs[j].children, FlowTripleOf);
        TraverseOk(cs, FlowSentence);
      } else {
        TraverseOk(cs[j].children, TripleOf);
        TraverseOk(cs, SortedSentence);
      }
    }
  }

  /** A readable section keeps the document's grouping: one list per
      sentence element, one triple per line, in order. */
  lemma {:induction false} SectionShape(sec: Element, flow: bool)
    requires forall j, i :: 0 <= j < |sec.children| && 0 <= i < |sec.children[j].children| ==>
      (if flow then FlowTripleOf(sec.children[j].children[i])
       else TripleOf(sec.children[j].children[i])).Ok?
    ensures var r := if flow then FlowSection(Some(sec)) else SortedSection(Some(sec));
      && |r| == |sec.children|
      && forall j :: 0 <= j < |r| ==>
        && |r[j]| == |sec.children[j].children|
        && forall i :: 0 <= i < |r[j]| ==>
          r[j][i] == (if flow then FlowTripleOf(sec.children[j].children[i])
                      else TripleOf(sec.children[j].children[i])).value
  {
    var cs := sec.children;
    var f := if flow then FlowTripleOf else TripleOf;
    var g := if flow then FlowSentence else SortedSentence;
    forall j | 0 <= j < |cs|
      ensures g(cs[j]).Ok?
      ensures |g(cs[j]).value| == |cs[j].children|
      ensures forall i :: 0 <= i < |cs[j].children| ==> g(cs[j]).value[i] == f(cs[j].children[i]).value
    {
      TraverseOk(cs[j].children, f);
    }
    TraverseOk(cs, g);
  }

  /** The flow-induced flag is True exactly when the attribute reads
      `'True'`; the other sets keep the default False. */
  lemma FlippedDecoding(e: Element)
    ensures FlowTripleOf(e).Ok? ==>
      "flipped" in e.attrib && (FlowTripleOf(e).value.flipped <==> e.attrib["flipped"] == "True")
    ensures TripleOf(e).Ok? ==> !TripleOf(e).value.flipped
  {
  }

  /** The flag a plan writes with `str(triple[1])` reads back unchanged. */
  lemma FlippedRoundTrip(b: bool)
    ensures (BoolStr(b) == "True") == b
  {
    if !b {
      assert BoolStr(b)[0] == 'F';
    }
  }
}
