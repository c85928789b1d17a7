# FlowNLG plan enumeration, linearisation and evaluation grouping in Dafny

FlowNLG augments a data-to-text corpus, in which triple sets are paired with reference texts, with "information flow hints". Every way of flipping the
subject and object of the triples of a lexicalisation is enumerated. Each variant plan is linearised into the text
format of a sequence-to-sequence realizer. The variant whose realization scores best against the reference is kept.
Realizations are later scored per corpus entry. This project models the list and string algorithms under that
pipeline and proves what they compute:

- `DatasetGenerator` (DatasetGenerator.py): `triplelist_to_perms` as the function `Perms`, which returns all variants
  as a list instead of a generator, and `flow_hints_permutations` as the method `FlowHintsPermutations` with its
  re-chunking loop.
- `Preprocess` (Preprocess.py): the triple encoders, `string_encode_plan` as a loop proved against the
  specification function `Linearise`, and `best_generation_index` / `get_best_plan` over an abstract scorer.
- `EvalOracle` (EvalOracle.py): `encode_plan` over `FlowTriple` objects, `entry_bleu`, and the run grouping of
  `subset_bleus`, proved against the function `Groups`.
- `DatasetReader` (DatasetReader.py): `parse` over an abstract element tree, the triple-line parsing, the
  fallbacks of its `try`/`except` blocks, and `Entry.entitymap_to_dict`.
- `Builtins` models the Python built-ins the scripts rely on: `str.split`, `str.replace`, `str.rstrip` and
  `str.isspace`, negative list indexing, and `str(bool)`. The scripts do not call `str.find` or `str.join`
  themselves; `IndexOf` (after `str.find`) defines `Split`, and `Join` (after `str.join`) states its round trip. `Wrappers` holds
  `Option`, `Result` and the Python exception kinds.

Modelling conventions:

- Only the exception kinds the code can raise are modelled: AttributeError, IndexError, KeyError, TypeError and
  ValueError. They become `Err` results. Where nothing catches them, they propagate as they do in Python.
- A bare `except:` becomes `OrEmpty`, which resets the section to `[]`.
- `encode_triple_string` and `triplelist_to_perms` raise IndexError on a line with fewer than three fields. These
  become `None`.
- BLEU scores are `real`s given by a scorer function parameter, `Scorer`, which stands in for
  `sacrebleu.corpus_bleu(...).score`.
- The field `predicate` of `FlowTriple` is named `pred`, because `predicate` is a Dafny keyword.

One property needs a more precise condition than "the fields contain no `' | '`". The round trip "split a line
joined from three fields" fails when a field ends in `" |"`: `"a |" + " | " + "b"` holds a separator one
character early. For example, `"a | | b | c"` splits as `["a", "| b", "c"]`. The condition `Builtins.Clean` also
excludes that ending. `Builtins.SeparatorFreeIsNotEnough` is a concrete counterexample to the round trip.
`Preprocess.EncodersDisagreeOnTrailingBar` is the general one for the encoders. For every clean `u`, the subject
`u + " |"` is separator-free. Yet for every predicate and object, the string encoder of the joined line differs
from the object encoder of the triple.

## Model

| member | source | states |
|---|---|---|
| Builtins.IndexOf | Preprocess.py:5 | the leftmost occurrence of the separator, or None exactly when there is none |
| Builtins.Split | Preprocess.py:5 | splitting on the separator gives at least one part, joining the parts with the separator gives the string back, no part contains the separator, and each cut is at the leftmost occurrence in what remains |
| Builtins.SplitJoin3 | DatasetReader.py:71 | a line joined from three clean fields splits back into exactly those fields |
| Builtins.SeparatorFreeIsNotEnough | DatasetReader.py:71 | fields that merely contain no separator do not split back: the subject `a`, a blank and a bar, joined with `b` and `c`, splits with first field `a` |
| Builtins.RemoveChar | DatasetReader.py:72 | `replace("'", "")` leaves no quote, keeps only characters of the input, and is the identity on quote-free text |
| Builtins.RemoveCharCounts | DatasetReader.py:72 | every other character survives as often as it occurs: the multiset of the result is that of the input with the quote's count set to 0 |
| Builtins.RemoveCharAppend | DatasetReader.py:72 | removal keeps the order of the others: it acts on a concatenation piece by piece |
| Builtins.PyIndex | Preprocess.py:45 | `s[i]` for a Python index: `s[i]` for `0 <= i < len(s)`, `s[len(s) + i]` for a negative `i` not below `-len(s)`, IndexError otherwise |
| Builtins.BoolStr | DatasetGenerator.py:77 | `str` of a bool: `'True'` or `'False'` |
| Builtins.RStrip | Preprocess.py:19 | `rstrip()` gives a prefix of the input whose removed tail is all whitespace and whose last character is not whitespace |
| DatasetGenerator.FlipTriple | DatasetGenerator.py:17-18 | the reversed triple exists exactly when the line has at least three fields |
| DatasetGenerator.FlipTripleOfLine | DatasetGenerator.py:17-18 | the reversed form of the line joined from `s`, `p`, `o` is the line joined from `o`, `p`, `s` |
| DatasetGenerator.FlipTwice | DatasetGenerator.py:17-18 | reversing a clean triple twice gives it back |
| DatasetGenerator.Interleave | DatasetGenerator.py:20-22 | each tail variant yields two variants |
| DatasetGenerator.InterleaveAt | DatasetGenerator.py:20-22 | output 2k is the unflipped head on tail variant k, output 2k+1 the flipped head, with the matching flip flag prepended |
| DatasetGenerator.Perms | DatasetGenerator.py:12-22 | `triplelist_to_perms` collected into a list: `([], [])` for no triples; otherwise each variant of the tail, first with the head unflipped, then flipped; None when a line has fewer than three fields; its properties are the lemmas below |
| DatasetGenerator.PermsDefined | DatasetGenerator.py:12-22 | the enumeration succeeds exactly when every triple splits into at least three fields |
| DatasetGenerator.PermsCount | DatasetGenerator.py:13-22 | n triples yield exactly 2^n variants |
| DatasetGenerator.PermsAt | DatasetGenerator.py:16-22 | variant k has n triples, its flip vector is the n bits of k with the least significant first, and position i is the input triple if unflipped, its reversal if flipped |
| DatasetGenerator.PermsFirst | DatasetGenerator.py:13-21 | the first variant is the input list with every flag False |
| DatasetGenerator.VariantsEnumerateFlipVectors | DatasetGenerator.py:20-22 | every flip vector of length n is the flip vector of exactly one variant |
| DatasetGenerator.ZipAt | DatasetGenerator.py:36 | `zip` pairs the elements at equal positions |
| DatasetGenerator.ChunkShape | DatasetGenerator.py:35-38 | cutting by the sentence lengths gives one chunk per length, of that length |
| DatasetGenerator.FlattenChunk | DatasetGenerator.py:33-38 | concatenating the chunks gives the list back, so nothing is dropped or duplicated |
| DatasetGenerator.Rechunk | DatasetGenerator.py:33-38 | the inner loop with its `count` accumulator builds exactly the chunks of the zipped variant |
| DatasetGenerator.RechunkAll | DatasetGenerator.py:32-40 | one re-chunked plan per variant, in enumeration order |
| DatasetGenerator.FlowHintsPermutations | DatasetGenerator.py:26-40 | defined exactly when every triple splits into at least three fields; then 2^n plans, each with the input's sentence count and lengths, whose concatenation is the zip of variant k; the first plan is the input unflipped |
| DatasetGenerator.UnflippedChunks | DatasetGenerator.py:29-38 | re-chunking the unflipped flat list gives the input plan with every flag False |
| Preprocess.EncodeTripleString | Preprocess.py:4-6 | `encode_triple_string`: the three markers around the first three fields of the split line, IndexError (None) when it has fewer; see the lemmas below |
| Preprocess.EncodeTripleObject | Preprocess.py:9-10 | `encode_triple_object`: the three markers around the fields of a `FlowTriple` |
| Preprocess.EncodeTripleOfLine | Preprocess.py:4-6 | the string encoder of the line joined from `s`, `p`, `o` is `"<S> s <P> p <O> o"` |
| Preprocess.EncodeObjectAsLine | Preprocess.py:4-10 | for clean fields, the object encoder agrees with the string encoder of the joined line |
| Preprocess.TrailingBarIsFree | Preprocess.py:5 | a clean field followed by a blank and a bar still contains no separator |
| Preprocess.SubjectCut | Preprocess.py:6-10 | right after a subject `u` the string encoding continues with `<P>`, while the object encoding of `u` followed by a blank and a bar continues with the bar |
| Preprocess.EncodersDisagreeOnTrailingBar | Preprocess.py:4-10 | for every clean `u` the subject `u` followed by a blank and a bar is separator-free, yet the two encoders differ, whatever the predicate and object |
| Preprocess.EncodeSentence | Preprocess.py:17-18 | the inner loop appends each triple's encoding and a space, failing on the first line that does not encode |
| Preprocess.Linearise | Preprocess.py:13-19 | the specification of both plan encoders: `<sentence> ` before each sentence, each triple's encoding and a blank after it, then `rstrip`; None when a triple does not encode; its properties are the lemmas below |
| Preprocess.StringEncodePlan | Preprocess.py:13-19 | the loop computes `Linearise` of the plan with the line encoder |
| Preprocess.LineariseDefined | Preprocess.py:13-19 | the linearisation exists exactly when every triple encodes |
| Preprocess.LineariseRespects | Preprocess.py:13-19 | plans of the same shape whose triples encode equally linearise equally |
| Preprocess.StringEncodeIgnoresFlips | Preprocess.py:18 | plans that differ only in their flip flags encode identically |
| Preprocess.PlanTextAppend | Preprocess.py:14-18 | the text accumulated for two consecutive parts of a plan is the concatenation of their texts |
| Preprocess.LineariseForm | Preprocess.py:13-19 | the empty plan gives `""`; otherwise the text starts with `<sentence>` and has no trailing whitespace |
| Preprocess.Scores | Preprocess.py:31 | one score per generation |
| Preprocess.BestGenerationIndex | Preprocess.py:30-39 | -1 exactly when no score exceeds 0.0; otherwise an in-range index with a positive score that is the maximum and is strictly greater than every earlier score |
| Preprocess.GetBestPlan | Preprocess.py:42-45 | IndexError exactly for an empty plan list; the last plan when no score exceeds 0.0; otherwise the earliest plan with the maximal positive score |
| DatasetReader.FirstWithTag | DatasetReader.py:61 | `find` returns the first child with the tag (no earlier child has it), and None exactly when no child has it |
| DatasetReader.Filter | DatasetReader.py:88 | `findall` returns only children with the tag; that it keeps every one of them, in document order, is stated by the two lemmas below |
| DatasetReader.FilterMembers | DatasetReader.py:88 | an element is in the result exactly when it is a child with the tag: every tagged child is kept and nothing else |
| DatasetReader.FilterAppend | DatasetReader.py:88 | filtering keeps document order: it acts on a concatenation piece by piece |
| DatasetReader.Unpack | DatasetReader.py:71 | a successful unpacking has exactly as many parts as names |
| DatasetReader.TripleOf | DatasetReader.py:71-72 | one line of an original, modified or sorted set: AttributeError without text, ValueError unless it splits into exactly three fields, entities without quotes, flag False; see `TripleOfFields` |
| DatasetReader.FlowTripleOf | DatasetReader.py:112-116 | one line of a flow-induced set: as `TripleOf`, then KeyError without a `flipped` attribute, and the flag is that attribute equal to `'True'` |
| DatasetReader.TagEntityOf | DatasetReader.py:84 | one entity-map line: AttributeError without text, ValueError unless it splits into exactly two fields, which become tag and entity |
| DatasetReader.ReferenceOf | DatasetReader.py:124-130 | one reference: KeyError on the first missing attribute of `tag`, `entity`, `number`, `type`, then the text as `refex` |
| DatasetReader.LexOf | DatasetReader.py:89-152 | the specification of one lexicalisation, computed by `ReadLex` |
| DatasetReader.EntryOf | DatasetReader.py:63-155 | the specification of one entry, computed by `ReadEntry` |
| DatasetReader.EntriesOf | DatasetReader.py:57-155 | the specification of `list(parse(file))`, computed by `Parse` |
| DatasetReader.TextOf | DatasetReader.py:134-148 | `''` exactly when the element is missing or its text is missing or empty; otherwise the element's text |
| DatasetReader.TraverseOk | DatasetReader.py:70-72 | an appending loop succeeds exactly when every element does, and then holds one result per element, in order |
| DatasetReader.TraverseStops | DatasetReader.py:70-72 | the first failure ends the loop with that failure |
| DatasetReader.ReadTripleSet | DatasetReader.py:68-72 | the loop over a triple set computes `TripleSet` |
| DatasetReader.ReadSortedSentence | DatasetReader.py:96-102 | the inner loop over one sorted sentence computes the traversal of its triples |
| DatasetReader.ReadFlowSentence | DatasetReader.py:109-117 | the inner loop over one flow-induced sentence computes the traversal of its triples with their flags |
| DatasetReader.ReadSortedSection | DatasetReader.py:93-104 | the sorted section is its sentences' triples, or `[]` after any failure |
| DatasetReader.ReadFlowSection | DatasetReader.py:106-119 | the flow-induced section is its sentences' triples, or `[]` after any failure |
| DatasetReader.ReadEntitymap | DatasetReader.py:81-85 | the entity map loop computes `Entitymap` |
| DatasetReader.ReadReferences | DatasetReader.py:121-132 | the references, or `[]` after any failure |
| DatasetReader.ReadLex | DatasetReader.py:89-152 | one lexicalisation, failing only on a missing `comment` or `lid` |
| DatasetReader.ReadEntry | DatasetReader.py:63-155 | one entry, with the attribute and triple-set errors propagated |
| DatasetReader.Parse | DatasetReader.py:57-155 | the entries of the document, in order |
| DatasetReader.EntitymapToDict | DatasetReader.py:15-16 | `entitymap_to_dict`: the pairs inserted left to right; see `EntitymapToDictLastWins` |
| DatasetReader.EntitymapToDictLastWins | DatasetReader.py:15-16 | the dictionary has exactly the tags of the map as keys, and each key holds the entity of the last pair with that tag |
| DatasetReader.TripleOfLine | DatasetReader.py:71-72 | a line of three clean fields parses to the entities without quotes and the predicate unchanged; the flow form reads the `flipped` attribute or raises KeyError |
| DatasetReader.TripleOfFields | DatasetReader.py:71-72 | parsing succeeds exactly when the text exists and splits into three parts; the entities hold no quote, the predicate is the middle part, and the flag is False |
| DatasetReader.PredicateKeepsQuotes | DatasetReader.py:72 | the line joined from `a'`, `p'`, `b'` parses to `a`, `p'`, `b`: quotes are stripped from the entities only |
| DatasetReader.TripleSetPropagates | DatasetReader.py:68-79 | a missing triple set raises TypeError, and the set fails exactly when one of its lines does |
| DatasetReader.SectionFallback | DatasetReader.py:93-119 | a missing section or any failing triple in it gives `[]` |
| DatasetReader.SectionShape | DatasetReader.py:96-117 | when every triple parses, the section has one list per sentence element, and each list has one triple per triple element, in document order |
| DatasetReader.FlippedDecoding | DatasetReader.py:113-116 | a flow triple's flag is True exactly when its attribute is `'True'`; other triples keep the default False |
| DatasetReader.FlippedRoundTrip | DatasetGenerator.py:77 | the flag written as `str(flag)` decodes back to the same flag |
| EvalOracle.EncodeObjectSentence | EvalOracle.py:13-14 | the inner loop appends each triple's object encoding and a space |
| EvalOracle.EncodePlan | EvalOracle.py:9-15 | `encode_plan` computes `Linearise` of the plan with the object encoder |
| EvalOracle.EncodePlanAsStringPlan | EvalOracle.py:9-15 | for clean fields, `encode_plan` equals `string_encode_plan` of the plan's joined lines |
| EvalOracle.EncodePlanIgnoresFlipped | EvalOracle.py:9-15 | the `flipped` field does not affect the encoding |
| EvalOracle.MaxOf | EvalOracle.py:35 | `max` returns an element that is at least every element |
| EvalOracle.EntryBleu | EvalOracle.py:32-35 | ValueError exactly for no generations; otherwise a score some generation attains and every generation's score is at most |
| EvalOracle.Groups | EvalOracle.py:44-57 | the specification of the grouping: a new group starts after position i exactly when `ids[i] != ids[i + 1]`; there is always at least one group |
| EvalOracle.RefsRead | EvalOracle.py:54-55 | the references the grouping reads: `refs[i]` at every position but the last, where it reads `refs[-1]` |
| EvalOracle.SubsetBleus | EvalOracle.py:38-63 | IndexError exactly when `gens` is empty or `refs`/`ids` are too short; otherwise one `entry_bleu` per group |
| EvalOracle.GroupEntries | EvalOracle.py:39-57 | the loop and the last-entry block build the groups of `gens` and of the references read |
| EvalOracle.CutRuns | EvalOracle.py:44-51 | IndexError exactly when `refs` or `ids` is too short for the loop; otherwise the loop ends holding the groups of all but the last position |
| EvalOracle.LastEntry | EvalOracle.py:53-57 | appending `gens[-1]` and `refs[-1]` completes the groups |
| EvalOracle.GroupsFlatten | EvalOracle.py:44-57 | concatenating the groups gives the list back, in order |
| EvalOracle.GroupsNonEmpty | EvalOracle.py:44-57 | no group is empty |
| EvalOracle.GroupsSameShape | EvalOracle.py:45-57 | gens and refs are cut into the same number of groups, and the groups at each index have equal length |
| EvalOracle.GroupsCount | EvalOracle.py:44-57 | there is one group more than there are positions where `ids[i] != ids[i + 1]` |
| EvalOracle.GroupsAreMaximalRuns | EvalOracle.py:44-57 | the groups of the ids are runs of one id, neighbouring runs hold different ids, and the last run holds the last id |
| EvalOracle.NonAdjacentIdsSeparate | EvalOracle.py:47 | ids 7, 8, 7 form three groups: equal ids that are not neighbours are not merged |
| EvalOracle.RefsReadAll | EvalOracle.py:85-89 | with one reference per generation, as the main block passes them, the references read are `refs` |

## Left out

- The T5 tokenizer and realizer (`realize_all_plans`, `prepare_entry`, the `torch` device set-up) are foreign model code. Generations are given strings.
- `sacrebleu.corpus_bleu` is floating-point library code. Scores come from the abstract `Scorer` as `real`s, so rounding and NaN are not modelled.
- Preprocess.GetBestPlan: takes the generations as a parameter, one per plan, instead of obtaining them from `realize_all_plans`.
- Preprocess.BestGenerationIndex: compares abstract reals, not floats.
- Builtins.IsSpace: a fixed table of the whitespace code points of `str.isspace`, not Python's Unicode database.
- XML parsing and serialisation (`ET.parse`, `ET.tostring`, the `re.sub` and `minidom` pretty-printing in `refine_xml`) are library I/O. The document is an abstract `Element` tree.
- `refine_xml` is out of scope: its per-entry loop, its writing of the chosen plan as `ftriple` elements and `xml_lex_entry_to_plan` are XML glue. What it depends on is modelled: `original_plan` is the first plan (`FlowHintsPermutations`), and the flag written with `str` decodes back (`FlippedRoundTrip`).
- `run_parser`, `refine_dataset`, `os.listdir`, `os.mkdir` and file output are filesystem work.
- The `__main__` blocks are out of scope: their progress messages, the float averages and formatting of the BLEU scores, and the `EOFError` catch around the model call.
- `Lex.tree`, which is always `''`, is not a field of the model's `Lex`.
- The `print` calls inside the `except` blocks for text and template have no effect on the result and are left out.
- Generators are modelled as the lists they yield.
