# Dependency-context pipeline: a Dafny model

This project models the three text-processing steps of a dependency-based
word-embedding pipeline and proves what they compute.

- **Context extraction** (`extract_dependencies`) reads a CoNLL-style token file
  twice. The first pass counts the lower-cased form of every non-blank line. The
  second pass buffers each sentence's tokens until a blank line. It then writes
  one `word<TAB>headword-relation` record per token that is not punctuation and
  has a head. Records are written only for words that reach the frequency
  threshold. The head word is found by list position `head - 1` in the same
  sentence.
- **Vocabulary building** (`build_vocab`) reads the pair file once. It skips
  blank lines and reports lines that are not exactly two tab-separated fields.
  It counts words and contexts in two insertion-ordered counters. It then writes
  every term whose count reaches `min_count`, in first-seen order.
- **Tree reconstruction** (`build_tree`) creates one node per token, plus a
  virtual `ROOT` under id 0. It then hangs each node under the node its head id
  names, or issues a warning when that id is unknown.

## How it is modelled

- Files are sequences of lines.
  - An input file is what Python's file iterator yields, so each line keeps its
    `"\n"`. `extract_dependencies` splits lines without stripping them. So the
    relation, the last field of a token line, keeps the terminator. That
    terminator ends up inside the written context, just before the record's own
    `"\n"`. Only the `punct` test strips the relation.
  - An output file is the sequence of strings handed to `write`.
  - Printed diagnostics are returned as a sequence of strings.
- A Python exception (`IndexError` or `ValueError` in `extract_dependencies`)
  ends the run. It is returned as an `Abort` naming the line and the problem,
  next to the records already written.
- The scripts' loops are methods with loop invariants. Each method is proved to
  compute a specification function:
  - `ExtractDeps.Extraction` for context extraction;
  - `Vocab.Vocabularies` for vocabulary building;
  - `TreeBuilder.Labels` and `TreeBuilder.Linked` for tree reconstruction.

  The lemmas then state what those functions mean.
- The `defaultdict(int)` counters of `build_vocab` are a class, `Vocab.Counter`.
  Its keys are kept in insertion order and its counts in a map. Its abstract
  value is the stream of items fed to it.
- The anytree nodes of `build_tree` are an arena, the class `TreeBuilder.Tree`.
  - Node 0 is `ROOT`, and node `k + 1` belongs to the token at position `k`.
  - Each node's parent is an index into the arena.
  - Each node's children are kept as an ordered list.
  - The script's `nodes` dictionary maps ids to arena indices.
- Python's string builtins are modelled in `Text`:
  - `strip()` over Python's whitespace set;
  - `lower()` on ASCII letters;
  - `split("\t")`;
  - `int()` with sign and underscores, skipping only the whitespace `int()` itself skips;
  - `str()` of an integer.
- Dictionary counting, as `defaultdict(int)` does it, is in `Counts`.
- Tokens are immutable values, so no model operation can change token data.

## Model

| member | source | states |
|---|---|---|
| ExtractDeps.CountWordFrequencies | new-scripts/extract_deps.py:18-23 | the first pass's result is `FirstPass` of the whole file: a frequency table, or the first line without a second field |
| ExtractDeps.CountLine | new-scripts/extract_deps.py:20-23 | one line of the first pass: a blank line is skipped, a line without a tab raises, and otherwise the lower-cased form's count goes up by one |
| ExtractDeps.FirstPassFails | new-scripts/extract_deps.py:19-22 | the count succeeds iff no non-blank line lacks its second field; a failure names the first such line |
| ExtractDeps.FirstPassCounts | new-scripts/extract_deps.py:20-23 | each word's frequency is the number of non-blank lines whose lower-cased second field is that word |
| ExtractDeps.FirstPassWords | new-scripts/extract_deps.py:22-23 | the counted words are exactly the forms read |
| ExtractDeps.FirstPassAbortSticks | new-scripts/extract_deps.py:18-23 | after an exception the first pass's result no longer changes |
| ExtractDeps.ExtractDependencies | new-scripts/extract_deps.py:4-47 | the run's output and exception are `Extraction`: the whole count first, nothing written if it fails, then the emission pass |
| ExtractDeps.EmitPairs | new-scripts/extract_deps.py:27-45 | the second pass's output and exception are `SecondPass` of the whole file, with the completed frequency table |
| ExtractDeps.ProcessLine | new-scripts/extract_deps.py:29-45 | one line of the second pass: a token line is parsed and buffered or raises; a blank line flushes and resets the buffer |
| ExtractDeps.FlushSentence | new-scripts/extract_deps.py:39-44 | the inner loop writes what `Flush` of the buffered sentence writes and stops where it stops |
| ExtractDeps.FlushToken | new-scripts/extract_deps.py:40-44 | one token of the inner loop: eligibility, the head lookup that raises past the end, the threshold, the record |
| ExtractDeps.SecondPassAbortSticks | new-scripts/extract_deps.py:29-45 | after an exception the second pass's state no longer changes |
| ExtractDeps.FlushStopSticks | new-scripts/extract_deps.py:39-44 | after a failed head lookup the flush's result no longer changes |
| ExtractDeps.IsPunctSpec | new-scripts/extract_deps.py:40 | a relation counts as punctuation iff its stripped, lower-cased form is `punct` |
| ExtractDeps.EmitAtCases | new-scripts/extract_deps.py:40-44 | a token raises iff it is eligible with its head past the sentence's end; it is written iff it is eligible, its head is inside and its word is frequent enough, and then as `word<TAB>headword-relation` with the head word at position `head - 1` |
| ExtractDeps.FlushStop | new-scripts/extract_deps.py:41 | flushing stops iff some eligible token's head lies past the sentence's end, and then at the first such token |
| ExtractDeps.FlushOut | new-scripts/extract_deps.py:39-44 | up to where it stops, flushing writes exactly one record per selected token, in token order |
| ExtractDeps.SelectedPairsSound | new-scripts/extract_deps.py:40-44 | every written record belongs to a token that is not punctuation, has a head greater than 0 inside the sentence and a word at the threshold |
| ExtractDeps.FlushWithoutThreshold | new-scripts/extract_deps.py:43 | with a threshold of at most 0, as with the default 0, the frequency table plays no part |
| ExtractDeps.SecondPassBuffer | new-scripts/extract_deps.py:28-45 | until an exception, the buffer holds exactly the tokens read since the last blank line, and nothing has been written since that line: tokens after the last blank line produce no output |
| ExtractDeps.SentenceClosed | new-scripts/extract_deps.py:37-45 | at a blank line the output grows by exactly the flush of the tokens read since the previous blank line, and the buffer is emptied, so no record mixes two sentences |
| ExtractDeps.SecondPassAbortLine | new-scripts/extract_deps.py:29-45 | an exception names a line already processed |
| ExtractDeps.BadTokenAborts | new-scripts/extract_deps.py:31-35 | a token line with a non-integer id or head, or too few fields, ends the second pass with an exception at that line or earlier |
| ExtractDeps.HeadOutOfRangeAborts | new-scripts/extract_deps.py:39-44 | a blank line raises iff its sentence holds an eligible token whose head is past the end; it reports the first such token (no eligible token before it has its head past the end), and the records of the tokens before it are written |
| ExtractDeps.MalformedLineAborts | new-scripts/extract_deps.py:21-35 | on raw lines, a non-blank line that is no token line ends the run with an exception, at that line or earlier when the count succeeded |
| ExtractDeps.FormSpec | new-scripts/extract_deps.py:21-22 | the first pass's `parts[1]` raises on a line iff the line holds no tab |
| ExtractDeps.FormOfFields | new-scripts/extract_deps.py:21-22 | on tab-free fields joined by tabs, the form counted is the second field, lower-cased |
| ExtractDeps.ParseTokenSpec | new-scripts/extract_deps.py:31-35 | a token is read iff there are at least eight fields and the id and head fields are integers; `ValueError` iff the id is no integer, or the head is no integer and present; `IndexError` otherwise, i.e. a valid id with fewer than seven fields or a valid head with exactly seven; a read token carries the parsed id and head, the tab-free eighth field as relation, and the form the first pass counted |
| ExtractDeps.TokenLineRead | new-scripts/extract_deps.py:31-35 | tab-free fields with integer id and head fields, eight or more, joined by tabs, are read back as the token they describe, by both passes |
| ExtractDeps.PunctAnyCase | new-scripts/extract_deps.py:40 | every capitalisation of `punct` (`PUNCT`, `Punct`, …), with the line terminator attached, is punctuation |
| ExtractDeps.NotPunctLabel | new-scripts/extract_deps.py:40 | a relation without outer whitespace whose first letter is not `p` or `P` is not punctuation, even with the line terminator attached |
| ExtractDeps.BarkLabels | new-scripts/extract_deps.py:40 | `nsubj` and `advmod`, terminator attached, are not punctuation |
| ExtractDeps.FlushSubjectRootModifier | new-scripts/extract_deps.py:39-44 | in a subject, root, modifier sentence ("Dogs bark loudly"), flushing with the default threshold writes the subject's record and then the modifier's, both with the root's word as head word, and nothing for the root |
| ExtractDeps.OneSentenceRun | new-scripts/extract_deps.py:18-45 | a file of three readable token lines and a blank line ends with exactly what flushing that sentence writes, raising at the blank line iff a head lookup fails |
| ExtractDeps.SubjectRootModifierRun | new-scripts/extract_deps.py:4-47 | "Dogs bark loudly" in the eight-field format, then a blank line, with threshold 0, for any tab-free forms and non-punctuation relations: the run ends normally having written two records, the subject's and then the modifier's, each `word<TAB>head-relation<NEWLINE><NEWLINE>` with lower-cased forms and the root's form as head |
| ExtractDeps.ConllLineFields | new-scripts/generate_conll.py:16 | a line in the eight-field format splits back into its eight fields |
| ExtractDeps.ConllLineRead | new-scripts/generate_conll.py:16 | both passes read such a line back: not blank, lower-cased form, the written id and head, and a relation that keeps the line terminator |
| Vocab.BuildVocab | new-scripts/vocab.py:3-43 | the two files written and the diagnostics printed are `Vocabularies` of the pair file |
| Vocab.CountLine | new-scripts/vocab.py:19-27 | one line: a pair adds its word to one counter and its context to the other, a malformed line adds a diagnostic quoting the stripped line, and a blank line does nothing |
| Vocab.Counter.Increment | new-scripts/vocab.py:24-25 | `counter[k] += 1`: a new key goes after the existing keys with count 1, an old key's count goes up by one, and the counter stays the one fed its stream plus `k` |
| Vocab.Counter.constructor | new-scripts/vocab.py:13-14 | an empty counter, fed nothing |
| Vocab.WriteVocabulary | new-scripts/vocab.py:31-34 | the file written from a counter is the rendered vocabulary of the stream that fed it |
| Vocab.VocabularySound | new-scripts/vocab.py:32-34 | every written entry reaches `min_count` and carries its term's full count in the stream |
| Vocab.VocabularyComplete | new-scripts/vocab.py:32-34 | every term whose count reaches `min_count` is written, with that count |
| Vocab.VocabularyOrder | new-scripts/vocab.py:24-32 | entries come in the order their terms were first seen, with no term written twice |
| Vocab.AtLeastMembers | new-scripts/vocab.py:33 | filtering keeps exactly the entries that reach the threshold |
| Vocab.AtLeastInOrder | new-scripts/vocab.py:32-33 | filtering keeps the order of the entries it keeps |
| Vocab.AtLeastTwice | new-scripts/vocab.py:33-40 | filtering by a lower and then a higher threshold is filtering by the higher one |
| Vocab.RaiseThreshold | new-scripts/vocab.py:33-40 | a higher threshold's vocabulary is the lower one's, filtered: a subsequence with the same counts |
| Vocab.IgnoredLine | new-scripts/vocab.py:20-27 | a blank or malformed line, wherever it stands, changes neither vocabulary file |
| Vocab.PairLineCounted | new-scripts/vocab.py:22-25 | a well-formed line adds 1 to its word's count and 1 to its context's count, and nothing to any other |
| Vocab.CounterTotals | new-scripts/vocab.py:22-25 | both counters' totals equal the number of well-formed lines |
| Vocab.BlankLine | new-scripts/vocab.py:20 | a line is skipped as blank iff it is all whitespace |
| Vocab.ReadPairSpec | new-scripts/vocab.py:20-27 | a line is skipped as blank iff it is all whitespace; it is a pair iff its stripped text holds exactly one tab, the two non-empty tab-free fields being the text on either side of it; otherwise the diagnostic quotes the stripped line |
| Vocab.RecordRead | new-scripts/vocab.py:19-23 | a record `word<TAB>context<NEWLINE>` is read back as that pair when neither field holds a tab, the word does not start with whitespace and the context does not end with it; the extraction step's actual output for a pair, whose context carries its own terminator, is that record plus a newline, which the file iterator yields as the pair's line and then a blank line |
| Vocab.ThreeAndOne | new-scripts/vocab.py:24-34 | three occurrences of one word and one of another, with threshold 2, give the single entry of the first, with count 3 |
| Vocab.FourOfOne | new-scripts/vocab.py:25-41 | four occurrences of one context, with threshold 2, give its single entry with count 4 |
| Vocab.DogsAndCats | new-scripts/vocab.py:13-41 | three `dogs<TAB>bark-nsubj` lines and one `cats<TAB>bark-nsubj` with threshold 2 write `dogs<TAB>3` and `bark-nsubj<TAB>4`, and nothing is skipped |
| Counts.CounterStep | new-scripts/vocab.py:24-25 | one more item is appended to the keys if it is new, and its count goes up by one |
| Counts.FirstSeenSpec | new-scripts/vocab.py:24-25 | a counter's keys are exactly the items fed, each once, and they are its count map's keys |
| Counts.TallyCounts | new-scripts/vocab.py:24-25 | each key's count is its number of occurrences in the stream |
| Counts.FirstSeenOrder | new-scripts/vocab.py:24-32 | the keys come in the order of their first occurrence |
| Counts.TallyTotal | new-scripts/vocab.py:24-25 | a counter's counts sum to the length of its stream |
| Counts.FirstIndex | new-scripts/vocab.py:32 | the position of the first occurrence of an item |
| TreeBuilder.BuildTree | new-scripts/tree_builder.py:7-27 | the returned node is arena index 0, the dictionary's entry for id 0; the arena holds `Labels` and the links and warnings are `Linked`, for sentences with distinct positive ids and acyclic heads |
| TreeBuilder.CreateNodes | new-scripts/tree_builder.py:11-17 | the first pass leaves `ROOT` and one unlinked node per token, and the dictionary `Index` |
| TreeBuilder.LinkNodes | new-scripts/tree_builder.py:20-25 | the second pass leaves the labels alone and computes `Linked` |
| TreeBuilder.LinkToken | new-scripts/tree_builder.py:21-25 | one token of the second pass: a head in the dictionary links the token's node under the head's node, and an unknown head adds the warning |
| TreeBuilder.Tree.constructor | new-scripts/tree_builder.py:11 | an arena holding only the `ROOT` node |
| TreeBuilder.Tree.NewNode | new-scripts/tree_builder.py:17 | a new node with its label, no parent and no children |
| TreeBuilder.Tree.SetParent | new-scripts/tree_builder.py:23 | setting a parentless node's parent makes it that node's last child |
| TreeBuilder.IndexAt | new-scripts/tree_builder.py:14-17 | with distinct positive ids, each token's id names that token's node |
| TreeBuilder.IndexAtRoot | new-scripts/tree_builder.py:11-27 | with positive ids, id 0 still names `ROOT`, the node returned |
| TreeBuilder.IndexKeys | new-scripts/tree_builder.py:11-22 | the dictionary's keys are 0 and the tokens' ids |
| TreeBuilder.HeadNodeIndex | new-scripts/tree_builder.py:22-23 | the test `head in nodes` holds iff the head is 0 or some token's id, before or after the token, and then `nodes[head]` is that node |
| TreeBuilder.LinkedStep | new-scripts/tree_builder.py:20-25 | one step of the second pass touches only the token's own node and its head's child list, or only the warnings |
| TreeBuilder.LabelsSpec | new-scripts/tree_builder.py:11-17 | node 0 is labelled `ROOT` and each token's node is labelled `form (deprel)` |
| TreeBuilder.LinkedParents | new-scripts/tree_builder.py:20-25 | after linking, each token's node has as parent the node its own head names, or none; `ROOT` has none |
| TreeBuilder.LinkedChildren | new-scripts/tree_builder.py:20-23 | a node's children are exactly the nodes of the tokens whose head names it, in token order |
| TreeBuilder.LinkedWarnings | new-scripts/tree_builder.py:22-25 | one warning is issued per token whose head names no node, in token order |
| TreeBuilder.ParentIsRoot | new-scripts/tree_builder.py:11-23 | a token with head 0 hangs under `ROOT` |
| TreeBuilder.ParentIsHeadToken | new-scripts/tree_builder.py:13-23 | a token whose head is another token's id hangs under that token's node, including a token later in the sentence |
| TreeBuilder.OrphanToken | new-scripts/tree_builder.py:22-25 | a token whose head is neither 0 nor any token's id keeps no parent, and its warning is issued |
| TreeBuilder.ParentsAndChildren | new-scripts/tree_builder.py:23 | a node is among `p`'s children iff its parent is `p` |
| TreeBuilder.ChainsEnd | new-scripts/tree_builder.py:20-27 | with acyclic heads, every node's chain of parents ends at a node without a parent, which is `ROOT` or an orphan token's node |
| TreeBuilder.Find | new-scripts/tree_builder.py:22 | the position of a token with a given id such that no earlier token has it, or none when no token has it |
| TreeBuilder.FindIndex | new-scripts/tree_builder.py:14-17 | with distinct ids, the token a node's id is looked up for is found at its own position |
| Text.StripSpec | new-scripts/extract_deps.py:20 | `strip()` is empty iff the line is all whitespace; otherwise it starts and ends with a non-space character; and it is an infix of the line whose margins on both sides are all whitespace |
| Text.IntSpaceAscii | new-scripts/extract_deps.py:32 | among ASCII characters `int()` skips exactly tab, line feed, vertical tab, form feed, carriage return and space |
| Text.SeparatorIsNoIntSpace | new-scripts/extract_deps.py:32 | `int()` of an information separator followed by `1` fails, although `strip()` removes the separator |
| Text.StripUnchanged | new-scripts/vocab.py:21 | a string without outer whitespace is its own strip |
| Text.LowerSpec | new-scripts/extract_deps.py:22 | lower-casing keeps the length, turns each of 'A'–'Z' into its own lower-case letter ('a'–'z'), leaves no upper-case ASCII letter and changes nothing else |
| Text.LowerIgnoresCase | new-scripts/extract_deps.py:22 | strings that agree letter for letter up to ASCII case lower-case to the same string, so `Dog` and `dog` are one form |
| Text.LowerIdempotent | new-scripts/extract_deps.py:22 | lower-casing twice is lower-casing once |
| Text.SplitSpec | new-scripts/extract_deps.py:21 | `split("\t")` gives one field more than there are tabs, and no field holds a tab |
| Text.SplitJoin | new-scripts/extract_deps.py:31 | joining the fields with tabs gives the line back |
| Text.JoinSplit | new-scripts/generate_conll.py:16 | tab-free fields joined with tabs split back into those fields |
| Text.SplitWithoutSep | new-scripts/vocab.py:21 | a string without a tab is one field |
| Text.SplitAtFirstSep | new-scripts/vocab.py:21-23 | the field before the first tab is split off unchanged |
| Text.NatToStringSpec | new-scripts/vocab.py:34 | a count is written as a non-empty run of digits without a leading zero |
| Text.IntToStringChars | new-scripts/generate_conll.py:16 | a written integer is digits with at most a leading minus, so it holds no tab |
| Text.ParseIntOfIntToString | new-scripts/extract_deps.py:32-34 | `int()` reads back any integer an f-string wrote |
| Text.ParseNatOfNatToString | new-scripts/extract_deps.py:32 | the unsigned part of `int()` reads back any written natural number |

## Left out

- All `__main__` blocks: the interactive prompts and the `isdigit` defaulting of thresholds.
- File opening and closing: files are sequences of lines.
- The progress messages printed by `extract_dependencies` and `build_vocab`: they do not depend on the data.
- `save_trees_to_json` (new-scripts/tree_builder.py:30-49): the `conllu` parser and anytree's JSON exporter are library code. new-scripts/visualize_trees.py and new-scripts/train_embeddings.py are not part of this model.
- new-scripts/generate_conll.py is not part of this model. Only its line format (line 16) is modelled, as `ExtractDeps.ConllLine`.
- `build_tree` tokens carry only the fields it reads: id, form, head and deprel.
- TreeBuilder.BuildTree: requires distinct token ids of at least 1. A duplicate id or id 0 would replace a node in the `nodes` dictionary, and then a node's parent could be set twice.
- TreeBuilder.BuildTree: requires acyclic heads, because anytree raises `LoopError` on a cycle; the exception is not modelled.
- TreeBuilder.Tree.SetParent: only handles a node that has no parent yet. Under `BuildTree`'s precondition no node is linked twice, so anytree's detaching from an old parent is not modelled.
- Text.Lower: lower-cases ASCII letters only; Python's full Unicode case mapping is not modelled.
- Text.ParseInt: accepts ASCII digits only; other Unicode decimal digits that `int()` accepts are not modelled.
- Text.ParseInt: reads digit runs of any length; the limit of 4300 digits that `int()` enforces since Python 3.11 (a `ValueError` beyond it) is not modelled.
- Vocab.BuildVocab: takes `min_count` as a parameter; its default of 5 (new-scripts/vocab.py:3) is not modelled, because the only call (new-scripts/vocab.py:66) passes a value, 5 when the prompt gets no number.
