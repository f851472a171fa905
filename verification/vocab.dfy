/**
  `build_vocab` (new-scripts/vocab.py): count the words and the contexts of a
  `word<TAB>context` pair file and write, for each, the entries whose count
  reaches the threshold, as `term<TAB>count` lines.

  The pair file is the sequence of lines Python's file iterator yields; each
  vocabulary file is the sequence of strings handed to `write`; the "Skipping
  malformed line" diagnostics are returned as a third sequence. The run is
  specified by `Vocabularies`; `BuildVocab` is the script's loop, proved to compute
  it. The lemmas state what the counts and the written entries are.
*/
module Vocab {
  import opened Text
  import opened Counts
  import ExtractDeps

  // ---------------------------------------------------------------------------
  // Reading one line of the pair file

  /** What one line of the pair file is to the counting loop. */
  datatype PairLine = Blank | Malformed(text: string) | Pair(word: string, context: string)

  /** `line.strip()`, then `split("\t")` into exactly two fields; `text` is the
      stripped line the diagnostic quotes. */
  function ReadPair(line: string): PairLine {
    var text := Strip(line);
    if text == [] then Blank
    else
      var parts := Split(text, '\t');
      if |parts| == 2 then Pair(parts[0], parts[1]) else Malformed(text)
  }

  /** A line is blank exactly when it is all whitespace; it is a pair exactly when
      its stripped text holds one tab, the two fields being the text on either side
      of it, neither of them empty; otherwise it is malformed and the diagnostic
      quotes the stripped text. */
  lemma ReadPairSpec(line: string)
    ensures ReadPair(line).Blank? <==> AllSpace(line)
    ensures ReadPair(line).Pair? <==> !AllSpace(line) && multiset(Strip(line))['\t'] == 1
    ensures ReadPair(line).Pair? ==>
      var p := ReadPair(line);
      && Strip(line) == p.word + "\t" + p.context
      && p.word != [] && p.context != []
      && '\t' !in p.word && '\t' !in p.context
    ensures ReadPair(line).Malformed? ==> ReadPair(line).text == Strip(line)
  {
    var text := Strip(line);
    StripSpec(line);
    if text != [] {
      var parts := Split(text, '\t');
      SplitSpec(text, '\t');
      if |parts| == 2 {
        SplitJoin(text, '\t');
        assert Join(parts[1..], '\t') == parts[1];
        assert text == parts[0] + "\t" + parts[1];
        assert parts[0] != [] by { assert IsSpace('\t'); }
        assert parts[1] != [] by { assert IsSpace('\t'); }
      }
    }
  }

  /** The diagnostic printed for a malformed line. */
  function SkipMessage(text: string): string {
    "Skipping malformed line: " + text
  }

  /** The pair file, line by line, as the counting loop reads it. */
  function Reads(lines: seq<string>): (ps: seq<PairLine>)
    ensures |ps| == |lines|
  {
    if lines == [] then [] else Reads(lines[..|lines| - 1]) + [ReadPair(lines[|lines| - 1])]
  }

  /** What one line adds to the word counter: its first field, if it is well formed. */
  function WordOf(p: PairLine): seq<string> {
    match p case Pair(w, _) => [w] case _ => []
  }

  /** What one line adds to the context counter: its second field, if it is well formed. */
  function ContextOf(p: PairLine): seq<string> {
    match p case Pair(_, c) => [c] case _ => []
  }

  /** What one line prints: a diagnostic, if it is malformed. */
  function MessageOf(p: PairLine): seq<string> {
    match p case Malformed(t) => [SkipMessage(t)] case _ => []
  }

  /** The first fields of the well-formed lines, in file order. */
  function Words(ps: seq<PairLine>): seq<string> {
    if ps == [] then [] else Words(ps[..|ps| - 1]) + WordOf(ps[|ps| - 1])
  }

  /** The second fields of the well-formed lines, in file order. */
  function Contexts(ps: seq<PairLine>): seq<string> {
    if ps == [] then [] else Contexts(ps[..|ps| - 1]) + ContextOf(ps[|ps| - 1])
  }

  /** One diagnostic per malformed line, in file order. */
  function Skipped(ps: seq<PairLine>): seq<string> {
    if ps == [] then [] else Skipped(ps[..|ps| - 1]) + MessageOf(ps[|ps| - 1])
  }

  // ---------------------------------------------------------------------------
  // Vocabulary entries and the files they are written to

  /** One `(term, count)` item of a counter. */
  datatype Entry = Entry(term: string, count: nat)

  /** `counter.items()`: every key with its count, in insertion order. */
  function Entries(keys: seq<string>, counts: map<string, nat>): (es: seq<Entry>)
    ensures |es| == |keys|
  {
    if keys == [] then []
    else Entries(keys[..|keys| - 1], counts) + [Entry(keys[|keys| - 1], Count(counts, keys[|keys| - 1]))]
  }

  /** The entries whose count is at least `minCount`, in their order. */
  function AtLeast(es: seq<Entry>, minCount: int): seq<Entry> {
    if es == [] then []
    else AtLeast(es[..|es| - 1], minCount) + if es[|es| - 1].count >= minCount then [es[|es| - 1]] else []
  }

  /** The vocabulary of a stream of terms: the counter's items that reach the threshold. */
  function Vocabulary(xs: seq<string>, minCount: int): seq<Entry> {
    AtLeast(Entries(FirstSeen(xs), Tally(xs)), minCount)
  }

  /** The line `f"{term}\t{count}\n"`. */
  function VocabLine(e: Entry): string {
    e.term + "\t" + IntToString(e.count) + "\n"
  }

  function Render(es: seq<Entry>): (file: seq<string>)
    ensures |file| == |es|
  {
    if es == [] then [] else Render(es[..|es| - 1]) + [VocabLine(es[|es| - 1])]
  }

  /** What a run leaves behind: the two vocabulary files and the diagnostics. */
  datatype Output = Output(wordFile: seq<string>, contextFile: seq<string>, messages: seq<string>)

  /** The whole run: both vocabularies of the pair file, with the same threshold. */
  function Vocabularies(lines: seq<string>, minCount: int): Output {
    var ps := Reads(lines);
    Output(Render(Vocabulary(Words(ps), minCount)), Render(Vocabulary(Contexts(ps), minCount)), Skipped(ps))
  }

  // ---------------------------------------------------------------------------
  // The program

  /** A `defaultdict(int)` used as a counter: its keys in insertion order, and
      their counts. Its abstract value is the stream of items it has been fed. */
  class Counter {
    var keys: seq<string>
    var counts: map<string, nat>
    ghost var fed: seq<string>

    ghost predicate Valid()
      reads this
    {
      keys == FirstSeen(fed) && counts == Tally(fed)
    }

    constructor ()
      ensures Valid() && fed == []
    {
      keys := [];
      counts := map[];
      fed := [];
    }

    /** `counter[k] += 1`: a new key is inserted after the others, with count 1. */
    method Increment(k: string)
      requires Valid()
      modifies this
      ensures Valid() && fed == old(fed) + [k]
      ensures keys == if k in old(keys) then old(keys) else old(keys) + [k]
      ensures counts == old(counts)[k := Count(old(counts), k) + 1]
    {
      CounterStep(fed, k);
      FirstSeenSpec(fed);
      if k in counts {
        counts := counts[k := counts[k] + 1];
      } else {
        keys := keys + [k];
        counts := counts[k := 1];
      }
      fed := fed + [k];
    }
  }

  /** Lines 31-34 (and 38-41): write the items of a counter whose count reaches the
      threshold, in the counter's order. */
  method WriteVocabulary(c: Counter, minCount: int) returns (file: seq<string>)
    requires c.Valid()
    ensures file == Render(Vocabulary(c.fed, minCount))
  {
    FirstSeenSpec(c.fed);
    file := [];
    var j := 0;
    while j < |c.keys|
      invariant j <= |c.keys|
      invariant file == Render(AtLeast(Entries(c.keys[..j], c.counts), minCount))
    {
      var term := c.keys[j];
      var count := c.counts[term];
      WriteStep(c.keys, c.counts, j, minCount);
      if count >= minCount {
        file := file + [VocabLine(Entry(term, count))];
      }
      j := j + 1;
    }
    assert c.keys[..j] == c.keys;
  }

  /** Lines 19-27: one iteration of the counting loop. */
  method CountLine(line: string, words: Counter, contexts: Counter) returns (message: seq<string>)
    requires words != contexts && words.Valid() && contexts.Valid()
    modifies words, contexts
    ensures words.Valid() && contexts.Valid()
    ensures words.fed == old(words.fed) + WordOf(ReadPair(line))
    ensures contexts.fed == old(contexts.fed) + ContextOf(ReadPair(line))
    ensures message == MessageOf(ReadPair(line))
  {
    match ReadPair(line)
    case Pair(w, c) =>
      words.Increment(w);
      contexts.Increment(c);
      message := [];
    case Malformed(text) =>
      message := [SkipMessage(text)];
    case Blank =>
      message := [];
  }

  /** `build_vocab(input_file, word_vocab_file, context_vocab_file, min_count)`:
      one counting pass over the pair file, then the two filtered writes. */
  method BuildVocab(lines: seq<string>, minCount: int) returns (wordFile: seq<string>, contextFile: seq<string>, messages: seq<string>)
    ensures Output(wordFile, contextFile, messages) == Vocabularies(lines, minCount)
  {
    var words := new Counter();
    var contexts := new Counter();
    messages := [];
    var i := 0;
    while i < |lines|
      invariant i <= |lines|
      invariant words != contexts && words.Valid() && contexts.Valid()
      invariant words.fed == Words(Reads(lines[..i])) && contexts.fed == Contexts(Reads(lines[..i]))
      invariant messages == Skipped(Reads(lines[..i]))
    {
      ghost var ps := Reads(lines[..i]);
      assert lines[..i + 1][..i] == lines[..i];
      assert Reads(lines[..i + 1]) == ps + [ReadPair(lines[i])];
      assert (ps + [ReadPair(lines[i])])[..i] == ps;
      var message := CountLine(lines[i], words, contexts);
      messages := messages + message;
      i := i + 1;
    }
    assert lines[..i] == lines;
    wordFile := WriteVocabulary(words, minCount);
    contextFile := WriteVocabulary(contexts, minCount);
  }

  /** Writing one more item of the counter. */
  lemma WriteStep(keys: seq<string>, counts: map<string, nat>, j: nat, minCount: int)
    requires j < |keys|
    ensures var e := Entry(keys[j], Count(counts, keys[j]));
      Render(AtLeast(Entries(keys[..j + 1], counts), minCount))
        == Render(AtLeast(Entries(keys[..j], counts), minCount)) + if e.count >= minCount then [VocabLine(e)] else []
  {
    var es := Entries(keys[..j], counts);
    var e := Entry(keys[j], Count(counts, keys[j]));
    assert keys[..j + 1][..j] == keys[..j];
    assert Entries(keys[..j + 1], counts) == es + [e];
    AtLeastSnoc(es, e, minCount);
    RenderSnoc(AtLeast(es, minCount), e);
    if e.count >= minCount {
      assert AtLeast(es + [e], minCount) == AtLeast(es, minCount) + [e];
    } else {
      assert AtLeast(es + [e], minCount) == AtLeast(es, minCount);
    }
  }

  lemma AtLeastSnoc(es: seq<Entry>, e: Entry, minCount: int)
    ensures AtLeast(es + [e], minCount) == AtLeast(es, minCount) + if e.count >= minCount then [e] else []
  {
    assert (es + [e])[..|es|] == es;
  }

  lemma RenderSnoc(es: seq<Entry>, e: Entry)
    ensures Render(es + [e]) == Render(es) + [VocabLine(e)]
  {
    assert (es + [e])[..|es|] == es;
  }

  // ---------------------------------------------------------------------------
  // What a vocabulary holds

  lemma {:induction false} EntriesAt(keys: seq<string>, counts: map<string, nat>, i: nat)
    requires i < |keys|
    ensures Entries(keys, counts)[i] == Entry(keys[i], Count(counts, keys[i]))
  {
    if i < |keys| - 1 {
      EntriesAt(keys[..|keys| - 1], counts, i);
    }
  }

  /** Filtering keeps exactly the entries that reach the threshold. */
  lemma {:induction false} AtLeastMembers(es: seq<Entry>, minCount: int)
    ensures |AtLeast(es, minCount)| <= |es|
    ensures forall e :: e in AtLeast(es, minCount) <==> e in es && e.count >= minCount
  {
    if es != [] {
      AtLeastMembers(es[..|es| - 1], minCount);
      assert es == es[..|es| - 1] + [es[|es| - 1]];
    }
  }

  /** The entries are in the order in which their terms first occur in `xs`. */
  predicate InStreamOrder(es: seq<Entry>, xs: seq<string>) {
    forall a, b :: 0 <= a < b < |es| ==>
      es[a].term in xs && es[b].term in xs && FirstIndex(xs, es[a].term) < FirstIndex(xs, es[b].term)
  }

  /** The positions in `es` of the entries that filtering keeps: each kept entry
      is the entry at its position, and the positions increase. */
  function Kept(es: seq<Entry>, minCount: int): (ps: seq<nat>)
    ensures |ps| == |AtLeast(es, minCount)|
    ensures forall a :: 0 <= a < |ps| ==> ps[a] < |es| && AtLeast(es, minCount)[a] == es[ps[a]]
    ensures forall a, b :: 0 <= a < b < |ps| ==> ps[a] < ps[b]
  {
    if es == [] then []
    else
      var init := es[..|es| - 1];
      var ps := Kept(init, minCount);
      assert forall a :: 0 <= a < |ps| ==> es[ps[a]] == init[ps[a]];
      if es[|es| - 1].count >= minCount then ps + [|es| - 1] else ps
  }

  /** Filtering keeps the order of what it keeps. */
  lemma AtLeastInOrder(es: seq<Entry>, minCount: int, xs: seq<string>)
    requires InStreamOrder(es, xs)
    ensures InStreamOrder(AtLeast(es, minCount), xs)
  {
    var kept := AtLeast(es, minCount);
    var ps := Kept(es, minCount);
    forall a, b | 0 <= a < b < |kept|
      ensures kept[a].term in xs && kept[b].term in xs && FirstIndex(xs, kept[a].term) < FirstIndex(xs, kept[b].term)
    {
      var i, j := ps[a], ps[b];
      assert kept[a] == es[i] && kept[b] == es[j] && i < j;
    }
  }

  /** Every written entry has reached the threshold and carries its term's full
      count in the stream. */
  lemma VocabularySound(xs: seq<string>, minCount: int)
    ensures forall e :: e in Vocabulary(xs, minCount) ==>
      e.count >= minCount && e.term in xs && e.count == multiset(xs)[e.term]
  {
    var keys := FirstSeen(xs);
    var es := Entries(keys, Tally(xs));
    AtLeastMembers(es, minCount);
    FirstSeenSpec(xs);
    forall e | e in Vocabulary(xs, minCount)
      ensures e.count >= minCount && e.term in xs && e.count == multiset(xs)[e.term]
    {
      var i :| 0 <= i < |es| && es[i] == e;
      EntriesAt(keys, Tally(xs), i);
      TallyCounts(xs, e.term);
    }
  }

  /** Every term of the stream whose count reaches the threshold is written, with
      that count. */
  lemma VocabularyComplete(xs: seq<string>, minCount: int, t: string)
    requires t in xs && multiset(xs)[t] >= minCount
    ensures Entry(t, multiset(xs)[t]) in Vocabulary(xs, minCount)
  {
    var keys := FirstSeen(xs);
    var es := Entries(keys, Tally(xs));
    FirstSeenSpec(xs);
    var i :| 0 <= i < |keys| && keys[i] == t;
    EntriesAt(keys, Tally(xs), i);
    TallyCounts(xs, t);
    AtLeastMembers(es, minCount);
  }

  /** The entries come in the order their terms were first seen; in particular no
      term is written twice. */
  lemma VocabularyOrder(xs: seq<string>, minCount: int)
    ensures InStreamOrder(Vocabulary(xs, minCount), xs)
    ensures forall a, b :: 0 <= a < b < |Vocabulary(xs, minCount)| ==>
      Vocabulary(xs, minCount)[a].term != Vocabulary(xs, minCount)[b].term
  {
    var keys := FirstSeen(xs);
    var es := Entries(keys, Tally(xs));
    FirstSeenOrder(xs);
    forall i | 0 <= i < |es| ensures es[i].term == keys[i] {
      EntriesAt(keys, Tally(xs), i);
    }
    AtLeastInOrder(es, minCount, xs);
  }

  /** Filtering twice is filtering once by the higher threshold. */
  lemma {:induction false} AtLeastTwice(es: seq<Entry>, low: int, high: int)
    requires low <= high
    ensures AtLeast(AtLeast(es, low), high) == AtLeast(es, high)
  {
    if es != [] {
      var init := es[..|es| - 1];
      var last := es[|es| - 1];
      AtLeastTwice(init, low, high);
      assert es == init + [last];
      AtLeastSnoc(init, last, low);
      AtLeastSnoc(init, last, high);
      if last.count >= low {
        AtLeastSnoc(AtLeast(init, low), last, high);
      } else {
        assert AtLeast(es, low) == AtLeast(init, low) + [] == AtLeast(init, low);
        assert AtLeast(es, high) == AtLeast(init, high) + [] == AtLeast(init, high);
      }
    }
  }

  /** Raising the threshold keeps exactly the entries of the lower-threshold
      vocabulary that reach the higher one, in the same order: never a new entry,
      never a changed count. */
  lemma RaiseThreshold(xs: seq<string>, low: int, high: int)
    requires low <= high
    ensures Vocabulary(xs, high) == AtLeast(Vocabulary(xs, low), high)
    ensures |Vocabulary(xs, high)| <= |Vocabulary(xs, low)|
  {
    AtLeastTwice(Entries(FirstSeen(xs), Tally(xs)), low, high);
    AtLeastMembers(Vocabulary(xs, low), high);
  }

  // ---------------------------------------------------------------------------
  // What each line contributes

  lemma {:induction false} ReadsAppend(a: seq<string>, b: seq<string>)
    ensures Reads(a + b) == Reads(a) + Reads(b)
    decreases |b|
  {
    if b == [] {
      assert a + b == a;
    } else {
      ReadsAppend(a, b[..|b| - 1]);
      assert (a + b)[..|a + b| - 1] == a + b[..|b| - 1];
    }
  }

  lemma {:induction false} WordsAppend(a: seq<PairLine>, b: seq<PairLine>)
    ensures Words(a + b) == Words(a) + Words(b)
    decreases |b|
  {
    if b == [] {
      assert a + b == a;
    } else {
      var init, last := b[..|b| - 1], b[|b| - 1];
      var ab := a + b;
      assert ab[..|ab| - 1] == a + init && ab[|ab| - 1] == last;
      calc {
        Words(ab);
        Words(a + init) + WordOf(last);
        { WordsAppend(a, init); }
        (Words(a) + Words(init)) + WordOf(last);
        Words(a) + (Words(init) + WordOf(last));
        Words(a) + Words(b);
      }
    }
  }

  lemma {:induction false} ContextsAppend(a: seq<PairLine>, b: seq<PairLine>)
    ensures Contexts(a + b) == Contexts(a) + Contexts(b)
    decreases |b|
  {
    if b == [] {
      assert a + b == a;
    } else {
      var init, last := b[..|b| - 1], b[|b| - 1];
      var ab := a + b;
      assert ab[..|ab| - 1] == a + init && ab[|ab| - 1] == last;
      calc {
        Contexts(ab);
        Contexts(a + init) + ContextOf(last);
        { ContextsAppend(a, init); }
        (Contexts(a) + Contexts(init)) + ContextOf(last);
        Contexts(a) + (Contexts(init) + ContextOf(last));
        Contexts(a) + Contexts(b);
      }
    }
  }

  /** The fields counted from `a + [line] + b`, and from `a + b`. */
  lemma FieldsAround(a: seq<string>, line: string, b: seq<string>)
    ensures var p := ReadPair(line);
      && Words(Reads(a + [line] + b)) == Words(Reads(a)) + WordOf(p) + Words(Reads(b))
      && Contexts(Reads(a + [line] + b)) == Contexts(Reads(a)) + ContextOf(p) + Contexts(Reads(b))
      && Words(Reads(a + b)) == Words(Reads(a)) + Words(Reads(b))
      && Contexts(Reads(a + b)) == Contexts(Reads(a)) + Contexts(Reads(b))
  {
    var p := ReadPair(line);
    ReadsAppend(a, [line]);
    ReadsAppend(a + [line], b);
    ReadsAppend(a, b);
    assert Reads([line]) == [p] by {
      assert [line][..0] == [];
    }
    WordsAppend(Reads(a), [p]);
    WordsAppend(Reads(a) + [p], Reads(b));
    WordsAppend(Reads(a), Reads(b));
    ContextsAppend(Reads(a), [p]);
    ContextsAppend(Reads(a) + [p], Reads(b));
    ContextsAppend(Reads(a), Reads(b));
    assert [p][..0] == [];
  }

  /** A blank or malformed line, wherever it stands, changes neither vocabulary
      file. */
  lemma IgnoredLine(a: seq<string>, line: string, b: seq<string>, minCount: int)
    requires !ReadPair(line).Pair?
    ensures Vocabularies(a + [line] + b, minCount).wordFile == Vocabularies(a + b, minCount).wordFile
    ensures Vocabularies(a + [line] + b, minCount).contextFile == Vocabularies(a + b, minCount).contextFile
  {
    FieldsAround(a, line, b);
    assert Words(Reads(a)) + [] == Words(Reads(a));
    assert Contexts(Reads(a)) + [] == Contexts(Reads(a));
  }

  /** A well-formed line, wherever it stands, adds exactly 1 to its word's count and
      1 to its context's count, and nothing to any other. */
  lemma PairLineCounted(a: seq<string>, line: string, b: seq<string>, k: string)
    requires ReadPair(line).Pair?
    ensures Count(Tally(Words(Reads(a + [line] + b))), k)
      == Count(Tally(Words(Reads(a + b))), k) + if k == ReadPair(line).word then 1 else 0
    ensures Count(Tally(Contexts(Reads(a + [line] + b))), k)
      == Count(Tally(Contexts(Reads(a + b))), k) + if k == ReadPair(line).context then 1 else 0
  {
    var p := ReadPair(line);
    FieldsAround(a, line, b);
    TallyOneMore(Words(Reads(a)), p.word, Words(Reads(b)), k);
    TallyOneMore(Contexts(Reads(a)), p.context, Contexts(Reads(b)), k);
  }

  /** One more occurrence of `x` in a stream adds one to the count of `x` alone. */
  lemma TallyOneMore(xs: seq<string>, x: string, ys: seq<string>, k: string)
    ensures Count(Tally(xs + [x] + ys), k) == Count(Tally(xs + ys), k) + if k == x then 1 else 0
  {
    TallyCounts(xs + [x] + ys, k);
    TallyCounts(xs + ys, k);
    assert multiset(xs + [x] + ys) == multiset(xs + ys) + multiset{x};
  }

  /** Both counters count the same lines: their totals are equal, and equal to the
      number of well-formed lines. */
  lemma {:induction false} CounterTotals(ps: seq<PairLine>)
    ensures |Words(ps)| == |Contexts(ps)|
    ensures Total(FirstSeen(Words(ps)), Tally(Words(ps))) == |Words(ps)|
    ensures Total(FirstSeen(Contexts(ps)), Tally(Contexts(ps))) == |Contexts(ps)|
  {
    if ps != [] {
      CounterTotals(ps[..|ps| - 1]);
    }
    TallyTotal(Words(ps));
    TallyTotal(Contexts(ps));
  }

  // ---------------------------------------------------------------------------
  // Which lines are read as pairs

  /** A line is skipped as blank exactly when it is all whitespace. */
  lemma BlankLine(line: string)
    ensures ReadPair(line).Blank? <==> AllSpace(line)
  {
    StripSpec(line);
  }

  /** A record as the extraction step writes it, `f"{word}\t{context}\n"`, is read
      back as that pair when neither field holds a tab, the word does not start with
      whitespace and the context does not end with it. The extraction step's contexts
      carry their own trailing newline, so what it writes for one pair is that record
      followed by a newline: read line by line, the pair and then a blank line. */
  lemma RecordRead(word: string, context: string)
    requires '\t' !in word && '\t' !in context
    requires word != [] && !IsSpace(word[0])
    requires context != [] && !IsSpace(context[|context| - 1])
    ensures ReadPair(ExtractDeps.Record(word, context)) == Pair(word, context)
    ensures ExtractDeps.Record(word, context + "\n") == ExtractDeps.Record(word, context) + "\n"
    ensures Reads([ExtractDeps.Record(word, context), "\n"]) == [Pair(word, context), Blank]
  {
    var text := word + "\t" + context;
    assert text[0] == word[0] && text[|text| - 1] == context[|context| - 1];
    assert ExtractDeps.Record(word, context) == text + "\n";
    StripNewline(text);
    SplitAtFirstSep(word, context, '\t');
    SplitWithoutSep(context, '\t');
    BlankLine("\n");
    ReadsTwo(ExtractDeps.Record(word, context), "\n");
  }

  /** A two-line file is read line by line. */
  lemma ReadsTwo(a: string, b: string)
    ensures Reads([a, b]) == [ReadPair(a), ReadPair(b)]
  {
    assert [a, b][..1] == [a];
  }

  // ---------------------------------------------------------------------------
  // A worked case

  /** A field that survives a round trip through a pair line: not empty, no tab,
      no whitespace at either end. */
  predicate PlainField(s: string) {
    s != [] && '\t' !in s && !IsSpace(s[0]) && !IsSpace(s[|s| - 1])
  }

  /** Three occurrences of one term and one of another, with a threshold of 2:
      only the first is kept, with count 3. */
  lemma ThreeAndOne(w: string, v: string)
    requires w != v
    ensures Vocabulary(Repeat(w, 3) + [v], 2) == [Entry(w, 3)]
  {
    var xs := Repeat(w, 3) + [v];
    RepeatedThenOther(w, 3, v);
    TwoEntries(w, v, Tally(xs));
    assert AtLeast([Entry(w, 3), Entry(v, 1)], 2) == [Entry(w, 3)] by {
      AtLeastSnoc([], Entry(w, 3), 2);
      AtLeastSnoc([Entry(w, 3)], Entry(v, 1), 2);
      assert [Entry(w, 3), Entry(v, 1)] == [Entry(w, 3)] + [Entry(v, 1)];
    }
  }

  /** The counter fed `n` times `w` and then `v`. */
  lemma RepeatedThenOther(w: string, n: nat, v: string)
    requires w != v && n > 0
    ensures var xs := Repeat(w, n) + [v];
      FirstSeen(xs) == [w, v] && Count(Tally(xs), w) == n && Count(Tally(xs), v) == 1
  {
    var r := Repeat(w, n);
    RepeatedTerm(w, n);
    OneMoreKey(r, v);
    assert FirstSeen(r + [v]) == [w] + [v];
  }

  /** Feeding a counter an item it has not seen. */
  lemma OneMoreKey(xs: seq<string>, v: string)
    requires v !in FirstSeen(xs)
    ensures FirstSeen(xs + [v]) == FirstSeen(xs) + [v]
    ensures Count(Tally(xs + [v]), v) == 1
    ensures forall k :: k != v ==> Count(Tally(xs + [v]), k) == Count(Tally(xs), k)
  {
    FirstSeenSpec(xs);
    CounterStep(xs, v);
  }

  lemma TwoEntries(w: string, v: string, counts: map<string, nat>)
    ensures Entries([w, v], counts) == [Entry(w, Count(counts, w)), Entry(v, Count(counts, v))]
  {
    EntriesSnoc([], w, counts);
    EntriesSnoc([w], v, counts);
    assert [w, v] == [w] + [v] && [w] == [] + [w];
  }

  /** One term four times, with a threshold of 2: kept, with count 4. */
  lemma FourOfOne(c: string)
    ensures Vocabulary(Repeat(c, 4), 2) == [Entry(c, 4)]
  {
    RepeatedTerm(c, 4);
    var counts := Tally(Repeat(c, 4));
    EntriesSnoc([], c, counts);
    AtLeastSnoc([], Entry(c, 4), 2);
    assert [] + [c] == [c] && [] + [Entry(c, 4)] == [Entry(c, 4)];
  }

  lemma EntriesSnoc(keys: seq<string>, k: string, counts: map<string, nat>)
    ensures Entries(keys + [k], counts) == Entries(keys, counts) + [Entry(k, Count(counts, k))]
  {
    assert (keys + [k])[..|keys|] == keys;
  }

  /** A stream of one term repeated `n` times. */
  function Repeat<T>(x: T, n: nat): (xs: seq<T>)
    ensures |xs| == n
  {
    if n == 0 then [] else Repeat(x, n - 1) + [x]
  }

  lemma {:induction false} RepeatedTerm(x: string, n: nat)
    requires n > 0
    ensures FirstSeen(Repeat(x, n)) == [x] && Count(Tally(Repeat(x, n)), x) == n
  {
    var init := Repeat(x, n - 1);
    assert Repeat(x, n) == init + [x];
    CounterStep(init, x);
    if n > 1 {
      RepeatedTerm(x, n - 1);
    }
  }

  /** The pair file `dogs<TAB>bark-nsubj` three times and `cats<TAB>bark-nsubj` once,
      with a threshold of 2, for any such words and context: the word file is the
      single line for `dogs` with count 3, the context file the single line for the
      context with count 4, and nothing is skipped. */
  lemma DogsAndCats(dogs: string, cats: string, context: string)
    requires PlainField(dogs) && PlainField(cats) && PlainField(context) && dogs != cats
    ensures var d := ExtractDeps.Record(dogs, context);
      var c := ExtractDeps.Record(cats, context);
      Vocabularies([d, d, d, c], 2) == Output([VocabLine(Entry(dogs, 3))], [VocabLine(Entry(context, 4))], [])
  {
    var d := ExtractDeps.Record(dogs, context);
    var c := ExtractDeps.Record(cats, context);
    RecordRead(dogs, context);
    RecordRead(cats, context);
    ReadsFour(d, c);
    FourPairs(Pair(dogs, context), Pair(cats, context));
    ThreeAndOne(dogs, cats);
    FourOfOne(context);
    RenderOne(Entry(dogs, 3));
    RenderOne(Entry(context, 4));
  }

  /** Reading three copies of one line and then another. */
  lemma ReadsFour(d: string, c: string)
    ensures Reads([d, d, d, c]) == [ReadPair(d), ReadPair(d), ReadPair(d), ReadPair(c)]
  {
    var pd := ReadPair(d);
    assert Reads([d]) == [pd] by { assert [d][..0] == []; }
    assert Reads([d, d]) == [pd, pd] by { assert [d, d][..1] == [d]; }
    assert Reads([d, d, d]) == [pd, pd, pd] by { assert [d, d, d][..2] == [d, d]; }
    assert [d, d, d, c][..3] == [d, d, d];
  }

  lemma RenderOne(e: Entry)
    ensures Render([e]) == [VocabLine(e)]
  {
    assert [e][..0] == [];
  }

  /** The fields and diagnostics of three copies of one well-formed line followed by
      another with the same context. */
  lemma FourPairs(pd: PairLine, pc: PairLine)
    requires pd.Pair? && pc.Pair? && pd.context == pc.context
    ensures Words([pd, pd, pd, pc]) == Repeat(pd.word, 3) + [pc.word]
    ensures Contexts([pd, pd, pd, pc]) == Repeat(pd.context, 4)
    ensures Skipped([pd, pd, pd, pc]) == []
  {
    var ps := [pd, pd, pd, pc];
    assert ps[..3] == [pd, pd, pd] && [pd, pd, pd][..2] == [pd, pd] && [pd, pd][..1] == [pd] && [pd][..0] == [];
    assert Words([pd]) == Repeat(pd.word, 1);
    assert Words([pd, pd]) == Repeat(pd.word, 2);
    assert Words([pd, pd, pd]) == Repeat(pd.word, 3);
    assert Contexts([pd]) == Repeat(pd.context, 1);
    assert Contexts([pd, pd]) == Repeat(pd.context, 2);
    assert Contexts([pd, pd, pd]) == Repeat(pd.context, 3);
    assert Skipped([pd]) == [] && Skipped([pd, pd]) == [] && Skipped([pd, pd, pd]) == [];
  }
}
