/**
  `extract_dependencies` (new-scripts/extract_deps.py): turn a CoNLL-style token
  file into `word<TAB>headword-relation` training pairs.

  The input file is the sequence of lines Python's file iterator yields (each with
  its `"\n"`, as `generate_conll.py` writes them); the output file is the sequence
  of strings handed to `out.write`. A Python exception ends the run: the model
  returns it as an `Abort` next to whatever had been written before it.

  Each input line is first read as a `LineView` (a separator, or a token line with
  what each pass takes from it). The run is specified by `FirstPass` (the
  frequency count), `SecondPass` (sentence buffering and pair emission) and
  `Extraction` (both, in that order); the methods are the loops of the script and
  are proved to compute them. The lemmas after them state what the passes mean.
*/
module ExtractDeps {
  import opened Wrappers
  import opened Text
  import opened Counts

  /** One buffered token, the tuple `(word_id, word, head, relation)`; `word` is
      already lower-cased and `relation` is the raw last field, line terminator
      included. */
  datatype Token = Token(id: int, word: string, head: int, relation: string)

  /** The exception that stops a run. */
  datatype Problem =
    | MissingField                // IndexError: fewer tab-separated fields than the field read
    | BadInteger                  // ValueError: `int()` of the id or head field failed
    | HeadOutOfRange(token: nat)  // IndexError: `sentence[head - 1]` for the token at this buffer position

  /** A stopped run: the index of the input line being processed, and why. */
  datatype Abort = Abort(line: nat, problem: Problem)

  /** What the run wrote to the output file, and the exception that ended it, if any. */
  datatype Outcome = Outcome(written: seq<string>, abort: Option<Abort>)

  // ---------------------------------------------------------------------------
  // Reading one line

  /** `not line.strip()`: the test both passes use to tell separators from token lines. */
  predicate IsBlank(line: string) {
    Strip(line) == []
  }

  /** First pass: `line.split("\t")[1].lower()`; `None` is the IndexError of a line
      without a tab. */
  function Form(line: string): Option<string> {
    var parts := Split(line, '\t');
    if |parts| < 2 then None else Some(Lower(parts[1]))
  }

  /** Second pass: the fields of a token line, read in the order Python reads them
      (id, form, head, relation), each failure being the exception it raises. */
  function ParseToken(line: string): Result<Token, Problem> {
    var parts := Split(line, '\t');
    // `parts[1]` is read before `parts[6]`: a line with fewer than 7 fields fails
    // with the same IndexError either way.
    match ParseInt(parts[0])
    case None => Failure(BadInteger)
    case Some(id) =>
      if |parts| < 7 then Failure(MissingField)
      else
        match ParseInt(parts[6])
        case None => Failure(BadInteger)
        case Some(head) =>
          if |parts| < 8 then Failure(MissingField)
          else Success(Token(id, Lower(parts[1]), head, parts[7]))
  }

  /** The first pass fails on a line exactly when it holds no tab. */
  lemma FormSpec(line: string)
    ensures Form(line).None? <==> '\t' !in line
  {
    SplitSpec(line, '\t');
    assert '\t' !in line <==> multiset(line)['\t'] == 0;
  }

  /** On a line of two or more tab-free fields, the form is the second field,
      lower-cased. */
  lemma FormOfFields(fields: seq<string>)
    requires |fields| >= 2 && forall k :: 0 <= k < |fields| ==> '\t' !in fields[k]
    ensures Form(Join(fields, '\t')) == Some(Lower(fields[1]))
  {
    JoinSplit(fields, '\t');
  }

  /** The second pass reads a token exactly when the id and head fields are integers
      and there are at least eight fields. A bad id is a `ValueError` whatever follows
      it; a missing field is reported only after the fields before it were read;
      the form the token carries is the one the first pass counted. */
  lemma ParseTokenSpec(line: string)
    ensures var parts := Split(line, '\t');
      ParseToken(line).Success? <==>
        |parts| >= 8 && ParseInt(parts[0]).Some? && ParseInt(parts[6]).Some?
    ensures var parts := Split(line, '\t');
      ParseToken(line) == Failure(BadInteger) <==>
        ParseInt(parts[0]).None? || (|parts| >= 7 && ParseInt(parts[6]).None?)
    ensures var parts := Split(line, '\t');
      ParseToken(line) == Failure(MissingField) <==>
        ParseInt(parts[0]).Some? && (|parts| < 7 || (ParseInt(parts[6]).Some? && |parts| < 8))
    ensures ParseToken(line).Success? ==>
      var t := ParseToken(line).value;
      var parts := Split(line, '\t');
      && Some(t.id) == ParseInt(parts[0]) && Some(t.head) == ParseInt(parts[6])
      && t.relation == parts[7] && '\t' !in t.relation
      && Form(line) == Some(t.word)
  {
    SplitSpec(line, '\t');
  }

  /** A line made of tab-free fields, with integer id and head fields and at least
      eight fields, is read back as the token those fields describe. */
  lemma TokenLineRead(fields: seq<string>, id: int, head: int)
    requires |fields| >= 8 && forall k :: 0 <= k < |fields| ==> '\t' !in fields[k]
    requires ParseInt(fields[0]) == Some(id) && ParseInt(fields[6]) == Some(head)
    ensures ParseToken(Join(fields, '\t')) == Success(Token(id, Lower(fields[1]), head, fields[7]))
    ensures Form(Join(fields, '\t')) == Some(Lower(fields[1]))
  {
    JoinSplit(fields, '\t');
  }

  /** What one input line is to the two passes. */
  datatype LineView =
    | Separator
    | TokenLine(form: Option<string>, token: Result<Token, Problem>)

  function View(line: string): LineView {
    if IsBlank(line) then Separator else TokenLine(Form(line), ParseToken(line))
  }

  function Views(lines: seq<string>): (views: seq<LineView>)
    ensures |views| == |lines|
  {
    if lines == [] then [] else Views(lines[..|lines| - 1]) + [View(lines[|lines| - 1])]
  }

  lemma {:induction false} ViewsAt(lines: seq<string>, i: nat)
    requires i < |lines|
    ensures Views(lines)[i] == View(lines[i])
  {
    if i < |lines| - 1 {
      ViewsAt(lines[..|lines| - 1], i);
    }
  }

  /** A line as `generate_conll.py` writes it: id, form, `_`, pos, `_`, `_`, head and
      deprel joined by tabs, then the terminator. */
  function ConllLine(id: int, form: string, pos: string, head: int, deprel: string): string {
    Join([IntToString(id), form, "_", pos, "_", "_", IntToString(head), deprel + "\n"], '\t')
  }

  // ---------------------------------------------------------------------------
  // First pass: word frequencies

  /** One iteration of the first pass's line loop, on the line at index `i`. */
  function CountStep(freq: map<string, nat>, view: LineView, i: nat): Result<map<string, nat>, Abort> {
    match view
    case Separator => Success(freq)
    case TokenLine(None, _) => Failure(Abort(i, MissingField))
    case TokenLine(Some(w), _) => Success(freq[w := Count(freq, w) + 1])
  }

  /** The frequency table after the first `n` lines, or the line whose missing
      second field stopped the count. */
  function FirstPass(views: seq<LineView>, n: nat): Result<map<string, nat>, Abort>
    requires n <= |views|
  {
    if n == 0 then Success(map[])
    else
      match FirstPass(views, n - 1)
      case Failure(e) => Failure(e)
      case Success(freq) => CountStep(freq, views[n - 1], n - 1)
  }

  // ---------------------------------------------------------------------------
  // Second pass: sentence buffering and pair emission

  /** The relation label that marks punctuation. */
  const PunctLabel: string := "punct"

  /** `relation.strip().lower() == "punct"` (lower-casing keeps the length, so a
      stripped label of another length is never it). */
  predicate IsPunct(relation: string) {
    var trimmed := Strip(relation);
    |trimmed| == |PunctLabel| && Lower(trimmed) == PunctLabel
  }

  /** The length test is only a shortcut: a label is punctuation exactly when its
      stripped, lower-cased form is `punct`. */
  lemma IsPunctSpec(relation: string)
    ensures IsPunct(relation) <==> Lower(Strip(relation)) == PunctLabel
  {
    LowerSpec(Strip(relation));
  }

  /** A token that has a governing word: not punctuation, and not attached to the root. */
  predicate Eligible(t: Token) {
    !IsPunct(t.relation) && t.head > 0
  }

  /** The context label `f"{head_word}-{relation}"`. */
  function Context(headWord: string, relation: string): string {
    headWord + "-" + relation
  }

  /** The line written for one pair: `f"{word}\t{context}\n"`. */
  function Record(word: string, context: string): string {
    word + "\t" + context + "\n"
  }

  /** What the inner loop does with the token at position `i` of the buffer. */
  datatype Emission = Skip | Write(record: string) | OutOfRange

  function EmitAt(s: seq<Token>, i: nat, freq: map<string, nat>, minFreq: int): Emission
    requires i < |s|
  {
    var t := s[i];
    if !Eligible(t) then Skip
    else if t.head > |s| then OutOfRange
    else if Count(freq, t.word) >= minFreq then Write(Record(t.word, Context(s[t.head - 1].word, t.relation)))
    else Skip
  }

  /** What flushing the first `k` tokens of a buffer writes, and the position of
      the token whose head lookup failed, if one did. */
  datatype Flushed = Flushed(out: seq<string>, stop: Option<nat>)

  function FlushPrefix(s: seq<Token>, k: nat, freq: map<string, nat>, minFreq: int): (f: Flushed)
    requires k <= |s|
    ensures f.stop.Some? ==> f.stop.value < k
  {
    if k == 0 then Flushed([], None)
    else
      var f := FlushPrefix(s, k - 1, freq, minFreq);
      if f.stop.Some? then f
      else
        match EmitAt(s, k - 1, freq, minFreq)
        case Skip => f
        case Write(r) => Flushed(f.out + [r], None)
        case OutOfRange => Flushed(f.out, Some(k - 1))
  }

  /** Processing a whole buffered sentence at a blank line. */
  function Flush(s: seq<Token>, freq: map<string, nat>, minFreq: int): Flushed {
    FlushPrefix(s, |s|, freq, minFreq)
  }

  /** The state of the second pass: the sentence buffer, the output so far, and the
      exception that stopped it, if any. */
  datatype Pass = Pass(sentence: seq<Token>, written: seq<string>, abort: Option<Abort>)

  /** One iteration of the second pass's line loop, on the line at index `i`. */
  function Step(st: Pass, view: LineView, i: nat, freq: map<string, nat>, minFreq: int): Pass {
    match view
    case TokenLine(_, Failure(p)) => st.(abort := Some(Abort(i, p)))
    case TokenLine(_, Success(t)) => st.(sentence := st.sentence + [t])
    case Separator =>
      var f := Flush(st.sentence, freq, minFreq);
      if f.stop.Some? then Pass(st.sentence, st.written + f.out, Some(Abort(i, HeadOutOfRange(f.stop.value))))
      else Pass([], st.written + f.out, None)
  }

  /** The second pass over the first `n` lines; after an exception nothing more happens. */
  function SecondPass(views: seq<LineView>, n: nat, freq: map<string, nat>, minFreq: int): Pass
    requires n <= |views|
  {
    if n == 0 then Pass([], [], None)
    else
      var st := SecondPass(views, n - 1, freq, minFreq);
      if st.abort.Some? then st else Step(st, views[n - 1], n - 1, freq, minFreq)
  }

  /** The whole run: the complete count first, then the emission pass. A failed
      count stops the run before the output file is opened. */
  function Extraction(lines: seq<string>, minFreq: int): Outcome {
    var views := Views(lines);
    match FirstPass(views, |views|)
    case Failure(e) => Outcome([], Some(e))
    case Success(freq) =>
      var st := SecondPass(views, |views|, freq, minFreq);
      Outcome(st.written, st.abort)
  }

  // ---------------------------------------------------------------------------
  // The program

  /** Lines 20-23: one iteration of the first pass's line loop. */
  method CountLine(lines: seq<string>, i: nat, freq: map<string, nat>) returns (r: Result<map<string, nat>, Abort>)
    requires i < |lines| && FirstPass(Views(lines), i) == Success(freq)
    ensures r == FirstPass(Views(lines), i + 1)
  {
    var line := lines[i];
    ViewsAt(lines, i);
    if Strip(line) == [] {
      return Success(freq);
    }
    var parts := Split(line, '\t');
    if |parts| < 2 {
      return Failure(Abort(i, MissingField));
    }
    var word := Lower(parts[1]);
    var seen := if word in freq then freq[word] else 0;
    return Success(freq[word := seen + 1]);
  }

  /** Lines 18-23: count the lower-cased form of every non-blank line; an exception
      leaves the loop. */
  method CountWordFrequencies(lines: seq<string>) returns (r: Result<map<string, nat>, Abort>)
    ensures r == FirstPass(Views(lines), |lines|)
  {
    ghost var views := Views(lines);
    r := Success(map[]);
    var i := 0;
    while i < |lines| && r.Success?
      invariant i <= |lines|
      invariant FirstPass(views, i) == r
    {
      r := CountLine(lines, i, r.value);
      i := i + 1;
    }
    if r.Failure? {
      FirstPassAbortSticks(views, i, |lines|);
    }
  }

  /** Lines 40-44: one iteration of the inner loop, on the token at position `j`. */
  method FlushToken(sentence: seq<Token>, j: nat, out: seq<string>, freq: map<string, nat>, minWordFreq: int)
    returns (out': seq<string>, stop: Option<nat>)
    requires j < |sentence| && FlushPrefix(sentence, j, freq, minWordFreq) == Flushed(out, None)
    ensures FlushPrefix(sentence, j + 1, freq, minWordFreq) == Flushed(out', stop)
  {
    out', stop := out, None;
    var t := sentence[j];
    if !IsPunct(t.relation) && t.head > 0 {
      if t.head > |sentence| {
        return out, Some(j);
      }
      var headWord := sentence[t.head - 1].word;
      var context := Context(headWord, t.relation);
      var seen := if t.word in freq then freq[t.word] else 0;
      if seen >= minWordFreq {
        out' := out + [Record(t.word, context)];
      }
    }
  }

  /** Lines 39-44: the inner loop over a buffered sentence. `stop` is the position
      of the token whose `sentence[head - 1]` raised, if one did. */
  method FlushSentence(sentence: seq<Token>, freq: map<string, nat>, minWordFreq: int)
    returns (out: seq<string>, stop: Option<nat>)
    ensures Flushed(out, stop) == Flush(sentence, freq, minWordFreq)
  {
    out, stop := [], None;
    var j := 0;
    while j < |sentence| && stop.None?
      invariant j <= |sentence|
      invariant FlushPrefix(sentence, j, freq, minWordFreq) == Flushed(out, stop)
    {
      out, stop := FlushToken(sentence, j, out, freq, minWordFreq);
      j := j + 1;
    }
    if stop.Some? {
      FlushStopSticks(sentence, j, |sentence|, freq, minWordFreq);
    }
  }

  /** Lines 30-45: one iteration of the second pass's line loop, from a state in
      which nothing has been raised. */
  method ProcessLine(lines: seq<string>, i: nat, sentence: seq<Token>, written: seq<string>, freq: map<string, nat>, minWordFreq: int)
    returns (sentence': seq<Token>, written': seq<string>, abort: Option<Abort>)
    requires i < |lines| && SecondPass(Views(lines), i, freq, minWordFreq) == Pass(sentence, written, None)
    ensures SecondPass(Views(lines), i + 1, freq, minWordFreq) == Pass(sentence', written', abort)
  {
    var line := lines[i];
    ViewsAt(lines, i);
    sentence', written', abort := sentence, written, None;
    if Strip(line) != [] {
      var parsed := ParseToken(line);
      if parsed.Failure? {
        abort := Some(Abort(i, parsed.error));
      } else {
        sentence' := sentence + [parsed.value];
      }
    } else {
      var out, stop := FlushSentence(sentence, freq, minWordFreq);
      written' := written + out;
      if stop.Some? {
        abort := Some(Abort(i, HeadOutOfRange(stop.value)));
      } else {
        sentence' := [];
      }
    }
  }

  /** Lines 27-45: the line loop of the second pass, which buffers token lines and
      flushes the buffer at each blank line; an exception leaves the loop. */
  method EmitPairs(lines: seq<string>, freq: map<string, nat>, minWordFreq: int)
    returns (written: seq<string>, abort: Option<Abort>)
    ensures var st := SecondPass(Views(lines), |lines|, freq, minWordFreq);
      written == st.written && abort == st.abort
  {
    ghost var views := Views(lines);
    var sentence: seq<Token> := [];
    written, abort := [], None;
    var i := 0;
    while i < |lines| && abort.None?
      invariant i <= |lines|
      invariant SecondPass(views, i, freq, minWordFreq) == Pass(sentence, written, abort)
    {
      sentence, written, abort := ProcessLine(lines, i, sentence, written, freq, minWordFreq);
      i := i + 1;
    }
    if abort.Some? {
      SecondPassAbortSticks(views, i, |lines|, freq, minWordFreq);
    }
  }

  /** `extract_dependencies(conll_input, output_file, min_word_freq)`: the whole
      count, then the emission pass over the same lines. */
  method ExtractDependencies(lines: seq<string>, minWordFreq: int) returns (written: seq<string>, abort: Option<Abort>)
    ensures Outcome(written, abort) == Extraction(lines, minWordFreq)
  {
    var counted := CountWordFrequencies(lines);
    if counted.Failure? {
      return [], Some(counted.error);
    }
    written, abort := EmitPairs(lines, counted.value, minWordFreq);
  }

  // ---------------------------------------------------------------------------
  // An exception ends the run

  lemma {:induction false} FirstPassAbortSticks(views: seq<LineView>, n: nat, m: nat)
    requires n <= m <= |views|
    requires FirstPass(views, n).Failure?
    ensures FirstPass(views, m) == FirstPass(views, n)
    decreases m
  {
    if m > n {
      FirstPassAbortSticks(views, n, m - 1);
    }
  }

  lemma {:induction false} SecondPassAbortSticks(views: seq<LineView>, n: nat, m: nat, freq: map<string, nat>, minFreq: int)
    requires n <= m <= |views|
    requires SecondPass(views, n, freq, minFreq).abort.Some?
    ensures SecondPass(views, m, freq, minFreq) == SecondPass(views, n, freq, minFreq)
    decreases m
  {
    if m > n {
      SecondPassAbortSticks(views, n, m - 1, freq, minFreq);
    }
  }

  lemma {:induction false} FlushStopSticks(s: seq<Token>, k: nat, m: nat, freq: map<string, nat>, minFreq: int)
    requires k <= m <= |s|
    requires FlushPrefix(s, k, freq, minFreq).stop.Some?
    ensures FlushPrefix(s, m, freq, minFreq) == FlushPrefix(s, k, freq, minFreq)
    decreases m
  {
    if m > k {
      FlushStopSticks(s, k, m - 1, freq, minFreq);
    }
  }

  // ---------------------------------------------------------------------------
  // What the first pass counts

  /** A token line whose form cannot be read: `parts[1]` raises. */
  predicate ShortLine(v: LineView) {
    v.TokenLine? && v.form.None?
  }

  /** The forms of the token lines among the first `n` lines, in order. */
  function Forms(views: seq<LineView>, n: nat): seq<string>
    requires n <= |views|
  {
    if n == 0 then []
    else
      Forms(views, n - 1) + match views[n - 1] case TokenLine(Some(w), _) => [w] case _ => []
  }

  /** The count succeeds exactly when no token line lacks its second field;
      otherwise it stops at the first such line. */
  lemma {:induction false} FirstPassFails(views: seq<LineView>, n: nat)
    requires n <= |views|
    ensures FirstPass(views, n).Success? <==> forall i :: 0 <= i < n ==> !ShortLine(views[i])
    ensures FirstPass(views, n).Failure? ==>
      var e := FirstPass(views, n).error;
      && e.problem == MissingField && e.line < n && ShortLine(views[e.line])
      && forall i :: 0 <= i < e.line ==> !ShortLine(views[i])
  {
    if n > 0 {
      FirstPassFails(views, n - 1);
    }
  }

  /** A successful count maps each word to the number of token lines with that form:
      every token line adds exactly 1 to its own form and nothing to other words. */
  lemma {:induction false} FirstPassCounts(views: seq<LineView>, n: nat, w: string)
    requires n <= |views|
    requires FirstPass(views, n).Success?
    ensures Count(FirstPass(views, n).value, w) == multiset(Forms(views, n))[w]
  {
    if n > 0 {
      FirstPassCounts(views, n - 1, w);
      match views[n - 1]
      case Separator =>
        assert Forms(views, n) == Forms(views, n - 1);
      case TokenLine(form, _) =>
        assert Forms(views, n) == Forms(views, n - 1) + [form.value];
    }
  }

  /** The words of a successful count are exactly the forms read. */
  lemma {:induction false} FirstPassWords(views: seq<LineView>, n: nat)
    requires n <= |views|
    requires FirstPass(views, n).Success?
    ensures forall w :: w in FirstPass(views, n).value <==> w in Forms(views, n)
  {
    if n > 0 {
      FirstPassWords(views, n - 1);
      match views[n - 1]
      case Separator =>
        assert Forms(views, n) == Forms(views, n - 1);
      case TokenLine(form, _) =>
        assert Forms(views, n) == Forms(views, n - 1) + [form.value];
    }
  }

  // ---------------------------------------------------------------------------
  // What flushing a sentence writes

  /** The token at position `j` would be looked up past the end of its sentence. */
  predicate OutOfRangeAt(s: seq<Token>, j: nat)
    requires j < |s|
  {
    Eligible(s[j]) && s[j].head > |s|
  }

  /** The token at position `j` is written: eligible, its head inside the sentence,
      and its word frequent enough. */
  predicate Selected(s: seq<Token>, j: nat, freq: map<string, nat>, minFreq: int)
    requires j < |s|
  {
    Eligible(s[j]) && s[j].head <= |s| && Count(freq, s[j].word) >= minFreq
  }

  /** The pair of the token at position `j` with the token at list position
      `head - 1` of the same sentence. */
  function PairOf(s: seq<Token>, j: nat): string
    requires j < |s| && 1 <= s[j].head <= |s|
  {
    Record(s[j].word, Context(s[s[j].head - 1].word, s[j].relation))
  }

  /** What the inner loop does with one token, in terms of the two predicates. */
  lemma EmitAtCases(s: seq<Token>, j: nat, freq: map<string, nat>, minFreq: int)
    requires j < |s|
    ensures EmitAt(s, j, freq, minFreq).OutOfRange? <==> OutOfRangeAt(s, j)
    ensures EmitAt(s, j, freq, minFreq).Write? <==> Selected(s, j, freq, minFreq)
    ensures EmitAt(s, j, freq, minFreq).Write? ==> EmitAt(s, j, freq, minFreq).record == PairOf(s, j)
  {
  }

  /** One pair per selected token among the first `k`, in token order. */
  function SelectedPairs(s: seq<Token>, k: nat, freq: map<string, nat>, minFreq: int): seq<string>
    requires k <= |s|
  {
    if k == 0 then []
    else SelectedPairs(s, k - 1, freq, minFreq) + if Selected(s, k - 1, freq, minFreq) then [PairOf(s, k - 1)] else []
  }

  /** Flushing stops exactly at the first eligible token whose head lies past the end
      of the sentence. */
  lemma {:induction false} FlushStop(s: seq<Token>, k: nat, freq: map<string, nat>, minFreq: int)
    requires k <= |s|
    ensures var f := FlushPrefix(s, k, freq, minFreq);
      f.stop.None? <==> forall j :: 0 <= j < k ==> !OutOfRangeAt(s, j)
    ensures var f := FlushPrefix(s, k, freq, minFreq);
      f.stop.Some? ==>
        && f.stop.value < k && OutOfRangeAt(s, f.stop.value)
        && forall j :: 0 <= j < f.stop.value ==> !OutOfRangeAt(s, j)
  {
    if k > 0 {
      FlushStop(s, k - 1, freq, minFreq);
      EmitAtCases(s, k - 1, freq, minFreq);
    }
  }

  /** Up to where it stops, flushing writes one pair per selected token, in token
      order. */
  lemma {:induction false} FlushOut(s: seq<Token>, k: nat, freq: map<string, nat>, minFreq: int)
    requires k <= |s|
    ensures var f := FlushPrefix(s, k, freq, minFreq);
      f.out == SelectedPairs(s, if f.stop.Some? then f.stop.value else k, freq, minFreq)
  {
    if k > 0 {
      FlushOut(s, k - 1, freq, minFreq);
      EmitAtCases(s, k - 1, freq, minFreq);
    }
  }

  /** Every written pair belongs to a selected token: never to punctuation, never to a
      token attached to the root, never to a word below the threshold. */
  lemma {:induction false} SelectedPairsSound(s: seq<Token>, k: nat, freq: map<string, nat>, minFreq: int)
    requires k <= |s|
    ensures |SelectedPairs(s, k, freq, minFreq)| <= k
    ensures forall r :: r in SelectedPairs(s, k, freq, minFreq) ==>
      exists j :: 0 <= j < k && Selected(s, j, freq, minFreq) && r == PairOf(s, j)
  {
    if k > 0 {
      SelectedPairsSound(s, k - 1, freq, minFreq);
    }
  }

  /** With a threshold of at most 0 the frequency table plays no part: every eligible
      token is written. */
  lemma {:induction false} FlushWithoutThreshold(s: seq<Token>, k: nat, freq: map<string, nat>, minFreq: int)
    requires k <= |s| && minFreq <= 0
    ensures FlushPrefix(s, k, freq, minFreq) == FlushPrefix(s, k, map[], 0)
  {
    if k > 0 {
      FlushWithoutThreshold(s, k - 1, freq, minFreq);
    }
  }

  // ---------------------------------------------------------------------------
  // How the second pass cuts the input into sentences

  /** Where the open sentence starts: just after the last separator among the first
      `n` lines, or 0. */
  function OpenStart(views: seq<LineView>, n: nat): (start: nat)
    requires n <= |views|
    ensures start <= n
  {
    if n == 0 then 0 else if views[n - 1].Separator? then n else OpenStart(views, n - 1)
  }

  /** The tokens read from the lines in `[a, b)`. */
  function TokensBetween(views: seq<LineView>, a: nat, b: nat): seq<Token>
    requires a <= b <= |views|
    decreases b
  {
    if a == b then []
    else TokensBetween(views, a, b - 1) + match views[b - 1] case TokenLine(_, Success(t)) => [t] case _ => []
  }

  /** Until an exception, the buffer holds exactly the tokens read since the last
      blank line, and nothing has been written since that blank line: a sentence's
      pairs are written at the blank line that closes it, and only then. */
  lemma {:induction false} SecondPassBuffer(views: seq<LineView>, n: nat, freq: map<string, nat>, minFreq: int)
    requires n <= |views|
    requires SecondPass(views, n, freq, minFreq).abort.None?
    ensures SecondPass(views, n, freq, minFreq).sentence == TokensBetween(views, OpenStart(views, n), n)
    ensures SecondPass(views, n, freq, minFreq).written == SecondPass(views, OpenStart(views, n), freq, minFreq).written
  {
    if n > 0 {
      assert SecondPass(views, n - 1, freq, minFreq).abort.None?;
      SecondPassBuffer(views, n - 1, freq, minFreq);
    }
  }

  /** At a blank line the output grows by exactly the flush of the tokens read since
      the previous blank line; the buffer is emptied. */
  lemma SentenceClosed(views: seq<LineView>, b: nat, freq: map<string, nat>, minFreq: int)
    requires b < |views| && views[b].Separator?
    requires SecondPass(views, b, freq, minFreq).abort.None?
    ensures var f := Flush(TokensBetween(views, OpenStart(views, b), b), freq, minFreq);
      && SecondPass(views, b + 1, freq, minFreq).written == SecondPass(views, b, freq, minFreq).written + f.out
      && (SecondPass(views, b + 1, freq, minFreq).abort.None? <==> f.stop.None?)
      && (f.stop.None? ==> SecondPass(views, b + 1, freq, minFreq).sentence == [])
  {
    SecondPassBuffer(views, b, freq, minFreq);
  }

  // ---------------------------------------------------------------------------
  // Bad input stops the run

  lemma {:induction false} SecondPassAbortLine(views: seq<LineView>, n: nat, freq: map<string, nat>, minFreq: int)
    requires n <= |views|
    requires SecondPass(views, n, freq, minFreq).abort.Some?
    ensures SecondPass(views, n, freq, minFreq).abort.value.line < n
  {
    if SecondPass(views, n - 1, freq, minFreq).abort.Some? {
      SecondPassAbortLine(views, n - 1, freq, minFreq);
    }
  }

  /** A token line whose id or head is not an integer, or that has too few fields,
      stops the second pass at that line or earlier: it is never skipped. */
  lemma BadTokenAborts(views: seq<LineView>, i: nat, freq: map<string, nat>, minFreq: int)
    requires i < |views| && views[i].TokenLine? && views[i].token.Failure?
    ensures SecondPass(views, |views|, freq, minFreq).abort.Some?
    ensures SecondPass(views, |views|, freq, minFreq).abort.value.line <= i
  {
    if SecondPass(views, i, freq, minFreq).abort.Some? {
      SecondPassAbortLine(views, i, freq, minFreq);
    }
    SecondPassAbortSticks(views, i + 1, |views|, freq, minFreq);
  }

  /** A blank line whose sentence holds an eligible token with a head past its end
      stops the run there, reporting the first such token; the pairs of the tokens
      before it have been written. */
  lemma HeadOutOfRangeAborts(views: seq<LineView>, b: nat, freq: map<string, nat>, minFreq: int)
    requires b < |views| && views[b].Separator?
    requires SecondPass(views, b, freq, minFreq).abort.None?
    ensures var s := SecondPass(views, b, freq, minFreq).sentence;
      var next := SecondPass(views, b + 1, freq, minFreq);
      (exists j :: 0 <= j < |s| && OutOfRangeAt(s, j)) <==> next.abort.Some?
    ensures var s := SecondPass(views, b, freq, minFreq).sentence;
      var next := SecondPass(views, b + 1, freq, minFreq);
      next.abort.Some? ==>
        && next.abort.value.line == b && next.abort.value.problem.HeadOutOfRange?
        && var j := next.abort.value.problem.token;
        && j < |s| && OutOfRangeAt(s, j)
        && (forall i :: 0 <= i < j ==> !OutOfRangeAt(s, i))
        && next.written == SecondPass(views, b, freq, minFreq).written + SelectedPairs(s, j, freq, minFreq)
  {
    var s := SecondPass(views, b, freq, minFreq).sentence;
    FlushStop(s, |s|, freq, minFreq);
    FlushOut(s, |s|, freq, minFreq);
  }

  /** On raw lines: a non-blank line that does not parse as a token makes the whole
      run end with an exception, in the first pass or, at that line or earlier, in
      the second. */
  lemma MalformedLineAborts(lines: seq<string>, minFreq: int, i: nat)
    requires i < |lines| && !IsBlank(lines[i]) && ParseToken(lines[i]).Failure?
    ensures Extraction(lines, minFreq).abort.Some?
    ensures FirstPass(Views(lines), |lines|).Success? ==> Extraction(lines, minFreq).abort.value.line <= i
  {
    var views := Views(lines);
    ViewsAt(lines, i);
    match FirstPass(views, |views|)
    case Failure(e) =>
    case Success(freq) =>
      BadTokenAborts(views, i, freq, minFreq);
  }

  // ---------------------------------------------------------------------------
  // The line format the pipeline writes

  /** The fields of a line as `generate_conll.py` writes it, when no field holds a tab. */
  lemma ConllLineFields(id: int, form: string, pos: string, head: int, deprel: string)
    requires '\t' !in form && '\t' !in pos && '\t' !in deprel
    ensures Split(ConllLine(id, form, pos, head, deprel), '\t')
      == [IntToString(id), form, "_", pos, "_", "_", IntToString(head), deprel + "\n"]
  {
    var parts := [IntToString(id), form, "_", pos, "_", "_", IntToString(head), deprel + "\n"];
    IntToStringChars(id);
    IntToStringChars(head);
    assert forall k :: 0 <= k < |parts| ==> '\t' !in parts[k];
    JoinSplit(parts, '\t');
  }

  /** Both passes read back what `generate_conll.py` writes: the line is not blank,
      its form is the lower-cased form, and its token is the written id, form and head,
      with the relation still carrying the line terminator. */
  lemma ConllLineRead(id: int, form: string, pos: string, head: int, deprel: string)
    requires '\t' !in form && '\t' !in pos && '\t' !in deprel
    ensures View(ConllLine(id, form, pos, head, deprel))
      == TokenLine(Some(Lower(form)), Success(Token(id, Lower(form), head, deprel + "\n")))
  {
    var line := ConllLine(id, form, pos, head, deprel);
    ConllLineFields(id, form, pos, head, deprel);
    IntToStringChars(id);
    assert line[0] == IntToString(id)[0] by {
      var parts := [IntToString(id), form, "_", pos, "_", "_", IntToString(head), deprel + "\n"];
      assert line == parts[0] + ['\t'] + Join(parts[1..], '\t');
    }
    StripSpec(line);
    assert !IsBlank(line);
    ParseIntOfIntToString(id);
    ParseIntOfIntToString(head);
  }

  // ---------------------------------------------------------------------------
  // A worked case

  /** A relation label with no whitespace at either end whose first letter is not
      `p` is not punctuation, even with the line terminator still attached. */
  lemma NotPunctLabel(rel: string)
    requires rel != [] && !IsSpace(rel[0]) && !IsSpace(rel[|rel| - 1])
    requires rel[0] != 'p' && rel[0] != 'P'
    ensures !IsPunct(rel + "\n")
  {
    StripNewline(rel);
    assert Lower(rel)[0] == LowerChar(rel[0]);
  }

  /** Any capitalisation of `punct` ("PUNCT", "Punct", ...) on a line of its own
      is punctuation. */
  lemma PunctAnyCase(rel: string)
    requires Lower(rel) == PunctLabel
    ensures IsPunct(rel + "\n")
  {
    LowerSpec(rel);
    assert !IsSpace(rel[0]) by {
      assert Lower(rel)[0] == 'p';
    }
    assert !IsSpace(rel[4]) by {
      assert Lower(rel)[4] == 't';
    }
    StripNewline(rel);
  }

  /** A sentence of a subject, its head word at the root and a modifier of that head
      ("Dogs bark loudly"): flushing writes the subject's pair and then the
      modifier's pair, and nothing for the root. */
  lemma FlushSubjectRootModifier(t1: Token, t2: Token, t3: Token, freq: map<string, nat>)
    requires t1.id == 1 && t1.head == 2 && !IsPunct(t1.relation)
    requires t2.id == 2 && t2.head == 0
    requires t3.id == 3 && t3.head == 2 && !IsPunct(t3.relation)
    ensures Flush([t1, t2, t3], freq, 0)
      == Flushed([Record(t1.word, Context(t2.word, t1.relation)), Record(t3.word, Context(t2.word, t3.relation))], None)
  {
    var s := [t1, t2, t3];
    var r1, r3 := Record(t1.word, Context(t2.word, t1.relation)), Record(t3.word, Context(t2.word, t3.relation));
    assert EmitAt(s, 0, freq, 0) == Write(r1);
    assert FlushPrefix(s, 1, freq, 0) == Flushed([r1], None);
    assert EmitAt(s, 1, freq, 0) == Skip;
    assert FlushPrefix(s, 2, freq, 0) == Flushed([r1], None);
    assert EmitAt(s, 2, freq, 0) == Write(r3);
  }

  /** A file of one sentence, three tokens that read without error and then the
      blank line: the run ends with what flushing that sentence writes, stopped at
      the blank line if a head lookup fails. */
  lemma OneSentenceRun(lines: seq<string>, t1: Token, t2: Token, t3: Token, minFreq: int)
    requires Views(lines) == [TokenLine(Some(t1.word), Success(t1)), TokenLine(Some(t2.word), Success(t2)),
                              TokenLine(Some(t3.word), Success(t3)), Separator]
    ensures FirstPass(Views(lines), 4).Success?
    ensures var f := Flush([t1, t2, t3], FirstPass(Views(lines), 4).value, minFreq);
      Extraction(lines, minFreq)
        == Outcome(f.out, if f.stop.Some? then Some(Abort(3, HeadOutOfRange(f.stop.value))) else None)
  {
    OneSentencePasses(Views(lines), t1, t2, t3, minFreq);
  }

  /** `OneSentenceRun`, pass by pass, on the lines' views. */
  lemma OneSentencePasses(views: seq<LineView>, t1: Token, t2: Token, t3: Token, minFreq: int)
    requires views == [TokenLine(Some(t1.word), Success(t1)), TokenLine(Some(t2.word), Success(t2)),
                       TokenLine(Some(t3.word), Success(t3)), Separator]
    ensures FirstPass(views, 4).Success?
    ensures var freq := FirstPass(views, 4).value;
      var f := Flush([t1, t2, t3], freq, minFreq);
      SecondPass(views, 4, freq, minFreq)
        == Pass(if f.stop.Some? then [t1, t2, t3] else [], f.out,
                if f.stop.Some? then Some(Abort(3, HeadOutOfRange(f.stop.value))) else None)
  {
    assert FirstPass(views, 1).Success?;
    assert FirstPass(views, 2).Success?;
    assert FirstPass(views, 3).Success?;
    var freq := FirstPass(views, 4).value;
    assert SecondPass(views, 1, freq, minFreq) == Pass([t1], [], None);
    assert SecondPass(views, 2, freq, minFreq) == Pass([t1, t2], [], None);
    assert SecondPass(views, 3, freq, minFreq) == Pass([t1, t2, t3], [], None);
  }

  /** The views of a four-line file, line by line. */
  lemma FourViews(lines: seq<string>)
    requires |lines| == 4
    ensures Views(lines) == [View(lines[0]), View(lines[1]), View(lines[2]), View(lines[3])]
  {
    ViewsAt(lines, 0);
    ViewsAt(lines, 1);
    ViewsAt(lines, 2);
    ViewsAt(lines, 3);
  }

  /** A file of three token lines and a blank line, seen line by line. */
  lemma ThreeLinesThenBlank(l1: string, l2: string, l3: string, t1: Token, t2: Token, t3: Token)
    requires View(l1) == TokenLine(Some(t1.word), Success(t1))
    requires View(l2) == TokenLine(Some(t2.word), Success(t2))
    requires View(l3) == TokenLine(Some(t3.word), Success(t3))
    ensures Views([l1, l2, l3, "\n"]) == [TokenLine(Some(t1.word), Success(t1)), TokenLine(Some(t2.word), Success(t2)),
                                          TokenLine(Some(t3.word), Success(t3)), Separator]
  {
    var lines := [l1, l2, l3, "\n"];
    assert View("\n") == Separator by { assert IsBlank("\n"); }
    FourViews(lines);
  }

  /** "Dogs bark loudly" as `generate_conll.py` writes it, followed by its blank
      line, run with the default threshold of 0, for any forms and any relation
      labels that are not punctuation: the run ends normally having written the
      subject's pair and then the modifier's pair, relations with their line
      terminator. */
  lemma SubjectRootModifierRun(dogs: string, bark: string, loudly: string, pos: string,
                               subj: string, root: string, adv: string)
    requires '\t' !in dogs && '\t' !in bark && '\t' !in loudly && '\t' !in pos
    requires '\t' !in subj && '\t' !in root && '\t' !in adv
    requires !IsPunct(subj + "\n") && !IsPunct(adv + "\n")
    ensures Extraction([ConllLine(1, dogs, pos, 2, subj), ConllLine(2, bark, pos, 0, root),
                        ConllLine(3, loudly, pos, 2, adv), "\n"], 0)
      == Outcome([Record(Lower(dogs), Context(Lower(bark), subj + "\n")),
                  Record(Lower(loudly), Context(Lower(bark), adv + "\n"))], None)
  {
    var l1, l2, l3 := ConllLine(1, dogs, pos, 2, subj), ConllLine(2, bark, pos, 0, root), ConllLine(3, loudly, pos, 2, adv);
    var t1 := Token(1, Lower(dogs), 2, subj + "\n");
    var t2 := Token(2, Lower(bark), 0, root + "\n");
    var t3 := Token(3, Lower(loudly), 2, adv + "\n");
    ConllLineRead(1, dogs, pos, 2, subj);
    ConllLineRead(2, bark, pos, 0, root);
    ConllLineRead(3, loudly, pos, 2, adv);
    ThreeLinesThenBlank(l1, l2, l3, t1, t2, t3);
    OneSentenceRun([l1, l2, l3, "\n"], t1, t2, t3, 0);
    FlushSubjectRootModifier(t1, t2, t3, FirstPass(Views([l1, l2, l3, "\n"]), 4).value);
  }

  /** The labels of the worked case are not punctuation. */
  lemma BarkLabels()
    ensures !IsPunct("nsubj\n") && !IsPunct("advmod\n")
  {
    NotPunctLabel("nsubj");
    NotPunctLabel("advmod");
    assert "nsubj" + "\n" == "nsubj\n" && "advmod" + "\n" == "advmod\n";
  }
}
