/** The card builder's main loop: set up the file, then for each sentence the
    user enters, stop on a quit command, skip an empty line, translate the
    sentence, extract its Kanji words and append one card per word.

    The line source, the translator and the morphological analyser are
    parameters: `inputs` lists the lines in the order they are entered, and
    `translate` and `analyze` stand for the two pre-trained models. */
module Builder {
  import opened Extract
  import opened Deck

  /** ASCII lower-casing of one character. */
  function LowerAscii(c: char): char {
    if 'A' <= c <= 'Z' then (c as int + 32) as char else c
  }

  function ToLowerAscii(s: string): (r: string)
    ensures |r| == |s|
    ensures forall i :: 0 <= i < |s| ==> r[i] == LowerAscii(s[i])
  {
    if s == [] then [] else [LowerAscii(s[0])] + ToLowerAscii(s[1..])
  }

  /** The quit command: `q` or `exit`, ignoring case. */
  predicate IsQuitCommand(s: string) {
    ToLowerAscii(s) in ["q", "exit"]
  }

  /** The quit command spelled out: `q` or `exit` with each letter in either case. */
  lemma QuitSpellings(s: string)
    ensures IsQuitCommand(s) <==>
              || (|s| == 1 && s[0] in "qQ")
              || (|s| == 4 && s[0] in "eE" && s[1] in "xX" && s[2] in "iI" && s[3] in "tT")
  {
    var t := ToLowerAscii(s);
    if |s| == 1 {
      assert t == "q" <==> t[0] == 'q';
    } else if |s| == 4 {
      assert t == "exit" <==> t[0] == 'e' && t[1] == 'x' && t[2] == 'i' && t[3] == 't';
    }
  }

  /** Some inputs and how the loop reads them. */
  lemma QuitExamples()
    ensures IsQuitCommand("q") && IsQuitCommand("Q") && IsQuitCommand("EXIT") && IsQuitCommand("eXiT")
    ensures !IsQuitCommand("") && !IsQuitCommand("quit") && !IsQuitCommand("exit ")
  {
    QuitSpellings("q");
    QuitSpellings("Q");
    QuitSpellings("EXIT");
    QuitSpellings("eXiT");
    QuitSpellings("");
    QuitSpellings("quit");
    QuitSpellings("exit ");
  }

  /** What one pass of the loop body did. */
  datatype Outcome = Quit | SkippedEmpty | NoWords | Added(words: seq<string>)

  /** The cards appended for the words of one sentence, in the order given. */
  function Cards(words: seq<string>, sentence: string, translation: string): (r: seq<Row>)
    ensures |r| == |words|
    ensures forall i :: 0 <= i < |r| ==> r[i] == Card(words[i], sentence, translation)
  {
    if words == [] then []
    else Cards(words[..|words| - 1], sentence, translation)
         + [Card(words[|words| - 1], sentence, translation)]
  }

  /** `added` holds one card per word of `words`, in some order, each with
      the back text `back`. */
  predicate IsCardsFor(added: seq<Row>, words: set<string>, back: string) {
    && |added| == |words|
    && (forall i :: 0 <= i < |added| ==> added[i].front in words && added[i].back == back)
    && (forall w :: w in words ==> exists i :: 0 <= i < |added| && added[i].front == w)
    && (forall i, j :: 0 <= i < j < |added| ==> added[i].front != added[j].front)
  }

  /** The rows that processing `sentence` may append, given the analyser's
      tokens `doc` and the translation: none on a quit command, an empty
      line or an empty extraction, else one card per extracted word. */
  predicate StepAdds(sentence: string, doc: seq<Token>, translation: string, added: seq<Row>) {
    if IsQuitCommand(sentence) || sentence == "" || KanjiLemmas(doc) == {} then added == []
    else IsCardsFor(added, KanjiLemmas(doc), BackText(sentence, translation))
  }

  /** The rows of a run, one line's rows after another. */
  function Flatten(log: seq<seq<Row>>): seq<Row> {
    if log == [] then [] else Flatten(log[..|log| - 1]) + log[|log| - 1]
  }

  /** A prefix and the rest make up the whole. */
  lemma PrefixSplit(prefix: seq<Row>, rows: seq<Row>)
    requires prefix <= rows
    ensures rows == prefix + rows[|prefix|..]
  {
  }

  /** Recording the rows past `before` as one more log entry keeps the file
      equal to its starting rows followed by the flattened log. */
  lemma RowsStep(start: seq<Row>, log: seq<seq<Row>>, before: seq<Row>, after: seq<Row>)
    requires before == start + Flatten(log)
    requires before <= after
    ensures after == start + Flatten(log + [after[|before|..]])
  {
    var step := after[|before|..];
    PrefixSplit(before, after);
    FlattenSnoc(log, step);
    assert start + (Flatten(log) + step) == (start + Flatten(log)) + step;
  }

  /** Flattening a log extended by one entry appends that entry's rows. */
  lemma FlattenSnoc(log: seq<seq<Row>>, rows: seq<Row>)
    ensures Flatten(log + [rows]) == Flatten(log) + rows
  {
    assert (log + [rows])[..|log|] == log;
  }

  /** One pass of the loop body for the line `sentence`. */
  method ProcessSentence(deck: DeckFile, sentence: string,
                         analyze: string -> seq<Token>, translate: string -> string)
    returns (outcome: Outcome)
    modifies deck
    ensures outcome == Quit <==> IsQuitCommand(sentence)
    ensures outcome == SkippedEmpty <==> !IsQuitCommand(sentence) && sentence == ""
    ensures outcome == NoWords <==>
              !IsQuitCommand(sentence) && sentence != "" && KanjiLemmas(analyze(sentence)) == {}
    ensures !outcome.Added? ==> deck.file == old(deck.file)
    ensures outcome.Added? ==>
              && (forall w :: w in outcome.words <==> w in KanjiLemmas(analyze(sentence)))
              && (forall i, j :: 0 <= i < j < |outcome.words| ==> outcome.words[i] != outcome.words[j])
              && deck.file == Present(RowsOf(old(deck.file))
                                      + Cards(outcome.words, sentence, translate(sentence)))
    ensures RowsOf(old(deck.file)) <= RowsOf(deck.file)
    ensures StepAdds(sentence, analyze(sentence), translate(sentence),
                     RowsOf(deck.file)[|RowsOf(old(deck.file))|..])
  {
    if ToLowerAscii(sentence) in ["q", "exit"] {
      return Quit;
    }
    if sentence == "" {
      return SkippedEmpty;
    }
    var translation := translate(sentence);
    var kanjiWords := ExtractKanjiWords(analyze(sentence));
    if kanjiWords == [] {
      return NoWords;
    }
    ghost var before := RowsOf(deck.file);
    for i := 0 to |kanjiWords|
      invariant deck.file == if i == 0 then old(deck.file)
                             else Present(before + Cards(kanjiWords[..i], sentence, translation))
    {
      deck.Add(kanjiWords[i], sentence, translation);
      assert kanjiWords[..i + 1][..i] == kanjiWords[..i];
    }
    assert kanjiWords[..|kanjiWords|] == kanjiWords;
    outcome := Added(kanjiWords);
    CardsAreCardsFor(kanjiWords, KanjiLemmas(analyze(sentence)), sentence, translation);
    assert RowsOf(deck.file)[|before|..] == Cards(kanjiWords, sentence, translation);
  }

  /** Listing distinct words as cards gives one card per word of their set. */
  lemma CardsAreCardsFor(words: seq<string>, ws: set<string>, sentence: string, translation: string)
    requires forall w :: w in words <==> w in ws
    requires forall i, j :: 0 <= i < j < |words| ==> words[i] != words[j]
    requires |words| == |ws|
    ensures IsCardsFor(Cards(words, sentence, translation), ws, BackText(sentence, translation))
  {
    var added := Cards(words, sentence, translation);
    forall w | w in ws
      ensures exists i :: 0 <= i < |added| && added[i].front == w
    {
      var i :| 0 <= i < |words| && words[i] == w;
      assert added[i].front == w;
    }
  }

  /** The whole interactive run: set up the file, then process the lines in
      order until a quit command or the end of the input. `log[j]` records
      the rows that line `j` appended. */
  method Session(deck: DeckFile, inputs: seq<string>,
                 analyze: string -> seq<Token>, translate: string -> string)
    returns (consumed: nat, quit: bool, ghost log: seq<seq<Row>>)
    modifies deck
    ensures consumed <= |inputs|
    ensures quit ==> 0 < consumed && IsQuitCommand(inputs[consumed - 1])
    ensures !quit ==> consumed == |inputs|
    ensures forall j :: 0 <= j < consumed && (quit ==> j < consumed - 1) ==> !IsQuitCommand(inputs[j])
    ensures |log| == consumed
    ensures forall j :: 0 <= j < consumed ==>
              StepAdds(inputs[j], analyze(inputs[j]), translate(inputs[j]), log[j])
    ensures deck.file == Present(RowsOf(Initialized(old(deck.file))) + Flatten(log))
  {
    deck.Initialize();
    ghost var start := deck.file.rows;
    consumed, quit, log := 0, false, [];
    while consumed < |inputs|
      invariant consumed <= |inputs| && |log| == consumed
      invariant forall j :: 0 <= j < consumed ==> !IsQuitCommand(inputs[j])
      invariant forall j :: 0 <= j < consumed ==>
                  StepAdds(inputs[j], analyze(inputs[j]), translate(inputs[j]), log[j])
      invariant deck.file == Present(start + Flatten(log))
    {
      var sentence := inputs[consumed];
      ghost var before := deck.file.rows;
      var outcome := ProcessSentence(deck, sentence, analyze, translate);
      ghost var step := RowsOf(deck.file)[|before|..];
      RowsStep(start, log, before, RowsOf(deck.file));
      LogStep(inputs, analyze, translate, log, step);
      log := log + [step];
      consumed := consumed + 1;
      if outcome == Quit {
        quit := true;
        break;
      }
      forall j | 0 <= j < consumed
        ensures !IsQuitCommand(inputs[j])
      {
        if j == consumed - 1 {
          assert inputs[j] == sentence;
        }
      }
    }
  }

  /** Recording the rows of line `|log|` keeps the log in step with the lines. */
  lemma LogStep(inputs: seq<string>, analyze: string -> seq<Token>, translate: string -> string,
                log: seq<seq<Row>>, step: seq<Row>)
    requires |log| < |inputs|
    requires forall j :: 0 <= j < |log| ==>
               StepAdds(inputs[j], analyze(inputs[j]), translate(inputs[j]), log[j])
    requires StepAdds(inputs[|log|], analyze(inputs[|log|]), translate(inputs[|log|]), step)
    ensures forall j :: 0 <= j < |log| + 1 ==>
              StepAdds(inputs[j], analyze(inputs[j]), translate(inputs[j]), (log + [step])[j])
  {
  }

  /** Every card of a run is the card of one of its lines for one of that
      line's extracted words. */
  lemma {:induction false} SessionCardsSound(inputs: seq<string>, analyze: string -> seq<Token>,
                                             translate: string -> string, log: seq<seq<Row>>)
    requires |log| <= |inputs|
    requires forall j :: 0 <= j < |log| ==>
               StepAdds(inputs[j], analyze(inputs[j]), translate(inputs[j]), log[j])
    ensures forall r :: r in Flatten(log) ==>
              exists j :: 0 <= j < |log| && r.front in KanjiLemmas(analyze(inputs[j]))
                          && r.back == BackText(inputs[j], translate(inputs[j]))
  {
    if log != [] {
      var n := |log| - 1;
      SessionCardsSound(inputs, analyze, translate, log[..n]);
      forall r | r in log[n]
        ensures r.front in KanjiLemmas(analyze(inputs[n]))
        ensures r.back == BackText(inputs[n], translate(inputs[n]))
      {
        var i :| 0 <= i < |log[n]| && log[n][i] == r;
      }
    }
  }

  /** A run appends as many cards as its lines have extracted words; a quit
      command, an empty line or a line without Kanji words adds none. */
  lemma {:induction false} SessionLengthCount(inputs: seq<string>, analyze: string -> seq<Token>,
                                              translate: string -> string, log: seq<seq<Row>>)
    requires |log| <= |inputs|
    requires forall j :: 0 <= j < |log| ==>
               StepAdds(inputs[j], analyze(inputs[j]), translate(inputs[j]), log[j])
    ensures |Flatten(log)| == CardCount(inputs[..|log|], analyze)
  {
    if log != [] {
      var n := |log| - 1;
      SessionLengthCount(inputs, analyze, translate, log[..n]);
      assert inputs[..|log|][..n] == inputs[..n];
    }
  }

  /** The number of cards a run over `lines` appends: for each line that is
      not a quit command and not empty, the number of its extracted words. */
  function CardCount(lines: seq<string>, analyze: string -> seq<Token>): nat {
    if lines == [] then 0
    else
      var last := lines[|lines| - 1];
      CardCount(lines[..|lines| - 1], analyze)
      + (if IsQuitCommand(last) || last == "" then 0 else |KanjiLemmas(analyze(last))|)
  }
}
