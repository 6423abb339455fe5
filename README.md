# Japanese Anki card builder — a Dafny model

The builder reads Japanese sentences one line at a time. For each sentence it
gets an English translation and runs a morphological analyser (GiNZA). From the
analyser's tokens it takes the dictionary forms (lemmas) of the content words
whose written form contains a Kanji. It then appends one flashcard row per such
word to a two-column CSV deck (`Front,Back`) that Anki can import.

The model has three modules:

- `Extract` (`extract.dfy`) models `extract.py`. It has the Kanji character
  class (U+4E00..U+9FAF, both ends included) and the leftmost search for it.
  It has the part-of-speech filter (NOUN, PROPN, VERB, ADJ) and the extraction
  pass `ExtractKanjiWords`. That pass is a loop that collects lemmas into a
  set, followed by the conversion of the set into a list. The analyser's output
  for a sentence is the method's input `doc: seq<Token>`. A token's lemma is
  the field `baseForm`, because `lemma` is a Dafny keyword. The specification
  is the set `KanjiLemmas(doc)`.
- `Deck` (`deck.dfy`) models the file side of `main.py`. The file is either
  `Absent` or `Present(rows)`. Each row is a (front, back) pair and the header
  is a row of its own. `DeckFile` is a class whose `file` field is updated by
  `Initialize` (`initialize_csv`: write the header only when the file is
  missing) and by `Add` (`add_to_csv`: append the row
  `(word, sentence + "<br>" + translation)`).
- `Builder` (`builder.dfy`) models `main`'s loop. `ProcessSentence` is one pass
  of the loop body: quit on `q`/`exit` in any ASCII case, skip an empty line,
  skip a sentence with nothing extracted, and otherwise append one card per
  word. `Session` is the whole run: set up the file, then process lines until
  a quit command. `StepAdds` says which rows one line may append. The ghost
  `log` of `Session` records those rows line by line.

The translator, the analyser and the line source are parameters:
`translate: string -> string`, `analyze: string -> seq<Token>` and
`inputs: seq<string>`.

`list(set)` in `extract.py` yields the words in an order that Python leaves
unspecified. The model lists the set by picking an arbitrary remaining
element at each step. So every contract about the listed words speaks of
their set, their count and their distinctness, and never of their order.

The back of a card is the sentence, `<br>` and the translation (main.py:33).
No word of the sentence is highlighted.

## Model

| member | source | states |
|---|---|---|
| `Extract.KanjiRangeEnds` | extract.py:27 | U+4E00 and U+9FAF are in the Kanji class; U+4DFF and U+9FB0 are not |
| `Extract.SearchKanji` | extract.py:53 | the search finds a match exactly when some character of the text is a Kanji, and the position it returns is the leftmost Kanji |
| `Extract.ExtractKanjiWords` | extract.py:29-60 | each returned word is the lemma of some token whose tag is NOUN/PROPN/VERB/ADJ and whose surface contains a Kanji; every such token's lemma is returned; no word appears twice; the count equals the size of the lemma set |
| `Extract.SameTokensSameLemmas` | extract.py:45-60 | as a set, the result depends only on which tokens occur, so reordering or repeating tokens does not change it |
| `Extract.NoKanjiNoWords` | extract.py:53-57 | if no token's surface contains a Kanji (all-kana input, say), nothing is extracted |
| `Extract.SurfaceDecides` | extract.py:53-57 | the Kanji test looks at the surface and not the lemma: お会い (lemma 会う) is kept, while あう (lemma 会う) and しましょう (lemma する) are dropped |
| `Extract.PosDecides` | extract.py:50 | a Kanji surface tagged ADV is dropped; PROPN and ADJ tokens with Kanji are kept |
| `Extract.SampleSentence` | extract.py:64 | for a hand-written analysis of the test sentence 明日会社でお会いしましょう。 (明日/NOUN, 会社/NOUN, で/ADP, お会い→会う/VERB, しましょう→する/AUX), the kept lemmas are exactly {明日, 会社, 会う} |
| `Deck.DeckFile.Initialize` | main.py:17-23 | the new file is the old one after the create-with-header-if-missing step |
| `Deck.InitializeCreatesHeader` | main.py:15-22 | a missing file becomes a file holding exactly the row `Front,Back` |
| `Deck.InitializeKeepsExisting` | main.py:19 | an existing file is left unchanged, whatever its rows |
| `Deck.InitializeTwice` | main.py:19-22 | initializing twice equals initializing once; from a missing file the header occurs exactly once |
| `Deck.DeckFile.Add` | main.py:25-39 | the new file is the old rows (none if the file was missing) followed by the row (word, sentence + `<br>` + translation) |
| `Deck.AppendKeepsPrefix` | main.py:37-39 | appending adds exactly one row, keeps every earlier row in place and puts the new row last |
| `Deck.AppendTwiceKeepsBoth` | main.py:37-39 | appending the same row twice gives two identical trailing rows: there is no rewriting or deduplication |
| `Deck.BackTextParts` | main.py:33 | the back text is the sentence, then `<br>`, then the translation |
| `Builder.ToLowerAscii` | main.py:57 | lower-casing keeps the length and lower-cases each character on its own |
| `Builder.QuitSpellings` | main.py:57 | a line is the quit command exactly when it is `q` or `exit` with each letter in either case |
| `Builder.QuitExamples` | main.py:57-59 | `q`, `Q`, `EXIT` and `eXiT` quit; the empty line, `quit` and `exit ` do not |
| `Builder.Cards` | main.py:81-82 | the appended block has one card per word, in the words' order, each with the same back text |
| `Builder.ProcessSentence` | main.py:54-84 | the outcome is Quit, SkippedEmpty or NoWords exactly under the source's conditions, and then the file is unchanged; otherwise the words are the distinct extracted lemmas and the file gains exactly their cards after its old rows (`StepAdds`) |
| `Builder.Session` | main.py:41-84 | the file is set up first; the run stops right after the first quit command or at the end of the input; the final file is the set-up rows followed by, line by line, the rows each line was allowed to add |
| `Builder.SessionCardsSound` | main.py:71-82 | every card appended in a run has as its front an extracted word of one of the lines, and as its back that line's sentence, `<br>` and translation |
| `Builder.SessionLengthCount` | main.py:74-84 | a run appends as many cards as its non-quit, non-empty lines have extracted words |

## Left out

- `translate.py` is not part of this model. Translation is the opaque parameter `translate`, a total function.
- Loading the GiNZA model, and the exit when it fails to load (extract.py:11-22), are not modelled. The analyser call `nlp(text)` is the opaque parameter `analyze`.
- Console I/O is not modelled: the prompts and `print` messages. The lines typed are the sequence `inputs`.
- The recovery paths are not modelled: `KeyboardInterrupt` and the `except Exception` branch (main.py:86-92). The analyser, the translator and the file writes are treated as total, so per-sentence failures are not modelled. Nor is a storage failure that leaves only some of a sentence's cards written.
- `Builder.Session` stops when `inputs` runs out. In the real program the loop waits for input forever. At end of input, `input()` raises an exception, and the generic handler just prompts again.
- CSV serialisation is not modelled: quoting and escaping by the `csv` module, the UTF-8 byte-order mark, newline handling and `os.path.exists`. The file is an abstract sequence of rows, and absence is the `Absent` state.
- Python's full Unicode `str.lower()` is modelled as ASCII lower-casing. As far as known, no non-ASCII character lower-cases to one of the letters of `q` or `exit`, so the quit test should be unaffected.
- The order in which `list(set)` yields the words is not modelled. The model picks an arbitrary remaining element at each step, so it proves nothing about order.
