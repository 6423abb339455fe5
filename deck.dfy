/** The flashcard file: a two-column table with the header `Front,Back`,
    created once when missing and afterwards only ever appended to.

    The file is modelled as the sequence of rows it holds, or as absent; how
    the rows are written as comma-separated bytes is not modelled. */
module Deck {

  /** One table row: the card's front (a word) and back (the example text). */
  datatype Row = Row(front: string, back: string)

  /** The file on disk: missing, or holding these rows, the header included. */
  datatype CsvFile = Absent | Present(rows: seq<Row>)

  /** The column names, written as the first row of a new file. */
  const FieldNames: seq<string> := ["Front", "Back"]
  const Header: Row := Row(FieldNames[0], FieldNames[1])

  /** The line break that separates sentence and translation on a card's back. */
  const Separator: string := "<br>"

  /** What reading the file yields: its rows, and nothing when it is missing. */
  function RowsOf(f: CsvFile): seq<Row> {
    if f.Present? then f.rows else []
  }

  /** The file after the create-with-header-if-missing step. */
  function Initialized(f: CsvFile): CsvFile {
    if f.Absent? then Present([Header]) else f
  }

  /** The file after appending `row`; opening for append creates a missing file. */
  function Appended(f: CsvFile, row: Row): CsvFile {
    Present(RowsOf(f) + [row])
  }

  function BackText(sentence: string, translation: string): string {
    sentence + Separator + translation
  }

  /** The card for one word of a sentence. */
  function Card(word: string, sentence: string, translation: string): Row {
    Row(word, BackText(sentence, translation))
  }

  /** The file, as a piece of state that the program reads and extends. */
  class DeckFile {
    var file: CsvFile

    constructor (initial: CsvFile)
      ensures file == initial
    {
      file := initial;
    }

    /** Write the header row, but only when the file does not exist yet. */
    method Initialize()
      modifies this
      ensures file == Initialized(old(file))
    {
      if file.Absent? {
        file := Present([Header]);
      }
    }

    /** Append the card for `word`; existing rows are never touched. */
    method Add(word: string, sentence: string, translation: string)
      modifies this
      ensures file == Appended(old(file), Card(word, sentence, translation))
    {
      file := Present(RowsOf(file) + [Card(word, sentence, translation)]);
    }
  }

  /** A missing file is created holding exactly the header `Front,Back`. */
  lemma InitializeCreatesHeader()
    ensures Initialized(Absent) == Present([Row("Front", "Back")])
  {
  }

  /** An existing file is left as it is, whatever it holds. */
  lemma InitializeKeepsExisting(rows: seq<Row>)
    ensures Initialized(Present(rows)) == Present(rows)
  {
  }

  /** Initializing is idempotent, so two runs of a fresh start leave one header. */
  lemma {:induction false} InitializeTwice(f: CsvFile)
    ensures Initialized(Initialized(f)) == Initialized(f)
    ensures f.Absent? ==> multiset(RowsOf(Initialized(Initialized(f))))[Header] == 1
  {
  }

  /** Appending keeps every earlier row in place and puts the new row last. */
  lemma AppendKeepsPrefix(f: CsvFile, row: Row)
    ensures |RowsOf(Appended(f, row))| == |RowsOf(f)| + 1
    ensures RowsOf(Appended(f, row))[..|RowsOf(f)|] == RowsOf(f)
    ensures RowsOf(Appended(f, row))[|RowsOf(f)|] == row
  {
  }

  /** Appending does not deduplicate: the same card twice gives two rows. */
  lemma AppendTwiceKeepsBoth(f: CsvFile, row: Row)
    ensures RowsOf(Appended(Appended(f, row), row)) == RowsOf(f) + [row, row]
  {
  }

  /** The back of a card is the sentence, the line break, then the translation. */
  lemma BackTextParts(sentence: string, translation: string)
    ensures |BackText(sentence, translation)| == |sentence| + 4 + |translation|
    ensures BackText(sentence, translation)[..|sentence|] == sentence
    ensures BackText(sentence, translation)[|sentence|..|sentence| + 4] == "<br>"
    ensures BackText(sentence, translation)[|sentence| + 4..] == translation
  {
  }
}
