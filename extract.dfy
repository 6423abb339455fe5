/** Kanji word extraction: from the tokens that a Japanese morphological
    analyser produced for one sentence, keep the dictionary forms (lemmas) of
    the content words whose written form contains a Kanji, without duplicates.

    The analyser itself is not modelled: its output for a sentence is the
    `doc: seq<Token>` parameter of `ExtractKanjiWords`. */
module Extract {

  datatype Option<T> = None | Some(value: T)

  /** One analysed token: the text as it appears in the sentence, its
      dictionary form (the lemma) and its universal part-of-speech tag. */
  datatype Token = Token(surface: string, baseForm: string, pos: string)

  /** The code point range of the Kanji character class, both ends included. */
  const KanjiFirst: int := 0x4E00
  const KanjiLast: int := 0x9FAF

  /** The part-of-speech tags worth a flashcard: noun, proper noun, verb, adjective. */
  const MeaningfulPos: seq<string> := ["NOUN", "PROPN", "VERB", "ADJ"]

  predicate IsKanji(c: char) {
    KanjiFirst <= c as int <= KanjiLast
  }

  /** Specification of the Kanji test: some character of `s` is a Kanji. */
  predicate HasKanji(s: string) {
    exists i :: 0 <= i < |s| && IsKanji(s[i])
  }

  predicate IsMeaningfulPos(pos: string) {
    pos in MeaningfulPos
  }

  /** A token contributes its lemma when its tag is meaningful and its
      SURFACE text (not its lemma) contains a Kanji. */
  predicate Keeps(t: Token) {
    IsMeaningfulPos(t.pos) && HasKanji(t.surface)
  }

  /** The set of lemmas the extraction must return for `doc`. */
  function KanjiLemmas(doc: seq<Token>): set<string> {
    set t | t in doc && Keeps(t) :: t.baseForm
  }

  /** Leftmost search for a Kanji in `s` at or after position `from`. */
  function SearchFrom(s: string, from: nat): (r: Option<nat>)
    requires from <= |s|
    ensures r.Some? ==> from <= r.value < |s| && IsKanji(s[r.value])
    ensures r.Some? ==> forall j :: from <= j < r.value ==> !IsKanji(s[j])
    ensures r.None? ==> forall j :: from <= j < |s| ==> !IsKanji(s[j])
    decreases |s| - from
  {
    if from == |s| then None
    else if IsKanji(s[from]) then Some(from)
    else SearchFrom(s, from + 1)
  }

  /** The regular-expression search for one character of the Kanji class:
      the position of the leftmost match, or None when there is none. */
  function SearchKanji(s: string): (r: Option<nat>)
    ensures r.Some? <==> HasKanji(s)
    ensures r.Some? ==> r.value < |s| && IsKanji(s[r.value])
    ensures r.Some? ==> forall j :: 0 <= j < r.value ==> !IsKanji(s[j])
  {
    SearchFrom(s, 0)
  }

  /** The extraction pass: collect the kept lemmas in a set, token by token,
      then list the set. The order of the list is whatever the set yields. */
  method ExtractKanjiWords(doc: seq<Token>) returns (words: seq<string>)
    ensures forall w :: w in words <==> w in KanjiLemmas(doc)
    ensures forall w :: w in words ==>
              exists t :: t in doc && IsMeaningfulPos(t.pos) && HasKanji(t.surface) && t.baseForm == w
    ensures forall t :: t in doc && IsMeaningfulPos(t.pos) && HasKanji(t.surface) ==> t.baseForm in words
    ensures forall i, j :: 0 <= i < j < |words| ==> words[i] != words[j]
    ensures |words| == |KanjiLemmas(doc)|
  {
    var found: set<string> := {};
    for i := 0 to |doc|
      invariant found == KanjiLemmas(doc[..i])
    {
      var token := doc[i];
      var isMeaningfulPos := token.pos in MeaningfulPos;
      var hasKanji := SearchKanji(token.surface).Some?;
      if isMeaningfulPos && hasKanji {
        found := found + {token.baseForm};
      }
      KanjiLemmasSnoc(doc[..i], token);
      assert doc[..i + 1] == doc[..i] + [token];
    }
    assert doc[..|doc|] == doc;

    words := [];
    var rest := found;
    while rest != {}
      invariant forall w :: w in found <==> w in words || w in rest
      invariant forall w :: w in words ==> w !in rest
      invariant forall i, j :: 0 <= i < j < |words| ==> words[i] != words[j]
      invariant |words| + |rest| == |found|
      decreases |rest|
    {
      var w :| w in rest;
      words := words + [w];
      rest := rest - {w};
    }
  }

  /** Processing one more token adds its lemma exactly when it is kept. */
  lemma KanjiLemmasSnoc(doc: seq<Token>, t: Token)
    ensures KanjiLemmas(doc + [t]) == KanjiLemmas(doc) + (if Keeps(t) then {t.baseForm} else {})
  {
    assert forall u :: u in doc + [t] <==> u in doc || u == t;
  }

  /** As a set, the result depends only on which tokens occur, so reordering
      or repeating tokens does not change it. */
  lemma SameTokensSameLemmas(doc1: seq<Token>, doc2: seq<Token>)
    requires forall t :: t in doc1 <==> t in doc2
    ensures KanjiLemmas(doc1) == KanjiLemmas(doc2)
  {
  }

  /** A document whose surfaces hold no Kanji yields nothing. */
  lemma NoKanjiNoWords(doc: seq<Token>)
    requires forall t :: t in doc ==> !HasKanji(t.surface)
    ensures KanjiLemmas(doc) == {}
  {
  }

  /** Both ends of the character range count, the neighbours outside do not. */
  lemma KanjiRangeEnds()
    ensures IsKanji('\U{4E00}') && IsKanji('\U{9FAF}')
    ensures !IsKanji('\U{4DFF}') && !IsKanji('\U{9FB0}')
  {
  }

  /** A hand-written analysis of the test sentence 明日会社でお会いしましょう。:
      明日/NOUN, 会社/NOUN, で/ADP, お会い (lemma 会う)/VERB and しましょう
      (lemma する)/AUX. For these tokens で is not a content word and has no
      Kanji, しましょう has no Kanji in its surface, and お会い contributes 会う. */
  lemma SampleSentence()
    ensures KanjiLemmas([Token("明日", "明日", "NOUN"), Token("会社", "会社", "NOUN"),
                         Token("で", "で", "ADP"), Token("お会い", "会う", "VERB"),
                         Token("しましょう", "する", "AUX")])
            == {"明日", "会社", "会う"}
  {
    var doc := [Token("明日", "明日", "NOUN"), Token("会社", "会社", "NOUN"),
                Token("で", "で", "ADP"), Token("お会い", "会う", "VERB"),
                Token("しましょう", "する", "AUX")];
    assert IsKanji("明日"[0]) && IsKanji("会社"[0]) && IsKanji("お会い"[1]);
    assert !HasKanji("で") by { assert !IsKanji("で"[0]); }
    assert Keeps(doc[0]) && Keeps(doc[1]) && Keeps(doc[3]);
    assert !Keeps(doc[2]) && !Keeps(doc[4]);
    assert forall t :: t in doc <==> t == doc[0] || t == doc[1] || t == doc[2] || t == doc[3] || t == doc[4];
  }

  /** The Kanji test looks at the surface: a Kanji in the lemma alone is not
      enough, and a Kanji in an inflected surface is. */
  lemma SurfaceDecides()
    ensures Keeps(Token("お会い", "会う", "VERB"))
    ensures !Keeps(Token("あう", "会う", "VERB"))
    ensures !Keeps(Token("しましょう", "する", "VERB"))
  {
    assert IsKanji("お会い"[1]);
    assert !HasKanji("あう") by { assert !IsKanji("あう"[0]) && !IsKanji("あう"[1]); }
  }

  /** A Kanji surface with a tag outside the four content-word tags is dropped. */
  lemma PosDecides()
    ensures !Keeps(Token("全然", "全然", "ADV"))
    ensures Keeps(Token("東京", "東京", "PROPN")) && Keeps(Token("高い", "高い", "ADJ"))
  {
    assert IsKanji("東京"[0]) && IsKanji("高い"[0]);
  }
}
