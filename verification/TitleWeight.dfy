/** When a title match outranks every content match in the image ranking: exactly when no ten
    distinct query words fit together into the content that is looked at. */
module TitleWeight {
  import opened Options
  import opened SearchTypes
  import opened Seqs
  import opened Ranking
  import opened Snippet
  import opened Images
  import opened TextRuns

  /** What the text functions owe each other: a text is no shorter than its words set apart by
      blanks, and words found in texts can be found again in the text they make. */
  ghost predicate TextLaws(ops: Ops) {
    && (forall t :: |Join(ops.words(t), " ")| <= |t|)
    && (forall t, ws :: FoundIn(ops, t, ws) ==> Rereads(ops, ws))
  }

  predicate FoundIn(ops: Ops, text: string, ws: seq<string>) {
    forall w :: w in ws ==> w in ops.words(text)
  }

  ghost predicate Rereads(ops: Ops, ws: seq<string>) {
    var text := Join(ws, " ");
    ops.words(text) == ws && ops.squeeze(text) == text && StripHighlights(text) == text
  }

  /** Ten distinct words of the query that fit together into a bounded content. */
  ghost predicate TenFit(ops: Ops, query: string) {
    exists ws :: FitTen(ops, query, ws)
  }

  ghost predicate FitTen(ops: Ops, query: string, ws: seq<string>) {
    && |ws| == 10 && |Join(ws, " ")| <= 320
    && FoundIn(ops, query, ws)
    && NoRepeats(ws)
  }

  /** The better title wins over any content. */
  ghost predicate TitleWins(ops: Ops, query: string, a: RawImage, b: RawImage) {
    TitleMatches(ops, query, a) > TitleMatches(ops, query, b) ==>
      Relevance(ops, query, a) > Relevance(ops, query, b)
  }

  /** The terms that are counted, in order. */
  function Matched(terms: seq<string>, words: set<string>): (r: seq<string>)
    ensures |r| == Matches(terms, words)
    ensures forall w :: w in r ==> w in terms && w in words
  {
    if terms == [] then []
    else
      var init, last := terms[..|terms| - 1], terms[|terms| - 1];
      assert terms == init + [last];
      if last in words then Matched(init, words) + [last] else Matched(init, words)
  }

  lemma {:induction false} MatchedAreDistinct(terms: seq<string>, words: set<string>)
    requires NoRepeats(terms)
    ensures NoRepeats(Matched(terms, words))
  {
    if terms != [] {
      var init, last := terms[..|terms| - 1], terms[|terms| - 1];
      assert forall k :: 0 <= k < |init| ==> init[k] == terms[k];
      MatchedAreDistinct(init, words);
      var r := Matched(init, words);
      forall i | 0 <= i < |r|
        ensures r[i] != last
      {
        assert r[i] in r && r[i] in init;
      }
    }
  }

  // ---- both directions -------------------------------------------------------------------

  /** Ten content matches are ten query words that fit. */
  lemma TenMatchesFit(ops: Ops, query: string, raw: RawImage)
    requires TextLaws(ops) && ContentMatches(ops, query, raw) >= 10
    ensures TenFit(ops, query)
  {
    var text := Bounded(ops.squeeze(raw.content), MAX_DESCRIPTION);
    var terms := Distinct(ops.words(query));
    var all := Matched(terms, WordSet(ops, text));
    MatchedAreDistinct(terms, WordSet(ops, text));
    var ten := all[..10];
    assert forall i :: 0 <= i < 10 ==> ten[i] == all[i];
    forall w | w in ten
      ensures w in ops.words(query) && w in ops.words(text)
    {
      assert w in all;
    }
    PickedTakeLess(ten, ops.words(text));
    JoinTakesRoom(ten);
    JoinTakesRoom(ops.words(text));
    assert FitTen(ops, query, ten);
  }

  function Titled(title: string, content: string): RawImage {
    RawImage(title, "", content, "", "", "https://example.org/" + title, "")
  }

  /** A text made of some query words, each once, matches exactly that many. */
  lemma WordsMatchThemselves(ops: Ops, query: string, ws: seq<string>)
    requires TextLaws(ops)
    requires FoundIn(ops, query, ws)
    requires NoRepeats(ws)
    ensures Matches(Distinct(ops.words(query)), WordSet(ops, Join(ws, " "))) == |ws|
    ensures Rereads(ops, ws)
  {
    var terms, words := Distinct(ops.words(query)), WordSet(ops, Join(ws, " "));
    assert Rereads(ops, ws);
    MatchesCountsShared(terms, words);
    assert TermSet(terms) * words == TermSet(ws);
    SizeOfDistinct(ws);
  }

  lemma {:induction false} SizeOfDistinct(ws: seq<string>)
    requires NoRepeats(ws)
    ensures |TermSet(ws)| == |ws|
  {
    if ws != [] {
      var init, last := ws[..|ws| - 1], ws[|ws| - 1];
      SizeOfDistinct(init);
      assert ws == init + [last];
      assert TermSet(ws) == TermSet(init) + {last};
    }
  }

  /** One word in the title against ten in the content: a tie, so the better title does not win. */
  lemma TenTieWithOne(ops: Ops, query: string, ws: seq<string>)
    requires TextLaws(ops) && FitTen(ops, query, ws)
    ensures var a, b := Titled(ws[0], ""), Titled("", Join(ws, " "));
            && Normalized(a) == a && Normalized(b) == b
            && TitleMatches(ops, query, a) == 1 && TitleMatches(ops, query, b) == 0
            && Relevance(ops, query, a) == Relevance(ops, query, b) == 10
  {
    assert ws[0] in ws;
    WordsMatchThemselves(ops, query, ws);
    WordsMatchThemselves(ops, query, [ws[0]]);
    WordsMatchThemselves(ops, query, []);
    assert Join([ws[0]], " ") == ws[0] && Join([], " ") == "";
  }

  /** A title with more matches wins over any content exactly when no ten distinct query words
      fit together into the 320 characters of content that count. */
  lemma TitleWinsIff(ops: Ops, query: string)
    requires TextLaws(ops)
    ensures (forall a, b :: Normalized(a) == a && Normalized(b) == b ==> TitleWins(ops, query, a, b))
            <==> !TenFit(ops, query)
  {
    if TenFit(ops, query) {
      var ws :| FitTen(ops, query, ws);
      TenTieWithOne(ops, query, ws);
      assert !TitleWins(ops, query, Titled(ws[0], ""), Titled("", Join(ws, " ")));
    } else {
      forall a, b
        ensures TitleWins(ops, query, a, b)
      {
        if ContentMatches(ops, query, b) >= 10 {
          TenMatchesFit(ops, query, b);
        }
      }
    }
  }

  /** In the pipeline, whatever the text functions do: with fewer than ten distinct query words
      a candidate with more title matches comes before one with fewer. */
  lemma FewWordsPutTitlesFirst(ops: Ops, query: string, raws: seq<RawImage>, a: Candidate, b: Candidate)
    requires |Distinct(ops.words(query))| < 10
    requires a in Candidates(ops, query, raws) && b in Candidates(ops, query, raws)
    requires TitleMatches(ops, query, a.item) > TitleMatches(ops, query, b.item)
    ensures a.relevance > b.relevance && Before(a, b)
  {
    CandidatesAre(ops, query, raws, a);
    CandidatesAre(ops, query, raws, b);
  }

  // ---- ten words for which it fails ------------------------------------------------------

  predicate IsWordChar(c: char) { 'a' <= c <= 'z' || 'A' <= c <= 'Z' || '0' <= c <= '9' }

  predicate IsInk(c: char) { !IsSpace(c) }

  /** The text functions on ASCII text, with every address usable and canonical. */
  function AsciiOps(): Ops {
    Ops((t: string) => Runs(IsWordChar, Lower(t)),
        (t: string) => Join(Runs(IsInk, t), " "),
        (u: string) => u != "",
        (u: string) => false,
        (u: string) => Some(u))
  }

  lemma {:induction false} NothingToStrip(text: string)
    requires HIGHLIGHT_START !in text && HIGHLIGHT_END !in text
    ensures StripHighlights(text) == text
  {
    if text != "" {
      assert text == text[..|text| - 1] + [text[|text| - 1]];
      NothingToStrip(text[..|text| - 1]);
    }
  }

  lemma AllLower(text: string)
    requires forall c :: c in text ==> LowerChar(c) == c
    ensures Lower(text) == text
  {
  }

  /** What lower-case runs look like: words and ink, already in lower case. */
  predicate LowerWord(w: string) {
    Kept(IsWordChar, w) && Lower(w) == w
  }

  lemma AsciiWordsAreLower(t: string, w: string)
    requires w in Runs(IsWordChar, Lower(t))
    ensures LowerWord(w)
  {
    RunsAreKept(IsWordChar, Lower(t));
    forall c | c in w
      ensures LowerChar(c) == c
    {
      assert c in Lower(t);
    }
    AllLower(w);
  }

  /** Lower-case words set apart by blanks read back as themselves. */
  lemma LowerWordsReread(ws: seq<string>)
    requires forall i :: 0 <= i < |ws| ==> LowerWord(ws[i])
    ensures var text := Join(ws, " ");
            && Lower(text) == text && StripHighlights(text) == text
            && Runs(IsWordChar, text) == ws && Runs(IsInk, text) == ws
  {
    var text := Join(ws, " ");
    forall c | c in text
      ensures LowerChar(c) == c && c != HIGHLIGHT_START && c != HIGHLIGHT_END
    {
      CharsOfJoin(ws, c);
      if c != ' ' {
        var w :| w in ws && c in w;
        var k :| 0 <= k < |w| && w[k] == c;
        assert LowerWord(w) && Lower(w)[k] == LowerChar(c) && IsWordChar(c);
      }
    }
    AllLower(text);
    NothingToStrip(text);
    RunsOfJoin(IsWordChar, ws);
    forall i | 0 <= i < |ws|
      ensures Kept(IsInk, ws[i])
    {
      assert LowerWord(ws[i]);
    }
    RunsOfJoin(IsInk, ws);
  }

  lemma AsciiRereads(t: string, ws: seq<string>)
    requires FoundIn(AsciiOps(), t, ws)
    ensures Rereads(AsciiOps(), ws)
  {
    forall i | 0 <= i < |ws|
      ensures LowerWord(ws[i])
    {
      assert ws[i] in ws;
      AsciiWordsAreLower(t, ws[i]);
    }
    LowerWordsReread(ws);
  }

  lemma AsciiWordsFit(t: string)
    ensures |Join(AsciiOps().words(t), " ")| <= |t|
  {
    RunsFit(IsWordChar, Lower(t));
    JoinTakesRoom(Runs(IsWordChar, Lower(t)));
  }

  /** The laws are those of real text functions. */
  lemma AsciiObeysLaws()
    ensures TextLaws(AsciiOps())
  {
    forall t: string
      ensures |Join(AsciiOps().words(t), " ")| <= |t|
    {
      AsciiWordsFit(t);
    }
    forall t, ws | FoundIn(AsciiOps(), t, ws)
      ensures Rereads(AsciiOps(), ws)
    {
      AsciiRereads(t, ws);
    }
  }

  lemma TitledCandidate(query: string, title: string, content: string, i: nat)
    requires Normalized(Titled(title, content)) == Titled(title, content)
    ensures var raw := Titled(title, content);
            CandidateOf(AsciiOps(), query, raw, i)
              == Some(Candidate(raw, raw.imgSrc, Relevance(AsciiOps(), query, raw), i))
  {
  }

  lemma TwoCandidates(ops: Ops, query: string, x: RawImage, y: RawImage)
    requires CandidateOf(ops, query, x, 0).Some? && CandidateOf(ops, query, y, 1).Some?
    ensures Candidates(ops, query, [x, y])
         == [CandidateOf(ops, query, x, 0).value, CandidateOf(ops, query, y, 1).value]
  {
    assert [x, y][..1] == [x] && [x][..0] == [];
    assert Candidates(ops, query, [x]) == [CandidateOf(ops, query, x, 0).value];
  }

  /** For a query of ten short words, an image titled with one of them comes after an untitled
      one whose content holds all ten. */
  lemma TenWordsLose(ws: seq<string>)
    requires |ws| == 10 && NoRepeats(ws) && |Join(ws, " ")| <= MAX_DESCRIPTION
    requires forall i :: 0 <= i < |ws| ==> LowerWord(ws[i])
    ensures var ops, query := AsciiOps(), Join(ws, " ");
            var cs := Candidates(ops, query, [Titled("", query), Titled(ws[0], "")]);
            && |cs| == 2 && Before(cs[0], cs[1])
            && TitleMatches(ops, query, cs[0].item) == 0 && TitleMatches(ops, query, cs[1].item) == 1
  {
    var ops, query := AsciiOps(), Join(ws, " ");
    LowerWordsReread(ws);
    AsciiObeysLaws();
    assert FitTen(ops, query, ws);
    TenTieWithOne(ops, query, ws);
    TitledCandidate(query, "", query, 0);
    TitledCandidate(query, ws[0], "", 1);
    TwoCandidates(ops, query, Titled("", query), Titled(ws[0], ""));
  }

  const TEN_LETTERS: seq<string> := ["a", "b", "c", "d", "e", "f", "g", "h", "i", "j"]

  /** Such a query is "a b c d e f g h i j". */
  lemma TenLettersLose()
    ensures |TEN_LETTERS| == 10 && NoRepeats(TEN_LETTERS) && |Join(TEN_LETTERS, " ")| <= MAX_DESCRIPTION
    ensures forall i :: 0 <= i < |TEN_LETTERS| ==> LowerWord(TEN_LETTERS[i])
  {
    JoinTakesRoom(TEN_LETTERS);
    RoomOfLetters(TEN_LETTERS);
  }

  lemma {:induction false} RoomOfLetters(ws: seq<string>)
    requires forall i :: 0 <= i < |ws| ==> |ws[i]| == 1
    ensures Room(ws) == 2 * |ws|
  {
    if ws != [] {
      RoomOfLetters(ws[..|ws| - 1]);
    }
  }
}
