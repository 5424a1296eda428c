/** The two readings of the free-text score column ('Placar') found in the
    repository: the ingestion-side classifier, which only keeps the sign of
    the game state, and the training-side parser, which also reads 'a-b'
    scores as a goal difference. */
module Score {
  import opened Common
  import opened Text

  /** `str(placar).strip().lower()`. */
  function Normalize(placar: string): string
  {
    Lower(Strip(placar))
  }

  /** `str(x)` of an empty spreadsheet cell (pandas NaN) is the text "nan". */
  function CellText(cell: Option<string>): string
  {
    match cell
    case Some(t) => t
    case None => "nan"
  }

  // ---------------------------------------------------------------------------
  // Ingestion-side classifier.

  const SignWinWords: seq<string> := ["vencendo", "vitoria", "vitória", "ganhando", "v"]
  const SignLossWords: seq<string> := ["perdendo", "derrota", "d"]

  /** `extrair_diff_gols` of the loader: 1 when a win word occurs in the normalised text,
      otherwise -1 when a loss word occurs, otherwise 0. */
  function ScoreSign(placar: string): (r: int)
    ensures -1 <= r <= 1
  {
    var s := Normalize(placar);
    if ContainsAny(s, SignWinWords) then 1
    else if ContainsAny(s, SignLossWords) then -1
    else 0
  }

  /** Because the word lists end with the single letters 'v' and 'd', the classifier
      only looks at letters: any 'v' (or "ganhando") wins, even beside a 'd';
      otherwise any 'd' loses; everything else is 0. */
  lemma ScoreSignByLetters(placar: string)
    ensures var s := Normalize(placar);
            ScoreSign(placar) == if 'v' in s || Contains(s, "ganhando") then 1
                                 else if 'd' in s then -1
                                 else 0
  {
    var s := Normalize(placar);
    WinWordsByLetter(s);
    LossWordsByLetter(s);
  }

  lemma WinWordsByLetter(s: string)
    ensures ContainsAny(s, SignWinWords) <==> 'v' in s || Contains(s, "ganhando")
  {
    ContainsChar(s, 'v');
    if ContainsAny(s, SignWinWords) {
      var j :| 0 <= j < |SignWinWords| && Contains(s, SignWinWords[j]);
      if j != 3 { ContainsLetters(s, SignWinWords[j], 0); }
    }
    if Contains(s, "ganhando") { assert Contains(s, SignWinWords[3]); }
    if 'v' in s { assert Contains(s, SignWinWords[4]); }
  }

  lemma LossWordsByLetter(s: string)
    ensures ContainsAny(s, SignLossWords) <==> 'd' in s
  {
    ContainsChar(s, 'd');
    if ContainsAny(s, SignLossWords) {
      var j :| 0 <= j < |SignLossWords| && Contains(s, SignLossWords[j]);
      if j == 0 { ContainsLetters(s, SignLossWords[0], 3); }
      else { ContainsLetters(s, SignLossWords[j], 0); }
    }
    if 'd' in s { assert Contains(s, SignLossWords[2]); }
  }

  /** The letter rule in action: a draw ("empatando") is read as a loss because it has a 'd'. */
  lemma ScoreSignDrawIsLoss()
    ensures ScoreSign("empatando") == -1
  {
    StripNoSpace("empatando");
    LowerNoCapitals("empatando");
    ScoreSignByLetters("empatando");
    NoLetterMeansNoWord("empatando", "ganhando", 0);
  }

  /** A lone "V", with surrounding blanks, is a win. */
  lemma ScoreSignLetter()
    ensures ScoreSign(" V ") == 1
  {
    PaddedStrip('V');
    assert " V " == [' ', 'V', ' '];
    assert Lower("V")[0] == 'v';
    assert 'v' in Normalize(" V ");
    ScoreSignByLetters(" V ");
  }

  /** One blank on each side of a letter is stripped. */
  lemma PaddedStrip(c: char)
    requires !IsSpace(c)
    ensures Strip([' ', c, ' ']) == [c]
  {
    var s := [' ', c, ' '];
    assert s[1..] == [c, ' '];
    assert StripLeft(s) == [c, ' '];
    var t := [c, ' '];
    assert t[..1] == [c];
    assert StripRight(t) == [c];
  }

  /** A numeric score carries no letter and is classified 0. */
  lemma ScoreSignNumeric()
    ensures ScoreSign("2-1") == 0
  {
    var s := "2-1";
    assert s == ['2', '-', '1'];
    StripNoSpace(s);
    LowerNoCapitals(s);
    assert Normalize(s) == s;
    assert 'v' !in s && 'd' !in s && "ganhando"[0] == 'g' && 'g' !in s;
    NoLetterMeansNoWord(s, "ganhando", 0);
    ScoreSignByLetters(s);
  }

  /** An empty cell, read as the text "nan", is classified 0. */
  lemma ScoreSignOfEmptyCell()
    ensures ScoreSign(CellText(None)) == 0
  {
    var s := CellText(None);
    assert s == ['n', 'a', 'n'];
    StripNoSpace(s);
    LowerNoCapitals(s);
    ScoreSignByLetters(s);
    assert "ganhando"[0] == 'g';
    NoLetterMeansNoWord(s, "ganhando", 0);
  }

  /** A word whose `k`-th letter is absent from `s` does not occur in `s`. */
  lemma NoLetterMeansNoWord(s: string, w: string, k: nat)
    requires k < |w| && w[k] !in s
    ensures !Contains(s, w)
  {
    if Contains(s, w) { ContainsLetters(s, w, k); }
  }

  /** Lower-casing leaves text without capitals unchanged. */
  lemma LowerNoCapitals(s: string)
    requires forall i :: 0 <= i < |s| ==> !IsCapital(s[i])
    ensures Lower(s) == s
  {
  }

  // ---------------------------------------------------------------------------
  // Training-side parser.

  const DiffWinWords: seq<string> := ["vencendo", "vitoria", "vitória", "ganhando"]
  const DiffLossWords: seq<string> := ["perdendo", "derrota"]
  const DiffDrawWords: seq<string> := ["empat"]

  /** `extrair_diff_gols` of the training script: words first, then the single letters
      'v'/'d'/'e', then a score 'a-b' read as a - b; anything unreadable is 0. */
  function GoalDiff(placar: string): int
  {
    var s := Normalize(placar);
    match WordDiff(s)
    case Some(d) => d
    case None => NumericDiff(s)
  }

  /** The verbal part of the parser, on normalised text; `None` when no word or letter rule applies. */
  function WordDiff(s: string): (r: Option<int>)
    ensures r.Some? ==> -1 <= r.value <= 1
  {
    if ContainsAny(s, DiffWinWords) then Some(1)
    else if ContainsAny(s, DiffLossWords) then Some(-1)
    else if ContainsAny(s, DiffDrawWords) then Some(0)
    else if s == "v" then Some(1)
    else if s == "d" then Some(-1)
    else if s == "e" then Some(0)
    else None
  }

  /** `int(p[0]) - int(p[1])` for `p = s.replace(' ', '').split('-')`; 0 when that raises. */
  function NumericDiff(s: string): int
  {
    var parts := Split(RemoveSpaces(s), '-');
    if |parts| < 2 then 0
    else match (ParseInt(parts[0]), ParseInt(parts[1]))
      case (Some(a), Some(b)) => a - b
      case _ => 0
  }

  /** The text of a score with `a` goals for and `b` against. */
  function ScoreText(a: nat, b: nat): string
  {
    NatToDigits(a) + ['-'] + NatToDigits(b)
  }

  /** Reading a written score back gives its goal difference. */
  lemma GoalDiffRoundTrip(a: nat, b: nat)
    ensures GoalDiff(ScoreText(a, b)) == a - b
  {
    var t := ScoreText(a, b);
    ScoreTextShape(a, b);
    NormalizeScoreText(t);
    NoWordIn(t, DiffWinWords);
    NoWordIn(t, DiffLossWords);
    NoWordIn(t, DiffDrawWords);
    assert WordDiff(t) == None;
    NumericDiffOfScore(a, b);
  }

  /** A written score is made of digits and one '-'. */
  lemma ScoreTextShape(a: nat, b: nat)
    ensures var t := ScoreText(a, b);
            |t| >= 3 && forall i :: 0 <= i < |t| ==> t[i] == '-' || IsDigit(t[i])
  {
    var da, db := NatToDigits(a), NatToDigits(b);
    var t := ScoreText(a, b);
    forall i | 0 <= i < |t| ensures t[i] == '-' || IsDigit(t[i]) {
      if i < |da| { assert t[i] == da[i]; }
      else if i > |da| { assert t[i] == db[i - |da| - 1]; }
    }
  }

  /** Text of digits and '-' is already normalised. */
  lemma NormalizeScoreText(t: string)
    requires forall i :: 0 <= i < |t| ==> t[i] == '-' || IsDigit(t[i])
    ensures Normalize(t) == t
  {
    StripNoSpace(t);
    LowerNoCapitals(t);
  }

  lemma NumericDiffOfScore(a: nat, b: nat)
    ensures NumericDiff(ScoreText(a, b)) == a - b
  {
    var da, db := NatToDigits(a), NatToDigits(b);
    var t := ScoreText(a, b);
    assert ' ' !in da && ' ' !in db && '-' !in da && '-' !in db;
    assert ' ' !in t;
    SplitOnce(da, db, '-');
    ParseIntRoundTrip(a);
    ParseIntRoundTrip(b);
  }

  /** Text made of digits and '-' contains none of the words, all of which start with a letter. */
  lemma NoWordIn(t: string, words: seq<string>)
    requires forall i :: 0 <= i < |t| ==> t[i] == '-' || IsDigit(t[i])
    requires forall j :: 0 <= j < |words| ==> |words[j]| > 0 && 'a' <= words[j][0] <= 'z'
    ensures !ContainsAny(t, words)
  {
    forall j | 0 <= j < |words| ensures !Contains(t, words[j]) {
      NoLetterMeansNoWord(t, words[j], 0);
    }
  }

  /** The single letters are read in either case. */
  lemma GoalDiffLetters()
    ensures GoalDiff("V") == 1 && GoalDiff("d") == -1 && GoalDiff("E") == 0
  {
    NormalizeLetter('V');
    NormalizeLetter('d');
    NormalizeLetter('E');
    NoWordIn1("v");
    NoWordIn1("d");
    NoWordIn1("e");
  }

  lemma NormalizeLetter(c: char)
    requires 'A' <= c <= 'Z' || 'a' <= c <= 'z'
    ensures Normalize([c]) == [LowerChar(c)]
  {
    assert !IsSpace(c);
    StripNoSpace([c]);
    var l := Lower([c]);
    assert |l| == 1 && l[0] == LowerChar(c);
  }

  /** A one-letter text contains none of the (longer) words. */
  lemma NoWordIn1(s: string)
    requires |s| == 1
    ensures !ContainsAny(s, DiffWinWords) && !ContainsAny(s, DiffLossWords) && !ContainsAny(s, DiffDrawWords)
  {
  }

  /** "Empatando" is a draw for the training-side parser (the ingestion-side classifier
      reads it as a loss). */
  lemma GoalDiffDraw()
    ensures GoalDiff("Empatando") == 0
  {
    var s := "empatando";
    NormalizeEmpatando();
    NoLetterMeansNoWord(s, DiffWinWords[0], 0);
    NoLetterMeansNoWord(s, DiffWinWords[1], 0);
    NoLetterMeansNoWord(s, DiffWinWords[2], 0);
    NoLetterMeansNoWord(s, DiffWinWords[3], 0);
    NoLetterMeansNoWord(s, DiffLossWords[0], 2);
    NoLetterMeansNoWord(s, DiffLossWords[1], 2);
    assert OccursAt(s, DiffDrawWords[0], 0);
  }

  lemma NormalizeEmpatando()
    ensures Normalize("Empatando") == "empatando"
  {
    StripNoSpace("Empatando");
    assert Lower("Empatando")[0] == 'e';
  }

  /** A score without a separator is unreadable and counts as 0. */
  lemma GoalDiffNoSeparator()
    ensures GoalDiff("3") == 0
  {
    NormalizeScoreText("3");
    NoWordIn("3", DiffWinWords);
    NoWordIn("3", DiffLossWords);
    NoWordIn("3", DiffDrawWords);
    SplitNone("3", '-');
  }

  /** `Resultado`: 'V' (win), 'D' (loss) or 'E' (draw) from the sign of the goal difference. */
  function ResultLabel(diff: int): (r: char)
    ensures r == 'V' <==> diff > 0
    ensures r == 'D' <==> diff < 0
    ensures r == 'E' <==> diff == 0
  {
    if diff > 0 then 'V' else if diff < 0 then 'D' else 'E'
  }

  /** A written score is labelled a win exactly when more goals were scored than conceded. */
  lemma ResultOfScore(a: nat, b: nat)
    ensures ResultLabel(GoalDiff(ScoreText(a, b))) == 'V' <==> a > b
    ensures ResultLabel(GoalDiff(ScoreText(a, b))) == 'E' <==> a == b
  {
    GoalDiffRoundTrip(a, b);
  }
}
