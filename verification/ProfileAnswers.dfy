// Answer lines one by one: which lines answer what, and the overrides between two lists of
// answers as they are written.

module ProfileAnswers {
  import opened Text
  import opened ProfileHeader

  const SET := "CONFIG_"
  const UNSET := "# CONFIG_"
  const NOT_SET := " is not set"

  predicate SaysNo(text: string, symbol: string) { text == UNSET + symbol + NOT_SET }

  predicate Says(text: string, symbol: string, value: string) {
    text == SET + symbol + "=" + value && '=' !in symbol
  }

  lemma NoReads(line: string, symbol: string)
    requires SaysNo(Strip(line), symbol)
    ensures ParseAnswer(line) == Some(Answer(Strip(symbol), "n"))
  {
    hide Strip;
    var text := Strip(line);
    assert |text| == 9 + |symbol| + 11;
    assert text[..9] == UNSET && text[|text| - 11..] == NOT_SET;
    assert text[9..|text| - 11] == symbol;
  }

  lemma AnswerReads(line: string, symbol: string, value: string)
    requires Says(Strip(line), symbol, value)
    ensures ParseAnswer(line) == Some(Answer(Strip(symbol), Strip(value)))
  {
    hide Strip, IndexOf;
    var text := Strip(line);
    assert text[..7] == SET && text[0] == 'C';
    assert text[7 + |symbol|] == '=';
    var n := IndexOf(text, '=');
    FirstEquals(text, symbol, value, n);
    assert text[7..n] == symbol && text[n + 1..] == value;
  }

  lemma FirstEquals(text: string, symbol: string, value: string, n: nat)
    requires Says(text, symbol, value) && n < |text| && text[n] == '=' && '=' !in text[..n]
    ensures n == 7 + |symbol|
  {
    var m := 7 + |symbol|;
    assert text[m] == '=';
    assert forall i | 0 <= i < n :: text[..n][i] == text[i] != '=';
    assert text[..m] == SET + symbol;
    assert forall i | 0 <= i < m :: text[..m][i] == text[i] != '=';
  }

  // Any other line is no answer.
  lemma OtherIsNone(line: string)
    ensures ParseAnswer(line).None? <==>
            (forall symbol :: !SaysNo(Strip(line), symbol))
            && forall symbol, value :: !Says(Strip(line), symbol, value)
  {
    hide Strip, Says, SaysNo;
    var text := Strip(line);
    forall symbol | SaysNo(text, symbol) ensures ParseAnswer(line).Some? { NoReads(line, symbol); }
    forall symbol, value | Says(text, symbol, value) ensures ParseAnswer(line).Some? {
      AnswerReads(line, symbol, value);
    }
    if ParseAnswer(line).Some? { FormOf(line); }
  }

  lemma FormOf(line: string)
    requires ParseAnswer(line).Some?
    ensures (exists symbol :: SaysNo(Strip(line), symbol)) || exists symbol, value :: Says(Strip(line), symbol, value)
  {
    hide Strip, IndexOf;
    var text := Strip(line);
    if StartsWith(text, UNSET) && EndsWith(text, NOT_SET) {
      NoOverlap(text);
      var symbol := text[9..|text| - 11];
      assert text == text[..9] + symbol + text[|text| - 11..];
      assert SaysNo(text, symbol);
    } else {
      var n := IndexOf(text, '=');
      assert n >= 7 by { EqualsAfter(text, n); }
      var symbol, value := text[7..n], text[n + 1..];
      assert text == text[..7] + symbol + "=" + value;
      assert '=' !in symbol by { assert forall i | 0 <= i < |symbol| :: symbol[i] == text[..n][7 + i]; }
      assert Says(text, symbol, value);
    }
  }

  lemma EqualsAfter(text: string, n: nat)
    requires StartsWith(text, SET) && n < |text| && text[n] == '='
    ensures n >= 7
  {
    assert forall i | 0 <= i < 7 :: text[..7][i] == text[i] == SET[i] != '=';
  }

  // The two marks of an unset answer never share a character.
  lemma NoOverlap(text: string)
    requires StartsWith(text, UNSET) && EndsWith(text, NOT_SET)
    ensures |text| >= 20
  {
    var m := |text| - 11;
    assert text[m] == text[m..][0] == ' ' && text[m + 1] == text[m..][1] == 'i';
    assert forall i | 0 <= i < 9 :: text[..9][i] == text[i] == UNSET[i];
  }

  // ----- the line an answer is written as -----

  // None is a symbol the list does not answer.
  function AnswerLine(symbol: string, value: Option<string>): string {
    if value.None? then UNSET + symbol + " unanswered"
    else if value.value == "n" then UNSET + symbol + NOT_SET
    else SET + symbol + "=" + value.value
  }

  // An answer that its own line can carry.
  predicate Plainly(a: Answer) { Trimmed(a.symbol) && Trimmed(a.value) && (a.value == "n" || '=' !in a.symbol) }

  // An answer's line reads as that answer exactly when symbol and value are trimmed and the
  // symbol has no '=' in it; of an answer "n" the symbol may have one.
  lemma LineReadsIff(symbol: string, value: string)
    ensures ParseAnswer(AnswerLine(symbol, Some(value))) == Some(Answer(symbol, value)) <==>
            Trimmed(symbol) && Trimmed(value) && (value == "n" || '=' !in symbol)
  {
    hide Strip, ParseAnswer, IndexOf;
    var line := AnswerLine(symbol, Some(value));
    if value == "n" {
      Bounded(UNSET, symbol + NOT_SET);
      assert line == UNSET + (symbol + NOT_SET);
      NoReads(line, symbol);
      StripIsTrimmed(symbol);
    } else if Trimmed(symbol) && Trimmed(value) && '=' !in symbol {
      Bounded(SET, symbol + "=" + value);
      assert line == SET + (symbol + "=" + value);
      AnswerReads(line, symbol, value);
      StripIsTrimmed(symbol);
      StripIsTrimmed(value);
    } else if ParseAnswer(line) == Some(Answer(symbol, value)) {
      PartsTrimmed(line);
    }
  }

  lemma Bounded(head: string, rest: string)
    requires head != "" && !IsSpace(head[0]) && rest != "" && !IsSpace(rest[|rest| - 1])
    ensures Strip(head + rest) == head + rest
  {
    StripIsTrimmed(head + rest);
  }

  // What is read is trimmed, and a symbol with a value other than "n" has no '='.
  lemma PartsTrimmed(line: string)
    requires ParseAnswer(line).Some?
    ensures Plainly(ParseAnswer(line).value)
  {
    hide Strip, IndexOf, Says, SaysNo;
    FormOf(line);
    if symbol :| SaysNo(Strip(line), symbol) {
      NoReads(line, symbol);
      StripIsTrimmed(symbol);
      assert Trimmed("n");
    } else {
      var symbol, value :| Says(Strip(line), symbol, value);
      AnswerReads(line, symbol, value);
      StripIsTrimmed(symbol);
      StripIsTrimmed(value);
      StripWithin(symbol);
      NoEquals(Strip(line), symbol, value);
    }
  }

  lemma NoEquals(text: string, symbol: string, value: string)
    requires Says(text, symbol, value)
    ensures '=' !in symbol
  {
  }

  lemma StripWithin(s: string)
    ensures forall c | c in Strip(s) :: c in s
  {
    LStripShape(s);
    RStripShape(LStrip(s));
  }

  // What is not answered is written as a comment that answers nothing.
  lemma UnansweredIsNone(symbol: string)
    ensures ParseAnswer(AnswerLine(symbol, None)).None?
  {
    hide Strip, IndexOf;
    var line := AnswerLine(symbol, None);
    assert line == UNSET + (symbol + " unanswered");
    Bounded(UNSET, symbol + " unanswered");
    assert line[|line| - 2] == 'e' && line[0] == '#';
    assert |line| >= 11 && line[|line| - 11..][9] == line[|line| - 2];
    assert line[..7][0] == line[0];
  }

  // ----- lists of answers -----

  predicate AllPlainly(answers: seq<Answer>) { forall i | 0 <= i < |answers| :: Plainly(answers[i]) }

  function Lines(answers: seq<Answer>): (lines: seq<string>)
    ensures |lines| == |answers|
  {
    seq(|answers|, i requires 0 <= i < |answers| => AnswerLine(answers[i].symbol, Some(answers[i].value)))
  }

  // The value a list gives a symbol: its last one.
  function LastValue(answers: seq<Answer>, symbol: string): Option<string> {
    if answers == [] then None
    else if answers[|answers| - 1].symbol == symbol then Some(answers[|answers| - 1].value)
    else LastValue(answers[..|answers| - 1], symbol)
  }

  lemma {:induction false} LinesMap(answers: seq<Answer>, symbol: string)
    requires AllPlainly(answers)
    ensures Get(AnswerMap(Lines(answers)), symbol) == LastValue(answers, symbol)
  {
    hide AnswerLine, ParseAnswer, Plainly;
    if answers != [] {
      var n := |answers| - 1;
      var last := answers[n];
      LinesMap(answers[..n], symbol);
      assert Plainly(last);
      PlainLineReads(last);
      assert Lines(answers)[..n] == Lines(answers[..n]);
      assert Lines(answers)[n] == AnswerLine(last.symbol, Some(last.value));
    }
  }

  lemma PlainLineReads(a: Answer)
    requires Plainly(a)
    ensures ParseAnswer(AnswerLine(a.symbol, Some(a.value))) == Some(a)
  {
    LineReadsIff(a.symbol, a.value);
  }

  // Between two written lists the overrides are exactly the symbols whose values differ,
  // each with both its values.
  lemma OverridesWritten(base: seq<Answer>, answers: seq<Answer>, symbol: string)
    requires base != [] && AllPlainly(base) && AllPlainly(answers)
    ensures var overrides := Overrides(Lines(base), Lines(answers));
            var was, now := LastValue(base, symbol), LastValue(answers, symbol);
            && (symbol in overrides <==> was != now)
            && (symbol in overrides ==> overrides[symbol] == Change(was, now))
  {
    hide AnswerMap, Lines, LastValue, AllPlainly;
    LinesMap(base, symbol);
    LinesMap(answers, symbol);
  }

  // An answer taken back is an override from "y" to "n".
  lemma TakenBack()
    ensures Overrides(["CONFIG_X=y"], ["# CONFIG_X is not set"]) == map["X" := Change(Some("y"), Some("n"))]
  {
    hide ParseAnswer;
    assert SET + "X" + "=" + "y" == "CONFIG_X=y" && UNSET + "X" + NOT_SET == "# CONFIG_X is not set";
    LineReadsIff("X", "y");
    LineReadsIff("X", "n");
    assert Trimmed("X") && Trimmed("y") && Trimmed("n");
    assert AnswerMap([]) == map[];
    assert AnswerMap(["CONFIG_X=y"]) == map["X" := "y"];
    assert AnswerMap(["# CONFIG_X is not set"]) == map["X" := "n"];
  }
}
