// A type's own profile as a file: the header a capture writes and what is read back of it,
// and the answers below.

module ProfileHeader {
  import opened Text

  const PARENT_TAG := "# forked-from:"
  const BASE_TAG := "# base:"

  predicate StartsWith(s: string, p: string) { |p| <= |s| && s[..|p|] == p }

  predicate EndsWith(s: string, p: string) { |p| <= |s| && s[|s| - |p|..] == p }

  datatype Answer = Answer(symbol: string, value: string)

  function IndexOf(s: string, c: char): (n: nat)
    requires c in s
    ensures n < |s| && s[n] == c && c !in s[..n]
  {
    if s[0] == c then 0 else IndexOf(s[1..], c) + 1
  }

  // CONFIG_X=y, or the form that says n.
  function ParseAnswer(line: string): Option<Answer> {
    var text := Strip(line);
    if StartsWith(text, "# CONFIG_") && EndsWith(text, " is not set") then
      var symbol := if |text| < 20 then "" else text[9..|text| - 11];
      Some(Answer(Strip(symbol), "n"))
    else if !StartsWith(text, "CONFIG_") || '=' !in text then None
    else
      var n := IndexOf(text, '=');
      Some(Answer(Strip(if n < 7 then "" else text[7..n]), Strip(text[n + 1..])))
  }

  datatype Header = Header(parent: Option<string>, base: seq<string>, done: bool)

  // One line of a header, trimmed.
  function Tagged(h: Header, text: string): Header {
    if StartsWith(text, PARENT_TAG) then
      var parent := Strip(text[|PARENT_TAG|..]);
      h.(parent := if parent == "" then None else Some(parent))
    else if StartsWith(text, BASE_TAG) then
      var answer := Strip(text[|BASE_TAG|..]);
      if answer == "" then h else h.(base := h.base + [answer])
    else h
  }

  function ReadLine(h: Header, line: string): Header {
    if h.done then h else if ParseAnswer(line).Some? then h.(done := true) else Tagged(h, Strip(line))
  }

  // What a header says, up to the first answer.
  function HeaderOf(lines: seq<string>): Header {
    if lines == [] then Header(None, [], false)
    else ReadLine(HeaderOf(lines[..|lines| - 1]), lines[|lines| - 1])
  }

  method ReadHeader(lines: seq<string>) returns (parent: Option<string>, base: seq<string>)
    ensures parent == HeaderOf(lines).parent && base == HeaderOf(lines).base
  {
    parent, base := None, [];
    for i := 0 to |lines|
      invariant HeaderOf(lines[..i]) == Header(parent, base, false)
    {
      assert lines[..i + 1][..i] == lines[..i];
      if ParseAnswer(lines[i]).Some? {
        DoneStays(lines, i + 1);
        return;
      }
      var text := Strip(lines[i]);
      if StartsWith(text, PARENT_TAG) {
        var name := Strip(text[|PARENT_TAG|..]);
        parent := if name == "" then None else Some(name);
      } else if StartsWith(text, BASE_TAG) {
        var answer := Strip(text[|BASE_TAG|..]);
        if answer != "" {
          base := base + [answer];
        }
      }
    }
    assert lines[..|lines|] == lines;
  }

  lemma {:induction false} DoneStays(lines: seq<string>, k: nat)
    requires k <= |lines| && HeaderOf(lines[..k]).done
    ensures HeaderOf(lines) == HeaderOf(lines[..k])
  {
    if k < |lines| {
      assert lines[..|lines| - 1][..k] == lines[..k];
      DoneStays(lines[..|lines| - 1], k);
    } else {
      assert lines[..k] == lines;
    }
  }

  // ----- what a capture writes -----

  function Title(kind: string, fw: string): string {
    "# " + kind + "'s own " + fw + " answers, saved by mcu-updater."
  }

  function ParentLine(parent: Option<string>): string {
    if parent.Some? then PARENT_TAG + " " + parent.value else PARENT_TAG
  }

  function BaseLines(base: seq<string>): (r: seq<string>)
    ensures |r| == |base| && forall i | 0 <= i < |r| :: r[i] == BASE_TAG + " " + base[i]
  {
    seq(|base|, i requires 0 <= i < |base| => BASE_TAG + " " + base[i])
  }

  function CaptureLines(kind: string, fw: string, parent: Option<string>, moment: string, base: seq<string>,
                        answers: seq<string>): seq<string>
  {
    [Title(kind, fw), ParentLine(parent), "# captured: " + moment] + BaseLines(base) + answers
  }

  // A name or an answer as the tool writes it: trimmed, on one line, not empty.
  predicate Plain(s: string) { s != "" && Trimmed(s) && OneLine(s) }

  predicate AllPlain(lines: seq<string>) { forall i | 0 <= i < |lines| :: Plain(lines[i]) }

  predicate AllAnswers(lines: seq<string>) { forall i | 0 <= i < |lines| :: ParseAnswer(lines[i]).Some? }

  // A tagged line gives its value back.
  lemma TagReads(h: Header, tag: string, value: string)
    requires Plain(value) && (tag == PARENT_TAG || tag == BASE_TAG) && !h.done
    ensures ReadLine(h, tag + " " + value) ==
            if tag == PARENT_TAG then h.(parent := Some(value)) else h.(base := h.base + [value])
  {
    hide Strip;
    var line := tag + " " + value;
    assert line[|line| - 1] == value[|value| - 1];
    StripIsTrimmed(line);
    assert line[..|tag|] == tag && line[|tag|..] == " " + value + "";
    StripPadded(" ", value, "");
    assert line[1] == tag[1] && line[2] == tag[2];
    NotAnswer(line);
    if tag == BASE_TAG { assert line[2] == 'b'; }
  }

  // A line that starts with a mark and not as an unset answer is no answer.
  lemma NotAnswer(line: string)
    requires Strip(line) == line && |line| >= 3 && line[0] == '#' && line[2] != 'C'
    ensures ParseAnswer(line).None?
  {
    hide Strip;
    assert |line| >= 9 ==> line[..9][2] == line[2];
    assert |line| >= 7 ==> line[..7][0] == line[0];
  }

  lemma ReadNext(lines: seq<string>, line: string)
    ensures HeaderOf(lines + [line]) == ReadLine(HeaderOf(lines), line)
  {
    assert (lines + [line])[..|lines|] == lines;
  }

  // The title line adds nothing, unless the type's name makes it a tag.
  function Stray(kind: string, fw: string): seq<string> {
    if StartsWith(kind, "base:") then [Strip(Title(kind, fw)[|BASE_TAG|..])] else []
  }

  lemma TitleReads(kind: string, fw: string)
    ensures var h := ReadLine(Header(None, [], false), Title(kind, fw)); !h.done && h.base == Stray(kind, fw)
  {
    hide Strip, Title, ParseAnswer;
    var line := Title(kind, fw);
    TitleIsComment(kind, fw);
    TitleTagged(kind, fw);
    if StartsWith(kind, "base:") { TailTrims(kind, fw); }
    ParentFirst(line);
  }

  lemma TitleIsComment(kind: string, fw: string)
    ensures Strip(Title(kind, fw)) == Title(kind, fw) && ParseAnswer(Title(kind, fw)).None?
  {
    var line := Title(kind, fw);
    assert line == "# " + (kind + "'s own " + fw) + " answers, saved by mcu-updater.";
    CommentIsNoAnswer("# ", kind + "'s own " + fw, " answers, saved by mcu-updater.");
  }

  // A line in a mark's care that does not end as an unset answer does.
  lemma CommentIsNoAnswer(head: string, middle: string, last: string)
    requires |head| >= 1 && head[0] == '#' && |last| >= 11 && last[|last| - 11] == 'c' && !IsSpace(last[|last| - 1])
    ensures var line := head + middle + last; Strip(line) == line && ParseAnswer(line).None?
  {
    hide Strip, IndexOf;
    var line := head + middle + last;
    assert line[0] == '#' && line[|line| - 1] == last[|last| - 1] && line[|line| - 11] == last[|last| - 11];
    StripIsTrimmed(line);
    assert line[|line| - 11..][0] == line[|line| - 11];
    assert |line| >= 7 ==> line[..7][0] == line[0];
  }

  lemma TitleTagged(kind: string, fw: string)
    ensures StartsWith(Title(kind, fw), BASE_TAG) <==> StartsWith(kind, "base:")
  {
    TitleTag(kind, "'s own " + fw + " answers, saved by mcu-updater.");
    assert Title(kind, fw) == "# " + (kind + ("'s own " + fw + " answers, saved by mcu-updater."));
  }

  lemma ParentFirst(line: string)
    ensures !(StartsWith(line, PARENT_TAG) && StartsWith(line, BASE_TAG))
  {
    assert |line| >= 14 ==> line[..14][2] == line[2];
    assert |line| >= 7 ==> line[..7][2] == line[2];
  }

  lemma TitleTag(kind: string, rest: string)
    requires |rest| >= 7 && rest[..7] == "'s own "
    ensures StartsWith("# " + (kind + rest), BASE_TAG) <==> StartsWith(kind, "base:")
  {
    var text := "# " + (kind + rest);
    assert text[..7] == "# " + (kind + rest)[..5];
    if |kind| < 5 {
      assert (kind + rest)[|kind|] == rest[..7][0];
      assert (kind + rest)[..5][|kind|] == '\'';
    } else {
      assert (kind + rest)[..5] == kind[..5];
    }
    assert StartsWith(text, BASE_TAG) <==> text[..7][2..] == BASE_TAG[2..];
  }

  lemma TailTrims(kind: string, fw: string)
    requires StartsWith(kind, "base:")
    ensures Strip(Title(kind, fw)[|BASE_TAG|..]) != ""
  {
    hide Strip;
    var tail := Title(kind, fw)[|BASE_TAG|..];
    StripIsTrimmed(tail);
    assert tail[|tail| - 1] == '.';
  }

  lemma {:induction false} BaseReads(lines: seq<string>, base: seq<string>)
    requires AllPlain(base) && !HeaderOf(lines).done
    ensures var h := HeaderOf(lines); HeaderOf(lines + BaseLines(base)) == h.(base := h.base + base)
  {
    hide HeaderOf, ReadLine, Plain;
    var h := HeaderOf(lines);
    if base == [] {
      assert lines + BaseLines(base) == lines && h.base + base == h.base;
    } else {
      var n := |base| - 1;
      BaseReads(lines, base[..n]);
      assert Plain(base[n]);
      ReadNext(lines + BaseLines(base[..n]), BASE_TAG + " " + base[n]);
      assert lines + BaseLines(base) == (lines + BaseLines(base[..n])) + [BASE_TAG + " " + base[n]];
      TagReads(HeaderOf(lines + BaseLines(base[..n])), BASE_TAG, base[n]);
      assert h.base + base == (h.base + base[..n]) + [base[n]];
    }
  }

  lemma {:induction false} AnswersEnd(lines: seq<string>, answers: seq<string>)
    requires AllAnswers(answers)
    ensures HeaderOf(lines + answers).parent == HeaderOf(lines).parent
    ensures HeaderOf(lines + answers).base == HeaderOf(lines).base
  {
    hide HeaderOf, ParseAnswer;
    if answers == [] {
      assert lines + answers == lines;
    } else {
      var n := |answers| - 1;
      AnswersEnd(lines, answers[..n]);
      ReadNext(lines + answers[..n], answers[n]);
      assert lines + answers == (lines + answers[..n]) + [answers[n]];
    }
  }

  // A capture's header reads back as the parent and the baseline it was given - but for
  // one more baseline line when the type's name starts with "base:".
  lemma CapturedReads(kind: string, fw: string, parent: Option<string>, moment: string, base: seq<string>,
                      answers: seq<string>)
    requires (parent.Some? ==> Plain(parent.value)) && AllPlain(base) && AllAnswers(answers)
    ensures var h := HeaderOf(CaptureLines(kind, fw, parent, moment, base, answers));
            h.parent == parent && h.base == Stray(kind, fw) + base
  {
    hide HeaderOf, ReadLine, ParseAnswer, Plain, Stray, BaseLines, Title, ParentLine;
    var first := [Title(kind, fw)];
    var second := first + [ParentLine(parent)];
    var third := second + ["# captured: " + moment];
    FirstReads(Title(kind, fw));
    TitleReads(kind, fw);
    ReadNext(first, ParentLine(parent));
    ParentReads(HeaderOf(first), parent);
    ReadNext(second, "# captured: " + moment);
    CapturedLine(HeaderOf(second), moment);
    BaseReads(third, base);
    AnswersEnd(third + BaseLines(base), answers);
    assert CaptureLines(kind, fw, parent, moment, base, answers) == third + BaseLines(base) + answers;
  }

  // A type called "base:" and something: its capture's header has a baseline line nobody
  // answered, the rest of the title.
  lemma StrayRead(rest: string, fw: string, moment: string)
    requires rest != "" && !IsSpace(rest[0])
    ensures HeaderOf(CaptureLines("base:" + rest, fw, None, moment, [], [])).base ==
            [rest + "'s own " + fw + " answers, saved by mcu-updater."]
  {
    hide HeaderOf, Strip, CaptureLines;
    CapturedReads("base:" + rest, fw, None, moment, [], []);
    var tail := rest + "'s own " + fw + " answers, saved by mcu-updater.";
    StrayTitle(rest, fw);
    assert tail[0] == rest[0] && tail[|tail| - 1] == '.';
    StripIsTrimmed(tail);
    assert Stray("base:" + rest, fw) + [] == Stray("base:" + rest, fw);
  }

  lemma StrayTitle(rest: string, fw: string)
    ensures StartsWith("base:" + rest, "base:")
    ensures Title("base:" + rest, fw)[|BASE_TAG|..] == rest + "'s own " + fw + " answers, saved by mcu-updater."
  {
    var last := " answers, saved by mcu-updater.";
    Parts("# ", "base:", rest, "'s own ", fw, last);
    assert "# " + "base:" == BASE_TAG;
  }

  lemma Parts(a: string, b: string, c: string, d: string, e: string, f: string)
    ensures (b + c)[..|b|] == b
    ensures a + (b + c) + d + e + f == (a + b) + (c + d + e + f)
    ensures ((a + b) + (c + d + e + f))[|a + b|..] == c + d + e + f
  {
  }

  lemma FirstReads(line: string)
    ensures HeaderOf([line]) == ReadLine(Header(None, [], false), line)
  {
    ReadNext([], line);
    assert [] + [line] == [line];
  }

  lemma ParentReads(h: Header, parent: Option<string>)
    requires !h.done && (parent.Some? ==> Plain(parent.value))
    ensures ReadLine(h, ParentLine(parent)) == h.(parent := parent)
  {
    if parent.Some? {
      TagReads(h, PARENT_TAG, parent.value);
    } else {
      StripIsTrimmed(PARENT_TAG);
      NotAnswer(PARENT_TAG);
      assert PARENT_TAG[..|PARENT_TAG|] == PARENT_TAG && PARENT_TAG[|PARENT_TAG|..] == "";
    }
  }

  lemma HeadStays(s: string)
    requires s != "" && !IsSpace(s[0])
    ensures LStrip(s) == s
  {
  }

  lemma {:induction false} RStripReaches(s: string, k: nat)
    requires k < |s| && !IsSpace(s[k])
    ensures |RStrip(s)| > k
  {
    if IsSpace(s[|s| - 1]) { RStripReaches(s[..|s| - 1], k); }
  }

  lemma CapturedLine(h: Header, moment: string)
    requires !h.done
    ensures ReadLine(h, "# captured: " + moment) == h
  {
    hide LStrip, RStrip;
    var line := "# captured: " + moment;
    var text := Strip(line);
    assert line[0] == '#' && line[2] == 'c' && line[10] == ':';
    HeadStays(line);
    RStripReaches(line, 10);
    RStripShape(line);
    StripIsTrimmed(text);
    StripIsTrimmed(line);
    NotAnswer(text);
    assert ParseAnswer(line) == ParseAnswer(text);
    assert |text| >= 14 ==> text[..14][2] == text[2];
    assert |text| >= 7 ==> text[..7][2] == text[2];
  }

  // ----- the answers below the header -----

  function AnswerLines(lines: seq<string>): seq<string> {
    if lines == [] then []
    else
      var before, last := AnswerLines(lines[..|lines| - 1]), lines[|lines| - 1];
      if ParseAnswer(last).Some? then before + [Strip(last)] else before
  }

  // Last one wins.
  function AnswerMap(lines: seq<string>): map<string, string> {
    if lines == [] then map[]
    else
      var before, last := AnswerMap(lines[..|lines| - 1]), ParseAnswer(lines[|lines| - 1]);
      if last.Some? then before[last.value.symbol := last.value.value] else before
  }

  lemma {:induction false} AnswersJoined(a: seq<string>, b: seq<string>)
    ensures AnswerLines(a + b) == AnswerLines(a) + AnswerLines(b)
  {
    hide ParseAnswer, Strip;
    if b == [] {
      assert a + b == a;
    } else {
      var n := |b| - 1;
      AnswersJoined(a, b[..n]);
      assert (a + b)[..|a + b| - 1] == a + b[..n];
    }
  }

  lemma {:induction false} NoAnswers(lines: seq<string>)
    requires forall i | 0 <= i < |lines| :: ParseAnswer(lines[i]).None?
    ensures AnswerLines(lines) == []
  {
    hide ParseAnswer, Strip;
    if lines != [] { NoAnswers(lines[..|lines| - 1]); }
  }

  lemma {:induction false} AllAnswered(lines: seq<string>)
    requires AllAnswers(lines) && AllPlain(lines)
    ensures AnswerLines(lines) == lines
  {
    hide ParseAnswer, Strip;
    if lines != [] {
      var n := |lines| - 1;
      AllAnswered(lines[..n]);
      assert Plain(lines[n]);
      StripIsTrimmed(lines[n]);
      assert lines == lines[..n] + [lines[n]];
    }
  }

  // The answers of a capture's file are the ones it was given; its header has none.
  lemma CapturedAnswers(kind: string, fw: string, parent: Option<string>, moment: string, base: seq<string>,
                        answers: seq<string>)
    requires (parent.Some? ==> Plain(parent.value)) && AllPlain(base) && AllAnswers(answers) && AllPlain(answers)
    ensures AnswerLines(CaptureLines(kind, fw, parent, moment, base, answers)) == answers
  {
    hide AnswerLines, ParseAnswer, Plain, BaseLines, Title, ParentLine, Tagged, Strip;
    var h := Header(None, [], false);
    var header := [Title(kind, fw), ParentLine(parent), "# captured: " + moment] + BaseLines(base);
    TitleIsComment(kind, fw);
    ParentReads(h, parent);
    CapturedLine(h, moment);
    forall i | 0 <= i < |base| ensures ParseAnswer(BaseLines(base)[i]).None? {
      assert Plain(base[i]);
      TagReads(h, BASE_TAG, base[i]);
      assert BaseLines(base)[i] == BASE_TAG + " " + base[i];
    }
    assert forall i | 3 <= i < |header| :: header[i] == BaseLines(base)[i - 3];
    NoAnswers(header);
    AllAnswered(answers);
    AnswersJoined(header, answers);
    assert header + answers == CaptureLines(kind, fw, parent, moment, base, answers);
  }

  // ----- what this type changed -----

  datatype Change = Change(was: Option<string>, now: Option<string>)

  function Get(m: map<string, string>, symbol: string): Option<string> {
    if symbol in m then Some(m[symbol]) else None
  }

  function Differences(before: map<string, string>, after: map<string, string>): map<string, Change> {
    map symbol | symbol in before.Keys + after.Keys && Get(before, symbol) != Get(after, symbol) ::
      Change(Get(before, symbol), Get(after, symbol))
  }

  // Nothing without a baseline to measure against.
  function Overrides(base: seq<string>, answers: seq<string>): map<string, Change> {
    if base == [] then map[] else Differences(AnswerMap(base), AnswerMap(answers))
  }

  function CaptureFile(kind: string, fw: string, parent: Option<string>, moment: string, base: seq<string>,
                       answers: seq<string>): string
  {
    JoinLines(CaptureLines(kind, fw, parent, moment, base, answers)) + "\n"
  }

  // Written out and read back, a capture has its parent, its baseline, its answers, and so
  // what was changed between the two.
  lemma FileReads(kind: string, fw: string, parent: Option<string>, moment: string, base: seq<string>,
                  answers: seq<string>)
    requires OneLine(kind) && OneLine(fw) && OneLine(moment) && !StartsWith(kind, "base:")
    requires (parent.Some? ==> Plain(parent.value)) && AllPlain(base) && AllAnswers(answers) && AllPlain(answers)
    ensures var lines := SplitLines(CaptureFile(kind, fw, parent, moment, base, answers));
            && HeaderOf(lines).parent == parent && HeaderOf(lines).base == base
            && AnswerLines(lines) == answers
            && Overrides(HeaderOf(lines).base, AnswerLines(lines)) == Overrides(base, answers)
  {
    hide HeaderOf, AnswerLines, ParseAnswer, Strip, SplitLines, Overrides;
    var lines := CaptureLines(kind, fw, parent, moment, base, answers);
    CapturedReads(kind, fw, parent, moment, base, answers);
    CapturedAnswers(kind, fw, parent, moment, base, answers);
    forall i | 0 <= i < |base| ensures OneLine(BaseLines(base)[i]) { assert Plain(base[i]); }
    forall i | 0 <= i < |answers| ensures OneLine(answers[i]) { assert Plain(answers[i]); }
    assert OneLine(Title(kind, fw)) && OneLine(ParentLine(parent)) && OneLine("# captured: " + moment);
    SplitJoinedNewline(lines);
    assert Stray(kind, fw) + base == base;
  }

  function Applied(before: map<string, string>, changes: map<string, Change>): map<string, string> {
    map symbol | symbol in before.Keys + changes.Keys
                 && (if symbol in changes then changes[symbol].now.Some? else true) ::
      if symbol in changes then changes[symbol].now.value else before[symbol]
  }

  // The overrides are the whole difference: the baseline with them applied is the answers,
  // and no override is a change to the same value.
  lemma OverridesTell(base: seq<string>, answers: seq<string>)
    requires base != []
    ensures Applied(AnswerMap(base), Overrides(base, answers)) == AnswerMap(answers)
    ensures forall symbol | symbol in Overrides(base, answers) ::
              Overrides(base, answers)[symbol].was != Overrides(base, answers)[symbol].now
    ensures Overrides(base, answers) == map[] <==> AnswerMap(base) == AnswerMap(answers)
  {
    hide AnswerMap;
    var before, after := AnswerMap(base), AnswerMap(answers);
    var changes := Overrides(base, answers);
    forall symbol ensures symbol in Applied(before, changes) <==> symbol in after {
      assert Get(before, symbol) == Get(before, symbol);
    }
    if changes == map[] {
      forall symbol ensures Get(before, symbol) == Get(after, symbol) { assert symbol !in changes; }
      assert forall symbol :: symbol in before <==> Get(before, symbol).Some?;
      assert forall symbol :: symbol in after <==> Get(after, symbol).Some?;
      forall symbol | symbol in before ensures before[symbol] == after[symbol] {
        assert Get(before, symbol) == Get(after, symbol);
      }
    }
  }
}
