/** The line-reading prompts: input_t (one line, with a default) and multiline_t (lines up
    to two consecutive blank lines, with a default). Standard input is the finite list of
    lines getline would deliver, none of them holding its terminating '\n'; running out of
    lines is getline failing at end of input. This module holds what those prompts answer
    and write, as functions of their input; the Run methods in module Questions are
    proved to compute exactly these. */
module LinePrompts {
  import opened Terminal

  /** The summary line an answered prompt leaves on screen: "? question answer". */
  function AnswerLine(question: string, answer: string): string
  {
    Style1 + "? " + Style2 + question + " " + Style3 + answer + "\n" + StyleClear
  }

  // ---------------------------------------------------------------- input_t

  /** What input_t writes before reading: "? question " in the prompt styles. */
  function InputPromptLine(question: string): string
  {
    Style1 + "? " + Style2 + question + " " + StyleClear
  }

  /** The line getline stores into `result`: the first input line, or "" at end of input. */
  function FirstLine(lines: seq<string>): string
  {
    if |lines| > 0 then lines[0] else ""
  }

  // ------------------------------------------------------------ multiline_t

  /** The hint multiline_t writes after the question. */
  const FinishHint: string := " [Enter 2 empty lines to finish]\n"

  /** What multiline_t writes before reading. */
  function MultilineHeader(question: string): string
  {
    Style1 + "? " + Style2 + question + Style3 + FinishHint + StyleClear
  }

  /** What multiline_t writes once the answer is known: the question, then the answer. */
  function MultilineSummary(question: string, answer: string): string
  {
    Style1 + "? " + Style2 + question + "\n" + Style3 + answer + StyleClear
  }

  // How many lines each prompt writes. After an answered line, input_t's one-line erase
  // covers the prompt and its echoed reply. multiline_t erases line_num + 2 lines: the
  // header and the echo of every line read, which is that many only when the loop stops
  // on a blank first line or on a blank pair (see MultilineScreenHeight).

  /** The input prompt stays on the line where the answer is typed. */
  lemma InputPromptLineNewlines(question: string)
    requires '\n' !in question
    ensures Newlines(InputPromptLine(question)) == 0
  {
    StyleNewlines();
    NoNewlineChar(question);
    NewlinesAppend(Style1, "? ");
    NewlinesAppend(Style1 + "? ", Style2);
    NewlinesAppend(Style1 + "? " + Style2, question);
    NewlinesAppend(Style1 + "? " + Style2 + question, " ");
    NewlinesAppend(Style1 + "? " + Style2 + question + " ", StyleClear);
  }

  /** The summary of an answered one-line prompt is exactly one line. */
  lemma AnswerLineNewlines(question: string, answer: string)
    requires '\n' !in question && '\n' !in answer
    ensures Newlines(AnswerLine(question, answer)) == 1
  {
    StyleNewlines();
    NoNewlineChar(question);
    NoNewlineChar(answer);
    var head := Style1 + "? " + Style2 + question + " ";
    NewlinesAppend(Style1, "? ");
    NewlinesAppend(Style1 + "? ", Style2);
    NewlinesAppend(Style1 + "? " + Style2, question);
    NewlinesAppend(Style1 + "? " + Style2 + question, " ");
    NewlinesAppend(head, Style3);
    NewlinesAppend(head + Style3, answer);
    NewlinesAppend(head + Style3 + answer, "\n");
    NewlinesAppend(head + Style3 + answer + "\n", StyleClear);
  }

  /** The finishing hint ends the header line. */
  lemma FinishHintNewlines()
    ensures Newlines(FinishHint) == 1
  {
    OneLine(FinishHint);
  }

  /** The multiline header is one line: question and hint, then a line break. */
  lemma MultilineHeaderNewlines(question: string)
    requires '\n' !in question
    ensures Newlines(MultilineHeader(question)) == 1
  {
    StyleNewlines();
    FinishHintNewlines();
    NoNewlineChar(question);
    NewlinesAppend(Style1, "? ");
    NewlinesAppend(Style1 + "? ", Style2);
    NewlinesAppend(Style1 + "? " + Style2, question);
    NewlinesAppend(Style1 + "? " + Style2 + question, Style3);
    NewlinesAppend(Style1 + "? " + Style2 + question + Style3, FinishHint);
    NewlinesAppend(Style1 + "? " + Style2 + question + Style3 + FinishHint, StyleClear);
  }

  /** The multiline summary is the question line followed by the answer: one line break
      more than the answer holds. */
  lemma MultilineSummaryNewlines(question: string, answer: string)
    requires '\n' !in question
    ensures Newlines(MultilineSummary(question, answer)) == 1 + Newlines(answer)
  {
    StyleNewlines();
    NoNewlineChar(question);
    var head := Style1 + "? " + Style2 + question + "\n";
    NewlinesAppend(Style1, "? ");
    NewlinesAppend(Style1 + "? ", Style2);
    NewlinesAppend(Style1 + "? " + Style2, question);
    NewlinesAppend(Style1 + "? " + Style2 + question, "\n");
    NewlinesAppend(head, Style3);
    NewlinesAppend(head + Style3, answer);
    NewlinesAppend(head + Style3 + answer, StyleClear);
  }

  /** Line k is the second of two consecutive blank lines. */
  predicate SecondBlank(lines: seq<string>, k: nat)
    requires 1 <= k < |lines|
  {
    lines[k - 1] == "" && lines[k] == ""
  }

  /** The first k >= i at which a second consecutive blank line stands, or |lines| when
      there is none. */
  function StopAt(lines: seq<string>, i: nat): (j: nat)
    requires 1 <= i <= |lines|
    ensures i <= j <= |lines|
    ensures forall k :: i <= k < j ==> !SecondBlank(lines, k)
    ensures j < |lines| ==> SecondBlank(lines, j)
    decreases |lines| - i
  {
    if i == |lines| then i
    else if SecondBlank(lines, i) then i
    else StopAt(lines, i + 1)
  }

  /** The number of lines multiline_t keeps (its final line_num): none when the first
      line is blank or there is no line at all; otherwise every line before the second
      of two consecutive blank lines, or every line when that never happens. */
  function KeptCount(lines: seq<string>): (n: nat)
    ensures n <= |lines|
    ensures n == 0 <==> |lines| == 0 || lines[0] == ""
    ensures forall k :: 1 <= k < n ==> !SecondBlank(lines, k)
    ensures 0 < n < |lines| ==> SecondBlank(lines, n)
  {
    if |lines| == 0 || lines[0] == "" then 0 else StopAt(lines, 1)
  }

  /** Lines written one after the other, each followed by '\n'. */
  function Joined(ls: seq<string>): string
  {
    if ls == [] then "" else ls[0] + "\n" + Joined(ls[1..])
  }

  /** The answer of multiline_t: the default when it keeps no line, otherwise the kept
      lines, each followed by '\n'. */
  function MultilineAnswer(lines: seq<string>, default: string): string
  {
    var n := KeptCount(lines);
    if n == 0 then default else Joined(lines[..n])
  }

  /** No line holds a line break (getline strips it). */
  predicate NoNewlines(ls: seq<string>)
  {
    forall i :: 0 <= i < |ls| ==> '\n' !in ls[i]
  }

  /** Index of the first '\n' in s, or |s| when there is none. */
  function LineEnd(s: string): (k: nat)
    ensures k <= |s|
    ensures k < |s| ==> s[k] == '\n'
    ensures forall j :: 0 <= j < k ==> s[j] != '\n'
  {
    if s == "" || s[0] == '\n' then 0 else 1 + LineEnd(s[1..])
  }

  /** Splits a text into its lines; a final '\n' does not open an empty last line. */
  function SplitLines(s: string): seq<string>
    decreases |s|
  {
    if s == "" then []
    else
      var k := LineEnd(s);
      if k == |s| then [s] else [s[..k]] + SplitLines(s[k + 1..])
  }

  lemma {:induction false} JoinedSnoc(ls: seq<string>, line: string)
    ensures Joined(ls + [line]) == Joined(ls) + line + "\n"
  {
    if ls == [] {
      assert [] + [line] == [line];
    } else {
      assert (ls + [line])[1..] == ls[1..] + [line];
      JoinedSnoc(ls[1..], line);
    }
  }

  /** Every kept line contributes exactly one '\n' to the answer: the number of line
      breaks appended equals line_num. */
  lemma {:induction false} JoinedNewlines(ls: seq<string>)
    requires NoNewlines(ls)
    ensures Newlines(Joined(ls)) == |ls|
  {
    if ls != [] {
      assert '\n' !in ls[0];
      assert NoNewlines(ls[1..]) by {
        forall i | 0 <= i < |ls[1..]| ensures '\n' !in ls[1..][i] {
          assert ls[1..][i] == ls[i + 1];
        }
      }
      JoinedNewlines(ls[1..]);
      NoNewlineChar(ls[0]);
      StyleNewlines();
      NewlinesAppend(ls[0], "\n");
      NewlinesAppend(ls[0] + "\n", Joined(ls[1..]));
    }
  }

  /** Splitting the joined lines at their line breaks gives the lines back. */
  lemma {:induction false} SplitJoined(ls: seq<string>)
    requires NoNewlines(ls)
    ensures SplitLines(Joined(ls)) == ls
  {
    if ls != [] {
      var a := ls[0];
      var s := Joined(ls);
      assert s == a + "\n" + Joined(ls[1..]);
      assert '\n' !in a;
      assert s[|a|] == '\n';
      assert forall j :: 0 <= j < |a| ==> s[j] == a[j];
      var k := LineEnd(s);
      assert k == |a|;
      assert s[..k] == a;
      assert s[k + 1..] == Joined(ls[1..]);
      assert NoNewlines(ls[1..]) by {
        forall i | 0 <= i < |ls[1..]| ensures '\n' !in ls[1..][i] {
          assert ls[1..][i] == ls[i + 1];
        }
      }
      SplitJoined(ls[1..]);
      assert [a] + ls[1..] == ls;
    }
  }

  /** A non-default answer is exactly the kept lines: splitting it gives lines[..line_num]
      back, and it holds line_num line breaks. */
  lemma MultilineAnswerLines(lines: seq<string>, default: string)
    requires NoNewlines(lines)
    requires KeptCount(lines) > 0
    ensures SplitLines(MultilineAnswer(lines, default)) == lines[..KeptCount(lines)]
    ensures Newlines(MultilineAnswer(lines, default)) == KeptCount(lines)
  {
    var n := KeptCount(lines);
    assert NoNewlines(lines[..n]) by {
      forall i | 0 <= i < n ensures '\n' !in lines[..n][i] {
        assert lines[..n][i] == lines[i];
      }
    }
    SplitJoined(lines[..n]);
    JoinedNewlines(lines[..n]);
  }

  /** When lines were kept, the summary multiline_t leaves on screen is the question line
      plus one line per kept line. */
  lemma MultilineSummaryHeight(question: string, lines: seq<string>, default: string)
    requires '\n' !in question && NoNewlines(lines)
    requires KeptCount(lines) > 0
    ensures Newlines(MultilineSummary(question, MultilineAnswer(lines, default))) == KeptCount(lines) + 1
  {
    MultilineAnswerLines(lines, default);
    MultilineSummaryNewlines(question, MultilineAnswer(lines, default));
  }

  /** The lines multiline_t reads before leaving its loop, which the terminal echoes: the
      kept lines plus the blank line that stopped the loop, or every line at end of input. */
  function ReadLines(lines: seq<string>): (r: seq<string>)
    ensures KeptCount(lines) < |lines| ==> |r| == KeptCount(lines) + 1
    ensures KeptCount(lines) == |lines| ==> |r| == KeptCount(lines)
    ensures r <= lines
  {
    var n := KeptCount(lines);
    if n < |lines| then lines[..n + 1] else lines
  }

  /** The header and the echoed lines fill line_num + 2 screen lines when the loop stops on
      a blank first line or a blank pair, but only line_num + 1 when input ends first: the
      erase of line_num + 2 lines then also clears the line above the prompt. */
  lemma MultilineScreenHeight(question: string, lines: seq<string>)
    requires '\n' !in question && NoNewlines(lines)
    ensures KeptCount(lines) < |lines| ==>
              Newlines(MultilineHeader(question) + Joined(ReadLines(lines))) == KeptCount(lines) + 2
    ensures KeptCount(lines) == |lines| ==>
              Newlines(MultilineHeader(question) + Joined(ReadLines(lines))) == KeptCount(lines) + 1
  {
    var r := ReadLines(lines);
    assert NoNewlines(r) by {
      forall i | 0 <= i < |r| ensures '\n' !in r[i] {
        assert r[i] == lines[i];
      }
    }
    JoinedNewlines(r);
    MultilineHeaderNewlines(question);
    NewlinesAppend(MultilineHeader(question), Joined(r));
  }

  lemma {:induction false} StopAtExtend(lines: seq<string>, more: seq<string>, i: nat)
    requires 1 <= i <= |lines|
    requires StopAt(lines, i) < |lines|
    ensures StopAt(lines + more, i) == StopAt(lines, i)
    decreases |lines| - i
  {
    var ext := lines + more;
    assert ext[i] == lines[i] && ext[i - 1] == lines[i - 1];
    if !SecondBlank(lines, i) {
      StopAtExtend(lines, more, i + 1);
    }
  }

  /** Once multiline_t has stopped (first line blank, or two blank lines in a row), the
      lines after that point are never read: they change neither the count nor the answer. */
  lemma InputAfterStopIgnored(lines: seq<string>, more: seq<string>, default: string)
    requires KeptCount(lines) < |lines|
    ensures KeptCount(lines + more) == KeptCount(lines)
    ensures MultilineAnswer(lines + more, default) == MultilineAnswer(lines, default)
  {
    var ext := lines + more;
    assert ext[0] == lines[0];
    if lines[0] != "" {
      StopAtExtend(lines, more, 1);
    }
    var n := KeptCount(lines);
    assert ext[..n] == lines[..n];
  }

  /** The answer is never empty unless the default is: a kept line always brings a '\n'. */
  lemma MultilineAnswerNonEmpty(lines: seq<string>, default: string)
    ensures MultilineAnswer(lines, default) == "" ==> default == ""
    ensures KeptCount(lines) > 0 ==> MultilineAnswer(lines, default) != ""
  {
    var n := KeptCount(lines);
    if n > 0 {
      assert lines[..n] != [];
      assert |Joined(lines[..n])| >= 1;
    }
  }
}
