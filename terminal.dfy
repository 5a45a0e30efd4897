/** Terminal output of the prompt library: the SGR style sequences the prompts switch
    between, and erase_term_lines, which moves the cursor up over the last n lines,
    clears each of them, and returns to column 0. Standard output is a string that
    only grows: every operation here returns the text it would write. */
module Terminal {
  import opened Wrappers

  /** The escape character that opens every control sequence. */
  const Esc: char := 27 as char

  /** STYLE1: bold green, used for the "? " marker. */
  const Style1: string := [Esc] + "[1;32m"
  /** STYLE2: reset, then bold, used for the question text. */
  const Style2: string := [Esc] + "[0m" + [Esc] + "[1m"
  /** STYLE3: cyan, used for the answer. */
  const Style3: string := [Esc] + "[0;36m"
  /** STYLE4: bold cyan, used for the highlighted option of a selection. */
  const Style4: string := [Esc] + "[1;36m"
  /** STYLE_CLEAR: reset all attributes. */
  const StyleClear: string := [Esc] + "[0m"

  /** One step of erase_term_lines: cursor up one line (ESC [1A), then clear that line (ESC [2K). */
  const CursorUpClearLine: string := [Esc] + "[1A" + [Esc] + "[2K"

  /** Number of line breaks in s, i.e. how many lines writing s moves the cursor down. */
  function Newlines(s: string): nat
  {
    if s == [] then 0 else (if s[0] == '\n' then 1 else 0) + Newlines(s[1..])
  }

  lemma {:induction false} NewlinesAppend(a: string, b: string)
    ensures Newlines(a + b) == Newlines(a) + Newlines(b)
  {
    if a != [] {
      assert (a + b)[1..] == a[1..] + b;
      NewlinesAppend(a[1..], b);
    } else {
      assert a + b == b;
    }
  }

  /** A string without the '\n' character holds no line break. */
  lemma {:induction false} NoNewlineChar(s: string)
    requires '\n' !in s
    ensures Newlines(s) == 0
  {
    if s != [] {
      assert '\n' !in s[1..] by {
        forall i | 0 <= i < |s[1..]| ensures s[1..][i] != '\n' {
          assert s[1..][i] == s[i + 1];
        }
      }
      NoNewlineChar(s[1..]);
    }
  }

  /** A string whose only line break is its last character is one line. */
  lemma OneLine(s: string)
    requires |s| > 0 && s[|s| - 1] == '\n' && '\n' !in s[..|s| - 1]
    ensures Newlines(s) == 1
  {
    var body := s[..|s| - 1];
    NoNewlineChar(body);
    NewlinesAppend(body, "\n");
    assert "\n"[1..] == [];
    assert s == body + "\n";
  }

  /** The style sequences, "> " and "? " hold no line break. */
  lemma StyleNewlines()
    ensures Newlines(Style1) == 0 && Newlines(Style2) == 0 && Newlines(Style3) == 0
    ensures Newlines(Style4) == 0 && Newlines(StyleClear) == 0
    ensures Newlines("> ") == 0 && Newlines("  ") == 0 && Newlines("? ") == 0 && Newlines(" ") == 0
    ensures Newlines(Style4 + "> ") == 0 && Newlines("\n") == 1 && Newlines("\r") == 0
  {
    NoNewlineChar(Style1);
    NoNewlineChar(Style2);
    NoNewlineChar(Style3);
    NoNewlineChar(Style4);
    NoNewlineChar(StyleClear);
    NoNewlineChar("> ");
    NoNewlineChar("  ");
    NoNewlineChar("? ");
    NoNewlineChar(" ");
    NoNewlineChar("\r");
    NewlinesAppend(Style4, "> ");
    assert "\n"[1..] == [];
  }

  /** `unit` written n times in a row. */
  function Repeat(unit: string, n: nat): (r: string)
    ensures |r| == n * |unit|
  {
    if n == 0 then "" else unit + Repeat(unit, n - 1)
  }

  lemma {:induction false} RepeatSnoc(unit: string, n: nat)
    ensures Repeat(unit, n + 1) == Repeat(unit, n) + unit
  {
    if n > 0 {
      RepeatSnoc(unit, n - 1);
    }
  }

  /** The text erase_term_lines(n) writes: nothing when n < 1, otherwise n erase steps
      and then one carriage return. */
  function EraseSequence(n: int): string
  {
    if n < 1 then "" else Repeat(CursorUpClearLine, n) + "\r"
  }

  /** erase_term_lines: the loop writes one erase step per line, then "\r". */
  method EraseTermLines(n: int) returns (s: string)
    ensures s == EraseSequence(n)
  {
    s := "";
    if n < 1 {
      return;
    }
    for i := 0 to n
      invariant s == Repeat(CursorUpClearLine, i)
    {
      RepeatSnoc(CursorUpClearLine, i);
      s := s + CursorUpClearLine;
    }
    s := s + "\r";
  }

  /** Reads s as a run of erase steps closed by a single carriage return and nothing else;
      gives the number of steps, or None when s has any other shape. */
  function StepsBeforeReturn(s: string): Option<nat>
    decreases |s|
  {
    if s == "\r" then Some(0)
    else if |s| >= |CursorUpClearLine| && s[..|CursorUpClearLine|] == CursorUpClearLine then
      match StepsBeforeReturn(s[|CursorUpClearLine|..])
      case Some(k) => Some(k + 1)
      case None => None
    else None
  }

  /** How many lines a piece of output erases, if it is an erase sequence at all: the empty
      string erases none, and otherwise at least one step is required. */
  function ErasedLines(s: string): Option<nat>
  {
    if s == "" then Some(0)
    else match StepsBeforeReturn(s)
      case Some(k) => if k >= 1 then Some(k) else None
      case None => None
  }

  lemma {:induction false} StepsOfRepeat(n: nat)
    ensures StepsBeforeReturn(Repeat(CursorUpClearLine, n) + "\r") == Some(n)
  {
    if n > 0 {
      var s := Repeat(CursorUpClearLine, n) + "\r";
      var rest := Repeat(CursorUpClearLine, n - 1) + "\r";
      assert s == CursorUpClearLine + rest;
      assert s[..|CursorUpClearLine|] == CursorUpClearLine;
      assert s[|CursorUpClearLine|..] == rest;
      StepsOfRepeat(n - 1);
    }
  }

  lemma {:induction false} RepeatOfSteps(s: string, k: nat)
    requires StepsBeforeReturn(s) == Some(k)
    ensures s == Repeat(CursorUpClearLine, k) + "\r"
    decreases |s|
  {
    if s != "\r" {
      var u := |CursorUpClearLine|;
      RepeatOfSteps(s[u..], k - 1);
      assert s == s[..u] + s[u..];
    }
  }

  /** erase_term_lines(n) erases exactly max(n, 0) lines: n erase steps and one "\r",
      nothing at all when n < 1. */
  lemma EraseSequenceErases(n: int)
    ensures ErasedLines(EraseSequence(n)) == Some(if n < 1 then 0 else n)
  {
    if n >= 1 {
      StepsOfRepeat(n);
    }
  }

  /** Conversely, every string read as an erase of k lines is exactly what
      erase_term_lines(k) writes; so the output is fully determined by n and tells n apart. */
  lemma ErasedLinesDetermineSequence(s: string, k: nat)
    requires ErasedLines(s) == Some(k)
    ensures s == EraseSequence(k)
  {
    if s != "" {
      RepeatOfSteps(s, k);
    }
  }

  /** Different positive line counts give different output. */
  lemma EraseSequenceInjective(n: int, m: int)
    requires n >= 1 && m >= 1 && EraseSequence(n) == EraseSequence(m)
    ensures n == m
  {
    EraseSequenceErases(n);
    EraseSequenceErases(m);
  }

  /** Erasing writes no line breaks. */
  lemma EraseSequenceNoNewlines(n: int)
    ensures Newlines(EraseSequence(n)) == 0
  {
    if n >= 1 {
      RepeatNoNewlines(n);
      StyleNewlines();
      NewlinesAppend(Repeat(CursorUpClearLine, n), "\r");
    }
  }

  lemma {:induction false} RepeatNoNewlines(n: nat)
    ensures Newlines(Repeat(CursorUpClearLine, n)) == 0
  {
    if n > 0 {
      var rest := Repeat(CursorUpClearLine, n - 1);
      RepeatNoNewlines(n - 1);
      NoNewlineChar(CursorUpClearLine);
      NewlinesAppend(CursorUpClearLine, rest);
    }
  }
}
