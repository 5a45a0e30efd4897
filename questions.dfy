/** The question objects of the library: the base question and its four kinds, each an
    object whose fields its constructors set, with the Run method of the kinds whose
    behaviour is modelled; and the questionnaire that holds a list of them. A question
    reads its input from the sequence passed to Run and returns what it writes to the
    terminal as `out`. The field `kind` is the protected type tag, read through Type(). */
module Questions {
  import opened Wrappers
  import opened Terminal
  import opened LinePrompts
  import opened Selection

  /** question_type, in the order of its enumerators. */
  datatype QuestionType =
    | QuestionBaseClass
    | QuestionInput
    | QuestionYesNo
    | QuestionMultiline
    | QuestionSelection

  // The write sequences the prompts share: each appends the style switches and the text
  // in the order the prompt sends them to the terminal.

  /** "? question " in the prompt styles, as input_t writes it before reading. */
  method WriteInputPrompt(question: string) returns (s: string)
    ensures s == InputPromptLine(question)
  {
    s := Style1;
    s := s + "? ";
    s := s + Style2;
    s := s + question + " ";
    s := s + StyleClear;
  }

  /** The summary line input_t and select_t leave on screen once answered. */
  method WriteAnswerLine(question: string, answer: string) returns (s: string)
    ensures s == AnswerLine(question, answer)
  {
    s := Style1;
    s := s + "? ";
    s := s + Style2;
    s := s + question + " ";
    s := s + Style3;
    s := s + answer + "\n";
    s := s + StyleClear;
  }

  /** The question and the finishing hint multiline_t writes before reading. */
  method WriteMultilineHeader(question: string) returns (s: string)
    ensures s == MultilineHeader(question)
  {
    s := Style1;
    s := s + "? ";
    s := s + Style2;
    s := s + question;
    s := s + Style3;
    s := s + FinishHint;
    s := s + StyleClear;
  }

  /** The question and the answer multiline_t writes once the answer is known. */
  method WriteMultilineSummary(question: string, answer: string) returns (s: string)
    ensures s == MultilineSummary(question, answer)
  {
    s := Style1;
    s := s + "? ";
    s := s + Style2;
    s := s + question + "\n";
    s := s + Style3;
    s := s + answer;
    s := s + StyleClear;
  }

  /** The question line select_t writes above the option list. */
  method WriteSelectHeader(question: string) returns (s: string)
    ensures s == SelectHeader(question)
  {
    s := Style1;
    s := s + "? ";
    s := s + Style2;
    s := s + question + "\n";
    s := s + StyleClear;
  }

  /** question_t: a question with no behaviour of its own. */
  class Question {
    var kind: QuestionType
    var questionText: string

    /** The tag is the one the constructors set; nothing else writes it. */
    ghost predicate Valid()
      reads this
    {
      kind == QuestionBaseClass
    }

    constructor (question: string)
      ensures Valid()
      ensures questionText == question
    {
      questionText := question;
      kind := QuestionBaseClass;
    }

    function Type(): (t: QuestionType)
      reads this
      requires Valid()
      ensures t == QuestionBaseClass
    {
      kind
    }

    /** The base question answers with the empty string. */
    method Run() returns (answer: string)
      ensures answer == ""
    {
      answer := "";
    }
  }

  /** input_t: one line of text, or the default when the line is empty. */
  class InputQuestion {
    var kind: QuestionType
    var questionText: string
    var defaultOption: string

    ghost predicate Valid()
      reads this
    {
      kind == QuestionInput
    }

    constructor WithDefault(question: string, defaultOpt: string)
      ensures Valid()
      ensures questionText == question && defaultOption == defaultOpt
    {
      // the question_t initialiser runs first and sets the base tag
      questionText := question;
      kind := QuestionBaseClass;
      defaultOption := defaultOpt;
      kind := QuestionInput;
    }

    /** Without a default, default_option is the empty string. */
    constructor (question: string)
      ensures Valid()
      ensures questionText == question && defaultOption == ""
    {
      questionText := question;
      kind := QuestionBaseClass;
      defaultOption := "";
      kind := QuestionInput;
    }

    function Type(): (t: QuestionType)
      reads this
      requires Valid()
      ensures t == QuestionInput
    {
      kind
    }

    /** Asks, reads one line, falls back to the default when that line is empty (or the
        input is exhausted), erases the prompt line and writes the summary. */
    method Run(lines: seq<string>) returns (answer: string, out: string)
      ensures FirstLine(lines) != "" ==> answer == FirstLine(lines)
      ensures FirstLine(lines) == "" ==> answer == defaultOption
      ensures out == InputPromptLine(questionText) + EraseSequence(1) + AnswerLine(questionText, answer)
    {
      out := WriteInputPrompt(questionText);
      var result := FirstLine(lines);
      if result == "" {
        result := defaultOption;
      }
      var erase := EraseTermLines(1);
      out := out + erase;
      var summary := WriteAnswerLine(questionText, result);
      out := out + summary;
      answer := result;
    }
  }

  /** multiline_t: lines of text up to two consecutive blank lines. */
  class MultilineQuestion {
    var kind: QuestionType
    var questionText: string
    var defaultOption: string

    ghost predicate Valid()
      reads this
    {
      kind == QuestionMultiline
    }

    constructor WithDefault(question: string, defaultText: string)
      ensures Valid()
      ensures questionText == question && defaultOption == defaultText
    {
      questionText := question;
      kind := QuestionBaseClass;
      defaultOption := defaultText;
      kind := QuestionMultiline;
    }

    constructor (question: string)
      ensures Valid()
      ensures questionText == question && defaultOption == ""
    {
      questionText := question;
      kind := QuestionBaseClass;
      defaultOption := "";
      kind := QuestionMultiline;
    }

    function Type(): (t: QuestionType)
      reads this
      requires Valid()
      ensures t == QuestionMultiline
    {
      kind
    }

    /** Reads lines until the input ends, the first line is blank (the default is taken),
        or a second blank line in a row comes (it is dropped); every other line is kept
        with a '\n' after it. Then erases line_num + 2 lines and writes the summary. */
    method Run(lines: seq<string>) returns (answer: string, out: string)
      ensures answer == MultilineAnswer(lines, defaultOption)
      ensures out == MultilineHeader(questionText) + EraseSequence(KeptCount(lines) + 2)
                     + MultilineSummary(questionText, answer)
    {
      out := WriteMultilineHeader(questionText);

      var result := "";
      var blanks := 0;
      var lineNum := 0;
      var pos := 0;
      while pos < |lines|
        invariant pos <= |lines|
        invariant lineNum == pos
        invariant pos > 0 ==> lines[0] != "" && StopAt(lines, pos) == StopAt(lines, 1)
        invariant blanks == if pos > 0 && lines[pos - 1] == "" then 1 else 0
        invariant result == Joined(lines[..pos])
      {
        var line := lines[pos];
        pos := pos + 1;
        if line == "" && lineNum == 0 {
          result := defaultOption;
          break;
        }
        if line == "" {
          blanks := blanks + 1;
          if blanks == 2 {
            break;
          }
        } else {
          blanks := 0;
        }
        lineNum := lineNum + 1;
        JoinedSnoc(lines[..pos - 1], line);
        assert lines[..pos] == lines[..pos - 1] + [line];
        result := result + line + "\n";
      }
      assert lineNum == KeptCount(lines);
      if result == "" {
        result := defaultOption;
      }
      var erase := EraseTermLines(lineNum + 2);
      out := out + erase;
      var summary := WriteMultilineSummary(questionText, result);
      out := out + summary;
      answer := result;
    }
  }

  /** yesno_t: a yes/no question with a boolean default. */
  class YesNoQuestion {
    var kind: QuestionType
    var questionText: string
    var defaultOption: bool

    ghost predicate Valid()
      reads this
    {
      kind == QuestionYesNo
    }

    constructor WithDefault(question: string, defaultOpt: bool)
      ensures Valid()
      ensures questionText == question && defaultOption == defaultOpt
    {
      questionText := question;
      kind := QuestionBaseClass;
      defaultOption := defaultOpt;
      kind := QuestionYesNo;
    }

    /** Without a default, the default answer is no. */
    constructor (question: string)
      ensures Valid()
      ensures questionText == question && !defaultOption
    {
      questionText := question;
      kind := QuestionBaseClass;
      defaultOption := false;
      kind := QuestionYesNo;
    }

    function Type(): (t: QuestionType)
      reads this
      requires Valid()
      ensures t == QuestionYesNo
    {
      kind
    }
  }

  /** select_t: an input_t whose answer is picked from a fixed option list with the
      arrow keys. Its constructors run the input_t constructor first, which sets the
      input tag, and then overwrite the tag. */
  class SelectQuestion {
    var kind: QuestionType
    var questionText: string
    var defaultOption: string
    var options: seq<string>

    ghost predicate Valid()
      reads this
    {
      kind == QuestionSelection
    }

    constructor WithDefault(question: string, defaultOpt: string, opts: seq<string>)
      ensures Valid()
      ensures questionText == question && defaultOption == defaultOpt && options == opts
    {
      questionText := question;
      kind := QuestionBaseClass;
      defaultOption := defaultOpt;
      kind := QuestionInput;
      options := opts;
      kind := QuestionSelection;
    }

    constructor (question: string, opts: seq<string>)
      ensures Valid()
      ensures questionText == question && defaultOption == "" && options == opts
    {
      questionText := question;
      kind := QuestionBaseClass;
      defaultOption := "";
      kind := QuestionInput;
      options := opts;
      kind := QuestionSelection;
    }

    function Type(): (t: QuestionType)
      reads this
      requires Valid()
      ensures t == QuestionSelection
    {
      kind
    }

    /** The line change_selection draws for option i: "> " in the highlight style when
        the option is marked, two spaces otherwise, then the option and a line break. */
    method DrawOption(sel: int, i: nat) returns (line: string)
      requires i < |options|
      ensures line == OptionLine(options, defaultOption, sel, i)
    {
      if (sel == -1 && (options[i] == defaultOption || (i == 0 && defaultOption == ""))) || sel == i {
        line := Style4;
        line := line + "> ";
      } else {
        line := "  ";
      }
      line := line + options[i] + "\n";
      line := line + StyleClear;
    }

    /** change_selection: with sel >= 0, erases the options.size() lines drawn before;
        then draws every option, marked or not. */
    method ChangeSelection(sel: int) returns (s: string)
      ensures s == Redraw(options, defaultOption, sel)
    {
      s := "";
      if sel >= 0 {
        s := EraseTermLines(|options|);
      }
      ghost var erased := s;
      for i := 0 to |options|
        invariant s == erased + DrawnOptions(options, defaultOption, sel, i)
      {
        var line := DrawOption(sel, i);
        s := s + line;
      }
    }

    /** One pass of the key loop of select_t::run from position pos with the cursor at
        `selected`: reads a key; an arrow moves the cursor circularly and redraws, a bare
        '\n' erases the prompt and writes the summary (`done`), anything else does nothing.
        `key` is the decoded key the pass acted on. */
    method Pass(input: seq<Byte>, pos: nat, selected: nat)
      returns (next: nat, moved: nat, piece: string, done: bool, ghost key: Key)
      requires pos < |input| && selected < |options|
      ensures pos < next <= |input| + 1
      ensures next <= pos + 3
      ensures Keys(Drop(input, pos)) == [key] + Keys(Drop(input, next))
      ensures moved == Press(|options|, selected, key)
      ensures done <==> key == Enter
      ensures piece == StepOutput(questionText, options, defaultOption, selected, key)
    {
      var a, b, c;
      a, b, c, next := ReadKey(input, pos);
      key := KeyOf(a, b, c);
      moved, piece, done := selected, "", false;
      if a == EscCode && b != BracketCode {
        return;
      }
      if c == UpCode {
        if selected > 0 {
          moved := selected - 1;
        } else {
          moved := |options| - 1;
        }
        piece := ChangeSelection(moved);
      } else if c == DownCode {
        if selected < |options| - 1 {
          moved := selected + 1;
        } else {
          moved := 0;
        }
        piece := ChangeSelection(moved);
      } else if a == NewlineCode && b == 0 && c == 0 {
        done := true;
        piece := EraseTermLines(|options| + 1);
        var summary := WriteAnswerLine(questionText, options[selected]);
        piece := piece + summary;
      }
    }

    /** select_t::run over a finite byte input: writes the question and the option list,
        throws the first byte away, then runs passes of the key loop until one accepts.
        Running out of input before Enter gives no answer. */
    method Run(input: seq<Byte>) returns (answer: Option<string>, out: string)
      requires |options| > 0
      ensures answer == SelectionAnswer(options, input)
      ensures out == SelectionOutput(questionText, options, defaultOption, input)
    {
      answer := None;
      var selected: nat := 0;
      out := WriteSelectHeader(questionText);
      var drawn := ChangeSelection(-1);
      out := out + drawn;

      var pos := 1;
      ghost var n := |options|;
      ghost var keys0 := Keys(Drop(input, 1));
      ghost var total := out + KeyLoopOutput(questionText, options, defaultOption, 0, keys0);
      while pos < |input|
        invariant 1 <= pos <= |input| + 1
        invariant selected < n
        invariant Accepted(n, selected, Keys(Drop(input, pos))) == Accepted(n, 0, keys0)
        invariant out + KeyLoopOutput(questionText, options, defaultOption, selected, Keys(Drop(input, pos))) == total
        decreases |input| - pos
      {
        var next, moved, piece, done;
        ghost var key;
        next, moved, piece, done, key := Pass(input, pos, selected);
        ghost var tail := Keys(Drop(input, next));
        KeyLoopStep(questionText, options, defaultOption, selected, key, tail);
        AdvanceOutput(questionText, options, defaultOption, selected, key, tail, out, total);
        out := out + piece;
        if done {
          answer := Some(options[selected]);
          break;
        }
        selected, pos := moved, next;
      }
    }
  }

  /** A pointer to a question of one of the kinds above. */
  datatype QuestionRef =
    | BaseRef(base: Question)
    | InputRef(input: InputQuestion)
    | MultilineRef(multiline: MultilineQuestion)
    | YesNoRef(yesNo: YesNoQuestion)
    | SelectRef(select: SelectQuestion)

  /** questionaire_t: the questions to ask and the answers collected. */
  class Questionnaire {
    var questions: seq<QuestionRef>
    var answers: seq<string>

    constructor ()
      ensures questions == [] && answers == []
    {
      questions := [];
      answers := [];
    }

    /** From an initializer list or a vector of questions, in order. */
    constructor FromList(quests: seq<QuestionRef>)
      ensures questions == quests && answers == []
    {
      questions := quests;
      answers := [];
    }

    /** operator=: replaces the questions and keeps the answers. */
    method Assign(quests: seq<QuestionRef>)
      modifies this
      ensures questions == quests
      ensures answers == old(answers)
    {
      questions := quests;
    }
  }
}
