# libquest in Dafny

libquest is a small C++ library for interactive terminal questionnaires. This project models
its prompt logic:

- `input_t` reads one line and falls back to a default.
- `multiline_t` reads lines until two consecutive blank lines.
- `select_t` picks one option from a list with the arrow keys, using a circular cursor.
- `erase_term_lines` removes a finished prompt from the screen.
- The question objects are modelled with their constructors and type tags.
- `questionaire_t`'s list assignment is modelled.
- The `TABLE_*` property bits are modelled.

The terminal is replaced by values:

- Standard input is a finite sequence. `input_t` and `multiline_t` get lines (what `getline`
  delivers, without the line break). `select_t` gets raw bytes, and `getchar` past the end gives
  EOF (-1).
- Standard output is the string each `Run` method returns as `out`.

Modules:

- `Wrappers` (wrappers.dfy): `Option`.
- `Terminal` (terminal.dfy): the SGR style constants and `erase_term_lines`, with a reader
  `ErasedLines` that recovers the line count from an erase sequence.
- `LinePrompts` (line_prompts.dfy): what `input_t` and `multiline_t` answer and write, as functions
  of their input.
  - `KeptCount` is the final `line_num` of `multiline_t`.
  - `MultilineAnswer` is its result.
  - `SplitLines` undoes `Joined` (each line followed by `'\n'`) for lines without `'\n'`.
- `Selection` (selection.dfy): the `select_t` model.
  - `Keys` decodes the byte stream into the keys the loop acts on, one per pass.
  - `Press`, `CursorUp` and `CursorDown` move the circular cursor.
  - `Accepted` gives the accepted option index.
  - `Redraw` is what `change_selection` writes.
  - `SelectionAnswer` and `SelectionOutput` are the whole prompt's answer and output.
- `Questions` (questions.dfy): one class per question kind, plus the questionnaire.
  - The classes' `Run` methods follow the C++ loops step by step.
  - Each `Run` is proved to compute the functions above.
- `TableFlags` (table_flags.dfy): the `TABLE_*` flag word and its five independent switches.

## Model

| member | source | states |
|---|---|---|
| Terminal.EraseTermLines | src/libquest.cpp:19-33 | the loop writes exactly `EraseSequence(n)`: nothing for n < 1, otherwise n cursor-up/clear-line steps and one carriage return |
| Terminal.EraseSequenceErases | src/libquest.cpp:19-33 | reading back what `erase_term_lines(n)` writes gives an erase of exactly max(n, 0) lines |
| Terminal.ErasedLinesDetermineSequence | src/libquest.cpp:19-33 | conversely, any text read as an erase of k lines is exactly what `erase_term_lines(k)` writes |
| Terminal.EraseSequenceInjective | src/libquest.cpp:26-32 | different positive line counts produce different output |
| Terminal.EraseSequenceNoNewlines | src/libquest.cpp:26-32 | erasing never writes a line break |
| LinePrompts.StopAt | src/libquest.cpp:98-105 | the scan stops at the first second-of-two-consecutive-blank lines at or after i, or at the end of input; none is skipped before it |
| LinePrompts.KeptCount | src/libquest.cpp:78-114 | `line_num` is 0 exactly when there is no line or the first line is blank; no earlier line closes a blank pair; the line at `line_num` (if any) is the second blank of a pair |
| LinePrompts.JoinedNewlines | src/libquest.cpp:112-113 | every kept line adds exactly one line break to the answer |
| LinePrompts.SplitJoined | src/libquest.cpp:113 | splitting the appended `line + "\n"` pieces at their line breaks gives the lines back |
| LinePrompts.MultilineAnswerLines | src/libquest.cpp:112-119 | a non-default answer splits back into exactly the first `line_num` input lines and holds `line_num` line breaks |
| LinePrompts.InputAfterStopIgnored | src/libquest.cpp:81-105 | once the loop has stopped on a blank first line or a blank pair, later input changes neither `line_num` nor the answer |
| LinePrompts.MultilineAnswerNonEmpty | src/libquest.cpp:112-119 | the answer is empty only if the default is, and never empty when a line was kept |
| Selection.ReadKey | src/libquest.cpp:187-201 | one pass reads a, then b after ESC, then c after ESC [; it consumes at least 1 and at most 3 bytes (`pos < next <= pos + 3`); c stays 0 after ESC and a non-'['; the pass acts on exactly the next decoded key |
| Selection.EscapeSwallowsNextByte | src/libquest.cpp:191-198 | ESC followed by anything but '[' is discarded together with that byte |
| Selection.ArrowSequences | src/libquest.cpp:200-216 | ESC [ A decodes to Up and ESC [ B to Down |
| Selection.SingleByteKey | src/libquest.cpp:189-229 | a byte other than ESC is a pass of its own: Enter for '\n', nothing otherwise (a bare 'A' or 'B' does not move) |
| Selection.EnterNeedsNewline | src/libquest.cpp:229 | Enter is only ever decoded from a '\n' byte |
| Selection.CursorUp | src/libquest.cpp:205-212 | Up stays within the options and equals (sel + n - 1) mod n |
| Selection.CursorDown | src/libquest.cpp:218-225 | Down stays within the options and equals (sel + 1) mod n |
| Selection.Press | src/libquest.cpp:203-228 | the cursor stays within the options; only the arrows move it |
| Selection.UpDownCancel | src/libquest.cpp:203-228 | Up then Down, and Down then Up, return to the same option |
| Selection.DownTimes | src/libquest.cpp:216-225 | t presses of Down keep the cursor within the options |
| Selection.UpTimes | src/libquest.cpp:203-212 | t presses of Up keep the cursor within the options |
| Selection.DownTimesWrap | src/libquest.cpp:216-225 | within one turn, t presses of Down move t options on, wrapping from the last option to the first |
| Selection.UpTimesWrap | src/libquest.cpp:203-212 | within one turn, t presses of Up move t options back, wrapping from the first option to the last |
| Selection.FullTurn | src/libquest.cpp:203-228 | n presses of Down, or of Up, come back to the starting option |
| Selection.Accepted | src/libquest.cpp:185-245 | an accepted index is always a valid option index |
| Selection.CursorAfter | src/libquest.cpp:203-228 | the cursor after any keys is a valid option index |
| Selection.AcceptedAtFirstEnter | src/libquest.cpp:229-244 | the prompt accepts the cursor reached at the first Enter, whatever follows; with no Enter it accepts nothing |
| Selection.AcceptedIffEnter | src/libquest.cpp:185-245 | an option is accepted if and only if an Enter is among the keys |
| Selection.HighlightedOptions | src/libquest.cpp:154-164 | the first draw marks the options equal to the default, plus option 0 when the default is empty; every redraw marks only the cursor |
| Selection.DrawnOptionsNewlines | src/libquest.cpp:154-169 | for options without '\n', drawing k options writes exactly k lines |
| Selection.PromptBlockHeight | src/libquest.cpp:141-172 | for a question and options without '\n': the option list is `options.size()` lines, which is what each redraw erases first; header plus list is the `options.size() + 1` lines Enter erases |
| Selection.AnswerNeedsNewline | src/libquest.cpp:183-229 | an answer requires a '\n' byte after the discarded first byte |
| Selection.ImmediateEnterTakesFirstOption | src/libquest.cpp:139-231 | for any option list, any discarded first byte and anything after it, a '\n' as the second byte answers option 0, whatever the default |
| Selection.CursorStartsAtZero | src/libquest.cpp:139-231 | an instance of the above: with default "green" among red, green and blue, the first draw marks green, yet an immediate Enter answers "red" |
| Selection.EscapedNewlineDoesNotAccept | src/libquest.cpp:191-198 | ESC followed by '\n' does not accept |
| Questions.WriteInputPrompt | src/libquest.cpp:41-45 | writes exactly `InputPromptLine`, which holds no line break (`InputPromptLineNewlines`): the prompt and the echoed reply share one screen line, the one line `erase_term_lines(1)` removes |
| LinePrompts.InputPromptLineNewlines | src/libquest.cpp:41-53 | for a question without '\n', the `input_t` prompt writes no line break; after an answered line, the prompt and the echoed reply fill the one line erased afterwards |
| Questions.WriteAnswerLine | src/libquest.cpp:55-61 | writes exactly `AnswerLine`, which `select_t` also writes after Enter and which is exactly one line (`AnswerLineNewlines`) |
| LinePrompts.AnswerLineNewlines | src/libquest.cpp:55-61 | for a question and answer without '\n', the summary line ends with exactly one line break |
| Questions.WriteMultilineHeader | src/libquest.cpp:70-76 | writes exactly `MultilineHeader`, which is exactly one line (`MultilineHeaderNewlines`) |
| LinePrompts.MultilineHeaderNewlines | src/libquest.cpp:70-76 | for a question without '\n', the header is exactly one line: the first of the screen lines erased afterwards (see `MultilineScreenHeight`) |
| Questions.WriteMultilineSummary | src/libquest.cpp:123-129 | writes exactly `MultilineSummary`, whose height `MultilineSummaryNewlines` gives |
| LinePrompts.MultilineSummaryNewlines | src/libquest.cpp:123-129 | for a question without '\n', the summary has one line break for the question plus those of the answer |
| LinePrompts.MultilineSummaryHeight | src/libquest.cpp:98-129 | when at least one line was kept and no input line holds '\n', the summary fills `line_num + 1` lines: the question line and one per kept line |
| LinePrompts.MultilineScreenHeight | src/libquest.cpp:70-121 | for a question and lines without '\n': when the loop stops on a blank first line or a blank pair, the header and the echoed lines read (`ReadLines`) fill `line_num + 2` lines, the count erased; when input ends first they fill only `line_num + 1` |
| Questions.WriteSelectHeader | src/libquest.cpp:141-145 | writes exactly `SelectHeader`: the question on a line of its own |
| Questions.Question.constructor | src/libquest.h:26-30 | stores the question text and the base-class tag |
| Questions.Question.Type | src/libquest.h:37-40 | `type()` of a base question is QUESTION_BASE_CLASS |
| Questions.Question.Run | src/libquest.h:32-35 | the base question answers with the empty string |
| Questions.InputQuestion.WithDefault | src/libquest.h:88-93 | stores question and default; the tag is QUESTION_INPUT |
| Questions.InputQuestion.constructor | src/libquest.h:95-99 | without a default, the default is the empty string; the tag is QUESTION_INPUT |
| Questions.InputQuestion.Type | src/libquest.h:37-40 | `type()` of an input question is QUESTION_INPUT |
| Questions.InputQuestion.Run | src/libquest.cpp:37-64 | the answer is the first line when it is non-empty, otherwise (empty line or end of input) the default; the output is the prompt, a one-line erase and the summary line with that answer |
| Questions.MultilineQuestion.WithDefault | src/libquest.h:109-114 | stores question and default text; the tag is QUESTION_MULTILINE |
| Questions.MultilineQuestion.constructor | src/libquest.h:116-120 | without a default, the default is empty; the tag is QUESTION_MULTILINE |
| Questions.MultilineQuestion.Type | src/libquest.h:37-40 | `type()` of a multiline question is QUESTION_MULTILINE |
| Questions.MultilineQuestion.Run | src/libquest.cpp:66-134 | the loop computes `MultilineAnswer` and `line_num == KeptCount`; the output is the header, an erase of `line_num + 2` lines and the summary |
| Questions.YesNoQuestion.WithDefault | src/libquest.h:130-135 | stores question and boolean default; the tag is QUESTION_YESNO |
| Questions.YesNoQuestion.constructor | src/libquest.h:137-142 | without a default, the default is no; the tag is QUESTION_YESNO |
| Questions.YesNoQuestion.Type | src/libquest.h:37-40 | `type()` of a yes/no question is QUESTION_YESNO |
| Questions.SelectQuestion.WithDefault | src/libquest.h:152-157 | stores question, default and options; the input tag set by the base constructor is overwritten with QUESTION_SELECTION |
| Questions.SelectQuestion.constructor | src/libquest.h:159-164 | as above with an empty default |
| Questions.SelectQuestion.Type | src/libquest.h:37-40 | `type()` of a selection question is QUESTION_SELECTION |
| Questions.SelectQuestion.DrawOption | src/libquest.cpp:156-168 | the line for option i is `OptionLine`: the highlight marker exactly when `Highlighted`, two spaces otherwise |
| Questions.SelectQuestion.ChangeSelection | src/libquest.cpp:147-170 | `change_selection(sel)` writes `Redraw`: the erase of the previous list when sel >= 0, then every option line with its marker |
| Questions.SelectQuestion.Pass | src/libquest.cpp:187-244 | one pass reads 1 to 3 bytes and acts on exactly the next decoded key: the new cursor is `Press` of it, it ends the loop exactly on Enter, and it writes `StepOutput` (a redraw for an arrow, erase plus summary for Enter, nothing otherwise) |
| Questions.SelectQuestion.Run | src/libquest.cpp:136-250 | the key loop answers `SelectionAnswer` (the option under the cursor at the first Enter after the discarded byte) and writes `SelectionOutput` |
| Questions.Questionnaire.constructor | src/libquest.h:49-51 | a new questionnaire has no questions and no answers |
| Questions.Questionnaire.FromList | src/libquest.h:53-63 | holds the given questions in order, and no answers |
| Questions.Questionnaire.Assign | src/libquest.h:65-70 | assignment replaces the question list and leaves the answers untouched |
| TableFlags.Encode | src/libquest.h:171-178 | OR-ing the switched-on flags sets only the five flag bits, and each flag is set exactly when its switch is on |
| TableFlags.Decode | src/libquest.h:171-178 | each switch is on exactly when its flag bit is set |
| TableFlags.DecodeEncode | src/libquest.h:171-178 | any combination of flags reads back unchanged |
| TableFlags.EncodeDecode | src/libquest.h:171-178 | reading a word and OR-ing its flags again keeps exactly the flag bits |
| TableFlags.FlagsAreSingleBits | src/libquest.h:171-178 | the flags are the single bits 1, 2, 4, 8 and 16, pairwise disjoint, together 0x1F |
| TableFlags.FlagsIndependent | src/libquest.h:171-178 | setting one flag sets it and leaves every other flag as it was |

## Left out

- Questions.SelectQuestion.Run: at end of input the C++ loop keeps calling `getchar` forever. The model leaves the loop when the bytes run out, with no answer (`None`).
- Selection.PromptBlockHeight: holds only when no option and not the question contains '\n'. An option holding '\n' is drawn on several screen lines, but each redraw erases `options.size()` lines and Enter erases `options.size() + 1`, so the in-place redraw is not proved for such options (nor does the C++ code handle them).
- Selection.DrawnOptionsNewlines, LinePrompts.InputPromptLineNewlines, LinePrompts.AnswerLineNewlines, LinePrompts.MultilineHeaderNewlines, LinePrompts.MultilineSummaryNewlines and LinePrompts.MultilineSummaryHeight count line breaks only for texts without '\n'; line wrapping at the terminal width is not modelled either.
- Questions.MultilineQuestion.Run: when input ends before a blank first line or a blank pair, the C++ code still erases `line_num + 2` lines, one more than the header and the echoed lines fill (`MultilineScreenHeight`), so the line above the prompt is cleared too. The model writes what the code writes; the screen itself is not modelled.
- Questions.InputQuestion.Run: at end of input no reply is echoed and the cursor stays on the prompt line, so `erase_term_lines(1)` clears the line above the prompt instead. As above, only the characters written are modelled.
- Integer width: `line_num`, `blanks`, `selected` and the parameter of `erase_term_lines` are 32-bit `int`s, and `options.size()` is narrowed to `int` when passed to `erase_term_lines`. The model uses unbounded integers, so overflow past 2^31 - 1 lines or options is not modelled.
- Questions.SelectQuestion.Run: requires a non-empty option list. With no options the C++ code would read past the end of the vector.
- Terminal modes: switching the terminal to non-canonical, no-echo mode with `tcgetattr`/`tcsetattr` and restoring it is not modelled. Neither is the terminal echo of the typed lines, so the model does not show that the erased lines are the lines on screen.
- Byte values: `select_t` stores bytes in a C `char`. Bytes of 128 and above become negative there, but they are only ever compared with 10, 27, '[', 'A', 'B' and 0, so the model keeps them as 0..255 and EOF as -1.
- Flushing (`std::endl`, `cout.flush()`) is not modelled; only the characters written are.
- `yesno_t::run`, `questionaire_t::run`, `table_t`, `borders_t` and the border themes are declared in src/libquest.h, but their bodies are not part of this model. Only the `TABLE_*` flag bits are modelled.
- The questionnaire destructor deletes its questions. Memory release has no counterpart in Dafny.
- Polymorphism: `run()` is virtual in C++. Here each class has its own `Run`, taking the input it reads. The questionnaire holds a tagged reference (`QuestionRef`) in place of a base-class pointer.
- The demo program (src/main.cpp) is not part of this model.
