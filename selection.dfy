/** The arrow-key selection prompt (select_t): the key decoder over raw input bytes, the
    circular cursor over the option list, the drawing of the option list, and what the
    whole prompt answers and writes for a given input. Standard input is a finite byte
    sequence; reading past its end gives EOF (-1), as getchar does. The source never
    stops reading at end of input; here running out of bytes before Enter leaves the
    prompt with no answer. SelectQuestion.Run in module Questions is proved to compute
    SelectionAnswer and SelectionOutput. */
module Selection {
  import opened Wrappers
  import opened Terminal
  import opened LinePrompts

  /** One byte of raw terminal input. */
  newtype Byte = x: int | 0 <= x < 256

  /** What getchar returns at end of input. */
  const EofCode: int := -1
  const EscCode: int := 27
  const NewlineCode: int := 10
  const BracketCode: int := '[' as int
  const UpCode: int := 'A' as int
  const DownCode: int := 'B' as int

  /** getchar on the byte at position pos, or EOF past the end. */
  function GetChar(s: seq<Byte>, pos: nat): int
  {
    if pos < |s| then s[pos] as int else EofCode
  }

  /** What is left of the input once the first k bytes have been read. */
  function Drop(s: seq<Byte>, k: nat): (r: seq<Byte>)
    ensures |r| == if k <= |s| then |s| - k else 0
  {
    if k <= |s| then s[k..] else []
  }

  // ------------------------------------------------------------ key decoder

  /** One pass of the key loop: an arrow, Enter, or anything the loop does nothing for. */
  datatype Key = Up | Down | Enter | Ignored

  /** The key for the byte read after ESC [. */
  function ArrowKey(c: int): Key
  {
    if c == UpCode then Up else if c == DownCode then Down else Ignored
  }

  /** The keys the loop of select_t::run sees in the byte stream s, one per pass: a byte
      other than ESC is Enter when it is '\n' and ignored otherwise; ESC swallows the
      next byte, and when that byte is '[' also the one after it, which picks the arrow. */
  function Keys(s: seq<Byte>): seq<Key>
    decreases |s|
  {
    if |s| == 0 then []
    else if GetChar(s, 0) != EscCode then
      [if GetChar(s, 0) == NewlineCode then Enter else Ignored] + Keys(Drop(s, 1))
    else if GetChar(s, 1) != BracketCode then [Ignored] + Keys(Drop(s, 2))
    else [ArrowKey(GetChar(s, 2))] + Keys(Drop(s, 3))
  }

  /** Keys, read from position pos of the input: one pass consumes one byte, two bytes
      (ESC and a byte other than '['), or three (ESC, '[' and the arrow byte). */
  lemma KeysAt(s: seq<Byte>, pos: nat)
    requires pos < |s|
    ensures Keys(Drop(s, pos)) ==
      if GetChar(s, pos) != EscCode then
        [if GetChar(s, pos) == NewlineCode then Enter else Ignored] + Keys(Drop(s, pos + 1))
      else if GetChar(s, pos + 1) != BracketCode then [Ignored] + Keys(Drop(s, pos + 2))
      else [ArrowKey(GetChar(s, pos + 2))] + Keys(Drop(s, pos + 3))
  {
    var t := Drop(s, pos);
    assert GetChar(t, 0) == GetChar(s, pos);
    assert GetChar(t, 1) == GetChar(s, pos + 1);
    assert GetChar(t, 2) == GetChar(s, pos + 2);
    assert Drop(t, 1) == Drop(s, pos + 1);
    assert Drop(t, 2) == Drop(s, pos + 2);
    assert Drop(t, 3) == Drop(s, pos + 3);
  }

  /** The key one pass of the loop acts on, from the bytes a, b, c it read (b and c stay
      0 when they were not read): Up on ESC [ A, Down on ESC [ B, Enter on a bare '\n'. */
  function KeyOf(a: int, b: int, c: int): Key
  {
    if c == UpCode then Up
    else if c == DownCode then Down
    else if a == NewlineCode && b == 0 && c == 0 then Enter
    else Ignored
  }

  /** The reads of one pass of the key loop, from position pos: a, then after ESC also b,
      and after ESC [ also c. The pass acts on the next decoded key. */
  method ReadKey(input: seq<Byte>, pos: nat) returns (a: int, b: int, c: int, next: nat)
    requires pos < |input|
    ensures pos < next <= |input| + 1
    ensures next <= pos + 3
    ensures a == EscCode && b != BracketCode ==> c == 0
    ensures Keys(Drop(input, pos)) == [KeyOf(a, b, c)] + Keys(Drop(input, next))
  {
    b, c := 0, 0;
    a := GetChar(input, pos);
    next := pos + 1;
    if a == EscCode {
      b := GetChar(input, next);
      next := next + 1;
      if b != BracketCode {
        KeysAt(input, pos);
        return;
      }
      c := GetChar(input, next);
      next := next + 1;
    }
    KeysAt(input, pos);
  }

  /** ESC followed by anything but '[' is thrown away together with that byte: an
      escaped '\n' is not Enter. */
  lemma EscapeSwallowsNextByte(b: Byte, rest: seq<Byte>)
    requires b as int != BracketCode
    ensures Keys([EscCode as Byte, b] + rest) == [Ignored] + Keys(rest)
  {
    var s := [EscCode as Byte, b] + rest;
    assert Drop(s, 2) == rest;
  }

  /** ESC [ A is Up and ESC [ B is Down. */
  lemma ArrowSequences(rest: seq<Byte>)
    ensures Keys([EscCode as Byte, BracketCode as Byte, UpCode as Byte] + rest) == [Up] + Keys(rest)
    ensures Keys([EscCode as Byte, BracketCode as Byte, DownCode as Byte] + rest) == [Down] + Keys(rest)
  {
    var u := [EscCode as Byte, BracketCode as Byte, UpCode as Byte] + rest;
    var d := [EscCode as Byte, BracketCode as Byte, DownCode as Byte] + rest;
    assert Drop(u, 3) == rest;
    assert Drop(d, 3) == rest;
  }

  /** A byte other than ESC is one pass on its own: Enter for a bare '\n', nothing for
      anything else, including a plain 'A' or 'B'. */
  lemma SingleByteKey(x: Byte, rest: seq<Byte>)
    requires x as int != EscCode
    ensures Keys([x] + rest) == [if x as int == NewlineCode then Enter else Ignored] + Keys(rest)
  {
    assert Drop([x] + rest, 1) == rest;
  }

  /** Enter is only ever decoded from a '\n' byte in the input. */
  lemma {:induction false} EnterNeedsNewline(s: seq<Byte>)
    requires Enter in Keys(s)
    ensures NewlineCode as Byte in s
    decreases |s|
  {
    if GetChar(s, 0) != EscCode {
      if GetChar(s, 0) != NewlineCode {
        EnterNeedsNewline(Drop(s, 1));
      }
    } else if GetChar(s, 1) != BracketCode {
      EnterNeedsNewline(Drop(s, 2));
    } else {
      assert ArrowKey(GetChar(s, 2)) != Enter;
      EnterNeedsNewline(Drop(s, 3));
    }
  }

  // ------------------------------------------------------------ cursor

  /** Up: from the first option to the last, otherwise one back. */
  function CursorUp(n: nat, sel: nat): (r: nat)
    requires sel < n
    ensures r < n
    ensures r == (sel + n - 1) % n
  {
    if sel > 0 then sel - 1 else n - 1
  }

  /** Down: from the last option to the first, otherwise one on. */
  function CursorDown(n: nat, sel: nat): (r: nat)
    requires sel < n
    ensures r < n
    ensures r == (sel + 1) % n
  {
    if sel < n - 1 then sel + 1 else 0
  }

  /** The cursor after one pass of the key loop; only the arrows move it. */
  function Press(n: nat, sel: nat, k: Key): (r: nat)
    requires sel < n
    ensures r < n
    ensures k == Enter || k == Ignored ==> r == sel
  {
    match k
    case Up => CursorUp(n, sel)
    case Down => CursorDown(n, sel)
    case _ => sel
  }

  /** Up then Down, and Down then Up, leave the cursor where it was. */
  lemma UpDownCancel(n: nat, sel: nat)
    requires sel < n
    ensures CursorDown(n, CursorUp(n, sel)) == sel
    ensures CursorUp(n, CursorDown(n, sel)) == sel
  {
  }

  /** The cursor after pressing Down t times. */
  function DownTimes(n: nat, sel: nat, t: nat): (r: nat)
    requires sel < n
    ensures r < n
  {
    if t == 0 then sel else CursorDown(n, DownTimes(n, sel, t - 1))
  }

  /** The cursor after pressing Up t times. */
  function UpTimes(n: nat, sel: nat, t: nat): (r: nat)
    requires sel < n
    ensures r < n
  {
    if t == 0 then sel else CursorUp(n, UpTimes(n, sel, t - 1))
  }

  /** Within one turn, Down t times moves the cursor t places on, wrapping past the last
      option to the first. */
  lemma {:induction false} DownTimesWrap(n: nat, sel: nat, t: nat)
    requires sel < n && t <= n
    ensures DownTimes(n, sel, t) == if sel + t < n then sel + t else sel + t - n
  {
    if t > 0 {
      DownTimesWrap(n, sel, t - 1);
    }
  }

  /** Within one turn, Up t times moves the cursor t places back, wrapping past the first
      option to the last. */
  lemma {:induction false} UpTimesWrap(n: nat, sel: nat, t: nat)
    requires sel < n && t <= n
    ensures UpTimes(n, sel, t) == if t <= sel then sel - t else sel + n - t
  {
    if t > 0 {
      UpTimesWrap(n, sel, t - 1);
    }
  }

  /** n presses of Down, or of Up, bring the cursor back to where it started. */
  lemma FullTurn(n: nat, sel: nat)
    requires sel < n
    ensures DownTimes(n, sel, n) == sel
    ensures UpTimes(n, sel, n) == sel
  {
    DownTimesWrap(n, sel, n);
    UpTimesWrap(n, sel, n);
  }

  /** The option index the prompt accepts: the cursor at the first Enter, or None when
      the keys run out first. */
  function Accepted(n: nat, sel: nat, keys: seq<Key>): (r: Option<nat>)
    requires sel < n
    ensures r.Some? ==> r.value < n
    decreases |keys|
  {
    if keys == [] then None
    else if keys[0] == Enter then Some(sel)
    else Accepted(n, Press(n, sel, keys[0]), keys[1..])
  }

  /** The cursor after the given keys: Enter and ignored keys leave it in place. */
  function CursorAfter(n: nat, sel: nat, keys: seq<Key>): (r: nat)
    requires sel < n
    ensures r < n
    decreases |keys|
  {
    if keys == [] then sel else CursorAfter(n, Press(n, sel, keys[0]), keys[1..])
  }

  /** The prompt accepts exactly when an Enter comes, and what it accepts is the cursor
      reached by the keys before the first Enter; what follows is never looked at. */
  lemma {:induction false} AcceptedAtFirstEnter(n: nat, sel: nat, before: seq<Key>, after: seq<Key>)
    requires sel < n
    requires Enter !in before
    ensures Accepted(n, sel, before + [Enter] + after) == Some(CursorAfter(n, sel, before))
    ensures Accepted(n, sel, before) == None
    decreases |before|
  {
    if before != [] {
      assert (before + [Enter] + after)[1..] == before[1..] + [Enter] + after;
      AcceptedAtFirstEnter(n, Press(n, sel, before[0]), before[1..], after);
    }
  }

  /** Some option is accepted if and only if Enter is among the keys. */
  lemma {:induction false} AcceptedIffEnter(n: nat, sel: nat, keys: seq<Key>)
    requires sel < n
    ensures Accepted(n, sel, keys).Some? <==> Enter in keys
    decreases |keys|
  {
    if keys != [] && keys[0] != Enter {
      AcceptedIffEnter(n, Press(n, sel, keys[0]), keys[1..]);
      assert Enter in keys <==> Enter in keys[1..];
    }
  }

  // ------------------------------------------------------------ drawing

  /** What select_t writes first: "? question" on a line of its own. */
  function SelectHeader(question: string): string
  {
    Style1 + "? " + Style2 + question + "\n" + StyleClear
  }

  /** Whether change_selection(sel) marks option i: with sel == -1 (the first draw) every
      option equal to the default, and option 0 too when the default is empty; otherwise
      only option sel. */
  predicate Highlighted(options: seq<string>, default: string, sel: int, i: nat)
    requires i < |options|
  {
    (sel == -1 && (options[i] == default || (i == 0 && default == ""))) || sel == i
  }

  /** The line drawn for option i: "> " in the highlight style or two spaces, the option,
      a line break, then a style reset. */
  function OptionLine(options: seq<string>, default: string, sel: int, i: nat): string
    requires i < |options|
  {
    (if Highlighted(options, default, sel, i) then Style4 + "> " else "  ") + options[i] + "\n" + StyleClear
  }

  /** The lines of the first k options. */
  function DrawnOptions(options: seq<string>, default: string, sel: int, k: nat): string
    requires k <= |options|
  {
    if k == 0 then "" else DrawnOptions(options, default, sel, k - 1) + OptionLine(options, default, sel, k - 1)
  }

  /** What change_selection(sel) writes: for a real cursor (sel >= 0) it first erases the
      option lines drawn before, then draws all options again. */
  function Redraw(options: seq<string>, default: string, sel: int): string
  {
    (if sel >= 0 then EraseSequence(|options|) else "") + DrawnOptions(options, default, sel, |options|)
  }

  /** The first draw marks the options equal to the default, plus option 0 when the
      default is empty; a redraw marks only the cursor. */
  lemma HighlightedOptions(options: seq<string>, default: string, sel: int)
    ensures sel == -1 ==>
      (set i | 0 <= i < |options| && Highlighted(options, default, sel, i)) ==
      (set i | 0 <= i < |options| && options[i] == default) + (if default == "" && |options| > 0 then {0} else {})
    ensures 0 <= sel < |options| ==>
      (set i | 0 <= i < |options| && Highlighted(options, default, sel, i)) == {sel}
  {
    if 0 <= sel < |options| {
      assert Highlighted(options, default, sel, sel);
    }
  }

  /** Each option line is exactly one line of output. */
  lemma OptionLineNewlines(options: seq<string>, default: string, sel: int, i: nat)
    requires i < |options|
    requires '\n' !in options[i]
    ensures Newlines(OptionLine(options, default, sel, i)) == 1
  {
    var marker := if Highlighted(options, default, sel, i) then Style4 + "> " else "  ";
    assert OptionLine(options, default, sel, i) == marker + options[i] + "\n" + StyleClear;
    StyleNewlines();
    NoNewlineChar(options[i]);
    NewlinesAppend(marker, options[i]);
    NewlinesAppend(marker + options[i], "\n");
    NewlinesAppend(marker + options[i] + "\n", StyleClear);
  }

  lemma {:induction false} DrawnOptionsNewlines(options: seq<string>, default: string, sel: int, k: nat)
    requires k <= |options|
    requires NoNewlines(options)
    ensures Newlines(DrawnOptions(options, default, sel, k)) == k
  {
    if k > 0 {
      DrawnOptionsNewlines(options, default, sel, k - 1);
      var prefix, line := DrawnOptions(options, default, sel, k - 1), OptionLine(options, default, sel, k - 1);
      OptionLineNewlines(options, default, sel, k - 1);
      assert DrawnOptions(options, default, sel, k) == prefix + line;
      NewlinesAppend(prefix, line);
    }
  }

  /** Drawing the options writes one line per option, so the options.size() lines every
      Up/Down erases are exactly the lines the previous drawing wrote, and the header plus
      the options are the options.size() + 1 lines Enter erases. */
  lemma PromptBlockHeight(question: string, options: seq<string>, default: string, sel: int)
    requires NoNewlines(options) && '\n' !in question
    ensures Newlines(DrawnOptions(options, default, sel, |options|)) == |options|
    ensures Newlines(SelectHeader(question) + DrawnOptions(options, default, -1, |options|)) == |options| + 1
    ensures sel >= 0 ==> ErasedLines(Redraw(options, default, sel)[..|EraseSequence(|options|)|]) == Some(|options|)
  {
    DrawnOptionsNewlines(options, default, sel, |options|);
    DrawnOptionsNewlines(options, default, -1, |options|);
    NoNewlineChar(question);
    StyleNewlines();
    NewlinesAppend(Style1, "? ");
    NewlinesAppend(Style1 + "? ", Style2);
    NewlinesAppend(Style1 + "? " + Style2, question);
    NewlinesAppend(Style1 + "? " + Style2 + question, "\n");
    NewlinesAppend(Style1 + "? " + Style2 + question + "\n", StyleClear);
    NewlinesAppend(SelectHeader(question), DrawnOptions(options, default, -1, |options|));
    EraseSequenceErases(|options|);
    if sel >= 0 {
      var e := EraseSequence(|options|);
      assert Redraw(options, default, sel)[..|e|] == e;
    }
  }

  // ------------------------------------------------------------ the whole prompt

  /** What one pass of the key loop writes for key k with the cursor at sel: a redraw
      at the new cursor for an arrow, the erase of the whole prompt block and the
      one-line summary for Enter, nothing otherwise. */
  function StepOutput(question: string, options: seq<string>, default: string, sel: nat, k: Key): string
    requires sel < |options|
  {
    match k
    case Enter => EraseSequence(|options| + 1) + AnswerLine(question, options[sel])
    case Ignored => ""
    case _ => Redraw(options, default, Press(|options|, sel, k))
  }

  /** What the key loop writes from cursor sel on, up to and including the first Enter. */
  function KeyLoopOutput(question: string, options: seq<string>, default: string, sel: nat, keys: seq<Key>): string
    requires sel < |options|
    decreases |keys|
  {
    if keys == [] then ""
    else if keys[0] == Enter then StepOutput(question, options, default, sel, Enter)
    else StepOutput(question, options, default, sel, keys[0])
         + KeyLoopOutput(question, options, default, Press(|options|, sel, keys[0]), keys[1..])
  }

  /** One pass of the key loop: what it accepts and writes for the next key. */
  lemma KeyLoopStep(question: string, options: seq<string>, default: string, sel: nat, k: Key, tail: seq<Key>)
    requires sel < |options|
    ensures Accepted(|options|, sel, [k] + tail) ==
      if k == Enter then Some(sel) else Accepted(|options|, Press(|options|, sel, k), tail)
    ensures KeyLoopOutput(question, options, default, sel, [k] + tail) ==
      if k == Enter then StepOutput(question, options, default, sel, k)
      else StepOutput(question, options, default, sel, k)
           + KeyLoopOutput(question, options, default, Press(|options|, sel, k), tail)
  {
    assert ([k] + tail)[1..] == tail;
  }

  /** One pass of the key loop seen from the outside: if the text written so far followed
      by what the loop writes from here is `total`, it stays `total` after the pass. */
  lemma AdvanceOutput(question: string, options: seq<string>, default: string, sel: nat, k: Key, tail: seq<Key>,
                      before: string, total: string)
    requires sel < |options|
    requires before + KeyLoopOutput(question, options, default, sel, [k] + tail) == total
    ensures k != Enter ==>
      before + StepOutput(question, options, default, sel, k)
      + KeyLoopOutput(question, options, default, Press(|options|, sel, k), tail) == total
    ensures k == Enter ==> before + StepOutput(question, options, default, sel, k) == total
  {
    KeyLoopStep(question, options, default, sel, k, tail);
  }

  /** What select_t answers for the input bytes: the cursor starts at 0, the first byte
      is thrown away, and the option under the cursor at the first Enter is returned. */
  function SelectionAnswer(options: seq<string>, input: seq<Byte>): Option<string>
    requires |options| > 0
  {
    match Accepted(|options|, 0, Keys(Drop(input, 1)))
    case None => None
    case Some(k) => Some(options[k])
  }

  /** What select_t writes for the input bytes. */
  function SelectionOutput(question: string, options: seq<string>, default: string, input: seq<Byte>): string
    requires |options| > 0
  {
    SelectHeader(question) + Redraw(options, default, -1)
      + KeyLoopOutput(question, options, default, 0, Keys(Drop(input, 1)))
  }

  /** The prompt answers only if a bare '\n' arrives after the discarded first byte. */
  lemma AnswerNeedsNewline(options: seq<string>, input: seq<Byte>)
    requires |options| > 0
    requires SelectionAnswer(options, input).Some?
    ensures exists j :: 1 <= j < |input| && input[j] as int == NewlineCode
  {
    var keys := Keys(Drop(input, 1));
    AcceptedIffEnter(|options|, 0, keys);
    EnterNeedsNewline(Drop(input, 1));
    var j :| 0 <= j < |Drop(input, 1)| && Drop(input, 1)[j] == NewlineCode as Byte;
    assert input[j + 1] as int == NewlineCode;
  }

  /** The cursor starts at 0 whatever the default: a bare '\n' right after the discarded
      byte answers the first option, for every option list and whatever follows. */
  lemma ImmediateEnterTakesFirstOption(options: seq<string>, first: Byte, rest: seq<Byte>)
    requires |options| > 0
    ensures SelectionAnswer(options, [first, NewlineCode as Byte] + rest) == Some(options[0])
  {
    var input := [first, NewlineCode as Byte] + rest;
    assert Drop(input, 1) == [NewlineCode as Byte] + rest;
    SingleByteKey(NewlineCode as Byte, rest);
  }

  /** An instance: with a default that is not the first option, the first draw highlights
      the default, yet an immediate Enter returns option 0. */
  lemma CursorStartsAtZero()
    ensures var options := ["red", "green", "blue"];
      !Highlighted(options, "green", -1, 0) && Highlighted(options, "green", -1, 1) &&
      SelectionAnswer(options, [0, NewlineCode as Byte]) == Some("red")
  {
    ImmediateEnterTakesFirstOption(["red", "green", "blue"], 0, []);
    assert [0 as Byte, NewlineCode as Byte] + [] == [0, NewlineCode as Byte];
  }

  /** The escaped line break of ESC '\n' does not accept. */
  lemma EscapedNewlineDoesNotAccept(options: seq<string>, first: Byte)
    requires |options| > 0
    ensures SelectionAnswer(options, [first, EscCode as Byte, NewlineCode as Byte]) == None
  {
    var input := [first, EscCode as Byte, NewlineCode as Byte];
    assert Drop(input, 1) == [EscCode as Byte, NewlineCode as Byte] + [];
    EscapeSwallowsNextByte(NewlineCode as Byte, []);
    assert Keys(Drop(input, 1)) == [Ignored];
    assert [Ignored][1..] == [];
  }
}
