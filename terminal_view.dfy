/**
 * src/rcterminal/RCTerminalView.ts: the pseudo-terminal behind the "Remote
 * Control" terminal. It keeps the line being typed, which always starts with
 * the prompt, and writes control sequences and text to the terminal. Every
 * string fired on the terminal's write emitter is appended to `written`.
 */
module TerminalView {
  import opened Wrappers
  import opened JsString

  const Esc: char := '\U{001B}'

  /** The prompt `"→ "`. */
  const DefaultLine: string := "\U{2192} "

  /** The keys the line editor handles itself. */
  const Enter: string := "\r"
  const Backspace: string := "\U{007F}"

  /** The control sequences the view writes. */
  const CursorBack: string := [Esc] + "[D"
  const DeleteChar: string := [Esc] + "[P"
  const EraseLine: string := [Esc] + "[1K" + [Esc] + "[0G"
  const ClearScreen: string := [Esc] + "[2J" + [Esc] + "[3J" + [Esc] + "[;H"

  /** What `writeToTerminal` writes for each message, in order, while the line reads `line`. */
  function WriteFrames(msgs: seq<string>, line: string): (r: seq<string>)
    ensures |r| == 3 * |msgs|
  {
    if |msgs| == 0 then []
    else WriteFrames(msgs[..|msgs| - 1], line) + [EraseLine, msgs[|msgs| - 1] + "\r\n", line]
  }

  /**
   * Message `k` occupies positions `3k` to `3k + 2`: the line is erased, the
   * message is written with a line break, and the typed line is redrawn.
   */
  lemma {:induction false} WriteFramesAt(msgs: seq<string>, line: string, k: nat)
    requires k < |msgs|
    ensures var r := WriteFrames(msgs, line);
      r[3 * k] == EraseLine && r[3 * k + 1] == msgs[k] + "\r\n" && r[3 * k + 2] == line
  {
    var init := msgs[..|msgs| - 1];
    if k < |msgs| - 1 {
      WriteFramesAt(init, line, k);
    }
  }

  /** Writing one more message adds its three strings after the earlier ones. */
  lemma WriteFramesSnoc(msgs: seq<string>, t: string, line: string)
    ensures WriteFrames(msgs + [t], line) == WriteFrames(msgs, line) + [EraseLine, t + "\r\n", line]
  {
    assert (msgs + [t])[..|msgs|] == msgs;
  }

  /**
   * One more message flushed to an open view: if the view held `w0` and the
   * frames of `done`, and a write with nothing buffered then added the frame
   * of `t`, it now holds `w0` and the frames of `done + [t]`.
   */
  lemma FlushStep(w0: seq<string>, done: seq<string>, t: string, line: string,
                  before: seq<string>, after: seq<string>)
    requires before == w0 + WriteFrames(done, line)
    requires after == before + WriteFrames([], line) + [EraseLine, t + "\r\n", line]
    ensures after == w0 + WriteFrames(done + [t], line)
  {
    WriteFramesSnoc(done, t, line);
    AppendAssoc(w0, WriteFrames(done, line), [EraseLine, t + "\r\n", line]);
  }

  class RCTerminalView {
    /** The line being typed, prompt included. */
    var userInput: string
    /** `opened`: whether the terminal has finished opening. */
    var isOpen: bool
    /** Everything fired on the write emitter, oldest first. */
    var written: seq<string>
    /** Whether the close emitter has fired. */
    var closeFired: bool

    /** The typed line always starts with the prompt. */
    predicate Valid()
      reads this
    {
      StartsWith(userInput, DefaultLine)
    }

    /** A new view: the bare prompt, not yet opened, nothing written. */
    constructor()
      ensures Valid()
      ensures userInput == DefaultLine && !isOpen && written == [] && !closeFired
    {
      userInput := DefaultLine;
      isOpen := false;
      written := [];
      closeFired := false;
    }

    /** `closeTerminal`: fire the close emitter. */
    method CloseTerminal()
      modifies this
      ensures closeFired
      ensures userInput == old(userInput) && isOpen == old(isOpen) && written == old(written)
    {
      closeFired := true;
    }

    /** `clearTerminal`: clear the screen, then redraw the typed line. */
    method ClearTerminal()
      modifies this
      ensures written == old(written) + [ClearScreen, userInput]
      ensures userInput == old(userInput) && isOpen == old(isOpen) && closeFired == old(closeFired)
    {
      written := written + [ClearScreen];
      written := written + [userInput];
    }

    /** `writeToTerminal`: erase the line, write the text and a line break, redraw the typed line. */
    method WriteToTerminal(text: string)
      modifies this`written
      ensures written == old(written) + [EraseLine, text + "\r\n", userInput]
    {
      written := written + [EraseLine];
      written := written + [text + "\r\n"];
      written := written + [userInput];
    }

    /** The first step of the pseudo-terminal's `open`: draw the typed line. */
    method BeginOpen()
      modifies this
      ensures written == old(written) + [userInput]
      ensures userInput == old(userInput) && isOpen == old(isOpen) && closeFired == old(closeFired)
    {
      written := written + [userInput];
    }

    /** The last step of `open`, after the owner's `onTerminalOpened` has run. */
    method FinishOpen()
      modifies this
      ensures isOpen
      ensures userInput == old(userInput) && written == old(written) && closeFired == old(closeFired)
    {
      isOpen := true;
    }

    /**
     * `handleInput`: enter hands the line without the prompt to the owner's
     * `onTerminalInput` (the returned command) and resets the line; backspace
     * removes the last typed character unless only the prompt is left; any
     * other input is appended and echoed.
     */
    method HandleInput(key: string) returns (command: Option<string>)
      requires Valid()
      modifies this
      ensures Valid()
      ensures isOpen == old(isOpen) && closeFired == old(closeFired)
      ensures key == Enter ==>
        && command.Some?
        && old(userInput) == DefaultLine + command.value
        && userInput == DefaultLine
        && written == old(written) + [EraseLine + "\r" + DefaultLine]
      ensures key == Backspace && |old(userInput)| <= |DefaultLine| ==>
        command == None && userInput == old(userInput) && written == old(written)
      ensures key == Backspace && |old(userInput)| > |DefaultLine| ==>
        && command == None
        && userInput + [old(userInput)[|old(userInput)| - 1]] == old(userInput)
        && written == old(written) + [CursorBack, DeleteChar]
      ensures key != Enter && key != Backspace ==>
        command == None && userInput == old(userInput) + key && written == old(written) + [key]
    {
      if key == Enter {
        var line := Slice(userInput, |DefaultLine|);
        assert userInput == DefaultLine + line;
        userInput := DefaultLine;
        written := written + [EraseLine + "\r" + DefaultLine];
        command := Some(line);
        return;
      }
      command := None;
      if key == Backspace {
        if |userInput| <= |DefaultLine| {
          return;
        }
        var before := userInput;
        userInput := SliceRange(userInput, 0, |userInput| - 1);
        assert userInput == before[..|before| - 1];
        assert userInput + [before[|before| - 1]] == before;
        assert userInput[..|DefaultLine|] == before[..|DefaultLine|];
        written := written + [CursorBack];
        written := written + [DeleteChar];
        return;
      }
      var before := userInput;
      userInput := userInput + key;
      assert userInput[..|DefaultLine|] == before[..|DefaultLine|];
      written := written + [key];
    }
  }

  // colorText

  /** The characters `colorText` copies without a colour. */
  predicate IsPlain(c: char) {
    c == ' ' || c == '\r' || c == '\n'
  }

  /** The colour index after `k`: 1 to 6, then 1 again. */
  function NextColor(k: nat): (r: nat)
    requires 1 <= k <= 6
    ensures 1 <= r <= 6
    ensures r == k % 6 + 1
  {
    if k + 1 > 6 then 1 else k + 1
  }

  /** A character in colour `3k`, followed by the reset sequence. */
  function Wrap(c: char, k: nat): (r: string)
    requires 1 <= k <= 6
    ensures |r| == 10 && r[0] == Esc && r[3] == DigitChar(k) && r[5] == c
  {
    [Esc] + "[3" + [DigitChar(k)] + "m" + [c] + [Esc] + "[0m"
  }

  /** What `colorText` makes of `text` when the next colour index is `k`. */
  function Colored(text: string, k: nat): string
    requires 1 <= k <= 6
  {
    if |text| == 0 then ""
    else if IsPlain(text[0]) then [text[0]] + Colored(text[1..], k)
    else Wrap(text[0], k) + Colored(text[1..], NextColor(k))
  }

  /** One step of `colorText`: the piece for `text[i]`, then the rest with the next colour. */
  lemma ColoredAt(text: string, i: nat, k: nat)
    requires i < |text| && 1 <= k <= 6
    ensures IsPlain(text[i]) ==> Colored(text[i..], k) == [text[i]] + Colored(text[i + 1..], k)
    ensures !IsPlain(text[i]) ==>
      Colored(text[i..], k) == Wrap(text[i], k) + Colored(text[i + 1..], NextColor(k))
  {
    assert text[i..][1..] == text[i + 1..];
  }

  /** `colorText(text)`. */
  method ColorText(text: string) returns (output: string)
    ensures output == Colored(text, 1)
  {
    output := "";
    var colorIndex := 1;
    for i := 0 to |text|
      invariant 1 <= colorIndex <= 6
      invariant output + Colored(text[i..], colorIndex) == Colored(text, 1)
    {
      var c := text[i];
      ColoredAt(text, i, colorIndex);
      ghost var rest := Colored(text[i + 1..], if IsPlain(c) then colorIndex else NextColor(colorIndex));
      if c == ' ' || c == '\r' || c == '\n' {
        AppendAssoc(output, [c], rest);
        output := output + [c];
      } else {
        AppendAssoc(output, Wrap(c, colorIndex), rest);
        output := output + Wrap(c, colorIndex);
        colorIndex := colorIndex + 1;
        if colorIndex > 6 {
          colorIndex := 1;
        }
      }
    }
    assert text[|text|..] == "";
  }

  /** Removes the colour wrapping that `colorText` adds. */
  function Uncolor(s: string): (r: string)
    ensures |r| <= |s|
  {
    if |s| == 0 then ""
    else if s[0] == Esc && |s| >= 10 then [s[5]] + Uncolor(s[10..])
    else [s[0]] + Uncolor(s[1..])
  }

  /** Colouring keeps the text: removing the colours gives it back. */
  lemma {:induction false} UncolorColored(text: string, k: nat)
    requires 1 <= k <= 6
    ensures Uncolor(Colored(text, k)) == text
  {
    if |text| != 0 {
      var c := text[0];
      if IsPlain(c) {
        UncolorColored(text[1..], k);
        var s := [c] + Colored(text[1..], k);
        assert s[1..] == Colored(text[1..], k);
      } else {
        UncolorColored(text[1..], NextColor(k));
        var s := Wrap(c, k) + Colored(text[1..], NextColor(k));
        assert s[10..] == Colored(text[1..], NextColor(k));
      }
      assert [c] + text[1..] == text;
    }
  }

  /** The number of characters `colorText` colours. */
  function ColoredCount(text: string): nat {
    if |text| == 0 then 0
    else (if IsPlain(text[0]) then 0 else 1) + ColoredCount(text[1..])
  }

  /** Each coloured character costs nine more characters of control sequences. */
  lemma {:induction false} ColoredLength(text: string, k: nat)
    requires 1 <= k <= 6
    ensures |Colored(text, k)| == |text| + 9 * ColoredCount(text)
  {
    if |text| != 0 {
      if IsPlain(text[0]) {
        ColoredLength(text[1..], k);
      } else {
        ColoredLength(text[1..], NextColor(k));
      }
    }
  }

  /** Text made only of spaces and line breaks is copied unchanged. */
  lemma {:induction false} PlainCopied(text: string, k: nat)
    requires 1 <= k <= 6
    requires forall i :: 0 <= i < |text| ==> IsPlain(text[i])
    ensures Colored(text, k) == text
  {
    if |text| != 0 {
      PlainCopied(text[1..], k);
      assert [text[0]] + text[1..] == text;
    }
  }

  /** The colour digits of a coloured string, in order. */
  function ColorDigits(s: string): seq<char> {
    if |s| == 0 then []
    else if s[0] == Esc && |s| >= 10 then [s[3]] + ColorDigits(s[10..])
    else ColorDigits(s[1..])
  }

  /** The colour digits from index `k` on, `n` of them, cycling through 1 to 6. */
  function Cycle(k: nat, n: nat): (r: seq<char>)
    requires 1 <= k <= 6
    ensures |r| == n
    decreases n
  {
    if n == 0 then [] else [DigitChar(k)] + Cycle(NextColor(k), n - 1)
  }

  /** Digit `j` of the cycle starting at `k` is colour `k + j`, counted modulo 6 within 1 to 6. */
  lemma {:induction false} CycleAt(k: nat, n: nat, j: nat)
    requires 1 <= k <= 6 && j < n
    ensures Cycle(k, n)[j] == DigitChar((k - 1 + j) % 6 + 1)
    decreases n
  {
    var rest := Cycle(NextColor(k), n - 1);
    assert Cycle(k, n) == [DigitChar(k)] + rest;
    if j == 0 {
      assert (k - 1) % 6 == k - 1;
    } else {
      CycleAt(NextColor(k), n - 1, j - 1);
      assert Cycle(k, n)[j] == rest[j - 1];
      if k == 6 {
        ModSix(j - 1);
      }
    }
  }

  lemma ModSix(x: nat)
    ensures (x + 6) % 6 == x % 6
  {
  }

  /**
   * The coloured characters take the colours 31, 32, ..., 36, 31, ... in
   * order: the colour advances on every coloured character and on nothing else.
   */
  lemma {:induction false} ColorsCycle(text: string, k: nat)
    requires 1 <= k <= 6
    ensures ColorDigits(Colored(text, k)) == Cycle(k, ColoredCount(text))
  {
    if |text| != 0 {
      var c := text[0];
      if IsPlain(c) {
        ColorsCycle(text[1..], k);
        var s := [c] + Colored(text[1..], k);
        assert s[1..] == Colored(text[1..], k);
      } else {
        ColorsCycle(text[1..], NextColor(k));
        var s := Wrap(c, k) + Colored(text[1..], NextColor(k));
        assert s[10..] == Colored(text[1..], NextColor(k));
      }
    }
  }
}
