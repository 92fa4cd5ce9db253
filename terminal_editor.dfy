/**
 * The line editor behind the web terminal (`createTerminalService`): the line
 * being edited, the cursor in it, the command history and the position in
 * that history, updated key by key. What is written to the screen is output
 * only and not modelled; text is a sequence of UTF-16 code units, one `char`
 * each, as JavaScript counts string lengths.
 */
module TerminalEditor {
  import opened Ascii

  /** The white space JavaScript's `trim` removes. */
  predicate IsJsSpace(c: char) {
    || c == '\t' || c == '\n' || c == '\U{000B}' || c == '\U{000C}' || c == '\r' || c == ' '
    || c == '\U{00A0}' || c == '\U{1680}'
    || ('\U{2000}' <= c <= '\U{200A}')
    || c == '\U{2028}' || c == '\U{2029}' || c == '\U{202F}' || c == '\U{205F}' || c == '\U{3000}'
    || c == '\U{FEFF}'
  }

  /** `s.trimStart()`: the white space at the start removed. */
  function TrimStart(s: string): (r: string)
    ensures |r| <= |s| && r == s[|s| - |r|..]
    ensures r == [] || !IsJsSpace(r[0])
    ensures forall i :: 0 <= i < |s| - |r| ==> IsJsSpace(s[i])
  {
    if s != [] && IsJsSpace(s[0]) then TrimStart(s[1..]) else s
  }

  /** `s.trimEnd()`: the white space at the end removed. */
  function TrimEnd(s: string): (r: string)
    ensures |r| <= |s| && r == s[..|r|]
    ensures r == [] || !IsJsSpace(r[|r| - 1])
    ensures forall i :: |r| <= i < |s| ==> IsJsSpace(s[i])
  {
    if s != [] && IsJsSpace(s[|s| - 1]) then TrimEnd(s[..|s| - 1]) else s
  }

  /** `s.trim()`. */
  function Trim(s: string): string {
    TrimEnd(TrimStart(s))
  }

  /** The line holds nothing but white space. */
  predicate IsBlank(s: string) {
    forall i :: 0 <= i < |s| ==> IsJsSpace(s[i])
  }

  /** `!s.trim()` holds exactly for the blank lines. */
  lemma TrimEmptyIffBlank(s: string)
    ensures Trim(s) == "" <==> IsBlank(s)
  {
    var t := TrimStart(s);
    assert t != [] ==> t[0] == s[|s| - |t|];
  }

  /** `s.toLowerCase() === 'clear'`. */
  predicate IsClearCommand(s: string) {
    ToLower(s) == "clear"
  }

  /** The clear command is the word `clear` in any mix of letter cases, and nothing else. */
  lemma ClearCommandSpellings(s: string)
    ensures IsClearCommand(s) <==>
      |s| == 5 && forall i :: 0 <= i < 5 ==> s[i] == "clear"[i] || s[i] == "CLEAR"[i]
  {
    ToLowerMatchesName(s, "clear");
  }

  /** `s.slice(0, i) + t + s.slice(i)`. */
  function Splice(s: string, i: nat, t: string): (r: string)
    requires i <= |s|
    ensures |r| == |s| + |t|
    ensures r[..i] == s[..i] && r[i..i + |t|] == t && r[i + |t|..] == s[i..]
  {
    s[..i] + t + s[i..]
  }

  /** `s.slice(0, i) + s.slice(i + 1)`. */
  function RemoveAt(s: string, i: nat): (r: string)
    requires i < |s|
    ensures |r| == |s| - 1
    ensures r[..i] == s[..i] && r[i..] == s[i + 1..]
  {
    s[..i] + s[i + 1..]
  }

  /** Removing the character just typed gives back the line as it was. */
  lemma RemoveUndoesInsert(s: string, i: nat, c: char)
    requires i <= |s|
    ensures RemoveAt(Splice(s, i, [c]), i) == s
  {
  }

  const Cr: char := '\r'
  const Del: char := '\U{007F}'
  const Esc: char := '\U{001B}'
  const DeleteSequence: string := [Esc, '[', '3', '~']
  const UpSequence: string := [Esc, '[', 'A']
  const DownSequence: string := [Esc, '[', 'B']
  const RightSequence: string := [Esc, '[', 'C']
  const LeftSequence: string := [Esc, '[', 'D']

  /** What an `onData` chunk stands for. */
  datatype Key =
    | Enter
    | Backspace
    | Delete
    | ArrowUp
    | ArrowDown
    | ArrowLeft
    | ArrowRight
    | OtherEscape
    | Printable(text: string)

  /** The order of tests in the `onData` handler: first code unit 13, first code unit 127, the Delete sequence, first code unit 27, text. */
  function Classify(data: string): (k: Key)
    requires |data| > 0
    ensures k == Enter <==> data[0] == Cr
    ensures k == Backspace <==> data[0] == Del
    ensures k == Delete <==> data == DeleteSequence
    ensures k.Printable? <==> data[0] != Cr && data[0] != Del && data[0] != Esc
    ensures k.Printable? ==> k.text == data
    ensures k == ArrowUp <==> data == UpSequence
    ensures k == ArrowDown <==> data == DownSequence
    ensures k == ArrowLeft <==> data == LeftSequence
    ensures k == ArrowRight <==> data == RightSequence
  {
    if data[0] == Cr then Enter
    else if data[0] == Del then Backspace
    else if data == DeleteSequence then Delete
    else if data[0] == Esc then
      if data == UpSequence then ArrowUp
      else if data == DownSequence then ArrowDown
      else if data == LeftSequence then ArrowLeft
      else if data == RightSequence then ArrowRight
      else OtherEscape
    else Printable(data)
  }

  class LineEditor {
    var currentCommand: string
    var cursorPosition: int
    var commandHistory: seq<string>
    var historyIndex: int
    var isComposing: bool

    /** The cursor stays inside the line and the history index one step outside the history at most. */
    ghost predicate Valid()
      reads this
    {
      && 0 <= cursorPosition <= |currentCommand|
      && -1 <= historyIndex <= |commandHistory|
    }

    constructor ()
      ensures Valid()
      ensures currentCommand == "" && cursorPosition == 0
      ensures commandHistory == [] && historyIndex == -1 && !isComposing
    {
      currentCommand := "";
      cursorPosition := 0;
      commandHistory := [];
      historyIndex := -1;
      isComposing := false;
    }

    /** Typed or pasted text goes in at the cursor, and the cursor moves past it. */
    method InsertText(data: string)
      requires Valid() && |data| > 0
      modifies this
      ensures Valid()
      ensures currentCommand == Splice(old(currentCommand), old(cursorPosition), data)
      ensures cursorPosition == old(cursorPosition) + |data|
      ensures commandHistory == old(commandHistory) && historyIndex == old(historyIndex)
      ensures isComposing == old(isComposing)
    {
      if |data| > 1 {
        currentCommand := currentCommand[..cursorPosition] + data + currentCommand[cursorPosition..];
        cursorPosition := cursorPosition + |data|;
      } else {
        currentCommand := currentCommand[..cursorPosition] + data + currentCommand[cursorPosition..];
        cursorPosition := cursorPosition + 1;
      }
    }

    /** Backspace removes the character before the cursor; at the start of the line it does nothing. */
    method Backspace()
      requires Valid()
      modifies this
      ensures Valid()
      ensures old(cursorPosition) > 0 ==>
        currentCommand == RemoveAt(old(currentCommand), old(cursorPosition) - 1) &&
        cursorPosition == old(cursorPosition) - 1
      ensures old(cursorPosition) == 0 ==> currentCommand == old(currentCommand) && cursorPosition == 0
      ensures commandHistory == old(commandHistory) && historyIndex == old(historyIndex)
      ensures isComposing == old(isComposing)
    {
      if cursorPosition > 0 {
        currentCommand := currentCommand[..cursorPosition - 1] + currentCommand[cursorPosition..];
        cursorPosition := cursorPosition - 1;
      }
    }

    /** Delete removes the character under the cursor; at the end of the line it does nothing. */
    method Delete()
      requires Valid()
      modifies this
      ensures Valid()
      ensures old(cursorPosition) < |old(currentCommand)| ==>
        currentCommand == RemoveAt(old(currentCommand), old(cursorPosition))
      ensures old(cursorPosition) == |old(currentCommand)| ==> currentCommand == old(currentCommand)
      ensures cursorPosition == old(cursorPosition)
      ensures commandHistory == old(commandHistory) && historyIndex == old(historyIndex)
      ensures isComposing == old(isComposing)
    {
      if cursorPosition < |currentCommand| {
        currentCommand := currentCommand[..cursorPosition] + currentCommand[cursorPosition + 1..];
      }
    }

    /** Up recalls the previous history entry, if there is one before the current index. */
    method ArrowUp()
      requires Valid()
      modifies this
      ensures Valid()
      ensures commandHistory == old(commandHistory) && isComposing == old(isComposing)
      ensures old(historyIndex) > 0 ==>
        historyIndex == old(historyIndex) - 1 &&
        currentCommand == commandHistory[historyIndex] &&
        cursorPosition == |currentCommand|
      ensures old(historyIndex) <= 0 ==>
        historyIndex == old(historyIndex) &&
        currentCommand == old(currentCommand) && cursorPosition == old(cursorPosition)
    {
      if historyIndex > 0 {
        historyIndex := historyIndex - 1;
        currentCommand := commandHistory[historyIndex];
        cursorPosition := |currentCommand|;
      }
    }

    /** Down recalls the next history entry; past the last one it leaves an empty line. */
    method ArrowDown()
      requires Valid()
      modifies this
      ensures Valid()
      ensures commandHistory == old(commandHistory) && isComposing == old(isComposing)
      ensures old(historyIndex) < |commandHistory| - 1 ==>
        historyIndex == old(historyIndex) + 1 &&
        currentCommand == commandHistory[historyIndex] &&
        cursorPosition == |currentCommand|
      ensures old(historyIndex) >= |commandHistory| - 1 ==>
        historyIndex == |commandHistory| && currentCommand == "" && cursorPosition == 0
    {
      if historyIndex < |commandHistory| - 1 {
        historyIndex := historyIndex + 1;
        currentCommand := commandHistory[historyIndex];
        cursorPosition := |currentCommand|;
      } else {
        historyIndex := |commandHistory|;
        currentCommand := "";
        cursorPosition := 0;
      }
    }

    /** Left moves the cursor one place back, never before the start. */
    method ArrowLeft()
      requires Valid()
      modifies this
      ensures Valid()
      ensures cursorPosition == if old(cursorPosition) > 0 then old(cursorPosition) - 1 else 0
      ensures currentCommand == old(currentCommand)
      ensures commandHistory == old(commandHistory) && historyIndex == old(historyIndex)
      ensures isComposing == old(isComposing)
    {
      if cursorPosition > 0 {
        cursorPosition := cursorPosition - 1;
      }
    }

    /** Right moves the cursor one place on, never past the end of the line. */
    method ArrowRight()
      requires Valid()
      modifies this
      ensures Valid()
      ensures cursorPosition == if old(cursorPosition) < |old(currentCommand)| then old(cursorPosition) + 1 else old(cursorPosition)
      ensures currentCommand == old(currentCommand)
      ensures commandHistory == old(commandHistory) && historyIndex == old(historyIndex)
      ensures isComposing == old(isComposing)
    {
      if cursorPosition < |currentCommand| {
        cursorPosition := cursorPosition + 1;
      }
    }

    /**
     * The part of `executeCommand` that runs before its first `await`: a
     * blank line does nothing, `clear` (in any letter case) empties the
     * history; anything else goes to the callback, which is not modelled.
     */
    method ExecuteCommand(command: string)
      requires Valid()
      modifies this
      ensures Valid()
      ensures !IsBlank(command) && IsClearCommand(command) ==> commandHistory == [] && historyIndex == -1
      ensures IsBlank(command) || !IsClearCommand(command) ==>
        commandHistory == old(commandHistory) && historyIndex == old(historyIndex)
      ensures currentCommand == old(currentCommand) && cursorPosition == old(cursorPosition)
      ensures isComposing == old(isComposing)
    {
      if IsBlank(command) {
        return;
      }
      if IsClearCommand(command) {
        commandHistory := [];
        historyIndex := -1;
        return;
      }
    }

    /**
     * Enter records a non-blank line in the history and runs it, then starts
     * an empty line. A `clear` line is recorded and at once wiped with the
     * rest of the history.
     */
    method Enter()
      requires Valid()
      modifies this
      ensures Valid()
      ensures currentCommand == "" && cursorPosition == 0
      ensures IsBlank(old(currentCommand)) ==>
        commandHistory == old(commandHistory) && historyIndex == old(historyIndex)
      ensures !IsBlank(old(currentCommand)) && !IsClearCommand(old(currentCommand)) ==>
        commandHistory == old(commandHistory) + [old(currentCommand)] && historyIndex == |commandHistory|
      ensures !IsBlank(old(currentCommand)) && IsClearCommand(old(currentCommand)) ==>
        commandHistory == [] && historyIndex == -1
      ensures isComposing == old(isComposing)
    {
      if !IsBlank(currentCommand) {
        commandHistory := commandHistory + [currentCommand];
        historyIndex := |commandHistory|;
        ExecuteCommand(currentCommand);
      }
      currentCommand := "";
      cursorPosition := 0;
    }

    /** `compositionstart`: an input method starts composing. */
    method CompositionStart()
      requires Valid()
      modifies this
      ensures Valid() && isComposing
      ensures currentCommand == old(currentCommand) && cursorPosition == old(cursorPosition)
      ensures commandHistory == old(commandHistory) && historyIndex == old(historyIndex)
    {
      isComposing := true;
    }

    /** `compositionend`: composing stops and the composed text, if any, goes in at the cursor. */
    method CompositionEnd(text: string)
      requires Valid()
      modifies this
      ensures Valid() && !isComposing
      ensures currentCommand == Splice(old(currentCommand), old(cursorPosition), text)
      ensures cursorPosition == old(cursorPosition) + |text|
      ensures commandHistory == old(commandHistory) && historyIndex == old(historyIndex)
    {
      isComposing := false;
      if text != "" {
        currentCommand := currentCommand[..cursorPosition] + text + currentCommand[cursorPosition..];
        cursorPosition := cursorPosition + |text|;
      }
    }

    /** The `onData` handler: ignored while composing, otherwise one key's effect. */
    method OnData(data: string)
      requires Valid() && |data| > 0
      modifies this
      ensures Valid()
      ensures old(isComposing) ==> unchanged(this)
      ensures isComposing == old(isComposing)
      ensures !Classify(data).Enter? ==> commandHistory == old(commandHistory)
      ensures !old(isComposing) ==>
        match Classify(data)
        case Enter =>
          && currentCommand == "" && cursorPosition == 0
          && (IsBlank(old(currentCommand)) ==>
                commandHistory == old(commandHistory) && historyIndex == old(historyIndex))
          && (!IsBlank(old(currentCommand)) && !IsClearCommand(old(currentCommand)) ==>
                commandHistory == old(commandHistory) + [old(currentCommand)] && historyIndex == |commandHistory|)
          && (!IsBlank(old(currentCommand)) && IsClearCommand(old(currentCommand)) ==>
                commandHistory == [] && historyIndex == -1)
        case Backspace =>
          && historyIndex == old(historyIndex)
          && (old(cursorPosition) > 0 ==>
                currentCommand == RemoveAt(old(currentCommand), old(cursorPosition) - 1) &&
                cursorPosition == old(cursorPosition) - 1)
          && (old(cursorPosition) == 0 ==> currentCommand == old(currentCommand) && cursorPosition == 0)
        case Delete =>
          && historyIndex == old(historyIndex) && cursorPosition == old(cursorPosition)
          && (old(cursorPosition) < |old(currentCommand)| ==>
                currentCommand == RemoveAt(old(currentCommand), old(cursorPosition)))
          && (old(cursorPosition) == |old(currentCommand)| ==> currentCommand == old(currentCommand))
        case ArrowUp =>
          && (old(historyIndex) > 0 ==>
                historyIndex == old(historyIndex) - 1 &&
                currentCommand == old(commandHistory)[old(historyIndex) - 1] &&
                cursorPosition == |currentCommand|)
          && (old(historyIndex) <= 0 ==>
                historyIndex == old(historyIndex) &&
                currentCommand == old(currentCommand) && cursorPosition == old(cursorPosition))
        case ArrowDown =>
          && (old(historyIndex) < |old(commandHistory)| - 1 ==>
                historyIndex == old(historyIndex) + 1 &&
                currentCommand == old(commandHistory)[old(historyIndex) + 1] &&
                cursorPosition == |currentCommand|)
          && (old(historyIndex) >= |old(commandHistory)| - 1 ==>
                historyIndex == |old(commandHistory)| && currentCommand == "" && cursorPosition == 0)
        case ArrowLeft =>
          && currentCommand == old(currentCommand) && historyIndex == old(historyIndex)
          && cursorPosition == if old(cursorPosition) > 0 then old(cursorPosition) - 1 else 0
        case ArrowRight =>
          && currentCommand == old(currentCommand) && historyIndex == old(historyIndex)
          && cursorPosition ==
               if old(cursorPosition) < |old(currentCommand)| then old(cursorPosition) + 1 else old(cursorPosition)
        case OtherEscape =>
          unchanged(this)
        case Printable(text) =>
          && currentCommand == Splice(old(currentCommand), old(cursorPosition), data)
          && cursorPosition == old(cursorPosition) + |data|
          && historyIndex == old(historyIndex)
    {
      if isComposing {
        return;
      }
      match Classify(data)
      case Enter => Enter();
      case Backspace => Backspace();
      case Delete => Delete();
      case ArrowUp => ArrowUp();
      case ArrowDown => ArrowDown();
      case ArrowLeft => ArrowLeft();
      case ArrowRight => ArrowRight();
      case OtherEscape =>
      case Printable(text) => InsertText(text);
    }
  }
}
