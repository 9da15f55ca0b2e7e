/**
 * The prompt's objects: KeyHandler (one editing round), Prompter (the prompt
 * text and the history it owns) and LinesIter (the iterator that turns the key
 * stream into committed lines).  Each method is proved to leave exactly the
 * state that the matching function of module Editor computes.
 *
 * Writing to the terminal (set_input_state, write) is not modelled; the key
 * stream is a sequence that Next consumes from the front.
 */
module Prompt {
  import opened Wrappers
  import opened Ascii
  import opened Editor
  import EditorProps

  /**
   * The reversed scan of handle_word_left and handle_word_backspace: walk left
   * from the cursor, remember when an alphanumeric character was passed, and
   * stop just right of the first non-alphanumeric one after it.
   */
  method ScanWordLeft(line: string, cursor: nat) returns (b: nat)
    requires cursor <= |line|
    ensures b == WordLeftBoundary(line, cursor)
  {
    var inWord := false;
    var i: nat := cursor;
    while i > 0
      invariant i <= cursor
      invariant inWord ==> i < cursor && IsAlphanumeric(line[i])
      invariant !inWord ==> forall k :: i <= k < cursor ==> !IsAlphanumeric(line[k])
      invariant forall j :: i < j < cursor ==> !IsWordStart(line, j)
    {
      i := i - 1;
      if IsAlphanumeric(line[i]) {
        inWord := true;
      } else if inWord {
        EditorProps.WordLeftBoundaryUnique(line, cursor, i + 1);
        return i + 1;
      }
    }
    EditorProps.WordLeftBoundaryUnique(line, cursor, 0);
    return 0;
  }

  /**
   * The forward scan of handle_word_right: walk right from the cursor, remember
   * when an alphanumeric character was passed, and stop at the first
   * non-alphanumeric one after it; the end of the line otherwise.
   */
  method ScanWordRight(line: string, cursor: nat) returns (e: nat)
    requires cursor <= |line|
    ensures e == WordRightBoundary(line, cursor)
  {
    var inWord := false;
    var i := cursor;
    while i < |line|
      invariant cursor <= i <= |line|
      invariant inWord ==> cursor < i && IsAlphanumeric(line[i - 1])
      invariant !inWord ==> forall k :: cursor <= k < i ==> !IsAlphanumeric(line[k])
      invariant forall j :: cursor < j < i ==> !IsWordEnd(line, j)
    {
      if IsAlphanumeric(line[i]) {
        inWord := true;
      } else if inWord {
        EditorProps.WordRightBoundaryUnique(line, cursor, i);
        return i;
      }
      i := i + 1;
    }
    EditorProps.WordRightBoundaryUnique(line, cursor, |line|);
    return |line|;
  }

  /** The state of one editing round; it reads the history it is given and never changes it. */
  class KeyHandler {
    var cursorPos: nat
    var linePos: nat
    var input: string
    const history: seq<string>

    /** The fields as a value of the editor's state machine. */
    function State(): EditState
      reads this
    {
      EditState(cursorPos, linePos, input)
    }

    ghost predicate Valid()
      reads this
    {
      Editor.Valid(history, State())
    }

    /** new: cursor at 0, the (empty) draft in view. */
    constructor(history: seq<string>)
      ensures this.history == history && State() == Initial(history) && Valid()
    {
      cursorPos := 0;
      linePos := |history|;
      input := "";
      this.history := history;
    }

    /** get_displayed_line: the entry at linePos when there is one, the draft otherwise. */
    function GetDisplayedLine(): (line: string)
      reads this
      ensures linePos < |history| ==> line == history[linePos]
      ensures linePos >= |history| ==> line == input
      ensures line == DisplayedLine(history, State())
    {
      if linePos < |history| then history[linePos] else input
    }

    method PrepareForEdit()
      requires Valid()
      modifies this
      ensures Valid() && State() == Fork(history, old(State()))
    {
      if linePos < |history| {
        input := history[linePos];
        linePos := |history|;
      }
    }

    method HandleChar(c: char)
      requires Valid()
      modifies this
      ensures Valid() && State() == InsertChar(history, old(State()), c)
    {
      PrepareForEdit();
      input := input[..cursorPos] + [c] + input[cursorPos..];
      cursorPos := cursorPos + 1;
    }

    method HandleBackspace()
      requires Valid()
      modifies this
      ensures Valid() && State() == DeleteBefore(history, old(State()))
    {
      PrepareForEdit();
      if cursorPos > 0 {
        cursorPos := cursorPos - 1;
        input := input[..cursorPos] + input[cursorPos + 1..];
      }
    }

    method HandleLeft()
      requires Valid()
      modifies this
      ensures Valid() && State() == MoveLeft(history, old(State()))
    {
      if cursorPos > 0 {
        cursorPos := cursorPos - 1;
      }
    }

    method HandleRight()
      requires Valid()
      modifies this
      ensures Valid() && State() == MoveRight(history, old(State()))
    {
      if cursorPos < |GetDisplayedLine()| {
        cursorPos := cursorPos + 1;
      }
    }

    method HandleUp()
      requires Valid()
      modifies this
      ensures Valid() && State() == RecallUp(history, old(State()))
    {
      if linePos > 0 {
        var prevLineLen := |GetDisplayedLine()|;
        linePos := linePos - 1;
        var currLineLen := |GetDisplayedLine()|;
        if cursorPos == prevLineLen || cursorPos > currLineLen {
          cursorPos := currLineLen;
        }
      }
    }

    method HandleDown()
      requires Valid()
      modifies this
      ensures Valid() && State() == RecallDown(history, old(State()))
    {
      if linePos < |history| {
        var prevLineLen := |GetDisplayedLine()|;
        linePos := linePos + 1;
        var currLineLen := |GetDisplayedLine()|;
        if cursorPos == prevLineLen || cursorPos > currLineLen {
          cursorPos := currLineLen;
        }
      }
    }

    method HandleWordLeft()
      requires Valid()
      modifies this
      ensures Valid() && State() == MoveWordLeft(history, old(State()))
    {
      cursorPos := ScanWordLeft(GetDisplayedLine(), cursorPos);
    }

    method HandleWordRight()
      requires Valid()
      modifies this
      ensures Valid() && State() == MoveWordRight(history, old(State()))
    {
      cursorPos := ScanWordRight(GetDisplayedLine(), cursorPos);
    }

    method HandleLineLeft()
      requires Valid()
      modifies this
      ensures Valid() && State() == MoveLineLeft(history, old(State()))
    {
      cursorPos := 0;
    }

    method HandleLineRight()
      requires Valid()
      modifies this
      ensures Valid() && State() == MoveLineRight(history, old(State()))
    {
      cursorPos := |GetDisplayedLine()|;
    }

    method HandleWordBackspace()
      requires Valid()
      modifies this
      ensures Valid() && State() == DeleteWordBefore(history, old(State()))
    {
      PrepareForEdit();
      var b := ScanWordLeft(input, cursorPos);
      input := input[..b] + input[cursorPos..];
      cursorPos := b;
    }

    method HandleLineBackspace()
      requires Valid()
      modifies this
      ensures Valid() && State() == DeleteLineBefore(history, old(State()))
    {
      PrepareForEdit();
      input := input[cursorPos..];
      cursorPos := 0;
    }

    /** The match of LinesIter::next on a key other than Enter; unbound keys change nothing. */
    method Dispatch(key: Key)
      requires Valid() && !IsCommit(key)
      modifies this
      ensures Valid() && State() == Step(history, old(State()), key)
    {
      match key {
        case Char(c) =>
          if IsAscii(c) {
            HandleChar(c);
          }
        case Backspace => HandleBackspace();
        case Left => HandleLeft();
        case Right => HandleRight();
        case Up => HandleUp();
        case Down => HandleDown();
        case Alt(c) =>
          if c == 'b' {
            HandleWordLeft();
          } else if c == 'f' {
            HandleWordRight();
          }
        case Ctrl(c) =>
          if c == 'a' {
            HandleLineLeft();
          } else if c == 'e' {
            HandleLineRight();
          } else if c == 'w' {
            HandleWordBackspace();
          } else if c == 'u' {
            HandleLineBackspace();
          }
        case _ =>
      }
    }
  }

  /** The prompt text and the history of committed lines, oldest first. */
  class Prompter {
    const prompt: string
    var history: seq<string>

    constructor()
      ensures prompt == "> " && history == []
    {
      prompt := "> ";
      history := [];
    }

    /** lines: an iterator over the lines committed from the given key stream. */
    method Lines(keys: seq<Key>) returns (it: LinesIter)
      ensures fresh(it) && it.prompter == this && it.keys == keys
    {
      it := new LinesIter(this, keys);
    }
  }

  /** The iterator over committed lines; it borrows the prompter mutably. */
  class LinesIter {
    const prompter: Prompter
    var keys: seq<Key>

    constructor(prompter: Prompter, keys: seq<Key>)
      ensures this.prompter == prompter && this.keys == keys
    {
      this.prompter := prompter;
      this.keys := keys;
    }

    /**
     * next: a fresh KeyHandler reads keys until Enter, which commits the line
     * in view, or until the stream ends, which yields None.
     */
    method Next() returns (line: Option<string>)
      modifies this, prompter
      ensures match Round(old(prompter.history), old(keys))
        case Committed(l, h, rest) => line == Some(l) && prompter.history == h && keys == rest
        case EndOfInput => line == None && prompter.history == old(prompter.history) && keys == []
    {
      ghost var h0 := prompter.history;
      ghost var k0 := keys;
      var handler := new KeyHandler(prompter.history);
      while true
        invariant fresh(handler)
        invariant prompter.history == h0 && handler.history == h0
        invariant handler.Valid()
        invariant RunKeys(h0, handler.State(), keys) == Round(h0, k0)
        decreases |keys|
      {
        if keys == [] {
          return None;
        }
        var key := keys[0];
        keys := keys[1..];
        if key == Char('\n') {
          var linePos := handler.linePos;
          if linePos == |prompter.history| {
            prompter.history := prompter.history + [handler.input];
          }
          return Some(prompter.history[linePos]);
        }
        handler.Dispatch(key);
      }
    }
  }
}
