/**
 * The line editor of the calculator's prompt, as a pure state machine.
 *
 * One editing round owns a cursor position, the index of the line in view and
 * a private draft; it borrows the history of committed lines read-only.  The
 * line in view is history[linePos] while linePos < |history|, and the draft
 * when linePos == |history|.  Every edit first copies the recalled entry into
 * the draft ("fork on write"), so history entries are never changed.
 *
 * These functions are the specification that the KeyHandler and LinesIter
 * classes of module Prompt are proved against.
 */
module Editor {
  import opened Ascii

  /** A key event as the terminal library decodes it. */
  datatype Key =
    | Char(c: char)
    | Alt(c: char)
    | Ctrl(c: char)
    | Backspace | Left | Right | Up | Down
    | Home | End | PageUp | PageDown | BackTab | Delete | Insert
    | F(n: nat)
    | Null | Esc

  /** Enter arrives as the character line feed. */
  predicate IsCommit(key: Key) {
    key == Char('\n')
  }

  /** The per-round state of KeyHandler: cursor_pos, line_pos and input. */
  datatype EditState = EditState(cursorPos: nat, linePos: nat, input: string)

  /** The line the user sees: the recalled entry, or the draft once linePos == |history|. */
  function DisplayedLine(history: seq<string>, s: EditState): string {
    if s.linePos < |history| then history[s.linePos] else s.input
  }

  /** True when the draft, not a history entry, is in view. */
  predicate InDraft(history: seq<string>, s: EditState) {
    s.linePos == |history|
  }

  /** The invariant every handler keeps: it is what keeps every insert, remove and range delete in bounds. */
  predicate Valid(history: seq<string>, s: EditState) {
    s.linePos <= |history| && s.cursorPos <= |DisplayedLine(history, s)|
  }

  /** The state a round starts in: the empty draft in view, cursor at column 0. */
  function Initial(history: seq<string>): (s: EditState)
    ensures Valid(history, s) && InDraft(history, s)
    ensures DisplayedLine(history, s) == "" && s.cursorPos == 0
  {
    EditState(0, |history|, "")
  }

  function Min(a: nat, b: nat): nat {
    if a <= b then a else b
  }

  // ---------------------------------------------------------------------------
  // Fork on write

  /**
   * prepare_for_edit: the line in view becomes the draft.  What is displayed
   * and where the cursor is do not change; a draft already in view is kept.
   */
  function Fork(history: seq<string>, s: EditState): (r: EditState)
    requires Valid(history, s)
    ensures Valid(history, r) && InDraft(history, r)
    ensures r.input == DisplayedLine(history, s) && r.cursorPos == s.cursorPos
    ensures InDraft(history, s) ==> r == s
  {
    if s.linePos < |history| then EditState(s.cursorPos, |history|, history[s.linePos]) else s
  }

  // ---------------------------------------------------------------------------
  // Word boundaries

  /** Position k starts a word: a non-alphanumeric character, then an alphanumeric one at k. */
  predicate IsWordStart(line: string, k: int)
    requires 0 < k < |line|
  {
    !IsAlphanumeric(line[k - 1]) && IsAlphanumeric(line[k])
  }

  /** Position k ends a word: an alphanumeric character, then a non-alphanumeric one at k. */
  predicate IsWordEnd(line: string, k: int)
    requires 0 < k < |line|
  {
    IsAlphanumeric(line[k - 1]) && !IsAlphanumeric(line[k])
  }

  /** The greatest position b <= k that is 0 or a word start. */
  function LastWordStart(line: string, k: nat): (b: nat)
    requires k < |line|
    ensures b <= k
    ensures b == 0 || IsWordStart(line, b)
    ensures forall j :: b < j <= k ==> !IsWordStart(line, j)
  {
    if k == 0 || IsWordStart(line, k) then k else LastWordStart(line, k - 1)
  }

  /** The least position e >= k that is the end of the line or a word end. */
  function FirstWordEnd(line: string, k: nat): (e: nat)
    requires 0 < k <= |line|
    ensures k <= e <= |line|
    ensures e == |line| || IsWordEnd(line, e)
    ensures forall j :: k <= j < e ==> !IsWordEnd(line, j)
    decreases |line| - k
  {
    if k == |line| || IsWordEnd(line, k) then k else FirstWordEnd(line, k + 1)
  }

  /**
   * Where word-left lands from the cursor: the start of the word the cursor is
   * in or after, strictly left of a cursor that is not at column 0.
   */
  function WordLeftBoundary(line: string, cursor: nat): (b: nat)
    requires cursor <= |line|
    ensures cursor == 0 ==> b == 0
    ensures cursor > 0 ==> b < cursor
    ensures b == 0 || IsWordStart(line, b)
    ensures forall j :: b < j < cursor ==> !IsWordStart(line, j)
  {
    if cursor == 0 then 0 else LastWordStart(line, cursor - 1)
  }

  /**
   * Where word-right lands from the cursor: the end of the next word, strictly
   * right of a cursor that is not at the end of the line, or the end of the line.
   */
  function WordRightBoundary(line: string, cursor: nat): (e: nat)
    requires cursor <= |line|
    ensures cursor <= e <= |line|
    ensures cursor < |line| ==> cursor < e
    ensures e == |line| || IsWordEnd(line, e)
    ensures forall j :: cursor < j < e ==> !IsWordEnd(line, j)
  {
    if cursor == |line| then cursor else FirstWordEnd(line, cursor + 1)
  }

  // ---------------------------------------------------------------------------
  // The handlers, one per key binding

  /** handle_char: fork, insert c at the cursor, move the cursor past it. */
  function InsertChar(history: seq<string>, s: EditState, c: char): (r: EditState)
    requires Valid(history, s)
    ensures Valid(history, r) && InDraft(history, r)
    ensures var line := DisplayedLine(history, s);
      r.input == line[..s.cursorPos] + [c] + line[s.cursorPos..] && r.cursorPos == s.cursorPos + 1
  {
    var f := Fork(history, s);
    EditState(f.cursorPos + 1, f.linePos, f.input[..f.cursorPos] + [c] + f.input[f.cursorPos..])
  }

  /** handle_backspace: fork even at column 0; elsewhere remove the character left of the cursor. */
  function DeleteBefore(history: seq<string>, s: EditState): (r: EditState)
    requires Valid(history, s)
    ensures Valid(history, r) && InDraft(history, r)
    ensures var line := DisplayedLine(history, s);
      s.cursorPos > 0 ==> r.input == line[..s.cursorPos - 1] + line[s.cursorPos..] && r.cursorPos == s.cursorPos - 1
    ensures s.cursorPos == 0 ==> r == Fork(history, s)
  {
    var f := Fork(history, s);
    if f.cursorPos > 0 then
      EditState(f.cursorPos - 1, f.linePos, f.input[..f.cursorPos - 1] + f.input[f.cursorPos..])
    else
      f
  }

  /** handle_left: one column left, stopping at 0. */
  function MoveLeft(history: seq<string>, s: EditState): (r: EditState)
    requires Valid(history, s)
    ensures Valid(history, r) && r.linePos == s.linePos && r.input == s.input
    ensures r.cursorPos == if s.cursorPos == 0 then 0 else s.cursorPos - 1
  {
    if s.cursorPos > 0 then s.(cursorPos := s.cursorPos - 1) else s
  }

  /** handle_right: one column right, stopping at the end of the line in view. */
  function MoveRight(history: seq<string>, s: EditState): (r: EditState)
    requires Valid(history, s)
    ensures Valid(history, r) && r.linePos == s.linePos && r.input == s.input
    ensures r.cursorPos == Min(s.cursorPos + 1, |DisplayedLine(history, s)|)
  {
    if s.cursorPos < |DisplayedLine(history, s)| then s.(cursorPos := s.cursorPos + 1) else s
  }

  /**
   * The cursor rule of handle_up and handle_down when the view moves to line
   * `to`: a cursor at the end of the old line goes to the end of the new one,
   * any other cursor keeps its column as far as the new line allows.
   */
  function Recall(history: seq<string>, s: EditState, to: nat): (r: EditState)
    requires Valid(history, s) && to <= |history|
    ensures Valid(history, r) && r.linePos == to && r.input == s.input
    ensures s.cursorPos == |DisplayedLine(history, s)| ==> r.cursorPos == |DisplayedLine(history, r)|
    ensures s.cursorPos < |DisplayedLine(history, s)| ==> r.cursorPos == Min(s.cursorPos, |DisplayedLine(history, r)|)
  {
    var prevLen := |DisplayedLine(history, s)|;
    var currLen := |DisplayedLine(history, s.(linePos := to))|;
    EditState(if s.cursorPos == prevLen || s.cursorPos > currLen then currLen else s.cursorPos, to, s.input)
  }

  /** handle_up: view the previous entry; nothing happens at the oldest one. */
  function RecallUp(history: seq<string>, s: EditState): (r: EditState)
    requires Valid(history, s)
    ensures Valid(history, r) && r.input == s.input
    ensures s.linePos == 0 ==> r == s
    ensures s.linePos > 0 ==> r == Recall(history, s, s.linePos - 1)
  {
    if s.linePos > 0 then Recall(history, s, s.linePos - 1) else s
  }

  /** handle_down: view the next entry or the draft; nothing happens when the draft is in view. */
  function RecallDown(history: seq<string>, s: EditState): (r: EditState)
    requires Valid(history, s)
    ensures Valid(history, r) && r.input == s.input
    ensures s.linePos == |history| ==> r == s
    ensures s.linePos < |history| ==> r == Recall(history, s, s.linePos + 1)
  {
    if s.linePos < |history| then Recall(history, s, s.linePos + 1) else s
  }

  /** handle_word_left: the cursor moves to the word-left boundary of the line in view. */
  function MoveWordLeft(history: seq<string>, s: EditState): (r: EditState)
    requires Valid(history, s)
    ensures Valid(history, r) && r.linePos == s.linePos && r.input == s.input
    ensures r.cursorPos == WordLeftBoundary(DisplayedLine(history, s), s.cursorPos)
  {
    s.(cursorPos := WordLeftBoundary(DisplayedLine(history, s), s.cursorPos))
  }

  /** handle_word_right: the cursor moves to the word-right boundary of the line in view. */
  function MoveWordRight(history: seq<string>, s: EditState): (r: EditState)
    requires Valid(history, s)
    ensures Valid(history, r) && r.linePos == s.linePos && r.input == s.input
    ensures r.cursorPos == WordRightBoundary(DisplayedLine(history, s), s.cursorPos)
  {
    s.(cursorPos := WordRightBoundary(DisplayedLine(history, s), s.cursorPos))
  }

  /** handle_line_left: column 0. */
  function MoveLineLeft(history: seq<string>, s: EditState): (r: EditState)
    requires Valid(history, s)
    ensures Valid(history, r) && r.linePos == s.linePos && r.input == s.input && r.cursorPos == 0
  {
    s.(cursorPos := 0)
  }

  /** handle_line_right: the end of the line in view. */
  function MoveLineRight(history: seq<string>, s: EditState): (r: EditState)
    requires Valid(history, s)
    ensures Valid(history, r) && r.linePos == s.linePos && r.input == s.input
    ensures r.cursorPos == |DisplayedLine(history, s)|
  {
    s.(cursorPos := |DisplayedLine(history, s)|)
  }

  /** handle_word_backspace: fork, then delete from the word-left boundary up to the cursor. */
  function DeleteWordBefore(history: seq<string>, s: EditState): (r: EditState)
    requires Valid(history, s)
    ensures Valid(history, r) && InDraft(history, r)
    ensures var line := DisplayedLine(history, s); var b := WordLeftBoundary(line, s.cursorPos);
      r.input == line[..b] + line[s.cursorPos..] && r.cursorPos == b
  {
    var f := Fork(history, s);
    var b := WordLeftBoundary(f.input, f.cursorPos);
    EditState(b, f.linePos, f.input[..b] + f.input[f.cursorPos..])
  }

  /** handle_line_backspace: fork, then delete everything left of the cursor. */
  function DeleteLineBefore(history: seq<string>, s: EditState): (r: EditState)
    requires Valid(history, s)
    ensures Valid(history, r) && InDraft(history, r)
    ensures r.input == DisplayedLine(history, s)[s.cursorPos..] && r.cursorPos == 0
  {
    var f := Fork(history, s);
    EditState(0, f.linePos, f.input[f.cursorPos..])
  }

  // ---------------------------------------------------------------------------
  // Key dispatch and commit

  /** The keys that have no binding: they leave the state exactly as it was. */
  predicate IsUnbound(key: Key) {
    match key
    case Char(c) => !IsAscii(c)
    case Alt(c) => c != 'b' && c != 'f'
    case Ctrl(c) => c != 'a' && c != 'e' && c != 'w' && c != 'u'
    case Backspace => false
    case Left => false
    case Right => false
    case Up => false
    case Down => false
    case _ => true
  }

  /** The dispatch of one key other than Enter (LinesIter::next's match). */
  function Step(history: seq<string>, s: EditState, key: Key): (r: EditState)
    requires Valid(history, s) && !IsCommit(key)
    ensures Valid(history, r)
    ensures IsUnbound(key) ==> r == s
  {
    match key
    case Char(c) => if IsAscii(c) then InsertChar(history, s, c) else s
    case Backspace => DeleteBefore(history, s)
    case Left => MoveLeft(history, s)
    case Right => MoveRight(history, s)
    case Up => RecallUp(history, s)
    case Down => RecallDown(history, s)
    case Alt(c) =>
      if c == 'b' then MoveWordLeft(history, s)
      else if c == 'f' then MoveWordRight(history, s)
      else s
    case Ctrl(c) =>
      if c == 'a' then MoveLineLeft(history, s)
      else if c == 'e' then MoveLineRight(history, s)
      else if c == 'w' then DeleteWordBefore(history, s)
      else if c == 'u' then DeleteLineBefore(history, s)
      else s
    case _ => s
  }

  /** How a round ends: a committed line with the new history and the keys not yet read, or the end of the key stream. */
  datatype RoundEnd = Committed(line: string, history: seq<string>, rest: seq<Key>) | EndOfInput

  /** Enter: a draft in view is appended to history and returned; a recalled entry is returned as it is. */
  function Commit(history: seq<string>, s: EditState, rest: seq<Key>): (r: RoundEnd)
    requires Valid(history, s)
    ensures r.Committed? && r.rest == rest && r.line == DisplayedLine(history, s)
    ensures InDraft(history, s) ==> r.history == history + [s.input]
    ensures !InDraft(history, s) ==> r.history == history
  {
    if s.linePos == |history| then Committed(s.input, history + [s.input], rest)
    else Committed(history[s.linePos], history, rest)
  }

  /** Reads keys one at a time from state s until Enter or the end of the stream. */
  function RunKeys(history: seq<string>, s: EditState, keys: seq<Key>): RoundEnd
    requires Valid(history, s)
    decreases |keys|
  {
    if keys == [] then EndOfInput
    else if IsCommit(keys[0]) then Commit(history, s, keys[1..])
    else RunKeys(history, Step(history, s, keys[0]), keys[1..])
  }

  /** One round of LinesIter::next: a fresh state, then keys until Enter or the end of the stream. */
  function Round(history: seq<string>, keys: seq<Key>): RoundEnd {
    RunKeys(history, Initial(history), keys)
  }
}

/** What the editor's spec functions promise over whole key sequences. */
module EditorProps {
  import opened Ascii
  import opened Editor

  /** The navigation keys: cursor moves and history recall, which never fork. */
  predicate IsNavigation(key: Key) {
    key in {Left, Right, Up, Down, Alt('b'), Alt('f'), Ctrl('a'), Ctrl('e')}
  }

  /** Navigation never touches the draft, only the cursor and the line in view. */
  lemma NavigationKeepsDraft(history: seq<string>, s: EditState, key: Key)
    requires Valid(history, s) && IsNavigation(key)
    ensures Step(history, s, key).input == s.input
    ensures key !in {Up, Down} ==> Step(history, s, key).linePos == s.linePos
  {
  }

  /** Every edit key forks: afterwards the draft is in view. */
  lemma EditsFork(history: seq<string>, s: EditState, key: Key)
    requires Valid(history, s) && key in {Backspace, Ctrl('w'), Ctrl('u')}
    ensures InDraft(history, Step(history, s, key))
  {
  }

  /** The word-left boundary is the only position with its three defining properties. */
  lemma WordLeftBoundaryUnique(line: string, cursor: nat, b: nat)
    requires cursor <= |line|
    requires (cursor == 0 && b == 0) || b < cursor
    requires b == 0 || IsWordStart(line, b)
    requires forall j :: b < j < cursor ==> !IsWordStart(line, j)
    ensures b == WordLeftBoundary(line, cursor)
  {
  }

  /** The word-right boundary is the only position with its three defining properties. */
  lemma WordRightBoundaryUnique(line: string, cursor: nat, e: nat)
    requires cursor <= e <= |line|
    requires cursor < |line| ==> cursor < e
    requires e == |line| || IsWordEnd(line, e)
    requires forall j :: cursor < j < e ==> !IsWordEnd(line, j)
    ensures e == WordRightBoundary(line, cursor)
  {
  }

  /** A round commits at the first Enter and leaves exactly the keys after it unread. */
  lemma {:induction false} RunKeysStopsAtFirstEnter(history: seq<string>, s: EditState, keys: seq<Key>, n: nat)
    requires Valid(history, s)
    requires n < |keys| && IsCommit(keys[n])
    requires forall j :: 0 <= j < n ==> !IsCommit(keys[j])
    ensures RunKeys(history, s, keys).Committed?
    ensures RunKeys(history, s, keys).rest == keys[n + 1..]
    decreases n
  {
    if n > 0 {
      RunKeysStopsAtFirstEnter(history, Step(history, s, keys[0]), keys[1..], n - 1);
      assert keys[1..][n..] == keys[n + 1..];
    }
  }

  /**
   * A commit appends the draft, or returns a recalled entry and leaves history
   * alone; either way the old entries are a prefix of the new history.
   */
  lemma {:induction false} RunKeysHistory(history: seq<string>, s: EditState, keys: seq<Key>)
    requires Valid(history, s)
    ensures var r := RunKeys(history, s, keys);
      r.Committed? ==>
        (r.history == history + [r.line] || (r.history == history && r.line in history))
        && history <= r.history
    decreases |keys|
  {
    if keys != [] && !IsCommit(keys[0]) {
      RunKeysHistory(history, Step(history, s, keys[0]), keys[1..]);
    }
  }

  /** A round ends without a commit exactly when no Enter is among the keys. */
  lemma {:induction false} RunKeysEndsIffNoEnter(history: seq<string>, s: EditState, keys: seq<Key>)
    requires Valid(history, s)
    ensures RunKeys(history, s, keys).EndOfInput? <==> forall j :: 0 <= j < |keys| ==> !IsCommit(keys[j])
    decreases |keys|
  {
    if keys != [] && !IsCommit(keys[0]) {
      RunKeysEndsIffNoEnter(history, Step(history, s, keys[0]), keys[1..]);
      assert forall j :: 1 <= j < |keys| ==> keys[j] == keys[1..][j - 1];
    }
  }

  /** The lemmas above for a whole round, which starts from the empty draft. */
  lemma RoundOutcome(history: seq<string>, keys: seq<Key>)
    ensures Round(history, keys).EndOfInput? <==> forall j :: 0 <= j < |keys| ==> !IsCommit(keys[j])
    ensures var r := Round(history, keys);
      r.Committed? ==>
        (r.history == history + [r.line] || (r.history == history && r.line in history))
        && history <= r.history
  {
    RunKeysEndsIffNoEnter(history, Initial(history), keys);
    RunKeysHistory(history, Initial(history), keys);
  }
}
