/** Whole rounds: typing, recall, and the key sequences of the editor's documented scenarios. */
module EditorScenarios {
  import opened Ascii
  import opened Editor
  import EditorProps

  /** The keys a user types for the text s. */
  function Typed(s: string): (keys: seq<Key>)
    ensures |keys| == |s| && forall j :: 0 <= j < |s| ==> keys[j] == Char(s[j])
  {
    if s == [] then [] else [Char(s[0])] + Typed(s[1..])
  }

  /** n presses of the same key. */
  function Repeat(key: Key, n: nat): (keys: seq<Key>)
    ensures |keys| == n && forall j :: 0 <= j < n ==> keys[j] == key
  {
    if n == 0 then [] else [key] + Repeat(key, n - 1)
  }

  const Enter: Key := Char('\n')

  /** No key of the sequence is Enter. */
  predicate NoCommit(keys: seq<Key>) {
    forall j :: 0 <= j < |keys| ==> !IsCommit(keys[j])
  }

  /** The state after a sequence of keys none of which is Enter. */
  function Steps(h: seq<string>, s: EditState, keys: seq<Key>): (r: EditState)
    requires Valid(h, s) && NoCommit(keys)
    ensures Valid(h, r)
    decreases |keys|
  {
    if keys == [] then s else Steps(h, Step(h, s, keys[0]), keys[1..])
  }

  /** A round reads an Enter-free prefix key by key and goes on from the state it leaves. */
  lemma {:induction false} RunThrough(h: seq<string>, s: EditState, keys: seq<Key>, rest: seq<Key>)
    requires Valid(h, s) && NoCommit(keys)
    ensures RunKeys(h, s, keys + rest) == RunKeys(h, Steps(h, s, keys), rest)
    decreases |keys|
  {
    if keys == [] {
      assert keys + rest == rest;
    } else {
      assert (keys + rest)[0] == keys[0];
      assert (keys + rest)[1..] == keys[1..] + rest;
      RunThrough(h, Step(h, s, keys[0]), keys[1..], rest);
    }
  }

  /** One key other than Enter, read from the front of the stream. */
  lemma Feed(h: seq<string>, s: EditState, key: Key, rest: seq<Key>, next: EditState)
    requires Valid(h, s) && !IsCommit(key) && Step(h, s, key) == next
    ensures RunKeys(h, s, [key] + rest) == RunKeys(h, next, rest)
  {
    assert ([key] + rest)[1..] == rest;
  }

  /** An ASCII character typed at the end of the draft is appended to it. */
  lemma TypeAtEnd(h: seq<string>, d: string, c: char)
    requires IsAscii(c) && c != '\n'
    ensures Step(h, EditState(|d|, |h|, d), Char(c)) == EditState(|d| + 1, |h|, d + [c])
  {
    var s := EditState(|d|, |h|, d);
    assert d[..|d|] + [c] + d[|d|..] == d + [c];
    assert Step(h, s, Char(c)) == InsertChar(h, s, c);
  }

  lemma AppendFirst(d: string, text: string)
    requires text != []
    ensures d + [text[0]] + text[1..] == d + text
  {
    assert text == [text[0]] + text[1..];
  }

  /** Text without line feeds, all of it ASCII: what typing inserts character by character. */
  predicate Printable(text: string) {
    forall j :: 0 <= j < |text| ==> IsAscii(text[j]) && text[j] != '\n'
  }

  /** Typing printable text with the cursor at the end of the draft appends the text. */
  lemma {:induction false} TypingAppends(h: seq<string>, d: string, text: string)
    requires Printable(text)
    ensures NoCommit(Typed(text))
    ensures Steps(h, EditState(|d|, |h|, d), Typed(text)) == EditState(|d| + |text|, |h|, d + text)
    decreases |text|
  {
    if text == [] {
      assert d + text == d;
    } else {
      var c := text[0];
      TypeAtEnd(h, d, c);
      TypingAppends(h, d + [c], text[1..]);
      AppendFirst(d, text);
      assert Typed(text)[1..] == Typed(text[1..]);
    }
  }

  /** The state after recalling entry k from an untouched empty draft: cursor at the end of that entry. */
  function Recalled(h: seq<string>, k: nat): EditState
    requires k <= |h|
  {
    EditState(if k < |h| then |h[k]| else 0, k, "")
  }

  /** Each Up from the end of a recalled line lands at the end of the previous entry. */
  lemma {:induction false} UpsRecall(h: seq<string>, k: nat, n: nat)
    requires n <= k <= |h|
    ensures NoCommit(Repeat(Up, n))
    ensures Steps(h, Recalled(h, k), Repeat(Up, n)) == Recalled(h, k - n)
    decreases n
  {
    if n > 0 {
      assert Step(h, Recalled(h, k), Up) == Recalled(h, k - 1);
      assert Repeat(Up, n)[1..] == Repeat(Up, n - 1);
      UpsRecall(h, k - 1, n - 1);
    }
  }

  /**
   * Round trip: recalling an entry and committing it unedited returns that
   * entry and leaves history as it was (no duplicate is appended).
   */
  lemma RecallRoundTrip(h: seq<string>, n: nat)
    requires 1 <= n <= |h|
    ensures Round(h, Repeat(Up, n) + [Enter]) == Committed(h[|h| - n], h, [])
  {
    assert Initial(h) == Recalled(h, |h|);
    UpsRecall(h, |h|, n);
    RunThrough(h, Initial(h), Repeat(Up, n), [Enter]);
  }

  lemma EnterOnEmptyHistory()
    ensures Round([], [Enter]) == Committed("", [""], [])
  {
  }

  /** A round that starts by typing printable text continues from the draft holding exactly that text. */
  lemma TypeFirst(h: seq<string>, text: string, rest: seq<Key>)
    requires Printable(text)
    ensures Round(h, Typed(text) + rest) == RunKeys(h, EditState(|text|, |h|, text), rest)
  {
    var s0 := EditState(|""|, |h|, "");
    assert Initial(h) == s0;
    assert Steps(h, s0, Typed(text)) == EditState(|text|, |h|, text) by {
      TypingAppends(h, "", text);
      assert "" + text == text;
    }
    RunThrough(h, s0, Typed(text), rest);
  }

  /** Enter commits the line in view. */
  lemma EnterCommits(h: seq<string>, s: EditState, keys: seq<Key>)
    requires Valid(h, s) && keys != [] && keys[0] == Enter
    ensures RunKeys(h, s, keys) == Commit(h, s, keys[1..])
  {
  }

  /** The draft reached by typing printable text is a valid state. */
  lemma TypedValid(h: seq<string>, text: string)
    ensures Valid(h, EditState(|text|, |h|, text))
  {
  }

  /** Typing a line and pressing Enter appends it to history and returns it, leaving the keys after Enter unread. */
  lemma TypeAndCommit(h: seq<string>, text: string, rest: seq<Key>)
    requires Printable(text)
    ensures Round(h, Typed(text) + [Enter] + rest) == Committed(text, h + [text], rest)
  {
    assert Typed(text) + [Enter] + rest == Typed(text) + ([Enter] + rest);
    TypeFirst(h, text, [Enter] + rest);
    TypedValid(h, text);
    EnterCommits(h, EditState(|text|, |h|, text), [Enter] + rest);
    assert ([Enter] + rest)[1..] == rest;
  }

  /** Two rounds over one key stream: the first commits a, the second commits b after it. */
  lemma TwoRounds(h: seq<string>, a: string, b: string)
    requires Printable(a) && Printable(b)
    ensures Round(h, Typed(a) + [Enter] + (Typed(b) + [Enter]))
         == Committed(a, h + [a], Typed(b) + [Enter])
    ensures Round(h + [a], Typed(b) + [Enter]) == Committed(b, h + [a, b], [])
  {
    TypeAndCommit(h, a, Typed(b) + [Enter]);
    TypeAndCommit(h + [a], b, []);
    assert Typed(b) + [Enter] + [] == Typed(b) + [Enter];
    assert h + [a] + [b] == h + [a, b];
  }

  /** From the end of the text, word-left lands at the start of its last alphanumeric run w. */
  lemma LastWordStart(before: string, w: string)
    requires w != [] && forall j :: 0 <= j < |w| ==> IsAlphanumeric(w[j])
    requires before != [] ==> !IsAlphanumeric(before[|before| - 1])
    ensures WordLeftBoundary(before + w, |before + w|) == |before|
  {
    var t := before + w;
    var n := |before|;
    forall j | n < j < |t|
      ensures !IsWordStart(t, j)
    {
      assert t[j - 1] == w[j - 1 - n];
    }
    if n > 0 {
      assert t[n - 1] == before[n - 1] && t[n] == w[0];
    }
    EditorProps.WordLeftBoundaryUnique(t, |t|, n);
  }

  /** Ctrl-W deletes the last word typed: the alphanumeric run w after the text before it. */
  lemma DeleteLastWord(h: seq<string>, before: string, w: string)
    requires w != [] && forall j :: 0 <= j < |w| ==> IsAlphanumeric(w[j])
    requires before != [] ==> !IsAlphanumeric(before[|before| - 1])
    ensures Step(h, EditState(|before + w|, |h|, before + w), Ctrl('w')) == EditState(|before|, |h|, before)
  {
    var t := before + w;
    LastWordStart(before, w);
    assert t[..|before|] + t[|t|..] == before;
  }

  /** Typing text and pressing Ctrl-W then Enter commits the text without its last word. */
  lemma WordBackspace(h: seq<string>, before: string, w: string)
    requires Printable(before + w)
    requires w != [] && forall j :: 0 <= j < |w| ==> IsAlphanumeric(w[j])
    requires before != [] ==> !IsAlphanumeric(before[|before| - 1])
    ensures Round(h, Typed(before + w) + [Ctrl('w'), Enter]) == Committed(before, h + [before], [])
  {
    var t := before + w;
    TypeFirst(h, t, [Ctrl('w'), Enter]);
    TypedValid(h, t);
    DeleteLastWord(h, before, w);
    Feed(h, EditState(|t|, |h|, t), Ctrl('w'), [Enter], EditState(|before|, |h|, before));
    assert [Ctrl('w'), Enter] == [Ctrl('w')] + [Enter];
    TypedValid(h, before);
    EnterCommits(h, EditState(|before|, |h|, before), [Enter]);
    assert [Enter][1..] == [];
  }

  /** Typing text and pressing Ctrl-U then Enter commits an empty line. */
  lemma LineBackspace(h: seq<string>, text: string)
    requires Printable(text)
    ensures Round(h, Typed(text) + [Ctrl('u'), Enter]) == Committed("", h + [""], [])
  {
    TypeFirst(h, text, [Ctrl('u'), Enter]);
    TypedValid(h, text);
    assert Step(h, EditState(|text|, |h|, text), Ctrl('u')) == EditState(0, |h|, "") by {
      assert text[|text|..] == "";
    }
    Feed(h, EditState(|text|, |h|, text), Ctrl('u'), [Enter], EditState(0, |h|, ""));
    assert [Ctrl('u'), Enter] == [Ctrl('u')] + [Enter];
    EnterCommits(h, EditState(0, |h|, ""), [Enter]);
    assert [Enter][1..] == [];
  }

  lemma InsertBeforeCursor()
    ensures Round([], [Char('h'), Left, Char('i'), Enter]) == Committed("ih", ["ih"], [])
  {
    var h: seq<string> := [];
    Feed(h, Initial(h), Char('h'), [Left, Char('i'), Enter], EditState(1, 0, "h"));
    Feed(h, EditState(1, 0, "h"), Left, [Char('i'), Enter], EditState(0, 0, "h"));
    Feed(h, EditState(0, 0, "h"), Char('i'), [Enter], EditState(1, 0, "ih"));
  }

  lemma RecallWithoutEdit()
    ensures Round(["a"], [Up, Enter]) == Committed("a", ["a"], [])
  {
    RecallRoundTrip(["a"], 1);
    assert Repeat(Up, 1) == [Up];
  }

  /** Editing a recalled entry appends the edited copy; the entry itself is untouched. */
  lemma RecallAndEdit()
    ensures Round(["a"], [Up, Char('b'), Enter]) == Committed("ab", ["a", "ab"], [])
  {
    var h := ["a"];
    Feed(h, Initial(h), Up, [Char('b'), Enter], EditState(1, 0, ""));
    Feed(h, EditState(1, 0, ""), Char('b'), [Enter], EditState(2, 1, "ab"));
  }

  /** Backspace at column 0 deletes nothing but still forks, so Enter appends a copy of the entry. */
  lemma BackspaceAtStartForks()
    ensures Round(["a"], [Up, Ctrl('a'), Backspace, Enter]) == Committed("a", ["a", "a"], [])
  {
    var h := ["a"];
    Feed(h, Initial(h), Up, [Ctrl('a'), Backspace, Enter], EditState(1, 0, ""));
    Feed(h, EditState(1, 0, ""), Ctrl('a'), [Backspace, Enter], EditState(0, 0, ""));
    Feed(h, EditState(0, 0, ""), Backspace, [Enter], EditState(0, 1, "a"));
  }

  /** A key stream that ends before any Enter ends the round with no line. */
  lemma StreamEndsBeforeEnter(h: seq<string>, text: string)
    requires Printable(text)
    ensures Round(h, Typed(text)) == EndOfInput
  {
    TypeFirst(h, text, []);
    assert Typed(text) + [] == Typed(text);
  }
}
