/** What each key does to the line, told by the text on both sides of the cursor. */
module LineKeys {
  import opened Prelude
  import opened LineEditor
  import opened LineSession

  /** Between two keys: no escape sequence has been started. */
  predicate Ready(s: State)
  {
    !s.esc && !s.escex
  }

  /** Pressed where the line is `from`, the keys make it `to`; they change nothing else and end nothing. */
  ghost predicate Turns(keys: string, from: Line, to: Line, width: Width, external: External)
  {
    forall s: State, rest: string :: Ready(s) && s.ed.line == from ==>
      Run(s, keys + rest, width, external) == Run(s.(ed := s.ed.(line := to)), rest, width, external)
  }

  lemma PlainTurns(r: char, from: Line, to: Line, width: Width, external: External)
    requires forall s: State :: Ready(s) && s.ed.line == from ==> PlainKey(s, r, width, external) == Edit(s, to)
    ensures Turns([r], from, to, width, external)
  {
    hide PlainKey, Run;
    forall s: State, rest: string | Ready(s) && s.ed.line == from
      ensures Run(s, [r] + rest, width, external) == Run(s.(ed := s.ed.(line := to)), rest, width, external)
    {
      assert PlainKey(s, r, width, external) == Edit(s, to);
      OnePlainKey(s, r, rest, width, external);
    }
  }

  /** A key that leaves the whole state as it is. */
  lemma IdleKey(r: char, line: Line, width: Width, external: External)
    requires forall s: State :: Ready(s) && s.ed.line == line ==> PlainKey(s, r, width, external) == Go(s, 0)
    ensures Turns([r], line, line, width, external)
  {
    hide PlainKey;
    forall s: State | Ready(s) && s.ed.line == line ensures PlainKey(s, r, width, external) == Edit(s, line) {
      assert s.(ed := s.ed.(line := line)) == s;
    }
    PlainTurns(r, line, line, width, external);
  }

  lemma MetaTurns(r: char, from: Line, to: Line, width: Width, external: External)
    requires forall s: State :: Ready(s) && s.ed.line == from ==> MetaKey(s, r) == Edit(s, to)
    ensures Turns([ESC, r], from, to, width, external)
  {
    hide MetaKey, Run;
    forall s: State, rest: string | Ready(s) && s.ed.line == from
      ensures Run(s, [ESC, r] + rest, width, external) == Run(s.(ed := s.ed.(line := to)), rest, width, external)
    {
      assert MetaKey(s, r) == Edit(s, to);
      EscapedKey(s, r, rest, width, external);
    }
  }

  /** A key sent as ESC and a character. */
  lemma EscapedKey(s: State, r: char, rest: string, width: Width, external: External)
    requires Ready(s) && MetaKey(s, r).Go? && MetaKey(s, r).used == 0
    ensures Run(s, [ESC, r] + rest, width, external) == Run(MetaKey(s, r).s, rest, width, external)
  {
    hide MetaKey;
    var keys := [ESC, r] + rest;
    RunStep(s, keys, 0, width, external);
    RunStep(s.(esc := true), keys, 1, width, external);
    assert keys[0..] == keys && keys[2..] == rest;
    assert s.(esc := true).(esc := false) == s;
  }

  // ---- The cursor -------------------------------------------------------------------------

  /** The ends of the line, and one character to the left or right, where there is one. */
  lemma CursorKeys(before: string, c: char, after: string, width: Width, external: External)
    ensures Turns([CTRL_A], Line(before, after), Line("", before + after), width, external)
    ensures Turns([CTRL_E], Line(before, after), Line(before + after, ""), width, external)
    ensures Turns([CTRL_B], Line(before + [c], after), Line(before, [c] + after), width, external)
    ensures Turns([CTRL_F], Line(before, [c] + after), Line(before + [c], after), width, external)
    ensures Turns([CTRL_B], Line("", after), Line("", after), width, external)
    ensures Turns([CTRL_F], Line(before, ""), Line(before, ""), width, external)
  {
    hide Turns;
    PlainTurns(CTRL_A, Line(before, after), Line("", before + after), width, external);
    PlainTurns(CTRL_E, Line(before, after), Line(before + after, ""), width, external);
    assert (before + [c])[..|before|] == before && ([c] + after)[1..] == after;
    PlainTurns(CTRL_B, Line(before + [c], after), Line(before, [c] + after), width, external);
    PlainTurns(CTRL_F, Line(before, [c] + after), Line(before + [c], after), width, external);
    PlainTurns(CTRL_B, Line("", after), Line("", after), width, external);
    PlainTurns(CTRL_F, Line(before, ""), Line(before, ""), width, external);
  }

  // ---- Erasing and inserting --------------------------------------------------------------

  /** Backspace takes the character before the cursor, and does nothing at the start of the line. */
  lemma EraseKeys(r: char, before: string, c: char, after: string, width: Width, external: External)
    requires r == BACKSPACE || r == CTRL_H
    ensures Turns([r], Line(before + [c], after), Line(before, after), width, external)
    ensures Turns([r], Line("", after), Line("", after), width, external)
  {
    hide Turns;
    assert (before + [c])[..|before|] == before;
    PlainTurns(r, Line(before + [c], after), Line(before, after), width, external);
    PlainTurns(r, Line("", after), Line("", after), width, external);
  }

  /** A tabulator is eight spaces; control-U erases all before the cursor. */
  lemma TabAndStart(before: string, after: string, width: Width, external: External)
    ensures Turns([TAB], Line(before, after), Line(before + "        ", after), width, external)
    ensures Turns([CTRL_U], Line(before, after), Line("", after), width, external)
  {
    hide Turns;
    assert seq(8, i => ' ') == "        ";
    PlainTurns(TAB, Line(before, after), Line(before + "        ", after), width, external);
    PlainTurns(CTRL_U, Line(before, after), Line("", after), width, external);
  }

  /**
   * Control-K erases all after the cursor, if the line takes more columns than there are characters
   * before the cursor, and else does nothing.
   */
  lemma KillRestKey(before: string, after: string, width: Width, external: External)
    ensures Turns([CTRL_K], Line(before, after),
      if |before| < Sum(before + after, width) then Line(before, "") else Line(before, after), width, external)
  {
    hide Turns;
    var to := if |before| < Sum(before + after, width) then Line(before, "") else Line(before, after);
    PlainTurns(CTRL_K, Line(before, after), to, width, external);
  }

  /** Control-D takes the character at the cursor when something is shown, and ends the input when nothing is. */
  lemma DeleteOrEnd(before: string, c: char, after: string, width: Width, external: External)
    ensures Sum(before + ([c] + after), width) > 0 ==>
      Turns([CTRL_D], Line(before, [c] + after), Line(before, after), width, external)
    ensures Sum(before, width) > 0 ==> Turns([CTRL_D], Line(before, ""), Line(before, ""), width, external)
  {
    hide Turns, Sum;
    assert ([c] + after)[1..] == after && before + "" == before;
    if Sum(before + ([c] + after), width) > 0 {
      PlainTurns(CTRL_D, Line(before, [c] + after), Line(before, after), width, external);
    }
    if Sum(before, width) > 0 {
      PlainTurns(CTRL_D, Line(before, ""), Line(before, ""), width, external);
    }
  }

  // ---- Words ------------------------------------------------------------------------------

  /** A word and the spaces after it, with nothing or a space before it. */
  predicate WordAfter(kept: string, word: string, spaces: string)
  {
    && (forall i :: 0 <= i < |word| ==> word[i] != ' ')
    && (forall i :: 0 <= i < |spaces| ==> spaces[i] == ' ')
    && (kept != "" ==> kept[|kept| - 1] == ' ' && word != "")
  }

  lemma WordStartIs(kept: string, word: string, spaces: string)
    requires WordAfter(kept, word, spaces)
    ensures WordStart(kept + word + spaces) == |kept|
  {
    hide WordStart;
    assert LastWord(kept + word + spaces, |kept|, |kept + word|);
    WordStartUnique(kept + word + spaces, |kept|);
  }

  /** Control-W and ESC backspace erase the word before the cursor; ESC b moves over it. */
  lemma WordKeys(kept: string, word: string, spaces: string, after: string, width: Width, external: External)
    requires WordAfter(kept, word, spaces)
    ensures Turns([CTRL_W], Line(kept + word + spaces, after), Line(kept, after), width, external)
    ensures Turns([ESC, BACKSPACE], Line(kept + word + spaces, after), Line(kept, after), width, external)
    ensures Turns([ESC, 'b'], Line(kept + word + spaces, after), Line(kept, word + spaces + after), width, external)
  {
    hide Turns, WordAfter, WordStart;
    WordStartIs(kept, word, spaces);
    var before := kept + word + spaces;
    var from, killed, moved := Line(before, after), Line(kept, after), Line(kept, word + spaces + after);
    assert before[..|kept|] == kept;
    assert (before + after)[..|kept|] == kept && (before + after)[|kept|..] == word + spaces + after;
    PlainTurns(CTRL_W, from, killed, width, external);
    MetaTurns(BACKSPACE, from, killed, width, external);
    MetaTurns('b', from, moved, width, external);
  }

  lemma {:induction false} NextStopIs(s: string, from: nat, k: nat)
    requires 0 < from <= k <= |s| && (forall i :: 0 < i < k ==> s[i] != ' ') && (k < |s| ==> s[k] == ' ')
    ensures NextStop(s, from) == k
    decreases k - from
  {
    if from < k {
      NextStopIs(s, from + 1, k);
    }
  }

  /** ESC f moves over the character at the cursor and all that follow it up to a space. */
  lemma ForwardWordKey(before: string, c: char, word: string, tail: string, width: Width, external: External)
    requires (forall i :: 0 <= i < |word| ==> word[i] != ' ') && (tail != "" ==> tail[0] == ' ')
    ensures Turns([ESC, 'f'], Line(before, [c] + word + tail), Line(before + [c] + word, tail), width, external)
    ensures Turns([ESC, 'f'], Line(before, ""), Line(before, ""), width, external)
  {
    hide Turns, NextStop;
    var after := [c] + word + tail;
    NextStopIs(after, 1, 1 + |word|);
    var k := |before| + 1 + |word|;
    assert (before + after)[..k] == before + [c] + word && (before + after)[k..] == tail;
    MetaTurns('f', Line(before, after), Line(before + [c] + word, tail), width, external);
    MetaTurns('f', Line(before, ""), Line(before, ""), width, external);
  }

  // ---- Everything else --------------------------------------------------------------------

  /** Control-X takes over the text the external editor leaves, and nothing when that fails. */
  lemma EditorKey(before: string, after: string, width: Width, external: External)
    ensures Turns([CTRL_X], Line(before, after),
      match external(before + after) { case None => Line(before, after) case Some(t) => Line(t, "") }, width, external)
  {
    hide Turns;
    match external(before + after)
    case None => IdleKey(CTRL_X, Line(before, after), width, external);
    case Some(t) => PlainTurns(CTRL_X, Line(before, after), Line(t, ""), width, external);
  }

  /** The keys that end the prompt leave the line, the history and all else as they are. */
  lemma EndingKeys(s: State, rest: string, width: Width, external: External)
    requires Ready(s)
    ensures Run(s, [CTRL_C] + rest, width, external) == (s, Interrupt)
    ensures Run(s, [CTRL_Z] + rest, width, external) == (s, Suspended)
    ensures Sum(s.ed.line.before + s.ed.line.after, width) == 0 ==> Run(s, [CTRL_D] + rest, width, external) == (s, Eof)
  {
    forall r | r in {CTRL_C, CTRL_Z, CTRL_D} ensures ([r] + rest)[0] == r && ([r] + rest)[1..] == rest {
    }
  }

  /** Null and control-L are ignored. */
  lemma IgnoredKeys(r: char, line: Line, width: Width, external: External)
    requires r in {0 as char, CTRL_L}
    ensures Turns([r], line, line, width, external)
  {
    IdleKey(r, line, width, external);
  }

  /** Bracketed paste: ESC [ 200 ~ and ESC [ 201 ~ turn pasting on and off. */
  lemma PasteKeys(s: State, rest: string, width: Width, external: External)
    requires Ready(s)
    ensures Run(s, [ESC, '[', '2', '0', '0', '~'] + rest, width, external) == Run(s.(pasting := true), rest, width, external)
    ensures Run(s, [ESC, '[', '2', '0', '1', '~'] + rest, width, external) == Run(s.(pasting := false), rest, width, external)
  {
    hide Run;
    PasteKey(s, '0', rest, width, external);
    PasteKey(s, '1', rest, width, external);
  }

  lemma PasteKey(s: State, which: char, rest: string, width: Width, external: External)
    requires Ready(s) && which in {'0', '1'}
    ensures Run(s, [ESC, '[', '2', '0', which, '~'] + rest, width, external)
      == Run(s.(pasting := which == '0'), rest, width, external)
  {
    hide Run;
    var keys := [ESC, '[', '2', '0', which, '~'] + rest;
    RunStep(s, keys, 0, width, external);
    RunStep(s.(esc := true), keys, 1, width, external);
    RunStep(s.(escex := true), keys, 2, width, external);
    assert keys[3] == '0' && keys[4] == which && keys[5] == '~';
    assert keys[0..] == keys && keys[6..] == rest && keys[3..][..3] == ['0', which, '~'];
    assert s.(escex := true).(escex := false) == s;
  }

  /**
   * Any other key sent as ESC [ 2 takes three characters with it: insert, ESC [ 2 ~, swallows the two
   * keys after it, and ends the input when there are fewer.
   */
  lemma InsertKey(s: State, a: char, b: char, c: char, rest: string, few: string, width: Width, external: External)
    requires Ready(s) && [a, b, c] != "00~" && [a, b, c] != "01~" && |few| < 3
    ensures Run(s, [ESC, '[', '2', a, b, c] + rest, width, external) == Run(s, rest, width, external)
    ensures Run(s, [ESC, '[', '2'] + few, width, external) == (s, Eof)
  {
    hide Run;
    InsertSwallows(s, a, b, c, rest, width, external);
    InsertEnds(s, few, width, external);
  }

  lemma InsertSwallows(s: State, a: char, b: char, c: char, rest: string, width: Width, external: External)
    requires Ready(s) && [a, b, c] != "00~" && [a, b, c] != "01~"
    ensures Run(s, [ESC, '[', '2', a, b, c] + rest, width, external) == Run(s, rest, width, external)
  {
    hide Run;
    var keys := [ESC, '[', '2', a, b, c] + rest;
    RunStep(s, keys, 0, width, external);
    RunStep(s.(esc := true), keys, 1, width, external);
    RunStep(s.(escex := true), keys, 2, width, external);
    assert keys[3] == a && keys[4] == b && keys[5] == c;
    assert keys[0..] == keys && keys[6..] == rest && keys[3..][..3] == [a, b, c];
    assert s.(escex := true).(escex := false) == s;
  }

  lemma InsertEnds(s: State, few: string, width: Width, external: External)
    requires Ready(s) && |few| < 3
    ensures Run(s, [ESC, '[', '2'] + few, width, external) == (s, Eof)
  {
    hide Run;
    var keys := [ESC, '[', '2'] + few;
    RunStep(s, keys, 0, width, external);
    RunStep(s.(esc := true), keys, 1, width, external);
    RunStep(s.(escex := true), keys, 2, width, external);
    assert keys[0..] == keys && keys[3..] == few;
    assert s.(escex := true).(escex := false) == s;
  }

  /** Keys without a meaning after ESC [ or ESC are dropped; a plain one also ends the wait for a delete key's tail. */
  lemma UnknownKeys(s: State, r: char, rest: string, width: Width, external: External)
    requires Ready(s)
    ensures r !in {'A', 'B', 'C', 'D', '2', '3', 'H', 'F'} ==>
      Run(s, [ESC, '[', r] + rest, width, external) == Run(s, rest, width, external)
    ensures r !in {'b', 'f', BACKSPACE, '['} ==> Run(s, [ESC, r] + rest, width, external) == Run(s, rest, width, external)
    ensures r < ' ' && (r as int) !in {0, 1, 2, 3, 4, 5, 6, 8, 9, 10, 11, 12, 13, 14, 16, 21, 23, 24, 26, 27} ==>
      Run(s, [r] + rest, width, external) == Run(s.(metaDel := false), rest, width, external)
  {
    hide Run;
    if r !in {'A', 'B', 'C', 'D', '2', '3', 'H', 'F'} {
      BracketedKey(s, r, rest, width, external);
    }
    if r !in {'b', 'f', BACKSPACE, '['} {
      EscapedKey(s, r, rest, width, external);
    }
    if r < ' ' && (r as int) !in {0, 1, 2, 3, 4, 5, 6, 8, 9, 10, 11, 12, 13, 14, 16, 21, 23, 24, 26, 27} {
      assert s.metaDel || s.(metaDel := false) == s;
      OnePlainKey(s, r, rest, width, external);
    }
  }
}
