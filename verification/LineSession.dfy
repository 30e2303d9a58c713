/** The prompt: the input history and the keys that drive the line editor. */
module LineSession {
  import opened Prelude
  import opened Framing
  import opened LineEditor

  // ---- The history ------------------------------------------------------------------------

  const LIMIT: nat := 100

  function Newest(entries: seq<string>): (kept: seq<string>)
    ensures |kept| == if |entries| <= LIMIT then |entries| else LIMIT
  {
    if |entries| <= LIMIT then entries else entries[|entries| - LIMIT..]
  }

  /** The newest entries are what is left when the oldest beyond a hundred are taken away. */
  lemma NewestIsLast(before: seq<string>, last: seq<string>)
    requires |last| == LIMIT || (|last| < LIMIT && before == [])
    ensures Newest(before + last) == last
  {
    assert [] + last == last;
  }

  lemma NewestNewest(a: seq<string>, b: seq<string>)
    ensures Newest(Newest(a) + b) == Newest(a + b)
  {
  }

  /** A list read outside its bounds gives the empty string. */
  function Entry(entries: seq<string>, i: int): string
  {
    if 0 <= i < |entries| then entries[i] else ""
  }

  /** What loading keeps of the lines of the file. */
  function Kept(lines: seq<string>): seq<string>
  {
    if lines == [] then []
    else (if TrimSpace(lines[0]) == "" then [] else [TrimSpace(lines[0])]) + Kept(lines[1..])
  }

  lemma {:induction false} KeptSnoc(lines: seq<string>, line: string)
    ensures Kept(lines + [line]) == Kept(lines) + if TrimSpace(line) == "" then [] else [TrimSpace(line)]
  {
    if lines == [] {
      assert lines + [line] == [line];
    } else {
      assert (lines + [line])[1..] == lines[1..] + [line];
      KeptSnoc(lines[1..], line);
    }
  }

  /** The entries in a history file; a last line without a newline is not read. */
  function Load(file: string): seq<string>
  {
    Newest(Kept(Split("\n", file).frames))
  }

  function Save(entries: seq<string>): string
  {
    Terminated("\n", entries)
  }

  class History {
    var buf: seq<string>
    var pos: nat
    var limit: nat

    ghost predicate Valid()
      reads this
    {
      pos <= |buf| <= limit && limit == LIMIT
    }

    /** Reads the entries of the file. */
    constructor (file: string)
      ensures Valid() && buf == Load(file) && pos == |buf|
    {
      buf, pos, limit := [], 0, LIMIT;
      new;
      assert Newest([]) == [];
      hide Split, TrimSpace, Newest;
      var lines := Split("\n", file).frames;
      for i := 0 to |lines|
        invariant Valid() && pos == |buf|
        invariant buf == Newest(Kept(lines[..i]))
      {
        assert lines[..i + 1] == lines[..i] + [lines[i]];
        KeptSnoc(lines[..i], lines[i]);
        assert Newest(Kept(lines[..i])) + [] == Newest(Kept(lines[..i]));
        var line := TrimSpace(lines[i]);
        if line != "" {
          NewestNewest(Kept(lines[..i]), [line]);
          Add(line);
        }
      }
      assert lines[..|lines|] == lines;
    }

    method Add(s: string)
      requires Valid()
      modifies this`buf, this`pos
      ensures Valid() && buf == Newest(old(buf) + [s]) && pos == |buf|
    {
      buf := buf + [s];
      Compact();
      pos := |buf|;
    }

    method Compact()
      requires limit == LIMIT
      modifies this`buf
      ensures buf == Newest(old(buf))
    {
      var s := |buf|;
      if s > limit {
        for i := 0 to s - limit
          invariant buf == old(buf)[i..]
        {
          buf := buf[1..];
        }
      }
    }

    method Prev() returns (line: string)
      requires Valid()
      modifies this`pos
      ensures Valid() && pos == (if old(pos) > 0 then old(pos) - 1 else 0) && line == Entry(buf, pos)
    {
      if pos > 0 {
        pos := pos - 1;
      }
      line := Entry(buf, pos);
    }

    method Next() returns (line: string)
      requires Valid()
      modifies this`pos
      ensures Valid() && pos == (if old(pos) < |buf| then old(pos) + 1 else old(pos))
      ensures line == if old(pos) < |buf| then Entry(buf, pos) else ""
    {
      line := "";
      if pos < |buf| {
        pos := pos + 1;
        line := Entry(buf, pos);
      }
    }
  }

  // ---- The keys ---------------------------------------------------------------------------

  const CTRL_A: char := 1 as char
  const CTRL_B: char := 2 as char
  const CTRL_C: char := 3 as char
  const CTRL_D: char := 4 as char
  const CTRL_E: char := 5 as char
  const CTRL_F: char := 6 as char
  const CTRL_H: char := 8 as char
  const TAB: char := 9 as char
  const CTRL_J: char := 10 as char
  const CTRL_K: char := 11 as char
  const CTRL_L: char := 12 as char
  const ENTER: char := 13 as char
  const CTRL_N: char := 14 as char
  const CTRL_P: char := 16 as char
  const CTRL_U: char := 21 as char
  const CTRL_W: char := 23 as char
  const CTRL_X: char := 24 as char
  const CTRL_Z: char := 26 as char
  const ESC: char := 27 as char
  const BACKSPACE: char := 127 as char

  /** The line being edited, the history and its position, and the draft kept while in the history. */
  datatype Editor = Editor(line: Line, entries: seq<string>, at: nat, draft: string)

  datatype State = State(ed: Editor, esc: bool, escex: bool, metaDel: bool, pasting: bool)

  /** How Readline returns: end of input, interrupt, suspended, or a line. */
  datatype Outcome = Eof | Interrupt | Suspended | Entered(text: string)

  datatype Next = Go(s: State, used: nat) | Stop(s: State, outcome: Outcome)

  /** The external editor: the new text, or None when it fails. */
  type External = string -> Option<string>

  function Up(e: Editor): Editor
  {
    if e.at > 0 then
      Editor(Line(Entry(e.entries, e.at - 1), ""), e.entries, e.at - 1, if e.at == |e.entries| then Text(e.line) else e.draft)
    else e
  }

  function Down(e: Editor): Editor
  {
    if e.at < |e.entries| then
      var text := if e.at + 1 == |e.entries| then e.draft else Entry(e.entries, e.at + 1);
      Editor(Line(text, ""), e.entries, e.at + 1, e.draft)
    else e
  }

  function Edit(s: State, line: Line): Next
  {
    Go(s.(ed := s.ed.(line := line)), 0)
  }

  /** A key after ESC [. The delete key arms the dropping of the `~` that follows it. */
  function BracketKey(s: State, r: char, rest: string, width: Width): Next
  {
    if r == 'A' then Go(s.(ed := Up(s.ed)), 0)
    else if r == 'B' then Go(s.(ed := Down(s.ed)), 0)
    else if r == 'D' then Edit(s, Left(s.ed.line))
    else if r == 'C' then Edit(s, Right(s.ed.line))
    else if r == '2' then
      if |rest| < 3 then Stop(s, Eof)
      else if rest[..3] == "00~" then Go(s.(pasting := true), 3)
      else if rest[..3] == "01~" then Go(s.(pasting := false), 3)
      else Go(s, 3)
    else if r == '3' then
      var t := s.(metaDel := true);
      if DisplaySize(Text(s.ed.line), width) > 0 then Edit(t, EraseAfter(s.ed.line)) else Go(t, 0)
    else if r == 'H' then Edit(s, Line("", Text(s.ed.line)))
    else if r == 'F' then Edit(s, Line(Text(s.ed.line), ""))
    else Go(s, 0)
  }

  /** A key after ESC. */
  function MetaKey(s: State, r: char): Next
  {
    if r == 'b' then Edit(s, LeftWord(s.ed.line))
    else if r == 'f' then Edit(s, RightWord(s.ed.line))
    else if r == BACKSPACE then Edit(s, KillWord(s.ed.line))
    else if r == '[' then Go(s.(escex := true), 0)
    else Go(s, 0)
  }

  function Tabbed(l: Line): Line
  {
    Line(l.before + seq(8, i => ' '), l.after)
  }

  function Remember(e: Editor, text: string): Editor
  {
    var entries := if text == "" then e.entries else Newest(e.entries + [text]);
    e.(line := Line(text, ""), entries := entries, at := if text == "" then e.at else |entries|)
  }

  function PlainKey(s: State, r: char, width: Width, external: External): Next
  {
    var l := s.ed.line;
    if r == 0 as char || r == CTRL_L then Go(s, 0)
    else if r == ESC then Go(s.(esc := true), 0)
    else if r == CTRL_C then Stop(s, Interrupt)
    else if r == CTRL_P then Go(s.(ed := Up(s.ed)), 0)
    else if r == CTRL_N then Go(s.(ed := Down(s.ed)), 0)
    else if r == CTRL_A then Edit(s, Line("", Text(l)))
    else if r == CTRL_E then Edit(s, Line(Text(l), ""))
    else if r == CTRL_B then Edit(s, Left(l))
    else if r == CTRL_F then Edit(s, Right(l))
    else if r == BACKSPACE || r == CTRL_H then Edit(s, EraseBefore(l))
    else if r == TAB then Edit(s, Tabbed(l))
    else if r == CTRL_D then
      if DisplaySize(Text(l), width) > 0 then Edit(s, EraseAfter(l)) else Stop(s, Eof)
    else if r == CTRL_K then Edit(s, KillAfter(l, width))
    else if r == CTRL_U then Edit(s, Line("", l.after))
    else if r == CTRL_W then Edit(s, KillWord(l))
    else if r == CTRL_X then
      match external(Text(l)) { case None => Go(s, 0) case Some(t) => Edit(s, Line(t, "")) }
    else if r == CTRL_Z then Stop(s, Suspended)
    else if r == ENTER || r == CTRL_J then
      Stop(s.(ed := Remember(s.ed, Text(l))), Entered(Text(l)))
    else if s.metaDel then Go(s.(metaDel := false), 0)
    else if r >= ' ' then Edit(s, Insert(l, r))
    else Go(s, 0)
  }

  function Key(s: State, r: char, rest: string, width: Width, external: External): (n: Next)
    ensures n.Go? ==> n.used <= |rest|
  {
    if s.escex then BracketKey(s.(escex := false), r, rest, width)
    else if s.esc then MetaKey(s.(esc := false), r)
    else PlainKey(s, r, width, external)
  }

  /** All keys up to the one that ends the line, or to the end of the input. */
  function Run(s: State, keys: string, width: Width, external: External): (State, Outcome)
    decreases |keys|
  {
    if keys == "" then (s, Eof)
    else match Key(s, keys[0], keys[1..], width, external)
      case Stop(t, outcome) => (t, outcome)
      case Go(t, used) => Run(t, keys[1..][used..], width, external)
  }

  class Instance {
    const history: History
    var pasting: bool
    const width: Width
    const external: External

    constructor (history: History, width: Width, external: External)
      ensures this.history == history && this.width == width && this.external == external && !pasting
    {
      this.history, this.width, this.external, pasting := history, width, external, false;
    }

    ghost predicate Valid(buf: Buffer)
      reads this, history, buf
    {
      history.Valid() && buf.Valid() && buf.width == width
    }

    ghost function View(buf: Buffer, draft: string): Editor
      requires Valid(buf)
      reads this, history, buf
    {
      Editor(buf.Zip(), history.buf, history.pos, draft)
    }

    method HistoryPrev(buf: Buffer, draft: string) returns (kept: string)
      requires Valid(buf)
      modifies buf`buf, buf`pos, history`pos
      ensures Valid(buf) && View(buf, kept) == Up(old(View(buf, draft)))
    {
      kept := draft;
      if history.pos > 0 {
        if history.pos == |history.buf| {
          kept := buf.buf;
        }
        var line := history.Prev();
        buf.Replace(line);
      }
    }

    method HistoryNext(buf: Buffer, draft: string)
      requires Valid(buf)
      modifies buf`buf, buf`pos, history`pos
      ensures Valid(buf) && View(buf, draft) == Down(old(View(buf, draft)))
    {
      if history.pos < |history.buf| {
        var line := history.Next();
        buf.Replace(line);
        if history.pos == |history.buf| {
          buf.Replace(draft);
        }
      }
    }

    method AfterBracket(buf: Buffer, draft: string, metaDel: bool, r: char, rest: string)
      returns (kept: string, armed: bool, used: nat, stop: bool)
      requires Valid(buf)
      modifies buf`buf, buf`pos, history`pos, this`pasting
      ensures Valid(buf)
      ensures var t := State(View(buf, kept), false, false, armed, pasting);
        BracketKey(old(State(View(buf, draft), false, false, metaDel, pasting)), r, rest, width)
        == if stop then Stop(t, Eof) else Go(t, used)
    {
      hide Up, Down, Left, Right, EraseAfter, DisplaySize;
      kept, armed, used, stop := draft, metaDel, 0, false;
      if r == 'A' {
        kept := HistoryPrev(buf, draft);
      } else if r == 'B' {
        HistoryNext(buf, draft);
      } else if r == 'D' {
        buf.MoveLeft();
      } else if r == 'C' {
        buf.MoveRight();
      } else if r == '2' {
        if |rest| < 3 {
          stop := true;
          return;
        }
        used := 3;
        if rest[..3] == "00~" {
          pasting := true;
        } else if rest[..3] == "01~" {
          pasting := false;
        }
      } else if r == '3' {
        if DisplaySize(buf.buf, width) > 0 {
          buf.Delete();
        }
        armed := true;
      } else if r == 'H' {
        buf.MoveToStart();
      } else if r == 'F' {
        buf.MoveToEnd();
      }
    }

    method AfterEscape(buf: Buffer, r: char) returns (escex: bool)
      requires Valid(buf)
      modifies buf`buf, buf`pos
      ensures Valid(buf)
      ensures forall draft, metaDel ::
        MetaKey(old(State(View(buf, draft), false, false, metaDel, pasting)), r)
        == Go(State(View(buf, draft), false, escex, metaDel, pasting), 0)
    {
      hide LeftWord, RightWord, KillWord;
      escex := false;
      if r == 'b' {
        buf.MoveLeftWord();
      } else if r == 'f' {
        buf.MoveRightWord();
      } else if r == BACKSPACE {
        buf.DeleteWord();
      } else if r == '[' {
        escex := true;
      }
    }

    method Tab(buf: Buffer)
      requires Valid(buf)
      modifies buf`buf, buf`pos
      ensures Valid(buf) && buf.Zip() == Tabbed(old(buf.Zip()))
    {
      for i := 0 to 8
        invariant Valid(buf)
        invariant buf.Zip() == Line(old(buf.Zip()).before + seq(i, j => ' '), old(buf.Zip()).after)
      {
        buf.Add(' ');
      }
    }

    method Enter(buf: Buffer, draft: string) returns (output: string)
      requires Valid(buf)
      modifies buf`pos, history`buf, history`pos
      ensures Valid(buf) && output == Text(old(buf.Zip()))
      ensures View(buf, draft) == Remember(old(View(buf, draft)), output)
    {
      output := buf.buf;
      if output != "" {
        history.Add(output);
      }
      buf.MoveToEnd();
    }

    /** The line-editing keys; false when r is none of them. */
    method EditKey(buf: Buffer, r: char) returns (done: bool)
      requires Valid(buf)
      modifies buf`buf, buf`pos
      ensures Valid(buf)
      ensures done <==> r in {CTRL_A, CTRL_E, CTRL_B, CTRL_F, BACKSPACE, CTRL_H, TAB, CTRL_K, CTRL_U, CTRL_W}
      ensures done ==> forall s: State :: s.ed.line == old(buf.Zip()) ==>
        PlainKey(s, r, width, external) == Edit(s, buf.Zip())
      ensures !done ==> buf.Zip() == old(buf.Zip())
    {
      hide Left, Right, EraseBefore, KillAfter, KillWord, Tabbed, DisplaySize, Insert;
      done := true;
      if r == CTRL_A {
        buf.MoveToStart();
      } else if r == CTRL_E {
        buf.MoveToEnd();
      } else if r == CTRL_B {
        buf.MoveLeft();
      } else if r == CTRL_F {
        buf.MoveRight();
      } else if r == BACKSPACE || r == CTRL_H {
        buf.Remove();
      } else if r == TAB {
        Tab(buf);
      } else if r == CTRL_K {
        buf.DeleteRemaining();
      } else if r == CTRL_U {
        buf.DeleteBefore();
      } else if r == CTRL_W {
        buf.DeleteWord();
      } else {
        done := false;
      }
    }

    method PlainKeyStep(buf: Buffer, draft: string, metaDel: bool, r: char)
      returns (kept: string, esc: bool, armed: bool, stop: Option<Outcome>)
      requires Valid(buf)
      modifies buf`buf, buf`pos, history`buf, history`pos
      ensures Valid(buf)
      ensures var t := State(View(buf, kept), esc, false, armed, pasting);
        PlainKey(old(State(View(buf, draft), false, false, metaDel, pasting)), r, width, external)
        == if stop == None then Go(t, 0) else Stop(t, stop.value)
    {
      hide Up, Down, Left, Right, EraseAfter, EraseBefore, KillAfter, KillWord, Tabbed, DisplaySize, Remember, Insert;
      kept, esc, armed, stop := draft, false, metaDel, None;
      var done := EditKey(buf, r);
      if done || r == 0 as char || r == CTRL_L {
      } else if r == ESC {
        esc := true;
      } else if r == CTRL_C {
        stop := Some(Interrupt);
      } else if r == CTRL_P {
        kept := HistoryPrev(buf, draft);
      } else if r == CTRL_N {
        HistoryNext(buf, draft);
      } else if r == CTRL_D {
        if DisplaySize(buf.buf, width) > 0 {
          buf.Delete();
        } else {
          stop := Some(Eof);
        }
      } else if r == CTRL_X {
        var edited := external(buf.buf);
        if edited != None {
          buf.Replace(edited.value);
        }
      } else if r == CTRL_Z {
        stop := Some(Suspended);
      } else if r == ENTER || r == CTRL_J {
        var output := Enter(buf, draft);
        stop := Some(Entered(output));
      } else if metaDel {
        armed := false;
      } else if r >= ' ' {
        buf.Add(r);
      }
    }

    /** One call of the prompt on the keys the terminal delivers. */
    method Readline(keys: string) returns (buf: Buffer, kept: string, outcome: Outcome)
      requires history.Valid()
      modifies history`buf, history`pos, this`pasting
      ensures Valid(buf) && fresh(buf)
      ensures var start := State(Editor(Line("", ""), old(history.buf), old(history.pos), ""), false, false, false, old(pasting));
        var (s, o) := Run(start, keys, width, external);
        o == outcome && s.ed == View(buf, kept) && s.pasting == pasting
    {
      hide BracketKey, MetaKey, PlainKey;
      buf := new Buffer(width);
      kept := "";
      var esc, escex, metaDel := false, false, false;
      var i := 0;
      ghost var start := State(View(buf, kept), false, false, false, pasting);
      while i < |keys|
        invariant i <= |keys| && Valid(buf) && fresh(buf) && !(esc && escex)
        invariant Run(start, keys, width, external)
          == Run(State(View(buf, kept), esc, escex, metaDel, pasting), keys[i..], width, external)
        decreases |keys| - i
      {
        var r, rest := keys[i], keys[i + 1..];
        ghost var s := State(View(buf, kept), esc, escex, metaDel, pasting);
        RunStep(s, keys, i, width, external);
        var used, stop := 0, None;
        if escex {
          escex := false;
          var atEnd;
          kept, metaDel, used, atEnd := AfterBracket(buf, kept, metaDel, r, rest);
          stop := if atEnd then Some(Eof) else None;
        } else if esc {
          esc := false;
          escex := AfterEscape(buf, r);
        } else {
          kept, esc, metaDel, stop := PlainKeyStep(buf, kept, metaDel, r);
        }
        if stop != None {
          outcome := stop.value;
          return;
        }
        i := i + 1 + used;
      }
      outcome := Eof;
    }
  }

  lemma RunStep(s: State, keys: string, i: nat, width: Width, external: External)
    requires i < |keys|
    ensures Run(s, keys[i..], width, external) ==
      match Key(s, keys[i], keys[i + 1..], width, external)
      case Stop(t, outcome) => (t, outcome)
      case Go(t, used) => Run(t, keys[i + 1 + used..], width, external)
  {
    hide Key;
    assert keys[i..][0] == keys[i] && keys[i..][1..] == keys[i + 1..];
    match Key(s, keys[i], keys[i + 1..], width, external)
    case Stop(_, _) =>
    case Go(t, used) => assert keys[i + 1..][used..] == keys[i + 1 + used..];
  }

  // ---- Walking through the history --------------------------------------------------------

  function Ups(e: Editor, k: nat): Editor
  {
    if k == 0 then e else Up(Ups(e, k - 1))
  }

  function Downs(e: Editor, k: nat): Editor
  {
    if k == 0 then e else Down(Downs(e, k - 1))
  }

  /** What the line shows at a position in the history other than the end. */
  lemma {:induction false} UpsShow(e: Editor, k: nat)
    requires e.at == |e.entries| > 0 && k > 0
    ensures var at := if k <= |e.entries| then |e.entries| - k else 0;
      Ups(e, k) == Editor(Line(e.entries[at], ""), e.entries, at, Text(e.line))
  {
    if k > 1 {
      UpsShow(e, k - 1);
    } else {
      assert Ups(e, 0) == e;
    }
  }

  lemma {:induction false} DownsShow(e: Editor, k: nat)
    requires e.at < |e.entries| && k > 0
    ensures var at := if e.at + k <= |e.entries| then e.at + k else |e.entries|;
      Downs(e, k) == Editor(Line(if at == |e.entries| then e.draft else e.entries[at], ""), e.entries, at, e.draft)
  {
    if k > 1 {
      DownsShow(e, k - 1);
    } else {
      assert Downs(e, 0) == e;
    }
  }

  /**
   * From the end of the history, ups followed by downs come back to the end exactly when there are as
   * many downs as ups, or as entries; and then the unsent text is back.
   */
  lemma DraftRestored(e: Editor, ups: nat, downs: nat)
    requires e.at == |e.entries|
    ensures var f := Downs(Ups(e, ups), downs);
      && f.entries == e.entries
      && (f.at == e.at <==> ups <= downs || |e.entries| <= downs)
      && (f.at == e.at ==> Text(f.line) == Text(e.line))
  {
    if e.entries == [] || ups == 0 {
      NothingAbove(e, ups);
      NothingBelow(e, downs);
    } else {
      UpsShow(e, ups);
      if downs > 0 {
        DownsShow(Ups(e, ups), downs);
      }
    }
  }

  lemma {:induction false} NothingAbove(e: Editor, k: nat)
    requires e.at == 0 || k == 0
    ensures Ups(e, k) == e
  {
    if k > 0 {
      NothingAbove(e, k - 1);
    }
  }

  lemma {:induction false} NothingBelow(e: Editor, k: nat)
    requires e.at == |e.entries|
    ensures Downs(e, k) == e
  {
    if k > 0 {
      NothingBelow(e, k - 1);
    }
  }

  // ---- Runs of the prompt -----------------------------------------------------------------

  /** How one prompt may leave the history. */
  ghost predicate Remembered(s: State, t: State, outcome: Outcome)
  {
    && t.ed.at <= |t.ed.entries| <= LIMIT
    && t.ed.entries == (if outcome.Entered? && outcome.text != "" then Newest(s.ed.entries + [outcome.text]) else s.ed.entries)
    && (outcome.Entered? ==> t.ed.line == Line(outcome.text, ""))
    && (outcome.Entered? && outcome.text != "" ==> t.ed.at == |t.ed.entries|)
  }

  lemma KeyHistory(s: State, r: char, rest: string, width: Width, external: External)
    requires s.ed.at <= |s.ed.entries| <= LIMIT
    ensures match Key(s, r, rest, width, external)
      case Stop(t, outcome) => Remembered(s, t, outcome)
      case Go(t, _) => t.ed.entries == s.ed.entries && t.ed.at <= |s.ed.entries|
  {
    hide Left, Right, LeftWord, RightWord, EraseBefore, EraseAfter, KillAfter, KillWord, Tabbed, DisplaySize, Insert, Newest;
  }

  /**
   * Whatever the keys, a prompt changes the history by at most one entry: the line it returns, if not
   * empty; the history is then at its end.
   */
  lemma {:induction false} RunHistory(s: State, keys: string, width: Width, external: External)
    requires s.ed.at <= |s.ed.entries| <= LIMIT
    ensures var (t, outcome) := Run(s, keys, width, external);
      && t.ed.at <= |t.ed.entries| <= LIMIT
      && t.ed.entries == (if outcome.Entered? && outcome.text != "" then Newest(s.ed.entries + [outcome.text]) else s.ed.entries)
      && (outcome.Entered? ==> t.ed.line == Line(outcome.text, ""))
      && (outcome.Entered? && outcome.text != "" ==> t.ed.at == |t.ed.entries|)
    decreases |keys|
  {
    hide Key, Newest;
    if keys != "" {
      KeyHistory(s, keys[0], keys[1..], width, external);
      match Key(s, keys[0], keys[1..], width, external)
      case Stop(_, _) =>
      case Go(t, used) => RunHistory(t, keys[1..][used..], width, external);
    }
  }

  predicate Printable(text: string)
  {
    forall i :: 0 <= i < |text| ==> text[i] >= ' ' && text[i] != BACKSPACE
  }

  function AfterTyping(s: State, text: string): State
    requires text != ""
  {
    var line := Line(s.ed.line.before + (if s.metaDel then text[1..] else text), s.ed.line.after);
    s.(ed := s.ed.(line := line), metaDel := false)
  }

  lemma TypedOne(s: State, c: char, rest: string, width: Width, external: External)
    requires !s.esc && !s.escex && Printable([c])
    ensures Run(s, [c] + rest, width, external) == Run(AfterTyping(s, [c]), rest, width, external)
  {
    var keys := [c] + rest;
    assert [c][0] == c && keys[0] == c && keys[1..] == rest && rest[0..] == rest;
    assert [c][1..] == [] && s.ed.line.before + [] == s.ed.line.before;
    assert AfterTyping(s, [c]) == PlainKey(s, c, width, external).s;
  }

  /** Typed text goes in at the cursor; while the delete key's tail is awaited its first character is dropped. */
  lemma {:induction false} Typed(s: State, text: string, rest: string, width: Width, external: External)
    requires !s.esc && !s.escex && Printable(text) && text != ""
    ensures Run(s, text + rest, width, external) == Run(AfterTyping(s, text), rest, width, external)
    decreases |text|
  {
    hide Run;
    var more := text[1..] + rest;
    assert text + rest == [text[0]] + more;
    TypedOne(s, text[0], more, width, external);
    if text[1..] == "" {
      assert more == rest && text == [text[0]];
    } else {
      Typed(AfterTyping(s, [text[0]]), text[1..], rest, width, external);
      assert s.ed.line.before + [text[0]] + text[1..] == s.ed.line.before + text;
      assert s.ed.line.before + [] == s.ed.line.before;
    }
  }

  /** A line typed at a fresh prompt and entered is what the prompt returns. */
  lemma TypeAndEnter(s: State, text: string, rest: string, width: Width, external: External)
    requires !s.esc && !s.escex && !s.metaDel && s.ed.line == Line("", "") && Printable(text)
    ensures Run(s, text + [ENTER] + rest, width, external).1 == Entered(text)
  {
    hide Newest;
    var keys := [ENTER] + rest;
    assert text + [ENTER] + rest == text + keys;
    if text == "" {
      assert text + keys == keys;
    } else {
      Typed(s, text, keys, width, external);
    }
    assert keys[0] == ENTER;
  }

  function Repeat(c: char, k: nat): string
  {
    if k == 0 then "" else Repeat(c, k - 1) + [c]
  }

  lemma {:induction false} RunNavigation(s: State, ups: nat, downs: nat, rest: string, width: Width, external: External)
    requires !s.esc && !s.escex
    ensures Run(s, Repeat(CTRL_P, ups) + Repeat(CTRL_N, downs) + rest, width, external)
      == Run(s.(ed := Downs(Ups(s.ed, ups), downs)), rest, width, external)
    decreases ups + downs
  {
    hide Up, Down;
    if downs > 0 {
      var t := s.(ed := Downs(Ups(s.ed, ups), downs - 1));
      RunNavigation(s, ups, downs - 1, [CTRL_N] + rest, width, external);
      assert Repeat(CTRL_P, ups) + Repeat(CTRL_N, downs) + rest
        == Repeat(CTRL_P, ups) + Repeat(CTRL_N, downs - 1) + ([CTRL_N] + rest);
      OneKey(t, CTRL_N, rest, width, external);
    } else if ups > 0 {
      var t := s.(ed := Ups(s.ed, ups - 1));
      RunNavigation(s, ups - 1, 0, [CTRL_P] + rest, width, external);
      assert Repeat(CTRL_P, ups) + Repeat(CTRL_N, 0) + rest == Repeat(CTRL_P, ups - 1) + Repeat(CTRL_N, 0) + ([CTRL_P] + rest);
      OneKey(t, CTRL_P, rest, width, external);
    } else {
      assert Repeat(CTRL_P, 0) + Repeat(CTRL_N, 0) + rest == rest;
    }
  }

  lemma OneKey(s: State, r: char, rest: string, width: Width, external: External)
    requires !s.esc && !s.escex && (r == CTRL_P || r == CTRL_N)
    ensures Run(s, [r] + rest, width, external)
      == Run(s.(ed := if r == CTRL_P then Up(s.ed) else Down(s.ed)), rest, width, external)
  {
    var keys := [r] + rest;
    assert keys[0] == r && keys[1..] == rest && rest[0..] == rest;
  }

  /** The same at the keyboard: look through the history, come back and press enter, and the typed line is entered. */
  lemma LookedUpAndEntered(s: State, text: string, ups: nat, downs: nat, rest: string, width: Width, external: External)
    requires !s.esc && !s.escex && !s.metaDel && s.ed.line == Line("", "") && Printable(text) && text != ""
    requires s.ed.at == |s.ed.entries| && ups <= downs
    ensures Run(s, text + (Repeat(CTRL_P, ups) + Repeat(CTRL_N, downs) + ([ENTER] + rest)), width, external).1 == Entered(text)
  {
    hide Ups, Downs, Up, Down, Repeat, Newest;
    var keys := [ENTER] + rest;
    Typed(s, text, Repeat(CTRL_P, ups) + Repeat(CTRL_N, downs) + keys, width, external);
    var typed := s.(ed := s.ed.(line := Line(text, "")));
    assert "" + text == text;
    RunNavigation(typed, ups, downs, keys, width, external);
    DraftRestored(typed.ed, ups, downs);
    assert keys[0] == ENTER;
  }

  /** A key sent as ESC [ and a character. */
  lemma BracketedKey(s: State, r: char, rest: string, width: Width, external: External)
    requires !s.esc && !s.escex
    requires BracketKey(s, r, rest, width).Go? && BracketKey(s, r, rest, width).used == 0
    ensures Run(s, [ESC, '[', r] + rest, width, external) == Run(BracketKey(s, r, rest, width).s, rest, width, external)
  {
    hide BracketKey;
    var keys := [ESC, '[', r] + rest;
    RunStep(s, keys, 0, width, external);
    RunStep(s.(esc := true), keys, 1, width, external);
    RunStep(s.(escex := true), keys, 2, width, external);
    assert keys[0..] == keys && keys[3..] == rest;
    assert keys[0] == ESC && keys[1] == '[' && keys[2] == r;
    assert s.(escex := true).(escex := false) == s;
  }

  /** The arrow keys, sent as three characters, do what the control keys do. */
  lemma ArrowKeys(s: State, rest: string, width: Width, external: External)
    requires !s.esc && !s.escex
    ensures forall p :: p in {('A', CTRL_P), ('B', CTRL_N), ('C', CTRL_F), ('D', CTRL_B), ('H', CTRL_A), ('F', CTRL_E)} ==>
      Run(s, [ESC, '[', p.0] + rest, width, external) == Run(s, [p.1] + rest, width, external)
  {
    hide Run, Up, Down, Left, Right;
    forall p | p in {('A', CTRL_P), ('B', CTRL_N), ('C', CTRL_F), ('D', CTRL_B), ('H', CTRL_A), ('F', CTRL_E)}
      ensures Run(s, [ESC, '[', p.0] + rest, width, external) == Run(s, [p.1] + rest, width, external)
    {
      BracketedKey(s, p.0, rest, width, external);
      OnePlainKey(s, p.1, rest, width, external);
    }
  }

  /** One plain key that goes on. */
  lemma OnePlainKey(s: State, r: char, rest: string, width: Width, external: External)
    requires !s.esc && !s.escex && PlainKey(s, r, width, external).Go? && PlainKey(s, r, width, external).used == 0
    ensures Run(s, [r] + rest, width, external) == Run(PlainKey(s, r, width, external).s, rest, width, external)
  {
    hide PlainKey;
    var keys := [r] + rest;
    assert keys[0] == r && keys[1..] == rest && rest[0..] == rest;
  }

  // ---- The delete key ---------------------------------------------------------------------

  /** The line after ESC [ 3: the character at the cursor is gone, if anything is shown. */
  function Erased(l: Line, width: Width): Line
  {
    if DisplaySize(Text(l), width) > 0 then EraseAfter(l) else l
  }

  /**
   * The delete key is ESC [ 3 and a tail that the terminal sends along. Of a printable tail the first
   * character is dropped and the others are typed, so the key only erases if and only if the tail is
   * one character.
   */
  lemma DeleteKey(s: State, tail: string, rest: string, width: Width, external: External)
    requires !s.esc && !s.escex && Printable(tail) && tail != ""
    ensures var erased := Erased(s.ed.line, width);
      var line := Line(erased.before + tail[1..], erased.after);
      && Run(s, [ESC, '[', '3'] + tail + rest, width, external)
        == Run(s.(ed := s.ed.(line := line), metaDel := false), rest, width, external)
      && (line == erased <==> |tail| == 1)
  {
    hide Run, Erased;
    var erased := Erased(s.ed.line, width);
    var t := s.(ed := s.ed.(line := erased), metaDel := true);
    assert [ESC, '[', '3'] + tail + rest == [ESC, '[', '3'] + (tail + rest);
    DeleteStart(s, tail + rest, width, external);
    Typed(t, tail, rest, width, external);
    assert |erased.before + tail[1..]| == |erased.before| + |tail| - 1;
    assert tail[1..] == "" ==> erased.before + tail[1..] == erased.before;
  }

  lemma DeleteStart(s: State, more: string, width: Width, external: External)
    requires !s.esc && !s.escex
    ensures Run(s, [ESC, '[', '3'] + more, width, external)
      == Run(s.(ed := s.ed.(line := Erased(s.ed.line, width)), metaDel := true), more, width, external)
  {
    hide Run, EraseAfter, DisplaySize;
    BracketedKey(s, '3', more, width, external);
  }

  /** The plain delete key: its own `~` is what is dropped, so no typed text is lost. */
  lemma PlainDeleteKey(s: State, rest: string, width: Width, external: External)
    requires !s.esc && !s.escex
    ensures Run(s, [ESC, '[', '3', '~'] + rest, width, external)
      == Run(s.(ed := s.ed.(line := Erased(s.ed.line, width)), metaDel := false), rest, width, external)
  {
    hide Run, Erased;
    DeleteKey(s, "~", rest, width, external);
    assert [ESC, '[', '3'] + "~" + rest == [ESC, '[', '3', '~'] + rest;
  }

  /** Delete with control held, ESC [ 3 ; 5 ~, also types the end of its own sequence. */
  lemma ModifiedDeleteKey(s: State, rest: string, width: Width, external: External)
    requires !s.esc && !s.escex
    ensures var erased := Erased(s.ed.line, width);
      Run(s, [ESC, '[', '3', ';', '5', '~'] + rest, width, external)
      == Run(s.(ed := s.ed.(line := Line(erased.before + "5~", erased.after)), metaDel := false), rest, width, external)
  {
    hide Run, Erased;
    DeleteKey(s, ";5~", rest, width, external);
    assert [ESC, '[', '3'] + ";5~" + rest == [ESC, '[', '3', ';', '5', '~'] + rest;
    assert ";5~"[1..] == "5~";
  }

  // ---- Keys that undo each other ----------------------------------------------------------

  predicate IsMotion(r: char)
  {
    r == CTRL_A || r == CTRL_E || r == CTRL_B || r == CTRL_F
  }

  /** Any sequence of cursor keys leaves the text as it is and everything but the cursor untouched. */
  lemma {:induction false} MotionKeepsText(s: State, keys: string, rest: string, width: Width, external: External)
    returns (line: Line)
    requires !s.esc && !s.escex && forall i :: 0 <= i < |keys| ==> IsMotion(keys[i])
    ensures Text(line) == Text(s.ed.line)
    ensures Run(s, keys + rest, width, external) == Run(s.(ed := s.ed.(line := line)), rest, width, external)
    decreases |keys|
  {
    if keys == "" {
      assert keys + rest == rest;
      line := s.ed.line;
    } else {
      hide Run, IsMotion;
      line := OneMotion(s, keys[0], keys[1..] + rest, width, external);
      line := MotionKeepsText(s.(ed := s.ed.(line := line)), keys[1..], rest, width, external);
      FirstKey(keys, rest);
    }
  }

  lemma FirstKey(keys: string, rest: string)
    requires keys != ""
    ensures keys + rest == [keys[0]] + (keys[1..] + rest)
  {
  }

  lemma OneMotion(s: State, r: char, rest: string, width: Width, external: External) returns (line: Line)
    requires !s.esc && !s.escex && IsMotion(r)
    ensures Text(line) == Text(s.ed.line)
    ensures Run(s, [r] + rest, width, external) == Run(s.(ed := s.ed.(line := line)), rest, width, external)
  {
    hide Run, Left, Right;
    line := PlainKey(s, r, width, external).s.ed.line;
    OnePlainKey(s, r, rest, width, external);
    MovesKeepText(s.ed.line);
  }

  lemma {:induction false} RepeatFirst(c: char, k: nat)
    requires k > 0
    ensures Repeat(c, k) == [c] + Repeat(c, k - 1)
  {
    if k > 1 {
      RepeatFirst(c, k - 1);
    }
  }

  lemma Nested(c: char, a: string, b: string, d: char, rest: string)
    ensures ([c] + a) + (b + [d]) + rest == [c] + (a + b + ([d] + rest))
  {
  }

  /** Left and as often right again, within the line, changes nothing. */
  lemma {:induction false} LeftsThenRights(s: State, k: nat, rest: string, width: Width, external: External)
    requires !s.esc && !s.escex && k <= |s.ed.line.before|
    ensures Run(s, Repeat(CTRL_B, k) + Repeat(CTRL_F, k) + rest, width, external) == Run(s, rest, width, external)
    decreases k
  {
    hide Run, Left, Repeat;
    RepeatSteps(CTRL_B, 0);
    RepeatSteps(CTRL_F, 0);
    if k == 0 {
      assert "" + "" + rest == rest;
    } else {
      var lefts, rights := Repeat(CTRL_B, k - 1), Repeat(CTRL_F, k - 1);
      RepeatFirst(CTRL_B, k);
      RepeatSteps(CTRL_F, k - 1);
      LeftRightKeys(s, lefts + rights + ([CTRL_F] + rest), rest, width, external);
      LeftsThenRights(s.(ed := s.ed.(line := Left(s.ed.line))), k - 1, [CTRL_F] + rest, width, external);
      Nested(CTRL_B, lefts, rights, CTRL_F, rest);
    }
  }

  lemma LeftRightKeys(s: State, more: string, rest: string, width: Width, external: External)
    requires !s.esc && !s.escex && s.ed.line.before != ""
    ensures var t := s.(ed := s.ed.(line := Left(s.ed.line)));
      && |t.ed.line.before| == |s.ed.line.before| - 1
      && Run(s, [CTRL_B] + more, width, external) == Run(t, more, width, external)
      && Run(t, [CTRL_F] + rest, width, external) == Run(s, rest, width, external)
  {
    hide Run;
    var t := s.(ed := s.ed.(line := Left(s.ed.line)));
    OnePlainKey(s, CTRL_B, more, width, external);
    OnePlainKey(t, CTRL_F, rest, width, external);
    LeftThenRight(s.ed.line);
  }

  /** Typed text that is erased again, character by character, leaves no trace. */
  lemma {:induction false} TypedThenErased(s: State, text: string, rest: string, width: Width, external: External)
    requires !s.esc && !s.escex && !s.metaDel && Printable(text)
    ensures Run(s, text + Repeat(BACKSPACE, |text|) + rest, width, external) == Run(s, rest, width, external)
    decreases |text|
  {
    hide Run, AfterTyping, Printable, Repeat;
    if text == "" {
      RepeatSteps(BACKSPACE, 0);
      assert text + "" + rest == rest;
    } else {
      var c, tail := text[0], text[1..];
      assert text == [c] + tail;
      PrintableParts(c, tail);
      RepeatSteps(BACKSPACE, |tail|);
      TypedFlags(s, c);
      TypedThenErased(AfterTyping(s, [c]), tail, [BACKSPACE] + rest, width, external);
      TypedAround(s, c, tail, Repeat(BACKSPACE, |tail|), rest, width, external);
    }
  }

  lemma RepeatSteps(c: char, k: nat)
    ensures Repeat(c, 0) == "" && Repeat(c, k + 1) == Repeat(c, k) + [c]
  {
  }

  lemma PrintableParts(c: char, tail: string)
    requires Printable([c] + tail)
    ensures Printable([c]) && Printable(tail)
  {
    assert ([c] + tail)[0] == c;
    assert forall i :: 0 <= i < |tail| ==> tail[i] == ([c] + tail)[i + 1];
  }

  lemma TypedAround(s: State, c: char, tail: string, erasing: string, rest: string, width: Width, external: External)
    requires !s.esc && !s.escex && !s.metaDel && Printable([c])
    requires var t, more := AfterTyping(s, [c]), [BACKSPACE] + rest;
      Run(t, tail + erasing + more, width, external) == Run(t, more, width, external)
    ensures Run(s, ([c] + tail) + (erasing + [BACKSPACE]) + rest, width, external) == Run(s, rest, width, external)
  {
    hide Run, AfterTyping, Printable;
    Nested(c, tail, erasing, BACKSPACE, rest);
    TypedOne(s, c, tail + erasing + ([BACKSPACE] + rest), width, external);
    EraseTyped(s, c, rest, width, external);
  }

  lemma TypedFlags(s: State, c: char)
    requires !s.esc && !s.escex
    ensures var t := AfterTyping(s, [c]); !t.esc && !t.escex && !t.metaDel
  {
  }

  lemma EraseTyped(s: State, c: char, rest: string, width: Width, external: External)
    requires !s.esc && !s.escex && !s.metaDel
    ensures Run(AfterTyping(s, [c]), [BACKSPACE] + rest, width, external) == Run(s, rest, width, external)
  {
    hide Run;
    OnePlainKey(AfterTyping(s, [c]), BACKSPACE, rest, width, external);
    EraseUndoesInsert(s.ed.line, c);
    assert AfterTyping(s, [c]).ed.line == Insert(s.ed.line, c);
  }

  /** Typing a killed word again brings the line back. */
  lemma KillWordThenRetype(s: State, rest: string, width: Width, external: External)
    requires !s.esc && !s.escex && !s.metaDel
    requires var killed := s.ed.line.before[WordStart(s.ed.line.before)..]; killed != "" && Printable(killed)
    ensures var killed := s.ed.line.before[WordStart(s.ed.line.before)..];
      Run(s, [CTRL_W] + killed + rest, width, external) == Run(s, rest, width, external)
  {
    hide Run, WordStart;
    var killed := s.ed.line.before[WordStart(s.ed.line.before)..];
    var t := s.(ed := s.ed.(line := KillWord(s.ed.line)));
    assert [CTRL_W] + killed + rest == [CTRL_W] + (killed + rest);
    OnePlainKey(s, CTRL_W, killed + rest, width, external);
    Typed(t, killed, rest, width, external);
    KillWordIsMove(s.ed.line);
  }

  // ---- The history file -------------------------------------------------------------------

  predicate Storable(entry: string)
  {
    entry != "" && TrimSpace(entry) == entry && '\n' !in entry
  }

  lemma {:induction false} TrimKeepsOut(s: string)
    requires '\n' !in s
    ensures '\n' !in TrimSpace(s) && TrimSpace(TrimSpace(s)) == TrimSpace(s)
    decreases |s|
  {
    if s != "" {
      if IsSpace(s[0]) {
        TrimKeepsOut(s[1..]);
      } else if IsSpace(s[|s| - 1]) {
        TrimKeepsOut(s[..|s| - 1]);
      }
    }
  }

  lemma {:induction false} KeptStorable(lines: seq<string>)
    requires forall i :: 0 <= i < |lines| ==> '\n' !in lines[i]
    ensures forall i :: 0 <= i < |Kept(lines)| ==> Storable(Kept(lines)[i])
  {
    hide TrimSpace;
    if lines != [] {
      TrimKeepsOut(lines[0]);
      KeptStorable(lines[1..]);
    }
  }

  lemma {:induction false} KeptAll(entries: seq<string>)
    requires forall i :: 0 <= i < |entries| ==> Storable(entries[i])
    ensures Kept(entries) == entries
  {
    hide TrimSpace;
    if entries != [] {
      assert Storable(entries[0]);
      KeptAll(entries[1..]);
    }
  }

  /**
   * Saving the history and loading it again gives the same entries exactly when there are no more
   * than the limit and each is a non-empty single line without spaces around it.
   */
  lemma SaveThenLoad(entries: seq<string>)
    ensures Load(Save(entries)) == entries <==>
      |entries| <= LIMIT && forall i :: 0 <= i < |entries| ==> Storable(entries[i])
  {
    hide Split, IndexOf, TrimSpace, Terminated;
    var file := Save(entries);
    var lines := Split("\n", file).frames;
    SplitClean("\n", file);
    forall i | 0 <= i < |lines| ensures '\n' !in lines[i] {
      NoNewline(lines[i]);
    }
    KeptStorable(lines);
    if |entries| <= LIMIT && forall i :: 0 <= i < |entries| ==> Storable(entries[i]) {
      forall i | 0 <= i < |entries| ensures IndexOf(entries[i], "\n") == -1 {
        assert Storable(entries[i]);
        NoNewline(entries[i]);
      }
      NoNewline("");
      SplitUnique(entries, "");
      assert file + "" == file;
      KeptAll(entries);
    }
  }

  /** An entry that starts with a space comes back changed. */
  lemma SaveThenLoadExample()
    ensures Load(Save([" x"])) != [" x"]
  {
    hide Load, Save;
    assert TrimSpace(" x") == TrimSpace("x");
    assert !Storable([" x"][0]);
    SaveThenLoad([" x"]);
  }
}
