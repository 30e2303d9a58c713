/**
 * The prompt's line editor. The buffer is a list of characters with a cursor index; it behaves as
 * the text before the cursor and the text after it. What it draws on the terminal is not modelled.
 */
module LineEditor {
  import opened Prelude

  /** Columns a character takes on the screen. */
  type Width = char -> nat

  datatype Line = Line(before: string, after: string)

  function Text(l: Line): string
  {
    l.before + l.after
  }

  function DisplaySize(text: string, width: Width): nat
  {
    Sum(text, width)
  }

  // ---- Words ------------------------------------------------------------------------------

  /** k is where the last word of s starts: a maximal run without spaces, then only spaces. */
  ghost predicate IsWordStart(s: string, k: nat)
  {
    exists m :: LastWord(s, k, m)
  }

  ghost predicate LastWord(s: string, k: nat, m: int)
  {
    && k <= m <= |s|
    && (forall i :: k <= i < m ==> s[i] != ' ')
    && (forall i :: m <= i < |s| ==> s[i] == ' ')
    && (k == m ==> k == 0)
    && (k > 0 ==> s[k - 1] == ' ')
  }

  function RunStart(s: string): (k: nat)
    ensures k <= |s| && (forall i :: k <= i < |s| ==> s[i] != ' ')
    ensures k > 0 ==> s[k - 1] == ' '
  {
    if s != "" && s[|s| - 1] != ' ' then RunStart(s[..|s| - 1]) else |s|
  }

  function WordStart(s: string): (k: nat)
    ensures k <= |s| && IsWordStart(s, k)
  {
    if s != "" && s[|s| - 1] == ' ' then
      var k := WordStart(s[..|s| - 1]);
      assert IsWordStart(s, k) by {
        var m :| LastWord(s[..|s| - 1], k, m);
        assert LastWord(s, k, m);
      }
      k
    else
      var k := RunStart(s);
      assert LastWord(s, k, |s|);
      k
  }

  /** How the start of the last word depends on the last character. */
  lemma WordStartSteps(s: string)
    ensures s == "" ==> WordStart(s) == RunStart(s) == 0
    ensures s != "" && s[|s| - 1] == ' ' ==> WordStart(s) == WordStart(s[..|s| - 1]) && RunStart(s) == |s|
    ensures s != "" && s[|s| - 1] != ' ' ==> WordStart(s) == RunStart(s) == RunStart(s[..|s| - 1])
  {
  }

  /** The character before an index, if any. */
  function Before(s: string, i: nat): Option<char>
    requires i <= |s|
  {
    if i == 0 then None else Some(s[i - 1])
  }

  /** There is only one such place. */
  lemma WordStartUnique(s: string, k: nat)
    requires IsWordStart(s, k)
    ensures k == WordStart(s)
  {
    var m :| LastWord(s, k, m);
    var w := WordStart(s);
    var n :| LastWord(s, w, n);
    var ends := (Before(s, m), Before(s, n), Before(s, k), Before(s, w));
    assert m == n;
  }

  /** k is the next place after the cursor that is at a space or at the end. */
  ghost predicate IsNextStop(s: string, k: nat)
  {
    0 < k <= |s| && (forall i :: 0 < i < k ==> s[i] != ' ') && (k < |s| ==> s[k] == ' ')
  }

  function NextStop(s: string, from: nat): (k: nat)
    requires 0 < from <= |s|
    requires forall i :: 0 < i < from ==> s[i] != ' '
    ensures IsNextStop(s, k)
    decreases |s| - from
  {
    if from == |s| || s[from] == ' ' then from else NextStop(s, from + 1)
  }

  // ---- What each editing operation does ---------------------------------------------------

  function Left(l: Line): Line
  {
    if l.before == "" then l else Line(l.before[..|l.before| - 1], [l.before[|l.before| - 1]] + l.after)
  }

  function Right(l: Line): Line
  {
    if l.after == "" then l else Line(l.before + [l.after[0]], l.after[1..])
  }

  /** Moves the cursor to position k of the text. */
  function Place(l: Line, k: nat): Line
    requires k <= |Text(l)|
  {
    Line(Text(l)[..k], Text(l)[k..])
  }

  function LeftWord(l: Line): Line
  {
    Place(l, WordStart(l.before))
  }

  lemma LeftWordIs(l: Line, text: string, pos: nat)
    requires Text(l) == text && pos == WordStart(l.before)
    ensures LeftWord(l) == Line(text[..pos], text[pos..])
  {
    hide WordStart;
  }

  function RightWord(l: Line): Line
  {
    if l.after == "" then l else Place(l, |l.before| + NextStop(l.after, 1))
  }

  function Insert(l: Line, c: char): Line
  {
    Line(l.before + [c], l.after)
  }

  function EraseBefore(l: Line): Line
  {
    if l.before == "" then l else Line(l.before[..|l.before| - 1], l.after)
  }

  function EraseAfter(l: Line): Line
  {
    if l.after == "" then l else Line(l.before, l.after[1..])
  }

  /** The guard compares the cursor, an index, with the display size, a number of columns. */
  function KillAfter(l: Line, width: Width): Line
  {
    if |l.before| < DisplaySize(Text(l), width) then Line(l.before, "") else l
  }

  function KillWord(l: Line): Line
  {
    Line(l.before[..WordStart(l.before)], l.after)
  }

  class Buffer {
    var buf: seq<char>
    var pos: nat
    const width: Width

    ghost predicate Valid()
      reads this
    {
      pos <= |buf|
    }

    ghost function Zip(): (l: Line)
      requires Valid()
      reads this
      ensures Text(l) == buf && |l.before| == pos
    {
      Line(buf[..pos], buf[pos..])
    }

    constructor (width: Width)
      ensures Valid() && Zip() == Line("", "") && this.width == width
    {
      buf, pos, this.width := [], 0, width;
    }

    method MoveLeft()
      requires Valid()
      modifies this`pos
      ensures Valid() && Zip() == Left(old(Zip()))
    {
      if pos > 0 {
        pos := pos - 1;
        assert buf[..pos + 1][..pos] == buf[..pos];
      }
    }

    method MoveRight()
      requires Valid()
      modifies this`pos
      ensures Valid() && Zip() == Right(old(Zip()))
    {
      if pos < |buf| {
        pos := pos + 1;
      }
    }

    method MoveLeftWord()
      requires Valid()
      modifies this`pos
      ensures Valid() && Zip() == LeftWord(old(Zip()))
    {
      hide WordStart, RunStart, LeftWord;
      ghost var start, line, text := pos, Zip(), buf;
      WordStartSteps(line.before);
      if pos > 0 {
        var foundNonspace := false;
        while true
          invariant 0 < pos <= start && buf == text
          invariant WordStart(line.before) == if foundNonspace then RunStart(buf[..pos]) else WordStart(buf[..pos])
          decreases pos
        {
          WordStartSteps(buf[..pos]);
          assert buf[..pos][..pos - 1] == buf[..pos - 1];
          if buf[pos - 1] == ' ' {
            if foundNonspace {
              break;
            }
          } else {
            foundNonspace := true;
          }
          MoveLeft();
          if pos == 0 {
            WordStartSteps(buf[..pos]);
            break;
          }
        }
      }
      LeftWordIs(line, text, pos);
    }

    method MoveRightWord()
      requires Valid()
      modifies this`pos
      ensures Valid() && Zip() == RightWord(old(Zip()))
    {
      if pos < |buf| {
        ghost var start, after := pos, buf[pos..];
        while true
          invariant start <= pos < |buf|
          invariant forall i :: 0 < i <= pos - start ==> after[i] != ' '
          invariant NextStop(after, 1) == if pos == start then NextStop(after, 1) else NextStop(after, pos - start)
          decreases |buf| - pos
        {
          MoveRight();
          if pos < |buf| && buf[pos] == ' ' {
            break;
          }
          if pos == |buf| {
            break;
          }
        }
      }
    }

    method MoveToStart()
      requires Valid()
      modifies this`pos
      ensures Valid() && Zip() == Line("", old(Text(Zip())))
    {
      if pos > 0 {
        pos := 0;
      }
    }

    method MoveToEnd()
      requires Valid()
      modifies this`pos
      ensures Valid() && Zip() == Line(old(Text(Zip())), "")
    {
      if pos < |buf| {
        pos := |buf|;
      }
    }

    method Add(r: char)
      requires Valid()
      modifies this`pos, this`buf
      ensures Valid() && Zip() == Insert(old(Zip()), r)
    {
      if pos == |buf| {
        buf := buf + [r];
      } else {
        buf := buf[..pos] + [r] + buf[pos..];
      }
      pos := pos + 1;
    }

    method Remove()
      requires Valid()
      modifies this`pos, this`buf
      ensures Valid() && Zip() == EraseBefore(old(Zip()))
    {
      if |buf| > 0 && pos > 0 {
        pos := pos - 1;
        buf := buf[..pos] + buf[pos + 1..];
      }
    }

    method Delete()
      requires Valid()
      modifies this`buf
      ensures Valid() && Zip() == EraseAfter(old(Zip()))
    {
      if |buf| > 0 && pos < |buf| {
        buf := buf[..pos] + buf[pos + 1..];
      }
    }

    method DeleteBefore()
      requires Valid()
      modifies this`pos, this`buf
      ensures Valid() && Zip() == Line("", old(Zip().after))
    {
      var cnt := pos - 1;
      while cnt >= 0
        invariant Valid() && cnt == pos - 1
        invariant Zip().after == old(Zip().after)
      {
        Remove();
        cnt := cnt - 1;
      }
    }

    method DeleteRemaining()
      requires Valid()
      modifies this`buf
      ensures Valid() && Zip() == KillAfter(old(Zip()), width)
    {
      if DisplaySize(buf, width) > 0 && pos < DisplaySize(buf, width) {
        var charsToDel := |buf| - pos;
        while charsToDel > 0
          invariant Valid() && charsToDel == |buf| - pos
          invariant Zip().before == old(Zip().before)
        {
          Delete();
          charsToDel := charsToDel - 1;
        }
      }
    }

    method DeleteWord()
      requires Valid()
      modifies this`pos, this`buf
      ensures Valid() && Zip() == KillWord(old(Zip()))
    {
      hide WordStart, RunStart;
      WordStartSteps(Zip().before);
      if |buf| > 0 && pos > 0 {
        var foundNonspace := false;
        while true
          invariant Valid() && pos > 0
          invariant pos <= old(pos) && Zip() == Line(old(buf)[..pos], old(Zip().after))
          invariant WordStart(old(buf)[..old(pos)]) ==
            if foundNonspace then RunStart(old(buf)[..pos]) else WordStart(old(buf)[..pos])
          decreases pos
        {
          WordStartSteps(old(buf)[..pos]);
          assert Zip().before[..pos - 1] == old(buf)[..pos - 1] == old(buf)[..pos][..pos - 1];
          assert buf[pos - 1] == old(buf)[..pos][pos - 1];
          if buf[pos - 1] == ' ' {
            if !foundNonspace {
              Remove();
            } else {
              break;
            }
          } else {
            foundNonspace := true;
            Remove();
          }
          if pos == 0 {
            WordStartSteps(old(buf)[..pos]);
            break;
          }
        }
      }
    }

    method Replace(r: string)
      requires Valid()
      modifies this`pos, this`buf
      ensures Valid() && Zip() == Line(r, "")
    {
      pos, buf := 0, [];
      for i := 0 to |r|
        invariant Valid() && Zip() == Line(r[..i], "")
      {
        Add(r[i]);
      }
    }
  }

  // ---- Facts about the operations ---------------------------------------------------------

  /** Moving never changes the text. */
  lemma MovesKeepText(l: Line)
    ensures Text(Left(l)) == Text(l) && Text(Right(l)) == Text(l)
    ensures Text(LeftWord(l)) == Text(l) && Text(RightWord(l)) == Text(l)
  {
    hide WordStart, NextStop, IsWordStart;
    assert forall k :: 0 <= k <= |Text(l)| ==> Text(Place(l, k)) == Text(l);
  }

  lemma LeftThenRight(l: Line)
    ensures l.before != "" ==> Right(Left(l)) == l
    ensures l.after != "" ==> Left(Right(l)) == l
  {
  }

  lemma EraseUndoesInsert(l: Line, c: char)
    ensures EraseBefore(Insert(l, c)) == l
    ensures EraseAfter(Left(Insert(l, c))) == l
  {
  }

  /** Deleting a word deletes exactly what moving a word to the left passes over. */
  lemma KillWordIsMove(l: Line)
    ensures KillWord(l).before == LeftWord(l).before
    ensures KillWord(l).before + l.before[|KillWord(l).before|..] == l.before
    ensures LeftWord(l).after == l.before[|KillWord(l).before|..] + KillWord(l).after
  {
  }

  lemma {:induction false} WidthsAtLeastOne(text: string, width: Width)
    requires forall i :: 0 <= i < |text| ==> width(text[i]) >= 1
    ensures DisplaySize(text, width) >= |text|
  {
    if text != "" {
      WidthsAtLeastOne(text[1..], width);
    }
  }

  /** Kill to the end of the line empties what follows exactly when the cursor is left of the display size. */
  lemma KillAfterExact(l: Line, width: Width)
    ensures KillAfter(l, width).after == "" <==> l.after == "" || |l.before| < DisplaySize(Text(l), width)
    ensures KillAfter(l, width).before == l.before
    ensures (forall i :: 0 <= i < |Text(l)| ==> width(Text(l)[i]) >= 1) ==> KillAfter(l, width) == Line(l.before, "")
  {
    if forall i :: 0 <= i < |Text(l)| ==> width(Text(l)[i]) >= 1 {
      WidthsAtLeastOne(Text(l), width);
    }
  }

  /** Combining characters take no column; a line of them at its start is not killed. */
  lemma KillAfterMissesZeroWidth(c: char, width: Width)
    requires width(c) == 0
    ensures KillAfter(Line("", [c]), width) == Line("", [c])
  {
    assert "" + [c] == [c];
    assert [c][1..] == "";
    assert Sum([c], width) == width(c) + Sum("", width);
  }
}
