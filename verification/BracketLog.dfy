/** The log writer that passes on complete lines and keeps a line whose write to the sink failed. */
module BracketLog {
  import opened Prelude
  import opened Framing

  /** A line taken from the front of the buffer and accepted: the bytes stay the same. */
  lemma MoveLine(taken: seq<string>, line: string, rest: string, buf: string)
    requires buf == line + "\n" + rest
    ensures Terminated("\n", taken + [line]) + rest == Terminated("\n", taken) + buf
  {
    TerminatedAppend("\n", taken, [line]);
    TerminatedStep("\n", line, []);
    TerminatedNone("\n");
    assert [line] + [] == [line];
    assert Terminated("\n", taken) + (line + "\n") + rest == Terminated("\n", taken) + (line + "\n" + rest);
  }

  /**
   * `sink(k)` says whether the k-th write to the underlying writer succeeds; one that fails writes
   * nothing. `accepted` holds the lines the sink took, without their timestamps, and `written`
   * all bytes ever given to Write.
   */
  class BracketWriter {
    const sink: nat -> bool
    var buf: string
    var attempts: nat
    var accepted: seq<string>
    ghost var written: string

    /** Nothing is lost: the accepted lines, re-terminated, and the buffer are all that was written. */
    ghost predicate Valid()
      reads this
    {
      && Terminated("\n", accepted) + buf == written
      && forall i :: 0 <= i < |accepted| ==> IndexOf(accepted[i], "\n") == -1
    }

    constructor (sink: nat -> bool)
      ensures Valid() && this.sink == sink
      ensures buf == "" && attempts == 0 && accepted == [] && written == ""
    {
      this.sink := sink;
      buf, attempts, accepted, written := "", 0, [], "";
    }

    /** fmt.Fprintf of one line to the sink. */
    method Forward(line: string) returns (ok: bool)
      modifies this`attempts, this`accepted
      ensures ok == sink(old(attempts)) && attempts == old(attempts) + 1
      ensures accepted == if ok then old(accepted) + [line] else old(accepted)
    {
      ok := sink(attempts);
      attempts := attempts + 1;
      if ok {
        accepted := accepted + [line];
      }
    }

    /**
     * Always reports |p|. On success the accepted lines are exactly the complete lines of all bytes
     * ever written, whatever failed earlier; on failure the line that was refused leads the buffer.
     */
    method Write(p: string) returns (n: nat, ok: bool)
      requires Valid()
      modifies this
      ensures Valid() && n == |p| && written == old(written) + p
      ensures old(accepted) <= accepted
      ensures ok ==> Framed(accepted, buf) == Split("\n", written)
      ensures ok <==> forall k :: old(attempts) <= k < attempts ==> sink(k)
      ensures !ok ==> IndexOf(buf, "\n") != -1 && attempts > 0 && !sink(attempts - 1)
      ensures attempts == old(attempts) + |accepted| - |old(accepted)| + if ok then 0 else 1
    {
      n, ok := |p|, true;
      buf := buf + p;
      written := written + p;
      assert Terminated("\n", accepted) + (old(buf) + p) == Terminated("\n", accepted) + old(buf) + p;
      var idx := IndexOf(buf, "\n");
      while idx >= 0
        invariant Valid() && written == old(written) + p
        invariant idx == IndexOf(buf, "\n")
        invariant old(accepted) <= accepted
        invariant forall k :: old(attempts) <= k < attempts ==> sink(k)
        invariant attempts == old(attempts) + |accepted| - |old(accepted)|
        decreases |buf|
      {
        var line := buf[..idx];
        BeforeFirst(buf, "\n");
        AroundFirst(buf, "\n");
        ok := Forward(line);
        if !ok {
          return;
        }
        MoveLine(accepted[..|accepted| - 1], line, buf[idx + 1..], buf);
        assert accepted == accepted[..|accepted| - 1] + [line];
        buf := buf[idx + 1..];
        idx := IndexOf(buf, "\n");
      }
      SplitUnique(accepted, buf);
    }
  }

  /**
   * With a sink that never fails, the accepted lines and the buffer are those of the concatenated
   * input, so they do not depend on how it was cut.
   */
  method WriteAll(pieces: seq<string>) returns (w: BracketWriter)
    ensures Framed(w.accepted, w.buf) == Split("\n", Concat(pieces))
  {
    w := new BracketWriter(_ => true);
    assert Split("\n", "") == Framed([], "");
    var i := 0;
    while i < |pieces|
      invariant 0 <= i <= |pieces|
      invariant w.Valid() && w.sink == (_ => true) && fresh(w)
      invariant w.written == Concat(pieces[..i])
      invariant Framed(w.accepted, w.buf) == Split("\n", w.written)
    {
      assert pieces[..i + 1] == pieces[..i] + [pieces[i]];
      ConcatSnoc(pieces[..i], pieces[i]);
      var n, ok := w.Write(pieces[i]);
      i := i + 1;
    }
    assert pieces[..i] == pieces;
  }
}
