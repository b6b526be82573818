/**
 * A `bufio.Scanner` reading line by line, over input that has already been
 * cut into lines (the line terminators are gone, as `bufio.ScanLines`
 * leaves them).
 */
module LineScanner {
  /** The `i`th line, or "" past the end: what `Text()` gives after that many `Scan`s. */
  function LineAt(lines: seq<string>, i: nat): (line: string)
    ensures i < |lines| ==> line == lines[i]
    ensures i >= |lines| ==> line == ""
  {
    if i < |lines| then lines[i] else ""
  }

  /** The unread lines from position `pos` on are the lines counted from there. */
  lemma LineAtSuffix(lines: seq<string>, pos: nat, i: nat)
    requires pos <= |lines|
    ensures LineAt(lines[pos..], i) == LineAt(lines, pos + i)
  {
    if pos + i < |lines| {
      assert lines[pos..][i] == lines[pos + i];
    }
  }

  class Scanner {
    /** The input, one entry per line. */
    const lines: seq<string>
    /** How many lines have been consumed. */
    var pos: nat
    /** The token the last `Scan` produced. */
    var text: string

    ghost predicate Valid()
      reads this
    {
      pos <= |lines|
    }

    constructor (lines: seq<string>)
      ensures Valid()
      ensures this.lines == lines && pos == 0 && text == ""
    {
      this.lines := lines;
      pos := 0;
      text := "";
    }

    /** The unread lines. */
    ghost function Remaining(): seq<string>
      requires Valid()
      reads this
    {
      lines[pos..]
    }

    /**
     * `Scan`: advance to the next line and report whether there was one.
     * At the end of input the token becomes empty and the position stays.
     */
    method Scan() returns (ok: bool)
      requires Valid()
      modifies this
      ensures Valid()
      ensures ok <==> old(pos) < |lines|
      ensures pos == if ok then old(pos) + 1 else old(pos)
      ensures text == LineAt(lines, old(pos))
      ensures ok ==> Remaining() == old(Remaining())[1..]
    {
      if pos < |lines| {
        text := lines[pos];
        pos := pos + 1;
        ok := true;
      } else {
        text := "";
        ok := false;
      }
    }
  }
}
