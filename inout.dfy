/** The terminal boundary (inout.py): line-buffered input, one word per call, and
    one character per output word. The console is replaced by a script of input lines and a
    log of the code points written. */
module InOut {
  import opened Base
  import opened Words

  /** The terminal's abstract state: the unread rest of the current line, the lines the user
      will still type, and every code point written so far. */
  datatype TermState = TermState(buffer: string, lines: seq<string>, written: seq<nat>)

  /** The `while _input_buffer == ''` refill loop: skips empty lines and yields the first
      non-empty one with its terminator, and the lines after it; `None` when the script ends
      first (where the console would raise end-of-file). */
  function Refill(lines: seq<string>): (r: Option<(string, seq<string>)>)
    ensures r.Some? ==> |r.value.0| >= 2 && r.value.0[|r.value.0| - 1] == '\n'
    ensures r.Some? ==> |r.value.1| < |lines|
    decreases |lines|
  {
    if lines == [] then None
    else if lines[0] == "" then Refill(lines[1..])
    else Some((lines[0] + "\n", lines[1..]))
  }

  /** The code point of a character, reduced as `ord(ch) % 32768`. */
  function CodeOf(ch: char): (code: nat)
    ensures IsWord(code)
    ensures (ch as int) < Modulus ==> code == ch as int
  {
    (ch as int) % Modulus
  }

  /** `input_word`: the next word and the terminal afterwards. When the script runs out the
      word is absent and the empty lines read on the way are gone. */
  function ReadWord(t: TermState): (r: (Option<nat>, TermState))
    ensures r.0.Some? ==> IsWord(r.0.value)
    ensures r.1.written == t.written
    ensures t.buffer != "" ==> r.0.Some? && r.1.lines == t.lines && |r.1.buffer| == |t.buffer| - 1
    ensures r.0.None? ==> t.buffer == "" && r.1.buffer == "" && r.1.lines == []
    ensures |r.1.lines| <= |t.lines|
  {
    if t.buffer != "" then (Some(CodeOf(t.buffer[0])), t.(buffer := t.buffer[1..]))
    else match Refill(t.lines)
      case None => (None, t.(lines := []))
      case Some((line, rest)) => (Some(CodeOf(line[0])), t.(buffer := line[1..], lines := rest))
  }

  /** `output_word`: the code point that is written for a word. */
  function OutputCode(w: nat): (code: nat)
    ensures IsWord(code)
    ensures IsWord(w) ==> code == w
  {
    w % Modulus
  }

  /** The console as an object, so that the machine owns it explicitly instead of a module
      global. */
  class Terminal {
    var buffer: string
    var lines: seq<string>
    var written: seq<nat>

    function State(): TermState
      reads this
    {
      TermState(buffer, lines, written)
    }

    constructor (script: seq<string>)
      ensures State() == TermState("", script, [])
    {
      buffer, lines, written := "", script, [];
    }

    /** `input_word`, with `input()` taking the next scripted line. */
    method InputWord() returns (w: Option<nat>)
      modifies this
      ensures (w, State()) == ReadWord(old(State()))
    {
      if buffer == "" {
        while buffer == "" && lines != []
          invariant written == old(written)
          invariant buffer == "" ==> Refill(lines) == Refill(old(lines))
          invariant buffer != "" ==> Refill(old(lines)) == Some((buffer + "\n", lines))
          decreases |lines|
        {
          buffer, lines := lines[0], lines[1..];
        }
        if buffer == "" {
          return None;
        }
        buffer := buffer + "\n";
      }
      w := Some(CodeOf(buffer[0]));
      buffer := buffer[1..];
    }

    /** `output_word`: writes the character of `w % 32768`. */
    method OutputWord(w: nat)
      modifies this
      ensures State() == old(State()).(written := old(written) + [OutputCode(w)])
    {
      written := written + [w % Modulus];
    }
  }

  // ---------------------------------------------------------------------------------------
  // Properties of the input and output reductions

  /** Every word read is a word. */
  lemma ReadWordIsWord(t: TermState)
    ensures ReadWord(t).0.Some? ==> IsWord(ReadWord(t).0.value)
    ensures ReadWord(t).1.written == t.written
  {
  }

  /** With characters buffered, the first is returned and the rest stay buffered; no line is read. */
  lemma ReadWordBuffered(t: TermState)
    requires t.buffer != ""
    ensures ReadWord(t) == (Some(CodeOf(t.buffer[0])), TermState(t.buffer[1..], t.lines, t.written))
  {
  }

  /** Reading `n` words in a row: the words read and the terminal afterwards, or `None` when
      the script runs out before `n` words. */
  function ReadWords(t: TermState, n: nat): Option<(seq<nat>, TermState)>
    decreases n
  {
    if n == 0 then Some(([], t))
    else
      var (w, t') := ReadWord(t);
      match w
      case None => None
      case Some(v) =>
        match ReadWords(t', n - 1)
        case None => None
        case Some((vs, t'')) => Some(([v] + vs, t''))
  }

  /** The code points of a string. */
  function Codes(s: string): (r: seq<nat>)
    ensures |r| == |s|
    ensures forall i :: 0 <= i < |s| ==> r[i] == CodeOf(s[i])
  {
    if s == [] then [] else [CodeOf(s[0])] + Codes(s[1..])
  }

  predicate AllEmpty(lines: seq<string>)
  {
    forall i :: 0 <= i < |lines| ==> lines[i] == ""
  }

  /** The refill loop skips any run of empty lines and stops at the first non-empty one. */
  lemma {:induction false} RefillSkipsEmptyLines(empties: seq<string>, line: string, rest: seq<string>)
    requires AllEmpty(empties) && line != ""
    ensures Refill(empties + [line] + rest) == Some((line + "\n", rest))
    decreases |empties|
  {
    if empties != [] {
      assert (empties + [line] + rest)[1..] == empties[1..] + [line] + rest;
      RefillSkipsEmptyLines(empties[1..], line, rest);
    }
  }

  /** A script with no non-empty line leaves `input_word` without a word. */
  lemma {:induction false} RefillOnlyEmptyLines(lines: seq<string>)
    requires AllEmpty(lines)
    ensures Refill(lines) == None
    decreases |lines|
  {
    if lines != [] {
      RefillOnlyEmptyLines(lines[1..]);
    }
  }

  /** Draining a buffer yields its characters, in order, and reads no line. */
  lemma {:induction false} DrainBuffer(t: TermState)
    ensures ReadWords(t, |t.buffer|) == Some((Codes(t.buffer), t.(buffer := "")))
    decreases |t.buffer|
  {
    if t.buffer != "" {
      var t' := t.(buffer := t.buffer[1..]);
      assert ReadWord(t) == (Some(CodeOf(t.buffer[0])), t');
      DrainBuffer(t');
      assert t'.(buffer := "") == t.(buffer := "");
    }
  }

  /** From an empty buffer, the next `|line| + 1` words are the characters of the next
      non-empty line followed by `'\n'`; afterwards the buffer is empty again and only the
      lines after it remain. */
  lemma ReadsWholeLine(t: TermState, empties: seq<string>, line: string, rest: seq<string>)
    requires t.buffer == "" && t.lines == empties + [line] + rest
    requires AllEmpty(empties) && line != ""
    ensures ReadWords(t, |line| + 1) == Some((Codes(line + "\n"), TermState("", rest, t.written)))
  {
    RefillSkipsEmptyLines(empties, line, rest);
    var full := line + "\n";
    var t1 := TermState(full[1..], rest, t.written);
    assert ReadWord(t) == (Some(CodeOf(full[0])), t1);
    DrainBuffer(t1);
    assert |t1.buffer| == |line|;
    assert Codes(full) == [CodeOf(full[0])] + Codes(full[1..]);
  }

  /** `output_word` writes the identity on words and is periodic with period 32768. */
  lemma OutputCodeReduces(w: nat)
    ensures IsWord(OutputCode(w))
    ensures IsWord(w) ==> OutputCode(w) == w
    ensures OutputCode(w + Modulus) == OutputCode(w)
  {
  }
}
