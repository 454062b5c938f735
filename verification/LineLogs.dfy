/** Cutting a byte stream into lines while it arrives in chunks: the process line splitter and the job log collector. */
module LineLogs {
  import opened Common

  const NEWLINE: Byte := 10
  const RETURN: Byte := 13
  const MAX_LINE := 8192
  const JOB_LINES := 500

  // ---------- lines of a whole stream ----------

  /** The first newline of s, or -1. */
  function FirstNewline(s: Bytes): (i: int)
    ensures -1 <= i < |s|
    ensures i >= 0 ==> s[i] == NEWLINE
    ensures forall j :: 0 <= j < (if i < 0 then |s| else i) ==> s[j] != NEWLINE
  {
    if s == [] then -1
    else if s[0] == NEWLINE then 0
    else
      var i := FirstNewline(s[1..]);
      if i < 0 then -1 else i + 1
  }

  /** The lines that a newline ends, without it. */
  function Ended(s: Bytes): seq<Bytes> {
    var i := FirstNewline(s);
    if i < 0 then [] else [s[..i]] + Ended(s[i + 1..])
  }

  /** What follows the last newline. */
  function Residue(s: Bytes): Bytes {
    var i := FirstNewline(s);
    if i < 0 then s else Residue(s[i + 1..])
  }

  /** All lines, the unended last one included. */
  function SplitAll(s: Bytes): seq<Bytes> {
    Ended(s) + [Residue(s)]
  }

  /** Lines joined by newlines. */
  function JoinLines(lines: seq<Bytes>): Bytes {
    if lines == [] then []
    else if |lines| == 1 then lines[0]
    else lines[0] + [NEWLINE] + JoinLines(lines[1..])
  }

  lemma FirstNewlineOfConcat(a: Bytes, b: Bytes)
    ensures FirstNewline(a) >= 0 ==> FirstNewline(a + b) == FirstNewline(a)
  {
    var i, j := FirstNewline(a), FirstNewline(a + b);
    if i >= 0 {
      assert (a + b)[i] == NEWLINE;
      assert j >= 0 && (a + b)[j] == NEWLINE;
      assert j >= i;
    }
  }

  lemma FirstLineOfConcat(a: Bytes, b: Bytes, i: nat)
    requires FirstNewline(a) == i
    ensures Ended(a + b) == [a[..i]] + Ended(a[i + 1..] + b)
    ensures Residue(a + b) == Residue(a[i + 1..] + b)
  {
    FirstNewlineOfConcat(a, b);
    assert (a + b)[..i] == a[..i];
    assert (a + b)[i + 1..] == a[i + 1..] + b;
  }

  lemma {:induction false} EndedResumes(a: Bytes, b: Bytes)
    ensures Ended(a + b) == Ended(a) + Ended(Residue(a) + b)
    decreases |a|
  {
    var i := FirstNewline(a);
    if i >= 0 {
      var rest := a[i + 1..];
      FirstLineOfConcat(a, b, i);
      EndedResumes(rest, b);
      Associative([a[..i]], Ended(rest), Ended(Residue(rest) + b));
    }
  }

  lemma {:induction false} ResidueResumes(a: Bytes, b: Bytes)
    ensures Residue(a + b) == Residue(Residue(a) + b)
    decreases |a|
  {
    var i := FirstNewline(a);
    if i >= 0 {
      FirstLineOfConcat(a, b, i);
      ResidueResumes(a[i + 1..], b);
    }
  }

  /** Cutting may stop after any chunk and go on from the residue. */
  lemma SplitResumes(a: Bytes, b: Bytes)
    ensures Ended(a + b) == Ended(a) + Ended(Residue(a) + b)
    ensures Residue(a + b) == Residue(Residue(a) + b)
  {
    EndedResumes(a, b);
    ResidueResumes(a, b);
  }

  lemma {:induction false} ResidueHasNoNewline(s: Bytes)
    ensures NEWLINE !in Residue(s)
    decreases |s|
  {
    var i := FirstNewline(s);
    if i >= 0 {
      ResidueHasNoNewline(s[i + 1..]);
    }
  }

  lemma {:induction false} EndedHaveNoNewline(s: Bytes)
    ensures forall line :: line in Ended(s) ==> NEWLINE !in line
    decreases |s|
  {
    var i := FirstNewline(s);
    if i >= 0 {
      EndedHaveNoNewline(s[i + 1..]);
    }
  }

  ghost predicate Lines(lines: seq<Bytes>) {
    lines != [] && forall line :: line in lines ==> NEWLINE !in line
  }

  lemma SplitsIntoLines(s: Bytes)
    ensures Lines(SplitAll(s))
  {
    EndedHaveNoNewline(s);
    ResidueHasNoNewline(s);
  }

  /** Joining is undone by splitting: a text is split in the only way there is. */
  lemma {:induction false} SplitJoin(lines: seq<Bytes>)
    requires Lines(lines)
    ensures SplitAll(JoinLines(lines)) == lines
  {
    if |lines| == 1 {
      assert lines[0] in lines;
      NoNewline(lines[0]);
      assert lines == [lines[0]];
    } else {
      var rest := lines[1..];
      assert lines[0] in lines;
      SplitJoin(rest);
      SplitFirst(lines[0], JoinLines(rest));
      assert lines == [lines[0]] + rest;
    }
  }

  lemma NoNewline(s: Bytes)
    requires NEWLINE !in s
    ensures SplitAll(s) == [s]
  {
    Associative([], [], [s]);
  }

  lemma SplitFirst(line: Bytes, rest: Bytes)
    requires NEWLINE !in line
    ensures SplitAll(line + [NEWLINE] + rest) == [line] + SplitAll(rest)
  {
    var s := line + [NEWLINE] + rest;
    var i := FirstNewline(s);
    assert s[|line|] == NEWLINE;
    assert forall j :: 0 <= j < |line| ==> s[j] == line[j] && line[j] in line;
    assert i == |line|;
    assert s[..i] == line && s[i + 1..] == rest;
    Associative([line], Ended(rest), [Residue(rest)]);
  }

  /** Splitting is undone by joining. */
  lemma {:induction false} JoinSplit(s: Bytes)
    ensures JoinLines(SplitAll(s)) == s
    decreases |s|
  {
    var i := FirstNewline(s);
    if i >= 0 {
      var rest := s[i + 1..];
      JoinSplit(rest);
      Associative([s[..i]], Ended(rest), [Residue(rest)]);
      JoinFirst(s[..i], SplitAll(rest));
      CutAt(s, i);
    } else {
      Associative([], [], [s]);
    }
  }

  lemma JoinFirst(line: Bytes, lines: seq<Bytes>)
    requires lines != []
    ensures JoinLines([line] + lines) == line + [NEWLINE] + JoinLines(lines)
  {
    assert ([line] + lines)[1..] == lines;
  }

  lemma CutAt(s: Bytes, i: nat)
    requires i < |s|
    ensures s == s[..i] + [s[i]] + s[i + 1..]
  {
  }

  lemma Associative<T>(a: seq<T>, b: seq<T>, c: seq<T>)
    ensures a + b + c == a + (b + c)
    ensures [] + c == c
  {
  }

  // ---------- the process line splitter ----------

  /** One trailing carriage return goes, then an over-long line keeps its end. */
  function Trimmed(line: Bytes): Bytes {
    LastN(if line != [] && line[|line| - 1] == RETURN then line[..|line| - 1] else line, MAX_LINE)
  }

  /** An empty line is not emitted; a lone carriage return is emitted as an empty line. */
  function Shown(line: Bytes): seq<Bytes> {
    if line == [] then [] else [Trimmed(line)]
  }

  function Emitted(lines: seq<Bytes>): seq<Bytes> {
    if lines == [] then [] else Shown(lines[0]) + Emitted(lines[1..])
  }

  lemma {:induction false} EmittedConcat(a: seq<Bytes>, b: seq<Bytes>)
    ensures Emitted(a + b) == Emitted(a) + Emitted(b)
  {
    if a == [] {
      assert a + b == b;
    } else {
      EmittedConcat(a[1..], b);
      assert (a + b)[0] == a[0];
      assert (a + b)[1..] == a[1..] + b;
      Associative(Shown(a[0]), Emitted(a[1..]), Emitted(b));
    }
  }

  lemma EmitStep(lines: seq<Bytes>, line: Bytes, rest: seq<Bytes>)
    ensures lines + Emitted([line] + rest) == lines + Shown(line) + Emitted(rest)
  {
    assert ([line] + rest)[1..] == rest;
  }

  /** The lines of a whole stream, its unended rest flushed as a last line that keeps its carriage return. */
  function SplitterLines(stream: Bytes): seq<Bytes> {
    Emitted(Ended(stream)) + if Residue(stream) == [] then [] else [LastN(Residue(stream), MAX_LINE)]
  }

  class LineSplitter {
    var carry: Bytes
    var lines: seq<Bytes>

    constructor ()
      ensures carry == [] && lines == []
    {
      carry, lines := [], [];
    }

    method Write(p: Bytes)
      modifies this
      ensures lines == old(lines) + Emitted(Ended(old(carry) + p))
      ensures carry == Residue(old(carry) + p)
    {
      var data := carry + p;
      ghost var whole := data;
      ghost var goal := lines + Emitted(Ended(whole));
      carry := [];
      var i := FirstNewline(data);
      while i >= 0
        invariant i == FirstNewline(data)
        invariant lines + Emitted(Ended(data)) == goal
        invariant Residue(data) == Residue(whole)
        decreases |data|
      {
        EmitStep(lines, data[..i], Ended(data[i + 1..]));
        assert Ended(data) == [data[..i]] + Ended(data[i + 1..]) && Residue(data) == Residue(data[i + 1..]);
        Emit(data[..i]);
        data := data[i + 1..];
        i := FirstNewline(data);
      }
      carry := data;
    }

    method Emit(line: Bytes)
      modifies this`lines
      ensures lines == old(lines) + Shown(line)
    {
      if |line| > 0 {
        var text := line;
        if text[|text| - 1] == RETURN {
          text := text[..|text| - 1];
        }
        if |text| > MAX_LINE {
          text := text[|text| - MAX_LINE..];
        }
        lines := lines + [text];
      }
    }

    method Flush()
      modifies this
      ensures lines == old(lines) + if old(carry) == [] then [] else [LastN(old(carry), MAX_LINE)]
      ensures carry == []
    {
      if |carry| > 0 {
        var text := carry;
        if |text| > MAX_LINE {
          text := text[|text| - MAX_LINE..];
        }
        carry := [];
        lines := lines + [text];
      }
    }
  }

  /** The state of a splitter after a run of writes, as its Write contract composes it. */
  function Carried(writes: seq<Bytes>): Bytes {
    if writes == [] then [] else Residue(Carried(writes[..|writes| - 1]) + writes[|writes| - 1])
  }

  function EmittedBy(writes: seq<Bytes>): seq<Bytes> {
    if writes == [] then []
    else
      var front := writes[..|writes| - 1];
      EmittedBy(front) + Emitted(Ended(Carried(front) + writes[|writes| - 1]))
  }

  lemma {:induction false} CarriedIsResidue(writes: seq<Bytes>)
    ensures Carried(writes) == Residue(Flatten(writes))
  {
    if writes != [] {
      var front := writes[..|writes| - 1];
      CarriedIsResidue(front);
      SplitResumes(Flatten(front), writes[|writes| - 1]);
    }
  }

  /** What has been emitted after any writes depends on their concatenation alone. */
  lemma {:induction false} SplitterChunkInvariant(writes: seq<Bytes>)
    ensures EmittedBy(writes) == Emitted(Ended(Flatten(writes)))
    ensures EmittedBy(writes) + (if Carried(writes) == [] then [] else [LastN(Carried(writes), MAX_LINE)]) ==
            SplitterLines(Flatten(writes))
  {
    CarriedIsResidue(writes);
    if writes != [] {
      var front, p := writes[..|writes| - 1], writes[|writes| - 1];
      SplitterChunkInvariant(front);
      CarriedIsResidue(front);
      SplitResumes(Flatten(front), p);
      EmittedConcat(Ended(Flatten(front)), Ended(Residue(Flatten(front)) + p));
    }
  }

  // ---------- the job log collector ----------

  function StripReturns(line: Bytes): (r: Bytes)
    ensures r <= line && (r != [] ==> r[|r| - 1] != RETURN)
    ensures forall j :: |r| <= j < |line| ==> line[j] == RETURN
  {
    if line != [] && line[|line| - 1] == RETURN then StripReturns(line[..|line| - 1]) else line
  }

  /** All trailing carriage returns go, and a line left empty is dropped. */
  function Kept(line: Bytes): seq<Bytes> {
    if StripReturns(line) == [] then [] else [StripReturns(line)]
  }

  function Collected(lines: seq<Bytes>): seq<Bytes> {
    if lines == [] then [] else Kept(lines[0]) + Collected(lines[1..])
  }

  lemma {:induction false} CollectedConcat(a: seq<Bytes>, b: seq<Bytes>)
    ensures Collected(a + b) == Collected(a) + Collected(b)
  {
    if a == [] {
      assert a + b == b;
    } else {
      CollectedConcat(a[1..], b);
      assert (a + b)[0] == a[0] && (a + b)[1..] == a[1..] + b;
      Associative(Kept(a[0]), Collected(a[1..]), Collected(b));
    }
  }

  class LogCollector {
    var carry: Bytes
    var log: seq<Bytes>

    constructor ()
      ensures carry == [] && log == []
    {
      carry, log := [], [];
    }

    method Write(p: Bytes)
      requires |log| <= JOB_LINES
      modifies this
      ensures log == LastN(old(log) + Collected(Ended(old(carry) + p)), JOB_LINES)
      ensures |log| <= JOB_LINES
      ensures carry == Residue(old(carry) + p)
    {
      var s := carry + p;
      carry := [];
      var i := FirstNewline(s);
      while i >= 0
        invariant i == FirstNewline(s) && |log| <= JOB_LINES
        invariant LastN(log + Collected(Ended(s)), JOB_LINES) ==
                  LastN(old(log) + Collected(Ended(old(carry) + p)), JOB_LINES)
        invariant Residue(s) == Residue(old(carry) + p)
        decreases |s|
      {
        CollectStep(log, s[..i], Ended(s[i + 1..]));
        Collect(s[..i]);
        s := s[i + 1..];
        i := FirstNewline(s);
      }
      carry := s;
    }

    method Collect(raw: Bytes)
      requires |log| <= JOB_LINES
      modifies this`log
      ensures |log| <= JOB_LINES && log == LastN(old(log) + Kept(raw), JOB_LINES)
    {
      var line := StripReturns(raw);
      if line != [] {
        log := log + [line];
        if |log| > JOB_LINES {
          log := log[|log| - JOB_LINES..];
        }
      }
    }
  }

  lemma CollectStep(log: seq<Bytes>, line: Bytes, rest: seq<Bytes>)
    ensures LastN(log + Collected([line] + rest), JOB_LINES) ==
            LastN(LastN(log + Kept(line), JOB_LINES) + Collected(rest), JOB_LINES)
  {
    assert ([line] + rest)[1..] == rest;
    LastNAppend(log + Kept(line), Collected(rest), JOB_LINES);
    assert log + Kept(line) + Collected(rest) == log + (Kept(line) + Collected(rest));
  }

  function CollectedBy(writes: seq<Bytes>): seq<Bytes> {
    if writes == [] then []
    else
      var front := writes[..|writes| - 1];
      LastN(CollectedBy(front) + Collected(Ended(Carried(front) + writes[|writes| - 1])), JOB_LINES)
  }

  /** The kept job log is the last lines of the stream, however it was cut into chunks. */
  lemma {:induction false} CollectorChunkInvariant(writes: seq<Bytes>)
    ensures CollectedBy(writes) == LastN(Collected(Ended(Flatten(writes))), JOB_LINES)
  {
    if writes != [] {
      var front, p := writes[..|writes| - 1], writes[|writes| - 1];
      CollectorChunkInvariant(front);
      CarriedIsResidue(front);
      SplitResumes(Flatten(front), p);
      CollectedConcat(Ended(Flatten(front)), Ended(Residue(Flatten(front)) + p));
      LastNAppend(Collected(Ended(Flatten(front))), Collected(Ended(Residue(Flatten(front)) + p)), JOB_LINES);
    }
  }

  // ---------- which bytes of a line are shown ----------

  /** A line shows its bytes without one carriage return at the end, and of more than 8192 the last ones. */
  lemma LineIsShown(line: Bytes)
    ensures Shown([]) == [] && Shown([13]) == [[]]
    ensures line != [] && line[|line| - 1] != 13 && |line| <= 8192 ==> Shown(line) == [line]
    ensures |line| <= 8192 ==> Shown(line + [13]) == [line]
    ensures |line| > 8192 ==> Shown(line + [13]) == [line[|line| - 8192..]]
    ensures |line| > 8192 && line[|line| - 1] != 13 ==> Shown(line) == [line[|line| - 8192..]]
  {
    assert (line + [13])[..|line|] == line;
    var alone: Bytes := [13];
    assert alone[..0] == [];
  }

  /** Lines as a text of carriage returns and newlines. */
  function CrLf(lines: seq<Bytes>): Bytes {
    if lines == [] then [] else lines[0] + [13, 10] + CrLf(lines[1..])
  }

  ghost predicate Plain(lines: seq<Bytes>) {
    forall line :: line in lines ==> 10 !in line && |line| <= 8192
  }

  lemma CrLfFirst(line: Bytes, rest: Bytes)
    requires 10 !in line
    ensures var s := line + [13, 10] + rest;
            FirstNewline(s) == |line| + 1 && s[..|line| + 1] == line + [13] && s[|line| + 2..] == rest
  {
    var s := line + [13, 10] + rest;
    assert s[|line| + 1] == 10 && forall j :: 0 <= j < |line| ==> s[j] == line[j];
    assert s[|line|] == 13;
  }

  /** A text of lines that end in carriage return and newline is shown as those lines, blank ones included. */
  lemma {:induction false} CrLfIsShown(lines: seq<Bytes>)
    requires Plain(lines)
    ensures SplitterLines(CrLf(lines)) == lines
  {
    CrLfEnds(lines);
    CrLfEmitted(lines);
  }

  function WithReturns(lines: seq<Bytes>): seq<Bytes> {
    if lines == [] then [] else [lines[0] + [13]] + WithReturns(lines[1..])
  }

  lemma {:induction false} CrLfEnds(lines: seq<Bytes>)
    requires Plain(lines)
    ensures Ended(CrLf(lines)) == WithReturns(lines) && Residue(CrLf(lines)) == []
  {
    if lines != [] {
      assert lines[0] in lines;
      CrLfFirst(lines[0], CrLf(lines[1..]));
      CrLfEnds(lines[1..]);
    }
  }

  lemma {:induction false} CrLfEmitted(lines: seq<Bytes>)
    requires Plain(lines)
    ensures Emitted(WithReturns(lines)) == lines
  {
    if lines != [] {
      assert lines[0] in lines;
      LineIsShown(lines[0]);
      CrLfEmitted(lines[1..]);
      assert WithReturns(lines)[1..] == WithReturns(lines[1..]);
      assert [lines[0]] + lines[1..] == lines;
    }
  }

  /** The collector keeps a line without all the carriage returns at its end, and drops it when nothing is left. */
  lemma {:induction false} LineIsKept(line: Bytes, crs: Bytes)
    requires (forall i :: 0 <= i < |crs| ==> crs[i] == 13) && (line != [] ==> line[|line| - 1] != 13)
    ensures Kept(line + crs) == if line == [] then [] else [line]
  {
    var raw := line + crs;
    if crs == [] {
      assert raw == line;
    } else {
      assert raw[..|raw| - 1] == line + crs[..|crs| - 1];
      LineIsKept(line, crs[..|crs| - 1]);
    }
  }
}
