/** Reassembly of one line from the fragments a buffered reader hands out. */
module Framing {
  import opened Basics

  const MAX_MESSAGE_LENGTH := 1024

  newtype byte = x: int | 0 <= x < 256

  /** What one ReadLine call yields: some bytes, and whether the line goes on. */
  datatype Fragment = Fragment(chunk: seq<byte>, isPrefix: bool)

  datatype Raw = Line(bytes: seq<byte>) | TooLong | Failed

  /** A reader over the fragments still to come; ReadLine fails when there are none. */
  class LineReader {
    var rest: seq<Fragment>

    constructor (fragments: seq<Fragment>)
      ensures rest == fragments
    {
      rest := fragments;
    }

    method ReadLine() returns (chunk: seq<byte>, isPrefix: bool, failed: bool)
      modifies this
      ensures failed == (old(rest) == [])
      ensures failed ==> rest == [] && !isPrefix
      ensures !failed ==> Fragment(chunk, isPrefix) == old(rest)[0] && rest == old(rest)[1..]
    {
      if rest == [] {
        return [], false, true;
      }
      chunk, isPrefix, failed := rest[0].chunk, rest[0].isPrefix, false;
      rest := rest[1..];
    }
  }

  /** The fragments after the end of the current line, or none when the stream ends first. */
  function SkipLine(fs: seq<Fragment>): Option<seq<Fragment>> {
    if fs == [] then None
    else if fs[0].isPrefix then SkipLine(fs[1..])
    else Some(fs[1..])
  }

  /** The result of reading one line after `got` has been read of it, and what is left. */
  function ReadFrom(fs: seq<Fragment>, got: seq<byte>): (Raw, seq<Fragment>)
    decreases |fs|
  {
    if fs == [] then (Failed, [])
    else if |got| + |fs[0].chunk| > MAX_MESSAGE_LENGTH then
      if !fs[0].isPrefix then (TooLong, fs[1..])
      else match SkipLine(fs[1..])
           case None => (Failed, [])
           case Some(after) => (TooLong, after)
    else if fs[0].isPrefix then ReadFrom(fs[1..], got + fs[0].chunk)
    else (Line(got + fs[0].chunk), fs[1..])
  }

  function JoinParts(parts: seq<seq<byte>>): seq<byte> {
    if parts == [] then [] else JoinParts(parts[..|parts| - 1]) + parts[|parts| - 1]
  }

  method ReadRawLine(reader: LineReader) returns (raw: Raw)
    modifies reader
    ensures (raw, reader.rest) == ReadFrom(old(reader.rest), [])
  {
    var parts: seq<seq<byte>> := [];
    var total := 0;
    while true
      invariant total == |JoinParts(parts)| <= MAX_MESSAGE_LENGTH
      invariant ReadFrom(reader.rest, JoinParts(parts)) == ReadFrom(old(reader.rest), [])
      decreases |reader.rest|
    {
      ghost var before := reader.rest;
      var chunk, isPrefix, failed := reader.ReadLine();
      if failed {
        return Failed;
      }
      total := total + |chunk|;
      if total > MAX_MESSAGE_LENGTH {
        ghost var tail := reader.rest;
        ghost var more := isPrefix;
        while isPrefix
          invariant (if isPrefix then SkipLine(reader.rest) else Some(reader.rest))
                    == if more then SkipLine(tail) else Some(tail)
          decreases |reader.rest| + if isPrefix then 1 else 0
        {
          var ignored;
          ignored, isPrefix, failed := reader.ReadLine();
          if failed {
            return Failed;
          }
        }
        return TooLong;
      }
      ghost var got := JoinParts(parts);
      parts := parts + [chunk];
      assert parts[..|parts| - 1] + [chunk] == parts && JoinParts(parts) == got + chunk;
      if !isPrefix {
        return Line(JoinParts(parts));
      }
    }
  }

  // ------------------------------------------------------------------ independence

  /** `fs` is one way of cutting the line into fragments. */
  ghost predicate Cuts(fs: seq<Fragment>, line: seq<byte>)
    decreases |fs|
  {
    && fs != []
    && (if fs[0].isPrefix
        then fs[0].chunk <= line && Cuts(fs[1..], line[|fs[0].chunk|..])
        else |fs| == 1 && fs[0].chunk == line)
  }

  /** What a whole line must yield. */
  function Expected(line: seq<byte>): Raw {
    if |line| <= MAX_MESSAGE_LENGTH then Line(line) else TooLong
  }

  lemma {:induction false} SkipCut(fs: seq<Fragment>, line: seq<byte>, tail: seq<Fragment>)
    requires Cuts(fs, line)
    ensures SkipLine(fs + tail) == Some(tail)
    decreases |fs|
  {
    assert (fs + tail)[1..] == fs[1..] + tail;
    if fs[0].isPrefix {
      SkipCut(fs[1..], line[|fs[0].chunk|..], tail);
    } else {
      assert fs[1..] + tail == tail;
    }
  }

  lemma {:induction false} ReadCut(fs: seq<Fragment>, line: seq<byte>, got: seq<byte>, tail: seq<Fragment>)
    requires Cuts(fs, line) && |got| <= MAX_MESSAGE_LENGTH
    ensures ReadFrom(fs + tail, got) == (Expected(got + line), tail)
    decreases |fs|
  {
    var all := fs + tail;
    assert all[0] == fs[0] && all[1..] == fs[1..] + tail;
    if fs[0].isPrefix {
      var after := line[|fs[0].chunk|..];
      assert line == fs[0].chunk + after;
      assert got + line == (got + fs[0].chunk) + after;
      if |got| + |fs[0].chunk| > MAX_MESSAGE_LENGTH {
        SkipCut(fs[1..], after, tail);
      } else {
        ReadCut(fs[1..], after, got + fs[0].chunk, tail);
      }
    } else {
      assert fs[1..] + tail == tail;
    }
  }

  /** Reading once, `n` times. */
  function ReadLines(fs: seq<Fragment>, n: nat): (seq<Raw>, seq<Fragment>)
    decreases n
  {
    if n == 0 then ([], fs)
    else
      var (first, rest) := ReadFrom(fs, []);
      var (others, left) := ReadLines(rest, n - 1);
      ([first] + others, left)
  }

  function Flatten(groups: seq<seq<Fragment>>): seq<Fragment> {
    if groups == [] then [] else groups[0] + Flatten(groups[1..])
  }

  ghost predicate CutsEach(groups: seq<seq<Fragment>>, lines: seq<seq<byte>>) {
    |groups| == |lines| && forall i :: 0 <= i < |lines| ==> Cuts(groups[i], lines[i])
  }

  function ExpectedAll(lines: seq<seq<byte>>): seq<Raw> {
    seq(|lines|, i requires 0 <= i < |lines| => Expected(lines[i]))
  }

  /** However the lines were cut up, reading yields one result per line, the line itself or
      "too long" by its length alone, and stops at the start of what follows. */
  lemma {:induction false} FramingIndependent(groups: seq<seq<Fragment>>, lines: seq<seq<byte>>, tail: seq<Fragment>)
    requires CutsEach(groups, lines)
    ensures ReadLines(Flatten(groups) + tail, |lines|) == (ExpectedAll(lines), tail)
    decreases |lines|
  {
    if lines == [] {
      assert Flatten(groups) + tail == tail;
    } else {
      var rest := Flatten(groups[1..]) + tail;
      assert Flatten(groups) + tail == groups[0] + rest;
      ReadCut(groups[0], lines[0], [], rest);
      assert [] + lines[0] == lines[0];
      FramingIndependent(groups[1..], lines[1..], tail);
      assert ExpectedAll(lines) == [Expected(lines[0])] + ExpectedAll(lines[1..]);
    }
  }

  /** A line whose last fragment never arrives is never delivered, not even in part. */
  lemma {:induction false} UnfinishedFails(fs: seq<Fragment>, got: seq<byte>)
    requires forall i :: 0 <= i < |fs| ==> fs[i].isPrefix
    ensures ReadFrom(fs, got) == (Failed, []) && SkipLine(fs).None?
    decreases |fs|
  {
    if fs != [] {
      UnfinishedFails(fs[1..], got);
      UnfinishedFails(fs[1..], got + fs[0].chunk);
    }
  }

  /** When only overlong chunks are marked as prefixes, as with a buffer larger than the limit,
      a delivered line is a single fragment, so no chunk is kept across two reads. */
  lemma DeliveredIsOneFragment(fs: seq<Fragment>)
    requires forall i :: 0 <= i < |fs| && fs[i].isPrefix ==> |fs[i].chunk| > MAX_MESSAGE_LENGTH
    requires ReadFrom(fs, []).0.Line?
    ensures fs != [] && ReadFrom(fs, []) == (Line(fs[0].chunk), fs[1..])
  {
    if fs != [] {
      assert [] + fs[0].chunk == fs[0].chunk;
    }
  }
}
