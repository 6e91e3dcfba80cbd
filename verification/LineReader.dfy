/**
 Reading newline-delimited frames with a bounded buffer (worker.rs, read_bounded_line). Whatever
 pieces the stream arrives in, the results are those of splitting the whole stream at its newlines.
 */
module LineReader {
  import opened Common

  const LF: byte := 10

  datatype Kind = Eof | Line | Oversized

  datatype Read = Read(kind: Kind, line: Bytes)

  /** A stream of which `rest` is unread. */
  class Reader {
    var rest: Bytes

    constructor (stream: Bytes)
      ensures rest == stream
    {
      rest := stream;
    }

    /** Some non-empty beginning of what is unread; empty only at the end. */
    method FillBuf() returns (available: Bytes)
      ensures available <= rest
      ensures available == [] <==> rest == []
    {
      if |rest| == 0 {
        return [];
      }
      var n :| 1 <= n <= |rest|;
      available := rest[..n];
    }

    method Consume(n: nat)
      requires n <= |rest|
      modifies this
      ensures rest == old(rest)[n..]
    {
      rest := rest[n..];
    }
  }

  /** The first newline stands at `n`, or nowhere and `n` is the length. */
  predicate LineEndsAt(s: Bytes, n: nat) {
    n <= |s| && LF !in s[..n] && (n < |s| ==> s[n] == LF)
  }

  function LineLength(s: Bytes): (n: nat)
    ensures LineEndsAt(s, n)
  {
    if |s| == 0 || s[0] == LF then 0 else 1 + LineLength(s[1..])
  }

  function AfterLine(s: Bytes): Bytes {
    if LineLength(s) < |s| then s[LineLength(s) + 1..] else []
  }

  /** The first result of reading `s`, and what it leaves unread. */
  function First(s: Bytes, max: nat): Read {
    var n := LineLength(s);
    if |s| == 0 then Read(Eof, []) else Read(if n > max then Oversized else Line, s[..Min(n, max)])
  }

  /** Every result of reading `s` to its end. */
  function Lines(s: Bytes, max: nat): seq<Read>
    decreases |s|
  {
    if |s| == 0 then [Read(Eof, [])] else [First(s, max)] + Lines(AfterLine(s), max)
  }

  lemma {:induction false} LineLengthUnique(s: Bytes, n: nat)
    requires LineEndsAt(s, n)
    ensures LineLength(s) == n
  {
    if n > 0 {
      assert s[0] in s[..n];
      assert s[1..][..n - 1] == s[..n][1..];
      LineLengthUnique(s[1..], n - 1);
    }
  }

  /** Where the first newline of a chunk stands, or its length. */
  method Position(chunk: Bytes) returns (n: nat)
    ensures LineEndsAt(chunk, n)
  {
    n := 0;
    while n < |chunk| && chunk[n] != LF
      invariant n <= |chunk| && LF !in chunk[..n]
    {
      assert chunk[..n + 1] == chunk[..n] + [chunk[n]];
      n := n + 1;
    }
  }

  /** After the bytes `done` of the current line: what is kept of them and whether any were dropped. */
  ghost predicate Within(stream: Bytes, done: Bytes, rest: Bytes, line: Bytes, oversized: bool, max: nat) {
    stream == done + rest && LF !in done && line == done[..Min(|done|, max)] && (oversized <==> |done| > max)
  }

  /** What is kept of a line and some bytes more: as many as there is room for. */
  predicate KeptOf(line: Bytes, oversized: bool, bytes: Bytes, max: nat, kept: Bytes, over: bool)
    requires |line| <= max
  {
    kept == (if oversized then line else line + bytes[..Min(|bytes|, max - |line|)]) &&
    over == (oversized || |bytes| > max - |line|)
  }

  /** One chunk more, up to its newline if it has one. */
  lemma ChunkRead(stream: Bytes, done: Bytes, rest: Bytes, line: Bytes, oversized: bool, max: nat, chunk: Bytes, n: nat,
                  kept: Bytes, over: bool)
    requires Within(stream, done, rest, line, oversized, max) && chunk <= rest && LineEndsAt(chunk, n)
    requires KeptOf(line, oversized, chunk[..n], max, kept, over)
    ensures Within(stream, done + chunk[..n], rest[n..], kept, over, max)
    ensures n < |chunk| ==> rest[n] == LF
  {
    var now := done + chunk[..n];
    assert stream == now + rest[n..];
    if !oversized {
      assert done + chunk[..n][..Min(n, max - |line|)] == now[..Min(|now|, max)];
    }
  }

  /** At a newline or at the end of the stream the line is complete. */
  lemma LineComplete(stream: Bytes, done: Bytes, rest: Bytes, line: Bytes, oversized: bool, max: nat)
    requires Within(stream, done, rest, line, oversized, max)
    requires rest == [] || rest[0] == LF
    ensures First(stream, max) == if stream == [] then Read(Eof, []) else Read(if oversized then Oversized else Line, line)
    ensures AfterLine(stream) == if rest == [] then [] else rest[1..]
    ensures rest == [] ==> (stream == [] <==> line == [] && !oversized)
  {
    assert stream[..|done|] == done && stream[|done|..] == rest;
    LineLengthUnique(stream, |done|);
  }

  /** Keeps as many of the bytes as there is room for. */
  method Keep(line: Bytes, oversized: bool, bytes: Bytes, max: nat) returns (kept: Bytes, over: bool)
    requires |line| <= max
    ensures KeptOf(line, oversized, bytes, max, kept, over) && |kept| <= max
  {
    kept, over := line, oversized;
    if !oversized {
      var remaining := max - |line|;
      kept := line + bytes[..Min(|bytes|, remaining)];
      if |bytes| > remaining {
        over := true;
      }
    }
  }

  /** At a newline the line is complete, and what follows the newline is unread. */
  lemma LineEnded(stream: Bytes, done: Bytes, rest: Bytes, n: nat, line: Bytes, oversized: bool, max: nat)
    requires n < |rest| && rest[n] == LF && Within(stream, done, rest[n..], line, oversized, max)
    ensures First(stream, max) == Read(if oversized then Oversized else Line, line)
    ensures AfterLine(stream) == rest[n + 1..]
  {
    LineComplete(stream, done, rest[n..], line, oversized, max);
  }

  /** One turn of the loop: a chunk up to its newline, and the result if that ends the line. */
  method ReadChunk(reader: Reader, line: Bytes, oversized: bool, max: nat, ghost stream: Bytes, ghost done: Bytes)
      returns (kept: Bytes, over: bool, r: Option<Read>, ghost now: Bytes)
    requires Within(stream, done, reader.rest, line, oversized, max)
    modifies reader
    ensures r.Some? ==> r.value == First(stream, max) && reader.rest == AfterLine(stream)
    ensures r == None ==> Within(stream, now, reader.rest, kept, over, max) && |reader.rest| < |old(reader.rest)|
    ensures |kept| <= max
  {
    kept, over, r, now := line, oversized, None, done;
    ghost var rest := reader.rest;
    var available := reader.FillBuf();
    if |available| == 0 {
      LineComplete(stream, done, rest, line, oversized, max);
      r := Some(if oversized then Read(Oversized, line) else Read(if |line| == 0 then Eof else Line, line));
      return;
    }
    var newline := Position(available);
    kept, over := Keep(line, oversized, available[..newline], max);
    now := done + available[..newline];
    ChunkRead(stream, done, rest, line, oversized, max, available, newline, kept, over);
    var found := newline < |available|;
    reader.Consume(if found then newline + 1 else |available|);
    if found {
      LineEnded(stream, now, rest, newline, kept, over, max);
      r := Some(Read(if over then Oversized else Line, kept));
    }
  }

  /** Never keeps more than `max` bytes, and consumes exactly one line with its newline. */
  method ReadBoundedLine(reader: Reader, max: nat) returns (r: Read)
    modifies reader
    ensures r == First(old(reader.rest), max)
    ensures reader.rest == AfterLine(old(reader.rest))
    ensures |r.line| <= max
  {
    var line: Bytes := [];
    var oversized := false;
    ghost var stream, done: Bytes := reader.rest, [];
    while true
      invariant Within(stream, done, reader.rest, line, oversized, max)
      decreases |reader.rest|
    {
      var result;
      line, oversized, result, done := ReadChunk(reader, line, oversized, max, stream, done);
      if result.Some? {
        return result.value;
      }
    }
  }

  /** Reads to the end: the sequence of results does not depend on how the stream was cut up. */
  method ReadAll(reader: Reader, max: nat) returns (results: seq<Read>)
    modifies reader
    ensures results == Lines(old(reader.rest), max)
    ensures reader.rest == []
  {
    results := [];
    var more := true;
    while more
      invariant more ==> Lines(old(reader.rest), max) == results + Lines(reader.rest, max)
      invariant !more ==> Lines(old(reader.rest), max) == results && reader.rest == []
      decreases more, |reader.rest|
    {
      ghost var before := reader.rest;
      var r := ReadBoundedLine(reader, max);
      more := !r.kind.Eof?;
      assert Lines(before, max) == [r] + (if more then Lines(reader.rest, max) else []);
      results := results + [r];
    }
  }

  // Frames --------------------------------------------------------------------------------------

  function Written(frames: seq<Bytes>): Bytes {
    if |frames| == 0 then [] else frames[0] + [LF] + Written(frames[1..])
  }

  function Results(frames: seq<Bytes>, max: nat): seq<Read> {
    if |frames| == 0 then [Read(Eof, [])]
    else [if |frames[0]| > max then Read(Oversized, frames[0][..max]) else Read(Line, frames[0])] + Results(frames[1..], max)
  }

  ghost predicate NoNewlines(frames: seq<Bytes>) {
    forall i, k :: 0 <= i < |frames| && 0 <= k < |frames[i]| ==> frames[i][k] != LF
  }

  /** Frames written one per line come back one by one; one too long is reported and skipped alone. */
  lemma {:induction false} FramesComeBack(frames: seq<Bytes>, max: nat)
    requires NoNewlines(frames)
    ensures Lines(Written(frames), max) == Results(frames, max)
    decreases |frames|
  {
    if |frames| > 0 {
      var f, rest := frames[0], Written(frames[1..]);
      var s := Written(frames);
      assert s == f + [LF] + rest;
      assert s[..|f|] == f && LF !in f;
      LineLengthUnique(s, |f|);
      assert s[..|f|] == f && s[|f| + 1..] == rest;
      assert |f| > max ==> s[..max] == f[..max];
      assert NoNewlines(frames[1..]) by {
        assert forall i :: 0 <= i < |frames| - 1 ==> frames[1..][i] == frames[i + 1];
      }
      FramesComeBack(frames[1..], max);
    }
  }

  function Joined(results: seq<Read>): Bytes {
    if |results| == 0 || results[0].kind.Eof? then [] else results[0].line + [LF] + Joined(results[1..])
  }

  lemma JoinedCons(r: Read, rest: seq<Read>)
    requires !r.kind.Eof?
    ensures Joined([r] + rest) == r.line + [LF] + Joined(rest)
  {
    assert ([r] + rest)[1..] == rest;
  }

  ghost predicate AllFit(s: Bytes, max: nat)
    decreases |s|
  {
    |s| == 0 || (LineLength(s) <= max && AllFit(AfterLine(s), max))
  }

  lemma HeadAndRest(s: Bytes, n: nat, rest: Bytes)
    requires |s| > 0 && LineEndsAt(s, n) && rest == if n < |s| then s[n + 1..] else []
    ensures n < |s| ==> s == s[..n] + [LF] + rest && (|rest| > 0 ==> rest[|rest| - 1] == s[|s| - 1])
    ensures n < |s| && |rest| == 0 ==> s[|s| - 1] == LF
    ensures n == |s| ==> s[..n] == s && |rest| == 0 && s[|s| - 1] != LF
  {
  }

  /** Splitting loses nothing: the lines joined by newlines are the stream, when none is too long. */
  lemma {:induction false} LinesRejoin(s: Bytes, max: nat)
    requires AllFit(s, max)
    ensures Joined(Lines(s, max)) == if |s| == 0 || s[|s| - 1] == LF then s else s + [LF]
    decreases |s|
  {
    if |s| > 0 {
      var n, rest := LineLength(s), AfterLine(s);
      LinesRejoin(rest, max);
      JoinedCons(First(s, max), Lines(rest, max));
      assert First(s, max).line == s[..n];
      HeadAndRest(s, n, rest);
    }
  }
}
