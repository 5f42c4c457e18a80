/** Record boundaries.  gchemol_parser's partition engine (`TextReader`,
    `Terminated`, `Preceded`, `seek_line`) is not part of this model; what the
    formats hand it is.  For the two generic rules this module states the
    line-sequence meaning the formats rely on:

    - a "terminated" stream is cut after every line the format's predicate
      accepts, and lines after the last such line make one more record;
    - a "preceded" stream first skips to the first line the predicate accepts
      (`pre_read_hook`), then starts a new record at every accepted line.

    Lines keep their line break, as gchemol_parser hands them over. */
module Partition {
  import opened Text

  /** What a format's `read_next` asks of the engine. */
  datatype ReadAction = Done(n: nat) | Need(n: nat) | Error(msg: string)

  function Flatten(parts: seq<seq<string>>): seq<string> {
    if parts == [] then [] else parts[0] + Flatten(parts[1..])
  }

  /** The lines of a text, each with its line break (the last may have none). */
  function LinesOf(text: string): (ls: seq<string>)
    ensures forall k | 0 <= k < |ls| :: ls[k] != []
    decreases |text|
  {
    if text == [] then []
    else
      match IndexOf(text, "\n")
      case None => [text]
      case Some(k) => [text[..k + 1]] + LinesOf(text[k + 1..])
  }

  /** Index of the first line accepted by `p`, or `|lines|` if there is none. */
  function FirstMatch(lines: seq<string>, p: string -> bool): (k: nat)
    ensures k <= |lines|
    ensures forall i | 0 <= i < k :: !p(lines[i])
    ensures k < |lines| ==> p(lines[k])
  {
    if lines == [] || p(lines[0]) then 0 else 1 + FirstMatch(lines[1..], p)
  }

  function CountMatching(lines: seq<string>, p: string -> bool): nat {
    if lines == [] then 0 else (if p(lines[0]) then 1 else 0) + CountMatching(lines[1..], p)
  }

  lemma FlattenCons(x: seq<string>, rest: seq<seq<string>>)
    ensures Flatten([x] + rest) == x + Flatten(rest)
  {
    assert ([x] + rest)[1..] == rest;
  }

  /** Records of a stream whose records end at a line accepted by `isEnd`. */
  function TerminatedParts(lines: seq<string>, isEnd: string -> bool): (parts: seq<seq<string>>)
    ensures forall j | 0 <= j < |parts| :: parts[j] != []
    decreases |lines|
  {
    if lines == [] then []
    else
      var k := FirstMatch(lines, isEnd);
      if k == |lines| then [lines] else [lines[..k + 1]] + TerminatedParts(lines[k + 1..], isEnd)
  }

  /** A record a terminated stream yields: only its last line may be a
      terminator. */
  predicate TerminatedRecord(part: seq<string>, isEnd: string -> bool) {
    forall i | 0 <= i < |part| - 1 :: !isEnd(part[i])
  }

  /** The record ends with a terminator line. */
  predicate ClosedBy(part: seq<string>, isEnd: string -> bool) {
    part != [] && isEnd(part[|part| - 1])
  }

  /** Cutting a terminated stream loses and adds no line. */
  lemma {:induction false} TerminatedPartsFlatten(lines: seq<string>, isEnd: string -> bool)
    ensures Flatten(TerminatedParts(lines, isEnd)) == lines
    decreases |lines|
  {
    if lines != [] {
      var k := FirstMatch(lines, isEnd);
      if k < |lines| {
        TerminatedPartsFlatten(lines[k + 1..], isEnd);
        FlattenCons(lines[..k + 1], TerminatedParts(lines[k + 1..], isEnd));
        assert lines == lines[..k + 1] + lines[k + 1..];
      } else {
        FlattenCons(lines, []);
      }
    }
  }

  /** Every record holds at most one terminator, as its last line, and every
      record but the last is closed by one. */
  lemma {:induction false} TerminatedPartsRecords(lines: seq<string>, isEnd: string -> bool)
    ensures forall j | 0 <= j < |TerminatedParts(lines, isEnd)| ::
      TerminatedRecord(TerminatedParts(lines, isEnd)[j], isEnd)
    ensures forall j | 0 <= j < |TerminatedParts(lines, isEnd)| - 1 ::
      ClosedBy(TerminatedParts(lines, isEnd)[j], isEnd)
    decreases |lines|
  {
    if lines != [] {
      var k := FirstMatch(lines, isEnd);
      if k < |lines| {
        TerminatedPartsRecords(lines[k + 1..], isEnd);
        var parts := TerminatedParts(lines, isEnd);
        var tail := TerminatedParts(lines[k + 1..], isEnd);
        assert parts == [lines[..k + 1]] + tail;
        assert forall j | 1 <= j < |parts| :: parts[j] == tail[j - 1];
      }
    }
  }

  /** Records of a stream whose records start at a line accepted by `isStart`,
      once the lines before the first such line are skipped. */
  function PrecededParts(lines: seq<string>, isStart: string -> bool): seq<seq<string>> {
    Groups(lines[FirstMatch(lines, isStart)..], isStart)
  }

  function Groups(lines: seq<string>, isStart: string -> bool): seq<seq<string>>
    requires lines == [] || isStart(lines[0])
    decreases |lines|
  {
    if lines == [] then []
    else
      var k := 1 + FirstMatch(lines[1..], isStart);
      [lines[..k]] + Groups(lines[k..], isStart)
  }

  /** A record a preceded stream yields: it opens with a start line and holds
      no other. */
  predicate PrecededRecord(part: seq<string>, isStart: string -> bool) {
    part != [] && isStart(part[0]) && forall i | 1 <= i < |part| :: !isStart(part[i])
  }

  lemma {:induction false} GroupsFlatten(lines: seq<string>, isStart: string -> bool)
    requires lines == [] || isStart(lines[0])
    ensures Flatten(Groups(lines, isStart)) == lines
    decreases |lines|
  {
    if lines != [] {
      var k := 1 + FirstMatch(lines[1..], isStart);
      GroupsFlatten(lines[k..], isStart);
      FlattenCons(lines[..k], Groups(lines[k..], isStart));
      assert lines == lines[..k] + lines[k..];
    }
  }

  lemma {:induction false} GroupsCount(lines: seq<string>, isStart: string -> bool)
    requires lines == [] || isStart(lines[0])
    ensures |Groups(lines, isStart)| == CountMatching(lines, isStart)
    decreases |lines|
  {
    if lines != [] {
      var ls := lines[1..];
      var k := 1 + FirstMatch(ls, isStart);
      GroupsCount(lines[k..], isStart);
      CountFromFirst(ls, isStart);
      assert ls[k - 1..] == lines[k..];
    }
  }

  lemma {:induction false} GroupsRecords(lines: seq<string>, isStart: string -> bool)
    requires lines == [] || isStart(lines[0])
    ensures forall j | 0 <= j < |Groups(lines, isStart)| :: PrecededRecord(Groups(lines, isStart)[j], isStart)
    decreases |lines|
  {
    if lines != [] {
      var k := 1 + FirstMatch(lines[1..], isStart);
      GroupsRecords(lines[k..], isStart);
      var parts := Groups(lines, isStart);
      var tail := Groups(lines[k..], isStart);
      assert parts == [lines[..k]] + tail;
      assert forall j | 1 <= j < |parts| :: parts[j] == tail[j - 1];
      assert PrecededRecord(lines[..k], isStart);
    }
  }

  /** Every start line opens exactly one record, each record holds one start
      line, and only the preamble before the first start line is dropped. */
  lemma PrecededPartsSound(lines: seq<string>, isStart: string -> bool)
    ensures Flatten(PrecededParts(lines, isStart)) == lines[FirstMatch(lines, isStart)..]
    ensures |PrecededParts(lines, isStart)| == CountMatching(lines, isStart)
    ensures forall j | 0 <= j < |PrecededParts(lines, isStart)| ::
      PrecededRecord(PrecededParts(lines, isStart)[j], isStart)
  {
    var tail := lines[FirstMatch(lines, isStart)..];
    GroupsFlatten(tail, isStart);
    GroupsCount(tail, isStart);
    GroupsRecords(tail, isStart);
    CountFromFirst(lines, isStart);
  }

  /** No line before the first accepted one is counted. */
  lemma CountFromFirst(lines: seq<string>, p: string -> bool)
    ensures CountMatching(lines, p) == CountMatching(lines[FirstMatch(lines, p)..], p)
  {
    var k := FirstMatch(lines, p);
    var head := lines[..k];
    forall i | 0 <= i < |head|
      ensures !p(head[i])
    {
      assert head[i] == lines[i];
    }
    CountNone(head, p);
    assert lines == head + lines[k..];
    CountSplit(head, lines[k..], p);
  }

  lemma {:induction false} CountSplit(a: seq<string>, b: seq<string>, p: string -> bool)
    ensures CountMatching(a + b, p) == CountMatching(a, p) + CountMatching(b, p)
  {
    if a != [] {
      assert (a + b)[1..] == a[1..] + b;
      CountSplit(a[1..], b, p);
    } else {
      assert a + b == b;
    }
  }

  lemma {:induction false} CountNone(a: seq<string>, p: string -> bool)
    requires forall i | 0 <= i < |a| :: !p(a[i])
    ensures CountMatching(a, p) == 0
  {
    if a != [] {
      CountNone(a[1..], p);
    }
  }
}
