/**
 * The browser client's parser for the server-sent-event text the inference endpoint
 * returns: blocks separated by blank lines, each contributing at most one event built
 * from its `event:` and `data:` lines.
 */
module Sse {
  import opened Wrappers
  import opened Strings
  import opened JsText
  import opened Json

  /** One parsed event: the type named by the block's last `event:` line, and its JSON data. */
  datatype Event = Event(eventType: Option<string>, data: Json)

  const EventPrefix: string := "event:"
  const DataPrefix: string := "data:"

  predicate IsEventLine(line: string) {
    StartsWith(line, EventPrefix)
  }

  /** A `data:` line that is not also an `event:` line (the two prefixes never overlap). */
  predicate IsDataLine(line: string) {
    !IsEventLine(line) && StartsWith(line, DataPrefix)
  }

  function EventValue(line: string): string
    requires IsEventLine(line)
  {
    Trim(line[|EventPrefix|..])
  }

  function DataValue(line: string): string
    requires IsDataLine(line)
  {
    Trim(line[|DataPrefix|..])
  }

  /** Each string trimmed, in order. */
  function TrimAll(xs: seq<string>): (r: seq<string>)
    ensures |r| == |xs| && forall k :: 0 <= k < |xs| ==> r[k] == Trim(xs[k])
  {
    seq(|xs|, k requires 0 <= k < |xs| => Trim(xs[k]))
  }

  /** `.filter(Boolean)` on strings: the non-empty ones, in order. */
  function KeepNonEmpty(xs: seq<string>): (r: seq<string>)
    ensures |r| <= |xs|
    ensures forall x :: x in r <==> x in xs && x != []
  {
    if |xs| == 0 then []
    else
      var init := KeepNonEmpty(xs[..|xs| - 1]);
      assert xs == xs[..|xs| - 1] + [xs[|xs| - 1]];
      if xs[|xs| - 1] == [] then init else init + [xs[|xs| - 1]]
  }

  /** The blocks: the pieces between blank-line runs, trimmed, empty ones dropped. */
  function Blocks(text: string): (r: seq<string>)
    ensures |r| <= |SplitBlankRuns(text)|
  {
    KeepNonEmpty(TrimAll(SplitBlankRuns(text)))
  }

  /** A block's lines, each trimmed. */
  function BlockLines(block: string): seq<string> {
    TrimAll(SplitLines(block))
  }

  /** The value of the last `event:` line, or None when there is none. */
  function LastEventType(lines: seq<string>): Option<string> {
    if |lines| == 0 then None
    else if IsEventLine(lines[|lines| - 1]) then Some(EventValue(lines[|lines| - 1]))
    else LastEventType(lines[..|lines| - 1])
  }

  /** `xs` mapped through `f`, keeping the present results in order. */
  function FilterMap<S, T>(f: S -> Option<T>, xs: seq<S>): seq<T> {
    if |xs| == 0 then []
    else
      var init := FilterMap(f, xs[..|xs| - 1]);
      match f(xs[|xs| - 1])
      case None => init
      case Some(y) => init + [y]
  }

  /** The value a `data:` line carries. */
  function DataOf(line: string): Option<string> {
    if IsDataLine(line) then Some(DataValue(line)) else None
  }

  /** The values of the `data:` lines, in order. */
  function DataPayloads(lines: seq<string>): seq<string> {
    FilterMap(DataOf, lines)
  }

  /** The event a block contributes: none without data lines or when the joined data is not JSON. */
  function BlockEvent(rt: Runtime, block: string): Option<Event> {
    LinesEvent(rt, BlockLines(block))
  }

  /** The event a block's trimmed lines make. */
  function LinesEvent(rt: Runtime, lines: seq<string>): Option<Event> {
    var payloads := DataPayloads(lines);
    if |payloads| == 0 then None
    else match rt.parse(JoinLines(payloads))
      case None => None
      case Some(j) => Some(Event(LastEventType(lines), j))
  }

  /** `BlockEvent` with the runtime fixed, as a function of the block. */
  function EventOfBlock(rt: Runtime): string -> Option<Event> {
    b => BlockEvent(rt, b)
  }

  /** The events of a sequence of blocks, in block order. */
  function EventsOf(rt: Runtime, blocks: seq<string>): seq<Event> {
    FilterMap(EventOfBlock(rt), blocks)
  }

  /** What `parseSSE(text)` returns. */
  function ParsedEvents(rt: Runtime, text: string): seq<Event> {
    EventsOf(rt, Blocks(text))
  }

  lemma FilterMapStep<S, T>(f: S -> Option<T>, xs: seq<S>, i: nat)
    requires i < |xs|
    ensures FilterMap(f, xs[..i + 1]) ==
      match f(xs[i])
      case None => FilterMap(f, xs[..i])
      case Some(y) => FilterMap(f, xs[..i]) + [y]
  {
    assert xs[..i + 1][..i] == xs[..i];
  }

  lemma DataPayloadsStep(lines: seq<string>, i: nat)
    requires i < |lines|
    ensures DataPayloads(lines[..i + 1]) ==
      if IsDataLine(lines[i]) then DataPayloads(lines[..i]) + [DataValue(lines[i])] else DataPayloads(lines[..i])
  {
    FilterMapStep(DataOf, lines, i);
  }

  lemma LastEventTypeStep(lines: seq<string>, i: nat)
    requires i < |lines|
    ensures LastEventType(lines[..i + 1]) ==
      if IsEventLine(lines[i]) then Some(EventValue(lines[i])) else LastEventType(lines[..i])
  {
    assert lines[..i + 1][..i] == lines[..i];
  }

  lemma EventsOfStep(rt: Runtime, blocks: seq<string>, b: nat)
    requires b < |blocks|
    ensures var lines := BlockLines(blocks[b]); var payloads := DataPayloads(lines);
      EventsOf(rt, blocks[..b + 1]) ==
        if |payloads| == 0 then EventsOf(rt, blocks[..b])
        else match rt.parse(JoinLines(payloads))
          case None => EventsOf(rt, blocks[..b])
          case Some(j) => EventsOf(rt, blocks[..b]) + [Event(LastEventType(lines), j)]
  {
    FilterMapStep(EventOfBlock(rt), blocks, b);
    assert EventOfBlock(rt)(blocks[b]) == BlockEvent(rt, blocks[b]);
  }

  /**
   * The inner loop of `parseSSE` over one block's trimmed lines: the last `event:` value
   * and the `data:` values in order.
   */
  method ScanLines(lines: seq<string>) returns (eventType: Option<string>, dataLines: seq<string>)
    ensures eventType == LastEventType(lines)
    ensures dataLines == DataPayloads(lines)
  {
    eventType := None;
    dataLines := [];
    var i := 0;
    while i < |lines|
      invariant 0 <= i <= |lines|
      invariant eventType == LastEventType(lines[..i])
      invariant dataLines == DataPayloads(lines[..i])
    {
      var line := lines[i];
      LastEventTypeStep(lines, i);
      DataPayloadsStep(lines, i);
      if IsEventLine(line) {
        eventType := Some(EventValue(line));
      } else if StartsWith(line, DataPrefix) {
        dataLines := dataLines + [DataValue(line)];
      }
      i := i + 1;
    }
    assert lines[..i] == lines;
  }

  /** `parseSSE`: never fails; collects the events block by block. */
  method ParseSse(rt: Runtime, text: string) returns (parsedEvents: seq<Event>)
    ensures parsedEvents == ParsedEvents(rt, text)
  {
    var blocks := Blocks(text);
    parsedEvents := [];
    var b := 0;
    while b < |blocks|
      invariant 0 <= b <= |blocks|
      invariant parsedEvents == EventsOf(rt, blocks[..b])
    {
      var lines := BlockLines(blocks[b]);
      var eventType, dataLines := ScanLines(lines);
      ghost var next := EventsOf(rt, blocks[..b + 1]);
      EventsOfStep(rt, blocks, b);
      if |dataLines| > 0 {
        var combined := JoinLines(dataLines);
        match rt.parse(combined) {
          case Some(parsed) =>
            parsedEvents := parsedEvents + [Event(eventType, parsed)];
          case None =>
        }
      }
      assert parsedEvents == next;
      b := b + 1;
    }
    assert blocks[..b] == blocks;
  }

  // ---------------------------------------------------------------------------
  // Properties of the parse

  /** Trimming and dropping empties keeps exactly the trimmed forms of the pieces that are not whitespace only. */
  lemma KeptTrimmed(pieces: seq<string>, b: string)
    ensures b in KeepNonEmpty(TrimAll(pieces)) <==> exists p :: p in pieces && b == Trim(p) && !AllSpace(p)
  {
    var trimmed := TrimAll(pieces);
    if b in KeepNonEmpty(trimmed) {
      var k :| 0 <= k < |trimmed| && trimmed[k] == b;
      TrimEmptyIffAllSpace(pieces[k]);
      assert pieces[k] in pieces;
    }
    if exists p :: p in pieces && b == Trim(p) && !AllSpace(p) {
      var p :| p in pieces && b == Trim(p) && !AllSpace(p);
      TrimEmptyIffAllSpace(p);
      var k :| 0 <= k < |pieces| && pieces[k] == p;
      assert trimmed[k] == b;
    }
  }

  /** A kept block is the trimmed form of a piece that is not whitespace only, and every such piece is kept. */
  lemma BlocksAreTrimmedPieces(text: string, b: string)
    ensures b in Blocks(text) <==> exists p :: p in SplitBlankRuns(text) && b == Trim(p) && !AllSpace(p)
  {
    KeptTrimmed(SplitBlankRuns(text), b);
  }

  /** The blocks that pieces give, one after the other: each its trimmed form, or nothing when it is whitespace only. */
  function PieceBlocks(pieces: seq<string>): seq<string> {
    if |pieces| == 0 then []
    else (if AllSpace(pieces[0]) then [] else [Trim(pieces[0])]) + PieceBlocks(pieces[1..])
  }

  /** `filter(Boolean)` works element by element: filtering a concatenation concatenates the filtered parts. */
  lemma {:induction false} KeepNonEmptyAppend(a: seq<string>, b: seq<string>)
    ensures KeepNonEmpty(a + b) == KeepNonEmpty(a) + KeepNonEmpty(b)
    decreases |b|
  {
    if |b| == 0 {
      assert a + b == a;
    } else {
      var init := b[..|b| - 1];
      KeepNonEmptyAppend(a, init);
      assert (a + b)[..|a + b| - 1] == a + init;
      assert (a + b)[|a + b| - 1] == b[|b| - 1];
    }
  }

  /** Trimming each string commutes with concatenation. */
  lemma TrimAllAppend(a: seq<string>, b: seq<string>)
    ensures TrimAll(a + b) == TrimAll(a) + TrimAll(b)
  {
    assert forall k :: 0 <= k < |a + b| ==> TrimAll(a + b)[k] == (TrimAll(a) + TrimAll(b))[k];
  }

  /** Trimming then filtering keeps the pieces' order and gives one block per piece that is not whitespace only. */
  lemma {:induction false} KeptTrimmedInOrder(pieces: seq<string>)
    ensures KeepNonEmpty(TrimAll(pieces)) == PieceBlocks(pieces)
    decreases |pieces|
  {
    if |pieces| > 0 {
      var p, rest := pieces[0], pieces[1..];
      assert pieces == [p] + rest;
      KeptTrimmedInOrder(rest);
      TrimAllAppend([p], rest);
      KeepNonEmptyAppend(TrimAll([p]), TrimAll(rest));
      KeptTrimmedOne(p);
    }
  }

  /** A single piece gives its trimmed form as a block, or nothing when it is whitespace only. */
  lemma KeptTrimmedOne(p: string)
    ensures KeepNonEmpty(TrimAll([p])) == if AllSpace(p) then [] else [Trim(p)]
  {
    TrimEmptyIffAllSpace(p);
    assert TrimAll([p]) == [Trim(p)];
    assert [Trim(p)][..0] == [];
  }

  /** The blocks of a response are its blank-line-separated pieces, in text order, trimmed, with the whitespace-only ones dropped. */
  lemma BlocksInOrder(text: string)
    ensures Blocks(text) == PieceBlocks(SplitBlankRuns(text))
  {
    KeptTrimmedInOrder(SplitBlankRuns(text));
  }

  /** Every block is non-empty and neither starts nor ends with whitespace. */
  lemma BlockEnds(text: string, b: string)
    requires b in Blocks(text)
    ensures |b| > 0 && !IsSpace(b[0]) && !IsSpace(b[|b| - 1])
  {
    BlocksAreTrimmedPieces(text, b);
    var p :| p in SplitBlankRuns(text) && b == Trim(p) && !AllSpace(p);
    TrimEmptyIffAllSpace(p);
  }

  /** FilterMap yields nothing exactly when `f` yields nothing on every element. */
  lemma {:induction false} FilterMapEmptyIff<S, T>(f: S -> Option<T>, xs: seq<S>)
    ensures FilterMap(f, xs) == [] <==> forall k :: 0 <= k < |xs| ==> f(xs[k]).None?
  {
    if |xs| > 0 {
      var init := xs[..|xs| - 1];
      FilterMapEmptyIff(f, init);
      forall k | 0 <= k < |init| ensures init[k] == xs[k] { }
    }
  }

  /** A block yields no data exactly when none of its lines is a `data:` line. */
  lemma DataPayloadsEmptyIff(lines: seq<string>)
    ensures DataPayloads(lines) == [] <==> forall k :: 0 <= k < |lines| ==> !IsDataLine(lines[k])
  {
    FilterMapEmptyIff(DataOf, lines);
  }

  /** FilterMap of consecutive runs concatenates: results keep the elements' order. */
  lemma {:induction false} FilterMapAppend<S, T>(f: S -> Option<T>, a: seq<S>, b: seq<S>)
    ensures FilterMap(f, a + b) == FilterMap(f, a) + FilterMap(f, b)
  {
    if |b| == 0 {
      assert a + b == a;
    } else {
      var init := b[..|b| - 1];
      FilterMapAppend(f, a, init);
      assert (a + b)[..|a + b| - 1] == a + init;
    }
  }

  /** The data values of consecutive runs of lines concatenate: their order is the lines' order. */
  lemma DataPayloadsAppend(a: seq<string>, b: seq<string>)
    ensures DataPayloads(a + b) == DataPayloads(a) + DataPayloads(b)
  {
    FilterMapAppend(DataOf, a, b);
  }

  /** Every result of FilterMap is what `f` yields on some element. */
  lemma {:induction false} FilterMapFrom<S, T>(f: S -> Option<T>, xs: seq<S>, j: nat)
    requires j < |FilterMap(f, xs)|
    ensures exists k :: 0 <= k < |xs| && f(xs[k]) == Some(FilterMap(f, xs)[j])
  {
    var init := xs[..|xs| - 1];
    if j < |FilterMap(f, init)| {
      FilterMapFrom(f, init, j);
      var k :| 0 <= k < |init| && f(init[k]) == Some(FilterMap(f, init)[j]);
      assert init[k] == xs[k];
    } else {
      assert f(xs[|xs| - 1]) == Some(FilterMap(f, xs)[j]);
    }
  }

  lemma SliceKeepsNoLineFeed(s: string, i: nat, j: nat)
    requires i <= j <= |s| && !HasLineFeed(s)
    ensures !HasLineFeed(s[i..j])
  {
    forall k | 0 <= k < j - i ensures s[i..j][k] != '\n' { assert s[i..j][k] == s[i + k]; }
  }

  lemma TrimKeepsNoLineFeed(s: string)
    requires !HasLineFeed(s)
    ensures !HasLineFeed(Trim(s))
  {
    var i := SkipSpaces(s, 0);
    SliceKeepsNoLineFeed(s, i, i + |Trim(s)|);
  }

  /** A data value taken from a line without line feeds has none either. */
  lemma DataOfNoLineFeed(line: string, v: string)
    requires !HasLineFeed(line) && DataOf(line) == Some(v)
    ensures !HasLineFeed(v)
  {
    SliceKeepsNoLineFeed(line, |DataPrefix|, |line|);
    TrimKeepsNoLineFeed(line[|DataPrefix|..]);
  }

  /** No line of a block holds a line feed. */
  lemma BlockLinesNoLineFeed(block: string)
    ensures forall k :: 0 <= k < |BlockLines(block)| ==> !HasLineFeed(BlockLines(block)[k])
  {
    var raw := SplitLines(block);
    SplitLinesNoLineFeed(block);
    forall k | 0 <= k < |raw| ensures !HasLineFeed(Trim(raw[k])) {
      TrimKeepsNoLineFeed(raw[k]);
    }
  }

  /** Data values taken from lines without line feeds have none either. */
  lemma PayloadsNoLineFeed(lines: seq<string>)
    requires forall k :: 0 <= k < |lines| ==> !HasLineFeed(lines[k])
    ensures forall j :: 0 <= j < |DataPayloads(lines)| ==> !HasLineFeed(DataPayloads(lines)[j])
  {
    forall j | 0 <= j < |DataPayloads(lines)| ensures !HasLineFeed(DataPayloads(lines)[j]) {
      FilterMapFrom(DataOf, lines, j);
      var k :| 0 <= k < |lines| && DataOf(lines[k]) == Some(DataPayloads(lines)[j]);
      DataOfNoLineFeed(lines[k], DataPayloads(lines)[j]);
    }
  }

  /**
   * The joined data of a block can be split back into exactly its data values:
   * none of them holds a line feed, so `join("\n")` loses nothing.
   */
  lemma JoinedDataSplitsBack(block: string)
    requires DataPayloads(BlockLines(block)) != []
    ensures SplitLines(JoinLines(DataPayloads(BlockLines(block)))) == DataPayloads(BlockLines(block))
  {
    BlockLinesNoLineFeed(block);
    PayloadsNoLineFeed(BlockLines(block));
    SplitJoinLines(DataPayloads(BlockLines(block)));
  }

  /** Without `event:` lines there is no event type. */
  lemma {:induction false} LastEventTypeNoneIff(lines: seq<string>)
    ensures LastEventType(lines).None? <==> forall k :: 0 <= k < |lines| ==> !IsEventLine(lines[k])
  {
    if |lines| > 0 {
      var init := lines[..|lines| - 1];
      LastEventTypeNoneIff(init);
      forall k | 0 <= k < |init| ensures init[k] == lines[k] { }
    }
  }

  /** The event type is the value of the last `event:` line: later ones override earlier ones. */
  lemma {:induction false} LastEventTypeIsLast(lines: seq<string>, k: nat)
    requires k < |lines| && IsEventLine(lines[k])
    requires forall m :: k < m < |lines| ==> !IsEventLine(lines[m])
    ensures LastEventType(lines) == Some(EventValue(lines[k]))
  {
    if k < |lines| - 1 {
      var init := lines[..|lines| - 1];
      assert init[k] == lines[k];
      LastEventTypeIsLast(init, k);
    }
  }

  /**
   * A block contributes an event exactly when one of its lines is a `data:` line and
   * the data values joined with line feeds parse as JSON; the event carries that JSON
   * and the value of the block's last `event:` line.
   */
  lemma LinesEventIff(rt: Runtime, lines: seq<string>)
    ensures LinesEvent(rt, lines).Some? <==>
      (exists k :: 0 <= k < |lines| && IsDataLine(lines[k])) && rt.parse(JoinLines(DataPayloads(lines))).Some?
    ensures LinesEvent(rt, lines).Some? ==>
      LinesEvent(rt, lines).value == Event(LastEventType(lines), rt.parse(JoinLines(DataPayloads(lines))).value)
  {
    DataPayloadsEmptyIff(lines);
  }

  /** The events of consecutive runs of blocks concatenate: events come out in block order. */
  lemma EventsOfAppend(rt: Runtime, a: seq<string>, b: seq<string>)
    ensures EventsOf(rt, a + b) == EventsOf(rt, a) + EventsOf(rt, b)
  {
    FilterMapAppend(EventOfBlock(rt), a, b);
  }

  /** At most one result per element, and one per element exactly when `f` never yields nothing. */
  lemma {:induction false} FilterMapLength<S, T>(f: S -> Option<T>, xs: seq<S>)
    ensures |FilterMap(f, xs)| <= |xs|
    ensures |FilterMap(f, xs)| == |xs| <==> forall k :: 0 <= k < |xs| ==> f(xs[k]).Some?
  {
    if |xs| > 0 {
      var init := xs[..|xs| - 1];
      FilterMapLength(f, init);
      forall k | 0 <= k < |init| ensures init[k] == xs[k] { }
    }
  }

  /** At most one event per block, and one per block exactly when every block yields one. */
  lemma EventsOfLength(rt: Runtime, blocks: seq<string>)
    ensures |EventsOf(rt, blocks)| <= |blocks|
    ensures |EventsOf(rt, blocks)| == |blocks| <==> forall k :: 0 <= k < |blocks| ==> BlockEvent(rt, blocks[k]).Some?
  {
    FilterMapLength(EventOfBlock(rt), blocks);
  }

  /** `parseSSE` returns no more events than there are non-empty blocks. */
  lemma ParsedEventsBound(rt: Runtime, text: string)
    ensures |ParsedEvents(rt, text)| <= |Blocks(text)| <= |SplitBlankRuns(text)|
  {
    EventsOfLength(rt, Blocks(text));
  }
}
