/**
 * The JavaScript string built-ins that the browser client's SSE parser relies on:
 * `String.prototype.trim`, `split(/\n/)`, `split(/\n\n+/)` and `join("\n")`.
 */
module JsText {

  /** The characters `trim` removes: ECMAScript WhiteSpace and LineTerminator code points. */
  predicate IsSpace(c: char) {
    || c == '\t' || c == '\n' || c == '\U{B}' || c == '\U{C}' || c == '\r' || c == ' '
    || c == '\U{A0}' || c == '\U{1680}' || ('\U{2000}' <= c <= '\U{200A}')
    || c == '\U{2028}' || c == '\U{2029}' || c == '\U{202F}' || c == '\U{205F}'
    || c == '\U{3000}' || c == '\U{FEFF}'
  }

  predicate AllSpace(s: string) {
    forall k :: 0 <= k < |s| ==> IsSpace(s[k])
  }

  /** The index of the first character at or after `from` that is not whitespace, or `|s|`. */
  function SkipSpaces(s: string, from: nat): (i: nat)
    requires from <= |s|
    ensures from <= i <= |s|
    ensures forall k :: from <= k < i ==> IsSpace(s[k])
    ensures i < |s| ==> !IsSpace(s[i])
    decreases |s| - from
  {
    if from < |s| && IsSpace(s[from]) then SkipSpaces(s, from + 1) else from
  }

  /** The index just past the last character before `hi` that is not whitespace, and no lower than `lo`. */
  function SkipSpacesBack(s: string, lo: nat, hi: nat): (j: nat)
    requires lo <= hi <= |s|
    ensures lo <= j <= hi
    ensures forall k :: j <= k < hi ==> IsSpace(s[k])
    ensures lo < j ==> !IsSpace(s[j - 1])
    decreases hi
  {
    if lo < hi && IsSpace(s[hi - 1]) then SkipSpacesBack(s, lo, hi - 1) else hi
  }

  /** `s.trim()`: the slice of `s` left once whitespace is stripped from both ends. */
  function Trim(s: string): (r: string)
    ensures var i := SkipSpaces(s, 0);
      i + |r| <= |s| && r == s[i..i + |r|]
      && (forall k :: 0 <= k < i ==> IsSpace(s[k]))
      && (forall k :: i + |r| <= k < |s| ==> IsSpace(s[k]))
    ensures |r| == 0 || (!IsSpace(r[0]) && !IsSpace(r[|r| - 1]))
  {
    var i := SkipSpaces(s, 0);
    s[i..SkipSpacesBack(s, i, |s|)]
  }

  /** A string trims to nothing exactly when it is whitespace only. */
  lemma TrimEmptyIffAllSpace(s: string)
    ensures Trim(s) == [] <==> AllSpace(s)
  {
    var i := SkipSpaces(s, 0);
    if Trim(s) == [] {
      forall k | 0 <= k < |s| ensures IsSpace(s[k]) {
        if k < i {} else {}
      }
    }
  }

  /** Trimming twice is trimming once. */
  lemma TrimIdempotent(s: string)
    ensures Trim(Trim(s)) == Trim(s)
  {
    var r := Trim(s);
    assert SkipSpaces(r, 0) == 0;
    assert SkipSpacesBack(r, 0, |r|) == |r|;
    assert r[0..|r|] == r;
  }

  predicate HasLineFeed(s: string) {
    exists k :: 0 <= k < |s| && s[k] == '\n'
  }

  // ---------------------------------------------------------------------------
  // split(/\n/) and join("\n")

  /** `s.split(/\n/)`: the pieces between line feeds, always at least one. */
  function SplitLines(s: string): (r: seq<string>)
    ensures |r| >= 1
  {
    if |s| == 0 then [""]
    else if s[0] == '\n' then [""] + SplitLines(s[1..])
    else var rest := SplitLines(s[1..]); [[s[0]] + rest[0]] + rest[1..]
  }

  /** `ls.join("\n")`. */
  function JoinLines(ls: seq<string>): string {
    if |ls| == 0 then ""
    else if |ls| == 1 then ls[0]
    else ls[0] + "\n" + JoinLines(ls[1..])
  }

  lemma JoinLinesCons(c: char, first: string, rest: seq<string>)
    ensures JoinLines([[c] + first] + rest) == [c] + JoinLines([first] + rest)
  {
    if |rest| > 0 {
      assert ([[c] + first] + rest)[1..] == rest;
      assert ([first] + rest)[1..] == rest;
    }
  }

  /** No piece of `s.split(/\n/)` contains a line feed. */
  lemma {:induction false} SplitLinesNoLineFeed(s: string)
    ensures forall k :: 0 <= k < |SplitLines(s)| ==> !HasLineFeed(SplitLines(s)[k])
  {
    if |s| > 0 {
      SplitLinesNoLineFeed(s[1..]);
      var rest := SplitLines(s[1..]);
      if s[0] != '\n' {
        var head := [s[0]] + rest[0];
        assert !HasLineFeed(rest[0]);
        forall j | 0 <= j < |head| ensures head[j] != '\n' {
          if j > 0 { assert head[j] == rest[0][j - 1]; }
        }
      }
    }
  }

  /** Joining the pieces of `split(/\n/)` with "\n" gives back the string. */
  lemma {:induction false} JoinSplitLines(s: string)
    ensures JoinLines(SplitLines(s)) == s
  {
    if |s| > 0 {
      JoinSplitLines(s[1..]);
      var rest := SplitLines(s[1..]);
      if s[0] == '\n' {
        assert ([""] + rest)[1..] == rest;
        assert s == "\n" + s[1..];
      } else {
        JoinLinesCons(s[0], rest[0], rest[1..]);
        assert [rest[0]] + rest[1..] == rest;
        assert s == [s[0]] + s[1..];
      }
    }
  }

  lemma {:induction false} SplitLinesNoFeed(p: string)
    requires !HasLineFeed(p)
    ensures SplitLines(p) == [p]
  {
    if |p| > 0 {
      assert !HasLineFeed(p[1..]) by {
        forall j | 0 <= j < |p[1..]| ensures p[1..][j] != '\n' { assert p[1..][j] == p[j + 1]; }
      }
      SplitLinesNoFeed(p[1..]);
      assert p == [p[0]] + p[1..];
    }
  }

  lemma {:induction false} SplitLinesAfterPiece(p: string, t: string)
    requires !HasLineFeed(p)
    ensures SplitLines(p + "\n" + t) == [p] + SplitLines(t)
  {
    if |p| == 0 {
      assert p + "\n" + t == "\n" + t;
      assert ("\n" + t)[1..] == t;
    } else {
      assert !HasLineFeed(p[1..]) by {
        forall j | 0 <= j < |p[1..]| ensures p[1..][j] != '\n' { assert p[1..][j] == p[j + 1]; }
      }
      SplitLinesAfterPiece(p[1..], t);
      assert (p + "\n" + t)[1..] == p[1..] + "\n" + t;
      assert p == [p[0]] + p[1..];
    }
  }

  /** Splitting a join of line-feed-free pieces gives back the pieces. */
  lemma {:induction false} SplitJoinLines(ls: seq<string>)
    requires |ls| >= 1
    requires forall k :: 0 <= k < |ls| ==> !HasLineFeed(ls[k])
    ensures SplitLines(JoinLines(ls)) == ls
  {
    if |ls| == 1 {
      SplitLinesNoFeed(ls[0]);
    } else {
      SplitJoinLines(ls[1..]);
      SplitLinesAfterPiece(ls[0], JoinLines(ls[1..]));
      assert [ls[0]] + ls[1..] == ls;
    }
  }

  // ---------------------------------------------------------------------------
  // split(/\n\n+/)

  /** Position `k` of `s` starts a blank line: two line feeds in a row. */
  predicate BlankAt(s: string, k: nat) {
    k + 1 < |s| && s[k] == '\n' && s[k + 1] == '\n'
  }

  predicate HasBlankLine(s: string) {
    exists k: nat :: k < |s| && BlankAt(s, k)
  }

  /** The first position at or after `from` where a blank line starts, or `|s|` if none does. */
  function FirstBlank(s: string, from: nat): (i: nat)
    requires from <= |s|
    ensures from <= i <= |s|
    ensures forall k: nat :: from <= k < i ==> !BlankAt(s, k)
    ensures i < |s| ==> BlankAt(s, i)
    decreases |s| - from
  {
    if from + 1 >= |s| then |s|
    else if s[from] == '\n' && s[from + 1] == '\n' then from
    else FirstBlank(s, from + 1)
  }

  /** `s` with its leading line feeds removed. */
  function DropLineFeeds(s: string): (r: string)
    ensures |r| <= |s| && r == s[|s| - |r|..]
    ensures |r| == 0 || r[0] != '\n'
  {
    if |s| > 0 && s[0] == '\n' then DropLineFeeds(s[1..]) else s
  }

  /** The line feeds `s` starts with: what `DropLineFeeds` removes. */
  function LeadingLineFeeds(s: string): string {
    s[..|s| - |DropLineFeeds(s)|]
  }

  /** `s` is its leading line feeds followed by the rest. */
  lemma LeadingSplit(s: string)
    ensures s == LeadingLineFeeds(s) + DropLineFeeds(s)
  {
    var m := |s| - |DropLineFeeds(s)|;
    assert s == s[..m] + s[m..];
  }

  /** The leading line feeds are line feeds only. */
  lemma {:induction false} LeadingAreLineFeeds(s: string)
    ensures OnlyLineFeeds(LeadingLineFeeds(s))
  {
    if |s| > 0 && s[0] == '\n' {
      LeadingAreLineFeeds(s[1..]);
      var r, r1 := LeadingLineFeeds(s), LeadingLineFeeds(s[1..]);
      assert |r| == |r1| + 1;
      forall k | 1 <= k < |r| ensures r[k] == '\n' {
        assert r[k] == s[k] == s[1..][k - 1] == r1[k - 1];
      }
    }
  }

  /** `s.split(/\n\n+/)`: the pieces between maximal runs of two or more line feeds. */
  function SplitBlankRuns(s: string): (r: seq<string>)
    ensures |r| >= 1
    decreases |s|
  {
    var i := FirstBlank(s, 0);
    if i == |s| then [s]
    else [s[..i]] + SplitBlankRuns(DropLineFeeds(s[i..]))
  }

  /** The runs of line feeds that `SplitBlankRuns` cuts at, in order. */
  function Separators(s: string): (r: seq<string>)
    ensures |r| + 1 == |SplitBlankRuns(s)|
    decreases |s|
  {
    var i := FirstBlank(s, 0);
    if i == |s| then []
    else var u := s[i..]; [LeadingLineFeeds(u)] + Separators(DropLineFeeds(u))
  }

  /** `p` does not end with a line feed. */
  predicate EndsClean(p: string) {
    |p| == 0 || p[|p| - 1] != '\n'
  }

  /** `p` does not start with a line feed. */
  predicate StartsClean(p: string) {
    |p| == 0 || p[0] != '\n'
  }

  predicate OnlyLineFeeds(s: string) {
    forall k :: 0 <= k < |s| ==> s[k] == '\n'
  }

  /** The pieces interleaved with the separators. */
  function Rejoin(pieces: seq<string>, seps: seq<string>): string
    requires |pieces| == |seps| + 1
  {
    if |seps| == 0 then pieces[0]
    else pieces[0] + seps[0] + Rejoin(pieces[1..], seps[1..])
  }

  /** The run at the first blank line has two or more line feeds and nothing else. */
  lemma FirstCutRun(s: string)
    requires FirstBlank(s, 0) < |s|
    ensures var sep := LeadingLineFeeds(s[FirstBlank(s, 0)..]); |sep| >= 2 && OnlyLineFeeds(sep)
  {
    var i := FirstBlank(s, 0);
    var u := s[i..];
    assert BlankAt(s, i);
    assert u[0] == '\n' && u[1..][0] == '\n';
    assert DropLineFeeds(u) == DropLineFeeds(u[1..][1..]);
    LeadingAreLineFeeds(u);
  }

  /** The piece before the first blank line holds none. */
  lemma FirstCutPiece(s: string)
    requires FirstBlank(s, 0) < |s|
    ensures !HasBlankLine(s[..FirstBlank(s, 0)])
  {
    var i := FirstBlank(s, 0);
    assert forall k: nat :: BlankAt(s[..i], k) ==> BlankAt(s, k);
  }

  /** The piece before the first blank line does not end with a line feed. */
  lemma FirstCutPieceEnd(s: string)
    requires FirstBlank(s, 0) < |s|
    ensures EndsClean(s[..FirstBlank(s, 0)])
  {
    var i := FirstBlank(s, 0);
    assert i > 0 ==> !BlankAt(s, i - 1);
  }

  lemma Reassemble(s: string, i: nat, sep: string, t: string)
    requires i <= |s| && s[i..] == sep + t
    ensures s[..i] + sep + t == s
  {
    assert s == s[..i] + s[i..];
  }

  /** `s` is the piece before its first blank line, the run of line feeds there, and the rest. */
  lemma FirstCutJoin(s: string)
    requires FirstBlank(s, 0) < |s|
    ensures var i := FirstBlank(s, 0); var u := s[i..];
      s[..i] + LeadingLineFeeds(u) + DropLineFeeds(u) == s
  {
    var i := FirstBlank(s, 0);
    var u := s[i..];
    LeadingSplit(u);
    Reassemble(s, i, LeadingLineFeeds(u), DropLineFeeds(u));
  }

  lemma RejoinStep(p: string, sep: string, pieces: seq<string>, seps: seq<string>, t: string, s: string)
    requires |pieces| == |seps| + 1
    requires Rejoin(pieces, seps) == t
    requires p + sep + t == s
    ensures Rejoin([p] + pieces, [sep] + seps) == s
  {
    assert ([p] + pieces)[1..] == pieces;
    assert ([sep] + seps)[1..] == seps;
  }

  /** Rejoining the pieces with the separators gives back `s`. */
  lemma {:induction false} SplitBlankRunsRejoin(s: string)
    ensures Rejoin(SplitBlankRuns(s), Separators(s)) == s
    decreases |s|
  {
    var i := FirstBlank(s, 0);
    if i < |s| {
      var t := DropLineFeeds(s[i..]);
      SplitBlankRunsRejoin(t);
      FirstCutJoin(s);
      RejoinStep(s[..i], LeadingLineFeeds(s[i..]), SplitBlankRuns(t), Separators(t), t, s);
    }
  }

  predicate AllRuns(seps: seq<string>) {
    forall k :: 0 <= k < |seps| ==> |seps[k]| >= 2 && OnlyLineFeeds(seps[k])
  }

  lemma RunsCons(sep: string, rest: seq<string>, seps: seq<string>)
    requires seps == [sep] + rest
    requires |sep| >= 2 && OnlyLineFeeds(sep) && AllRuns(rest)
    ensures AllRuns(seps)
  {
    forall k | 1 <= k < |seps| ensures seps[k] == rest[k - 1] { }
  }

  /** Every separator the split cuts at is a run of two or more line feeds. */
  lemma {:induction false} SeparatorsAreRuns(s: string)
    ensures AllRuns(Separators(s))
    decreases |s|
  {
    var i := FirstBlank(s, 0);
    if i < |s| {
      var t := DropLineFeeds(s[i..]);
      SeparatorsAreRuns(t);
      FirstCutRun(s);
      RunsCons(LeadingLineFeeds(s[i..]), Separators(t), Separators(s));
    }
  }

  /** No piece holds a blank line. */
  lemma {:induction false} PiecesHaveNoBlankLine(s: string)
    ensures forall k :: 0 <= k < |SplitBlankRuns(s)| ==> !HasBlankLine(SplitBlankRuns(s)[k])
    decreases |s|
  {
    var i := FirstBlank(s, 0);
    if i == |s| {
      assert !HasBlankLine(s);
    } else {
      var t := DropLineFeeds(s[i..]);
      PiecesHaveNoBlankLine(t);
      FirstCutPiece(s);
      ConsAll(s[..i], SplitBlankRuns(t), SplitBlankRuns(s));
    }
  }

  lemma ConsAll(p: string, rest: seq<string>, pieces: seq<string>)
    requires pieces == [p] + rest && !HasBlankLine(p)
    requires forall k :: 0 <= k < |rest| ==> !HasBlankLine(rest[k])
    ensures forall k :: 0 <= k < |pieces| ==> !HasBlankLine(pieces[k])
  {
    forall k | 1 <= k < |pieces| ensures pieces[k] == rest[k - 1] { }
  }

  /** No piece before a run ends with a line feed. */
  lemma {:induction false} PiecesEndClean(s: string)
    ensures forall k :: 0 <= k < |SplitBlankRuns(s)| - 1 ==>
      EndsClean(SplitBlankRuns(s)[k])
    decreases |s|
  {
    if FirstBlank(s, 0) < |s| {
      var p, t := FirstCut(s);
      PiecesEndClean(t);
      ConsEnds(p, SplitBlankRuns(t), SplitBlankRuns(s));
    }
  }

  /** One step of the split: the first piece, which ends cleanly, and the rest after the run. */
  lemma FirstCut(s: string) returns (p: string, t: string)
    requires FirstBlank(s, 0) < |s|
    ensures EndsClean(p) && StartsClean(t)
    ensures |t| < |s| && SplitBlankRuns(s) == [p] + SplitBlankRuns(t)
  {
    var i := FirstBlank(s, 0);
    p, t := s[..i], DropLineFeeds(s[i..]);
    FirstCutPieceEnd(s);
  }

  lemma ConsEnds(p: string, rest: seq<string>, pieces: seq<string>)
    requires pieces == [p] + rest && EndsClean(p)
    requires forall k :: 0 <= k < |rest| - 1 ==> EndsClean(rest[k])
    ensures forall k :: 0 <= k < |pieces| - 1 ==> EndsClean(pieces[k])
  {
    forall k | 1 <= k < |pieces| ensures pieces[k] == rest[k - 1] { }
  }

  /** No piece after a run starts with a line feed. */
  lemma {:induction false} PiecesStartClean(s: string)
    ensures forall k :: 1 <= k < |SplitBlankRuns(s)| ==>
      StartsClean(SplitBlankRuns(s)[k])
    decreases |s|
  {
    var i := FirstBlank(s, 0);
    if i < |s| {
      var t := DropLineFeeds(s[i..]);
      PiecesStartClean(t);
      FirstPiecePrefix(t);
      ConsStarts(s[..i], t, SplitBlankRuns(t), SplitBlankRuns(s));
    }
  }

  lemma ConsStarts(p: string, t: string, rest: seq<string>, pieces: seq<string>)
    requires pieces == [p] + rest && |rest| >= 1
    requires StartsClean(t)
    requires |rest[0]| <= |t| && rest[0] == t[..|rest[0]|]
    requires forall k :: 1 <= k < |rest| ==> StartsClean(rest[k])
    ensures forall k :: 1 <= k < |pieces| ==> StartsClean(pieces[k])
  {
    assert |rest[0]| == 0 || rest[0][0] == t[0];
    forall k | 1 <= k < |pieces| ensures pieces[k] == rest[k - 1] { }
  }

  /** No piece strictly between two runs is empty: two runs never sit side by side. */
  lemma {:induction false} MiddlePiecesNonEmpty(s: string)
    ensures forall k :: 1 <= k < |SplitBlankRuns(s)| - 1 ==> |SplitBlankRuns(s)[k]| > 0
    decreases |s|
  {
    if FirstBlank(s, 0) < |s| {
      var p, t := FirstCut(s);
      MiddlePiecesNonEmpty(t);
      if |SplitBlankRuns(t)| >= 2 {
        FirstPieceNonEmpty(t);
      }
      ConsMiddle(p, SplitBlankRuns(t), SplitBlankRuns(s));
    }
  }

  /** A string that does not start with a line feed but is still cut has a non-empty first piece. */
  lemma FirstPieceNonEmpty(t: string)
    requires StartsClean(t) && |SplitBlankRuns(t)| >= 2
    ensures |SplitBlankRuns(t)[0]| > 0
  {
    var j := FirstBlank(t, 0);
    assert j < |t|;
    assert BlankAt(t, j);
  }

  lemma ConsMiddle(p: string, rest: seq<string>, pieces: seq<string>)
    requires pieces == [p] + rest
    requires |rest| >= 2 ==> |rest[0]| > 0
    requires forall k :: 1 <= k < |rest| - 1 ==> |rest[k]| > 0
    ensures forall k :: 1 <= k < |pieces| - 1 ==> |pieces[k]| > 0
  {
    forall k | 1 <= k < |pieces| ensures pieces[k] == rest[k - 1] { }
  }

  /**
   * No piece holds a blank line, a piece next to a run neither ends nor begins with a
   * line feed, and no piece between two runs is empty: each run the split cuts at is maximal.
   */
  lemma SplitBlankRunsPieces(s: string)
    ensures forall k :: 0 <= k < |SplitBlankRuns(s)| ==> !HasBlankLine(SplitBlankRuns(s)[k])
    ensures forall k :: 0 <= k < |SplitBlankRuns(s)| - 1 ==>
      EndsClean(SplitBlankRuns(s)[k])
    ensures forall k :: 1 <= k < |SplitBlankRuns(s)| ==>
      StartsClean(SplitBlankRuns(s)[k])
    ensures forall k :: 1 <= k < |SplitBlankRuns(s)| - 1 ==> |SplitBlankRuns(s)[k]| > 0
  {
    PiecesHaveNoBlankLine(s);
    PiecesEndClean(s);
    PiecesStartClean(s);
    MiddlePiecesNonEmpty(s);
  }

  /** The first piece is a prefix of the string. */
  lemma FirstPiecePrefix(s: string)
    ensures var p := SplitBlankRuns(s)[0]; |p| <= |s| && p == s[..|p|]
  {
  }
}
