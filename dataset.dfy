/**
  The fine-tuning dataset builder: `parseQA` reads question/answer pairs out of
  plain text with a line-oriented state machine, and `qaToJsonl` turns the pairs
  into chat-format JSON Lines, one `{"messages": [...]}` object per pair.
*/
module Dataset {
  import opened Common
  import Json

  // ----- marker lines -----

  /** `Q` or `q` (resp. `A` or `a`): the case-insensitive letter of a marker. */
  predicate IsMarkerLetter(c: char, upper: char) {
    c == upper || c as int == upper as int + 32
  }

  predicate IsSeparator(c: char) {
    c == ':' || c == '-'
  }

  /**
    The matcher of `/^\s*Q\s*[:\-]\s*(.*)$/i` (with `upper` the marker letter),
    by phases: 0 before the letter, 1 between the letter and the separator, 2
    before the captured rest. White space is skipped in every phase; in phase 2
    the `\s*` takes all the white space it can, and `.` with `$` then needs the
    rest to hold no line terminator.
  */
  function Scan(s: string, phase: nat, upper: char): Option<string>
    requires phase <= 2
    decreases |s|
  {
    if phase == 2 then
      if |s| > 0 && IsJsSpace(s[0]) then Scan(s[1..], 2, upper)
      else if NoLineTerminator(s) then Some(s) else None
    else if |s| == 0 then None
    else if IsJsSpace(s[0]) then Scan(s[1..], phase, upper)
    else if phase == 0 && IsMarkerLetter(s[0], upper) then Scan(s[1..], 1, upper)
    else if phase == 1 && IsSeparator(s[0]) then Scan(s[1..], 2, upper)
    else None
  }

  /** `line.match(...)`: the captured rest of a marker line, or None. */
  function MatchMarker(line: string, upper: char): Option<string> {
    Scan(line, 0, upper)
  }

  /** The shape the pattern describes: space, letter, space, separator, space, then the rest. */
  ghost predicate MarkerShape(line: string, upper: char, w1: string, l: char, w2: string, sep: char, w3: string,
                              rest: string)
  {
    && line == w1 + [l] + w2 + [sep] + w3 + rest
    && AllSpace(w1) && IsMarkerLetter(l, upper) && AllSpace(w2) && IsSeparator(sep) && AllSpace(w3)
    && NoLineTerminator(rest) && (rest == [] || !IsJsSpace(rest[0]))
  }

  lemma {:induction false} ScanSkipsSpace(w: string, t: string, phase: nat, upper: char)
    requires phase <= 2 && AllSpace(w)
    ensures Scan(w + t, phase, upper) == Scan(t, phase, upper)
    decreases |w|
  {
    if w != [] {
      assert (w + t)[0] == w[0];
      assert (w + t)[1..] == w[1..] + t;
      assert IsJsSpace(w[0]);
      assert AllSpace(w[1..]) by {
        assert forall i :: 0 <= i < |w| - 1 ==> w[1..][i] == w[i + 1];
      }
      ScanSkipsSpace(w[1..], t, phase, upper);
      var s := w + t;
      assert |s| > 0 && IsJsSpace(s[0]);
      assert Scan(s, phase, upper) == Scan(s[1..], phase, upper);
    } else {
      assert w + t == t;
    }
  }

  lemma {:induction false} ScanRest(x: string, upper: char)
    ensures Scan(x, 2, upper) == if NoLineTerminator(TrimStart(x)) then Some(TrimStart(x)) else None
    decreases |x|
  {
    if |x| > 0 && IsJsSpace(x[0]) {
      ScanRest(x[1..], upper);
    }
  }

  lemma {:induction false} SoundRest(s: string, upper: char) returns (w3: string)
    requires Scan(s, 2, upper).Some?
    ensures var r := Scan(s, 2, upper).value;
      s == w3 + r && AllSpace(w3) && NoLineTerminator(r) && (r == [] || !IsJsSpace(r[0]))
    decreases |s|
  {
    if |s| > 0 && IsJsSpace(s[0]) {
      var w := SoundRest(s[1..], upper);
      w3 := [s[0]] + w;
      assert s == [s[0]] + s[1..];
    } else {
      w3 := [];
    }
  }

  lemma {:induction false} SoundSeparator(s: string, upper: char) returns (w2: string, sep: char, w3: string)
    requires Scan(s, 1, upper).Some?
    ensures var r := Scan(s, 1, upper).value;
      && s == w2 + [sep] + w3 + r && AllSpace(w2) && IsSeparator(sep) && AllSpace(w3)
      && NoLineTerminator(r) && (r == [] || !IsJsSpace(r[0]))
    decreases |s|
  {
    assert s == [s[0]] + s[1..];
    if IsJsSpace(s[0]) {
      var w;
      w, sep, w3 := SoundSeparator(s[1..], upper);
      w2 := [s[0]] + w;
    } else {
      w2 := [];
      sep := s[0];
      w3 := SoundRest(s[1..], upper);
    }
  }

  lemma {:induction false} SoundLetter(s: string, upper: char)
    returns (w1: string, l: char, w2: string, sep: char, w3: string)
    requires Scan(s, 0, upper).Some?
    ensures MarkerShape(s, upper, w1, l, w2, sep, w3, Scan(s, 0, upper).value)
    decreases |s|
  {
    assert s == [s[0]] + s[1..];
    if IsJsSpace(s[0]) {
      var w;
      w, l, w2, sep, w3 := SoundLetter(s[1..], upper);
      w1 := [s[0]] + w;
    } else {
      w1 := [];
      l := s[0];
      w2, sep, w3 := SoundSeparator(s[1..], upper);
    }
  }

  /** Every match has the marker shape, with the captured rest last. */
  lemma {:induction false} MarkerSound(line: string, upper: char)
    requires MatchMarker(line, upper).Some?
    ensures exists w1, l, w2, sep, w3 :: MarkerShape(line, upper, w1, l, w2, sep, w3, MatchMarker(line, upper).value)
  {
    var w1, l, w2, sep, w3 := SoundLetter(line, upper);
  }

  /**
    Every line of the marker shape matches, and its capture is the rest without
    its leading white space; if that still holds a line terminator, the line is
    not a marker.
  */
  lemma {:induction false} MarkerComplete(upper: char, w1: string, l: char, w2: string, sep: char, w3: string, x: string)
    requires upper == 'Q' || upper == 'A'
    requires AllSpace(w1) && IsMarkerLetter(l, upper) && AllSpace(w2) && IsSeparator(sep) && AllSpace(w3)
    ensures MatchMarker(w1 + [l] + w2 + [sep] + w3 + x, upper) ==
      if NoLineTerminator(TrimStart(x)) then Some(TrimStart(x)) else None
  {
    var tail2 := [sep] + (w3 + x);
    var tail := [l] + (w2 + tail2);
    assert w1 + [l] + w2 + [sep] + w3 + x == w1 + tail;
    ScanSkipsSpace(w1, tail, 0, upper);
    assert tail[1..] == w2 + tail2;
    ScanSkipsSpace(w2, tail2, 1, upper);
    assert tail2[1..] == w3 + x;
    ScanSkipsSpace(w3, x, 2, upper);
    ScanRest(x, upper);
  }

  /** How `parseQA` sees one line: a question marker, an answer marker (tried second), or plain text. */
  datatype LineKind = QLine(text: string) | ALine(text: string) | Plain

  function Classify(line: string): LineKind {
    match MatchMarker(line, 'Q')
    case Some(r) => QLine(r)
    case None =>
      match MatchMarker(line, 'A')
      case Some(r) => ALine(r)
      case None => Plain
  }

  // ----- the state machine -----

  datatype Mode = NoBlock | InQuestion | InAnswer

  datatype QA = QA(q: string, a: string)

  datatype ParseState = ParseState(mode: Mode, qParts: seq<string>, aParts: seq<string>, pairs: seq<QA>)

  const Init: ParseState := ParseState(NoBlock, [], [], [])

  /** A pair as the parser promises it: question and answer both non-blank, with no white space at either end. */
  predicate CleanPair(x: QA) {
    x.q != "" && x.a != "" && Trimmed(x.q) && Trimmed(x.a)
  }

  /** The pair a block yields: both sides joined by line feeds and trimmed, and kept only when neither is blank. */
  function PairOf(qParts: seq<string>, aParts: seq<string>): (r: seq<QA>)
    ensures |r| <= 1
    ensures r != [] ==> CleanPair(r[0])
    ensures r != [] <==> !AllSpace(Join(qParts, "\n")) && !AllSpace(Join(aParts, "\n"))
    ensures r != [] ==> r[0] == QA(Trim(Join(qParts, "\n")), Trim(Join(aParts, "\n")))
  {
    TrimEmptyIff(Join(qParts, "\n"));
    TrimEmptyIff(Join(aParts, "\n"));
    var q := Trim(Join(qParts, "\n"));
    var a := Trim(Join(aParts, "\n"));
    if q != "" && a != "" then [QA(q, a)] else []
  }

  /** `flushIfComplete`. */
  function Flush(s: ParseState): ParseState {
    ParseState(NoBlock, [], [], s.pairs + PairOf(s.qParts, s.aParts))
  }

  /** A line of the text with the way `parseQA` classifies it. */
  datatype Line = Line(kind: LineKind, raw: string)

  function Tag(raw: string): Line {
    Line(Classify(raw), raw)
  }

  function Tagged(lines: seq<string>): (r: seq<Line>)
    ensures |r| == |lines|
    ensures forall i :: 0 <= i < |lines| ==> r[i] == Tag(lines[i])
  {
    seq(|lines|, i requires 0 <= i < |lines| => Tag(lines[i]))
  }

  /** One iteration of the loop over lines. */
  function Step(s: ParseState, line: Line): ParseState {
    match line.kind
    case QLine(r) =>
      var s1 := if |s.qParts| > 0 || |s.aParts| > 0 then Flush(s) else s;
      s1.(mode := InQuestion, qParts := s1.qParts + [r])
    case ALine(r) =>
      if |s.qParts| == 0 then s.(mode := NoBlock, aParts := [])
      else s.(mode := InAnswer, aParts := s.aParts + [r])
    case Plain =>
      if s.mode == InQuestion then s.(qParts := s.qParts + [line.raw])
      else if s.mode == InAnswer then s.(aParts := s.aParts + [line.raw])
      else s
  }

  function Run(s: ParseState, lines: seq<Line>): ParseState
    decreases |lines|
  {
    if lines == [] then s else Step(Run(s, lines[..|lines| - 1]), lines[|lines| - 1])
  }

  /** The flush after the loop. */
  function Settle(s: ParseState): ParseState {
    if |s.qParts| > 0 || |s.aParts| > 0 then Flush(s) else s
  }

  function ParseLines(lines: seq<Line>): seq<QA> {
    Settle(Run(Init, lines)).pairs
  }

  /** `parseQA(text)` as a function of the text. */
  function ParseSpec(text: string): seq<QA> {
    ParseLines(Tagged(SplitLines(text)))
  }

  /**
    `parseQA`: splits the text into lines and runs the state machine over
    them, flushing the last block at the end.
  */
  method ParseQA(text: string) returns (pairs: seq<QA>)
    ensures pairs == ParseSpec(text)
  {
    var lines := SplitLines(text);
    ghost var tagged := Tagged(lines);
    pairs := [];
    var mode := NoBlock;
    var qParts: seq<string> := [];
    var aParts: seq<string> := [];
    var i := 0;
    while i < |lines|
      invariant 0 <= i <= |lines|
      invariant ParseState(mode, qParts, aParts, pairs) == Run(Init, tagged[..i])
    {
      RunNext(lines, i);
      mode, qParts, aParts, pairs := ParseLine(mode, qParts, aParts, pairs, lines[i]);
      i := i + 1;
    }
    ghost var last := ParseState(mode, qParts, aParts, pairs);
    assert last == Run(Init, tagged) by {
      assert tagged[..|lines|] == tagged;
    }
    if |qParts| > 0 || |aParts| > 0 {
      pairs := pairs + PairOf(qParts, aParts);
    }
    assert pairs == Settle(last).pairs;
  }

  lemma {:induction false} RunSnoc(s: ParseState, lines: seq<Line>, line: Line)
    ensures Run(s, lines + [line]) == Step(Run(s, lines), line)
  {
    assert (lines + [line])[..|lines|] == lines;
  }

  /** The machine over the first i + 1 lines is one step past the machine over the first i. */
  lemma RunNext(lines: seq<string>, i: nat)
    requires i < |lines|
    ensures Run(Init, Tagged(lines)[..i + 1]) == Step(Run(Init, Tagged(lines)[..i]), Tag(lines[i]))
  {
    var tagged := Tagged(lines);
    assert tagged[..i + 1] == tagged[..i] + [Tag(lines[i])];
    RunSnoc(Init, tagged[..i], Tag(lines[i]));
  }

  /** The body of the loop of `parseQA`: one line against the current state. */
  method ParseLine(mode0: Mode, qParts0: seq<string>, aParts0: seq<string>, pairs0: seq<QA>, raw: string)
    returns (mode: Mode, qParts: seq<string>, aParts: seq<string>, pairs: seq<QA>)
    ensures ParseState(mode, qParts, aParts, pairs) == Step(ParseState(mode0, qParts0, aParts0, pairs0), Tag(raw))
  {
    mode, qParts, aParts, pairs := mode0, qParts0, aParts0, pairs0;
    var qMatch := MatchMarker(raw, 'Q');
    if qMatch.Some? {
      if |qParts| > 0 || |aParts| > 0 {
        pairs := pairs + PairOf(qParts, aParts);
        qParts := [];
        aParts := [];
        mode := NoBlock;
      }
      mode := InQuestion;
      qParts := qParts + [qMatch.value];
      return;
    }
    var aMatch := MatchMarker(raw, 'A');
    if aMatch.Some? {
      if |qParts| == 0 {
        // a stray answer marker with no open question
        mode := NoBlock;
        aParts := [];
      } else {
        mode := InAnswer;
        aParts := aParts + [aMatch.value];
      }
    } else if mode == InQuestion {
      qParts := qParts + [raw];
    } else if mode == InAnswer {
      aParts := aParts + [raw];
    }
  }

  // ----- a blockwise reference -----

  /** The last question marker, if any. */
  function LastQ(lines: seq<Line>): (r: Option<nat>)
    ensures r.Some? ==> r.value < |lines| && lines[r.value].kind.QLine?
  {
    if lines == [] then None
    else if lines[|lines| - 1].kind.QLine? then Some(|lines| - 1)
    else LastQ(lines[..|lines| - 1])
  }

  /** `LastQ` finds the last question marker: there is none after it, and none at all when it finds none. */
  lemma {:induction false} LastQIsLastMarker(lines: seq<Line>)
    ensures LastQ(lines).None? ==> forall j :: 0 <= j < |lines| ==> !lines[j].kind.QLine?
    ensures LastQ(lines).Some? ==> forall j :: LastQ(lines).value < j < |lines| ==> !lines[j].kind.QLine?
    decreases |lines|
  {
    if lines != [] && !lines[|lines| - 1].kind.QLine? {
      var pre := lines[..|lines| - 1];
      LastQIsLastMarker(pre);
      assert forall j :: 0 <= j < |pre| ==> pre[j] == lines[j];
    }
  }

  /** The first answer marker of a block body, or |body|. */
  function FirstA(body: seq<Line>): (k: nat)
    ensures k <= |body|
  {
    if body == [] then 0 else if body[0].kind.ALine? then 0 else 1 + FirstA(body[1..])
  }

  /** `FirstA` finds the first answer marker: none before it, and one at it unless it is |body|. */
  lemma {:induction false} FirstAIsFirst(body: seq<Line>)
    ensures forall j :: 0 <= j < FirstA(body) ==> !body[j].kind.ALine?
    ensures FirstA(body) < |body| ==> body[FirstA(body)].kind.ALine?
    decreases |body|
  {
    if body != [] && !body[0].kind.ALine? {
      FirstAIsFirst(body[1..]);
      assert forall j :: 1 <= j < |body| ==> body[j] == body[1..][j - 1];
    }
  }

  /** What a line adds to a block: a marker its capture, any other line itself. */
  function PartOf(line: Line): string {
    if line.kind.Plain? then line.raw else line.kind.text
  }

  /** The parts of a run of lines, in order. */
  function Parts(lines: seq<Line>): (r: seq<string>)
    ensures |r| == |lines|
    decreases |lines|
  {
    if lines == [] then [] else Parts(lines[..|lines| - 1]) + [PartOf(lines[|lines| - 1])]
  }

  /** The question of a block: the marker's capture, then the lines up to the first answer marker. */
  function BlockQParts(first: string, body: seq<Line>): seq<string> {
    [first] + Parts(body[..FirstA(body)])
  }

  /** The answer of a block: every line from the first answer marker on, markers by their capture. */
  function BlockAParts(body: seq<Line>): seq<string> {
    Parts(body[FirstA(body)..])
  }

  /**
    The pairs by blocks: text before the first question marker is ignored, and
    each question marker opens a block that runs to the next one and yields at
    most one pair, in marker order.
  */
  function Expected(lines: seq<Line>): seq<QA>
    decreases |lines|
  {
    match LastQ(lines)
    case None => []
    case Some(p) => Expected(lines[..p]) + BlockPair(lines, p)
  }

  /** The pair (if any) of the block opened by the question marker at p. */
  function BlockPair(lines: seq<Line>, p: nat): seq<QA>
    requires p < |lines| && lines[p].kind.QLine?
  {
    PairOf(BlockQParts(lines[p].kind.text, lines[p + 1..]), BlockAParts(lines[p + 1..]))
  }

  /** The machine's state after a prefix of lines, read off the blocks. */
  function BlockState(lines: seq<Line>): ParseState {
    match LastQ(lines)
    case None => Init
    case Some(p) =>
      var body := lines[p + 1..];
      ParseState(if FirstA(body) < |body| then InAnswer else InQuestion,
                 BlockQParts(lines[p].kind.text, body), BlockAParts(body), Expected(lines[..p]))
  }

  lemma {:induction false} FirstAAppend(body: seq<Line>, line: Line)
    ensures FirstA(body + [line]) ==
      if FirstA(body) < |body| then FirstA(body)
      else if line.kind.ALine? then |body| else |body| + 1
    decreases |body|
  {
    var b := body + [line];
    if body == [] {
      assert b == [line];
      assert b[1..] == [];
    } else {
      assert b[0] == body[0];
      assert b[1..] == body[1..] + [line];
      FirstAAppend(body[1..], line);
    }
  }

  lemma {:induction false} PartsAppend(lines: seq<Line>, line: Line)
    ensures Parts(lines + [line]) == Parts(lines) + [PartOf(line)]
  {
    assert (lines + [line])[..|lines|] == lines;
  }

  lemma {:induction false} BlockPartsAppend(first: string, body: seq<Line>, line: Line)
    requires !line.kind.QLine?
    ensures FirstA(body) < |body| || line.kind.ALine? ==>
      && BlockQParts(first, body + [line]) == BlockQParts(first, body)
      && BlockAParts(body + [line]) == BlockAParts(body) + [PartOf(line)]
    ensures FirstA(body) == |body| && !line.kind.ALine? ==>
      && BlockQParts(first, body + [line]) == BlockQParts(first, body) + [line.raw]
      && BlockAParts(body + [line]) == [] && BlockAParts(body) == []
  {
    FirstAAppend(body, line);
    var k := FirstA(body);
    if k < |body| || line.kind.ALine? {
      AnswerGrows(first, body, line, k);
    } else {
      var b := body + [line];
      SplitAtEnd(b, FirstA(b));
      SplitAtEnd(body, k);
      QuestionGrows(first, body, line, b);
    }
  }

  lemma {:induction false} AnswerGrows(first: string, body: seq<Line>, line: Line, k: nat)
    requires k == FirstA(body) && FirstA(body + [line]) == k
    ensures BlockQParts(first, body + [line]) == BlockQParts(first, body)
    ensures BlockAParts(body + [line]) == BlockAParts(body) + [PartOf(line)]
  {
    var b := body + [line];
    assert b[..k] == body[..k];
    assert b[k..] == body[k..] + [line];
    PartsAppend(body[k..], line);
  }

  lemma {:induction false} QuestionGrows(first: string, body: seq<Line>, line: Line, b: seq<Line>)
    requires b == body + [line] && line.kind.Plain?
    requires b[..FirstA(b)] == b && b[FirstA(b)..] == []
    requires body[..FirstA(body)] == body && body[FirstA(body)..] == []
    ensures BlockQParts(first, b) == BlockQParts(first, body) + [line.raw]
    ensures BlockAParts(b) == [] && BlockAParts(body) == []
  {
    PartsAppend(body, line);
  }

  lemma {:induction false} SplitAtEnd<T>(s: seq<T>, k: nat)
    requires k == |s|
    ensures s[..k] == s && s[k..] == []
  {
  }

  /** One more line moves the block view exactly as the machine's step does. */
  lemma {:induction false} StepMatchesBlocks(pre: seq<Line>, line: Line)
    ensures Step(BlockState(pre), line) == BlockState(pre + [line])
  {
    var lines := pre + [line];
    assert lines[..|pre|] == pre;
    if line.kind.QLine? {
      QuestionOpensBlock(pre, line, lines);
    } else {
      LastQSkips(pre, line);
      if LastQ(pre).Some? {
        var p := LastQ(pre).value;
        assert lines[p + 1..] == pre[p + 1..] + [line];
        assert lines[..p] == pre[..p];
        BlockLineAdded(pre, line, lines, p);
      }
    }
  }

  lemma {:induction false} QuestionOpensBlock(pre: seq<Line>, line: Line, lines: seq<Line>)
    requires lines == pre + [line] && line.kind.QLine?
    ensures Step(BlockState(pre), line) == BlockState(lines)
  {
    assert lines[..|pre|] == pre;
    assert LastQ(lines) == Some(|pre|);
    assert lines[|pre| + 1..] == [];
    assert BlockQParts(line.kind.text, []) == [line.kind.text];
    assert BlockAParts([]) == [];
  }

  lemma {:induction false} LastQSkips(pre: seq<Line>, line: Line)
    requires !line.kind.QLine?
    ensures LastQ(pre + [line]) == LastQ(pre)
  {
    assert (pre + [line])[..|pre|] == pre;
  }

  lemma {:induction false} BlockLineAdded(pre: seq<Line>, line: Line, lines: seq<Line>, p: nat)
    requires lines == pre + [line] && !line.kind.QLine?
    requires LastQ(pre) == Some(p) && LastQ(lines) == Some(p)
    requires lines[p + 1..] == pre[p + 1..] + [line] && lines[..p] == pre[..p]
    ensures Step(BlockState(pre), line) == BlockState(lines)
  {
    assert lines[p] == pre[p];
    BlockPartsAppend(pre[p].kind.text, pre[p + 1..], line);
    FirstAAppend(pre[p + 1..], line);
  }

  lemma {:induction false} RunMatchesBlocks(lines: seq<Line>)
    ensures Run(Init, lines) == BlockState(lines)
    decreases |lines|
  {
    if lines != [] {
      var pre := lines[..|lines| - 1];
      RunMatchesBlocks(pre);
      StepMatchesBlocks(pre, lines[|lines| - 1]);
      assert pre + [lines[|lines| - 1]] == lines;
    }
  }

  /** The state machine yields exactly the blockwise pairs. */
  lemma {:induction false} ParseMatchesBlocks(lines: seq<Line>)
    ensures ParseLines(lines) == Expected(lines)
  {
    RunMatchesBlocks(lines);
  }

  /**
    Between lines the machine is in one of three consistent states: no open
    block (nothing collected), a question being collected (no answer yet), or an
    answer being collected under a question.
  */
  lemma {:induction false} RunWellFormed(lines: seq<Line>)
    ensures var s := Run(Init, lines);
      && (s.mode == NoBlock <==> s.qParts == [])
      && (s.mode == NoBlock ==> s.aParts == [])
      && (s.mode == InQuestion ==> s.aParts == [])
      && (s.mode == InAnswer ==> s.aParts != [])
  {
    RunMatchesBlocks(lines);
  }

  /** Every pair has a question and an answer that are trimmed and not blank. */
  lemma {:induction false} PairsNotBlank(lines: seq<Line>)
    ensures forall x :: x in Expected(lines) ==> CleanPair(x)
    decreases |lines|
  {
    match LastQ(lines) {
      case None =>
      case Some(p) =>
        PairsNotBlank(lines[..p]);
        assert Expected(lines) == Expected(lines[..p]) + BlockPair(lines, p);
    }
  }

  /** Lines before the first question marker contribute nothing. */
  lemma {:induction false} PrefaceIgnored(preface: seq<Line>, rest: seq<Line>)
    requires forall j :: 0 <= j < |preface| ==> !preface[j].kind.QLine?
    ensures ParseLines(preface + rest) == ParseLines(rest)
  {
    PrefaceLeavesInit(preface);
    RunConcat(Init, preface, rest);
  }

  lemma {:induction false} PrefaceLeavesInit(preface: seq<Line>)
    requires forall j :: 0 <= j < |preface| ==> !preface[j].kind.QLine?
    ensures Run(Init, preface) == Init
    decreases |preface|
  {
    if preface != [] {
      var pre := preface[..|preface| - 1];
      assert forall j :: 0 <= j < |pre| ==> pre[j] == preface[j];
      PrefaceLeavesInit(pre);
    }
  }

  /** Running the machine over two pieces of text is running it over the first, then the second. */
  lemma {:induction false} RunConcat(s: ParseState, a: seq<Line>, b: seq<Line>)
    ensures Run(s, a + b) == Run(Run(s, a), b)
    decreases |b|
  {
    if b == [] {
      assert a + b == a;
    } else {
      var b' := b[..|b| - 1];
      RunConcat(s, a, b');
      assert (a + b)[..|a + b| - 1] == a + b';
      assert (a + b)[|a + b| - 1] == b[|b| - 1];
    }
  }

  /** Under an open answer, another answer marker extends the same answer; no pair is emitted. */
  lemma {:induction false} RepeatedAnswersAccumulate(lines: seq<Line>, line: Line)
    requires Run(Init, lines).mode == InAnswer && line.kind.ALine?
    ensures var s := Run(Init, lines);
      Run(Init, lines + [line]) == s.(aParts := s.aParts + [line.kind.text])
  {
    RunSnoc(Init, lines, line);
    RunWellFormed(lines);
  }

  /**
    A question still waiting for its answer yields nothing: neither when the
    next question marker arrives nor at the end of the input.
  */
  lemma {:induction false} UnansweredQuestionDropped(lines: seq<Line>, line: Line)
    requires Run(Init, lines).mode == InQuestion
    ensures line.kind.QLine? ==> Run(Init, lines + [line]).pairs == Run(Init, lines).pairs
    ensures ParseLines(lines) == Run(Init, lines).pairs
  {
    var s := Run(Init, lines);
    RunWellFormed(lines);
    assert Join([], "\n") == "";
    assert Trim("") == "" by {
      assert TrimStart("") == "";
    }
    assert PairOf(s.qParts, []) == [];
    RunSnoc(Init, lines, line);
  }

  /** With no open block, any line but a question marker changes nothing, a stray answer marker included. */
  lemma {:induction false} StrayLinesIgnored(lines: seq<Line>, line: Line)
    requires Run(Init, lines).mode == NoBlock && !line.kind.QLine?
    ensures Run(Init, lines + [line]) == Run(Init, lines)
  {
    RunSnoc(Init, lines, line);
    RunWellFormed(lines);
  }

  /** Worked example of the classification: marker letter, separator, one space, then the capture. */
  lemma {:induction false} ExampleMarkers()
    ensures Classify("Q: x") == QLine("x") && Classify("A: y") == ALine("y")
  {
    assert "Q: x"[1..] == ": x" && ": x"[1..] == " x" && " x"[1..] == "x";
    assert Scan("x", 2, 'Q') == Some("x");
    assert Scan("Q: x", 0, 'Q') == Some("x");
    assert "A: y"[1..] == ": y" && ": y"[1..] == " y" && " y"[1..] == "y";
    assert Scan("A: y", 0, 'Q') == None;
    assert Scan("y", 2, 'A') == Some("y");
    assert Scan("A: y", 0, 'A') == Some("y");
  }

  // ----- JSON Lines -----

  /** The built-in system prompt selected by `system: ""`. */
  const DefaultSystem: string := "You are a knowledgeable and friendly assistant "
    + "trained to provide accurate, up-to-date "
    + "information on vaccinations.Your purpose is to "
    + "help users with all their vaccination-related "
    + "queries, including vaccine schedules, "
    + "eligibility, safety, side effects, benefits, "
    + "and guidance for various age groups, travel, "
    + "pregnancy, and medical conditions.You are "
    + "designed to support users by offering reliable "
    + "information from trusted health organizations "
    + "like the WHO and CDC, ensuring that every "
    + "response is helpful, clear, and informative."

  /** The request body: raw text, or a JSON object with optional `text` and `system` strings. */
  datatype Body = RawText(raw: string) | JsonBody(text: Option<string>, system: Option<string>)

  /** The text to parse (`text ?? ""` for a JSON body). */
  function TextOf(body: Body): string {
    match body
    case RawText(t) => t
    case JsonBody(t, _) => if t.Some? then t.value else ""
  }

  /** The system prompt: the default for `""`, the trimmed value for any other string, nothing when absent. */
  function SystemOf(body: Body): (r: string)
    ensures body.JsonBody? && body.system == Some("") ==> r == DefaultSystem
  {
    match body
    case RawText(_) => ""
    case JsonBody(_, sys) =>
      if sys == Some("") then DefaultSystem
      else if sys.Some? then Trim(sys.value)
      else ""
  }

  datatype ChatMessage = ChatMessage(role: string, content: string)

  /** The messages of one training example: the system message when the prompt is not blank, the question, the answer. */
  function ChatMessages(system: string, qa: QA): seq<ChatMessage> {
    (if Trim(system) != "" then [ChatMessage("system", Trim(system))] else [])
      + [ChatMessage("user", qa.q), ChatMessage("assistant", qa.a)]
  }

  /** `JSON.stringify({ role, content })`. */
  function EncodeMessage(m: ChatMessage): (r: string)
    ensures '\n' !in r && |r| > 0 && r[|r| - 1] == '}'
  {
    "{\"role\":" + Json.Quote(m.role) + ",\"content\":" + Json.Quote(m.content) + "}"
  }

  function EncodeElements(ms: seq<ChatMessage>): (r: string)
    ensures '\n' !in r
  {
    if ms == [] then ""
    else if |ms| == 1 then EncodeMessage(ms[0])
    else
      EncodeMessage(ms[0]) + "," + EncodeElements(ms[1..])
  }

  /** One line of the dataset: `JSON.stringify({ messages })`. */
  function EncodeLine(ms: seq<ChatMessage>): (r: string)
    ensures '\n' !in r && DropCr(r) == r
  {
    var e := EncodeElements(ms);
    NoLineFeedAround("{\"messages\":[", e, "]}");
    "{\"messages\":[" + e + "]}"
  }

  lemma {:induction false} NoLineFeedAround(a: string, b: string, c: string)
    requires '\n' !in a && '\n' !in b && '\n' !in c && |c| > 0 && c[|c| - 1] != '\r'
    ensures '\n' !in a + b + c && DropCr(a + b + c) == a + b + c
  {
    assert (a + b + c)[|a + b + c| - 1] == c[|c| - 1];
  }

  function EncodeLines(system: string, pairs: seq<QA>): (r: seq<string>)
    ensures |r| == |pairs|
    ensures forall k :: 0 <= k < |r| ==> r[k] == EncodeLine(ChatMessages(system, pairs[k]))
  {
    seq(|pairs|, k requires 0 <= k < |pairs| => EncodeLine(ChatMessages(system, pairs[k])))
  }

  /** `lines.join("\n") + "\n"`. */
  function Jsonl(system: string, pairs: seq<QA>): string {
    Join(EncodeLines(system, pairs), "\n") + "\n"
  }

  /**
    Which system message a training example gets when the prompt is not the
    empty string: the trimmed prompt when it is not blank, and none at all for
    a raw-text body, an absent prompt or a blank one.
  */
  lemma {:induction false} SystemMessageRule(body: Body, qa: QA)
    requires body.RawText? || body.system != Some("")
    ensures body.JsonBody? && body.system.Some? && !AllSpace(body.system.value) ==>
      ChatMessages(SystemOf(body), qa) ==
        [ChatMessage("system", Trim(body.system.value)), ChatMessage("user", qa.q), ChatMessage("assistant", qa.a)]
    ensures body.RawText? || body.system.None? || AllSpace(body.system.value) ==>
      ChatMessages(SystemOf(body), qa) == [ChatMessage("user", qa.q), ChatMessage("assistant", qa.a)]
  {
    var sys := SystemOf(body);
    ChatMessagesLayout(sys, qa);
    if body.JsonBody? && body.system.Some? {
      var v := body.system.value;
      assert sys == Trim(v);
      TrimEmptyIff(v);
      TrimIdempotent(v);
    } else {
      assert sys == "";
      assert Trim("") == "" by {
        assert TrimStart("") == "";
      }
    }
  }

  // ----- reading the dataset back -----

  function StripPrefix(p: string, s: string): (r: Option<string>)
    ensures r.Some? ==> |r.value| == |s| - |p|
  {
    if p <= s then Some(s[|p|..]) else None
  }

  lemma {:induction false} StripPrefixOf(p: string, t: string)
    ensures StripPrefix(p, p + t) == Some(t)
  {
    assert p <= p + t;
    assert (p + t)[|p|..] == t;
  }

  /** Reads one `{"role":…,"content":…}` object; returns it and what follows. */
  function DecodeMessage(s: string): (r: Option<(ChatMessage, string)>)
    ensures r.Some? ==> |r.value.1| < |s|
  {
    match StripPrefix("{\"role\":", s)
    case None => None
    case Some(s1) =>
      match Json.DecodeString(s1)
      case None => None
      case Some((role, s2)) =>
        match StripPrefix(",\"content\":", s2)
        case None => None
        case Some(s3) =>
          match Json.DecodeString(s3)
          case None => None
          case Some((content, s4)) =>
            match StripPrefix("}", s4)
            case None => None
            case Some(s5) => Some((ChatMessage(role, content), s5))
  }

  /** Reads the elements of a non-empty array up to and including its `]`. */
  function DecodeElements(s: string): Option<(seq<ChatMessage>, string)>
    decreases |s|
  {
    match DecodeMessage(s)
    case None => None
    case Some((m, rest)) =>
      if |rest| > 0 && rest[0] == ']' then Some(([m], rest[1..]))
      else if |rest| > 0 && rest[0] == ',' then
        match DecodeElements(rest[1..])
        case None => None
        case Some((ms, after)) => Some(([m] + ms, after))
      else None
  }

  /** Reads one dataset line back into its messages. */
  function DecodeLine(line: string): Option<seq<ChatMessage>> {
    match StripPrefix("{\"messages\":[", line)
    case None => None
    case Some(s) =>
      match DecodeElements(s)
      case Some((ms, "}")) => Some(ms)
      case _ => None
  }

  lemma {:induction false} Assoc(a: string, b: string, c: string)
    ensures (a + b) + c == a + (b + c)
  {
  }

  /** `DecodeMessage` succeeds when each of its five steps does. */
  lemma {:induction false} DecodeMessageSteps(s: string, s1: string, role: string, s2: string, s3: string,
                                              content: string, s4: string, s5: string)
    requires StripPrefix("{\"role\":", s) == Some(s1)
    requires Json.DecodeString(s1) == Some((role, s2))
    requires StripPrefix(",\"content\":", s2) == Some(s3)
    requires Json.DecodeString(s3) == Some((content, s4))
    requires StripPrefix("}", s4) == Some(s5)
    ensures DecodeMessage(s) == Some((ChatMessage(role, content), s5))
  {
  }

  lemma {:induction false} DecodeMessageOf(m: ChatMessage, rest: string)
    ensures DecodeMessage(EncodeMessage(m) + rest) == Some((m, rest))
  {
    var a, b, c := "{\"role\":", ",\"content\":", "}";
    var qr, qc := Json.Quote(m.role), Json.Quote(m.content);
    var s4 := c + rest;
    var s3 := qc + s4;
    var s2 := b + s3;
    var s1 := qr + s2;
    assert EncodeMessage(m) == (((a + qr) + b) + qc) + c;
    Assoc(((a + qr) + b) + qc, c, rest);
    Assoc((a + qr) + b, qc, s4);
    Assoc(a + qr, b, s3);
    Assoc(a, qr, s2);
    StripPrefixOf(a, s1);
    Json.DecodeQuote(m.role, s2);
    StripPrefixOf(b, s3);
    Json.DecodeQuote(m.content, s4);
    StripPrefixOf(c, rest);
    DecodeMessageSteps(a + s1, s1, m.role, s2, s3, m.content, s4, rest);
  }

  /** The last element of the array: a message followed by the closing bracket. */
  lemma {:induction false} DecodeElementsLast(s: string, m: ChatMessage, tail: string)
    requires DecodeMessage(s) == Some((m, "]" + tail))
    ensures DecodeElements(s) == Some(([m], tail))
  {
    assert ("]" + tail)[1..] == tail;
  }

  /** An element followed by a comma and the rest of the array. */
  lemma {:induction false} DecodeElementsMore(s: string, m: ChatMessage, more: string, ms: seq<ChatMessage>, tail: string)
    requires DecodeMessage(s) == Some((m, "," + more))
    requires DecodeElements(more) == Some((ms, tail))
    ensures DecodeElements(s) == Some(([m] + ms, tail))
  {
    assert ("," + more)[1..] == more;
  }

  lemma {:induction false} DecodeSingle(m: ChatMessage, tail: string)
    ensures DecodeElements(EncodeElements([m]) + "]" + tail) == Some(([m], tail))
  {
    var e := EncodeMessage(m);
    assert EncodeElements([m]) == e;
    Assoc(e, "]", tail);
    DecodeMessageOf(m, "]" + tail);
    DecodeElementsLast(e + ("]" + tail), m, tail);
  }

  /** A message's encoding, a comma, then the encoding of the remaining messages reads back as all of them. */
  lemma {:induction false} DecodeCons(e: string, m: ChatMessage, es: string, ms: seq<ChatMessage>, tail: string)
    requires DecodeMessage(e + ("," + (es + "]" + tail))) == Some((m, "," + (es + "]" + tail)))
    requires DecodeElements(es + "]" + tail) == Some((ms, tail))
    ensures DecodeElements(((e + ",") + es) + "]" + tail) == Some(([m] + ms, tail))
  {
    var more := es + "]" + tail;
    Assoc((e + ",") + es, "]", tail);
    Assoc(e + ",", es + "]", tail);
    Assoc(e + ",", es, "]");
    Assoc(e, ",", more);
    DecodeElementsMore(e + ("," + more), m, more, ms, tail);
  }

  lemma {:induction false} DecodeElementsOf(ms: seq<ChatMessage>, tail: string)
    requires ms != []
    ensures DecodeElements(EncodeElements(ms) + "]" + tail) == Some((ms, tail))
    decreases |ms|
  {
    if |ms| == 1 {
      assert ms == [ms[0]];
      DecodeSingle(ms[0], tail);
    } else {
      DecodeElementsOf(ms[1..], tail);
      DecodeElementsStep(ms, tail);
    }
  }

  /** Two or more messages: the first one, a comma, then the rest, which reads back by induction. */
  lemma {:induction false} DecodeElementsStep(ms: seq<ChatMessage>, tail: string)
    requires |ms| > 1
    requires DecodeElements(EncodeElements(ms[1..]) + "]" + tail) == Some((ms[1..], tail))
    ensures DecodeElements(EncodeElements(ms) + "]" + tail) == Some((ms, tail))
  {
    var e := EncodeMessage(ms[0]);
    var es := EncodeElements(ms[1..]);
    assert EncodeElements(ms) == (e + ",") + es;
    DecodeMessageOf(ms[0], "," + (es + "]" + tail));
    DecodeCons(e, ms[0], es, ms[1..], tail);
    HeadTail(ms);
  }

  lemma HeadTail<T>(s: seq<T>)
    requires s != []
    ensures [s[0]] + s[1..] == s
  {
  }

  /** Each dataset line reads back as exactly the messages it was written from. */
  lemma {:induction false} DecodeLineOf(ms: seq<ChatMessage>)
    requires ms != []
    ensures DecodeLine(EncodeLine(ms)) == Some(ms)
  {
    var a := "{\"messages\":[";
    var e := EncodeElements(ms);
    var body := e + "]" + "}";
    assert EncodeLine(ms) == a + e + "]}";
    assert "]}" == "]" + "}";
    Assoc(a, e, "]}");
    Assoc(e, "]", "}");
    StripPrefixOf(a, body);
    DecodeElementsOf(ms, "}");
    DecodeLineSteps(a + body, body, ms);
  }

  lemma {:induction false} DecodeLineSteps(line: string, s: string, ms: seq<ChatMessage>)
    requires StripPrefix("{\"messages\":[", line) == Some(s)
    requires DecodeElements(s) == Some((ms, "}"))
    ensures DecodeLine(line) == Some(ms)
  {
  }

  lemma {:induction false} JoinAppend(parts: seq<string>, sep: string, x: string)
    requires |parts| >= 1
    ensures Join(parts + [x], sep) == Join(parts, sep) + sep + x
    decreases |parts|
  {
    if |parts| > 1 {
      assert (parts + [x])[1..] == parts[1..] + [x];
      JoinAppend(parts[1..], sep, x);
    } else {
      assert (parts + [x])[1..] == [x];
    }
  }

  /**
    The dataset is one line per pair, in order, each ending in a line feed:
    splitting it at line breaks gives the encoded pairs and a final empty string.
  */
  lemma {:induction false} JsonlLines(system: string, pairs: seq<QA>)
    requires |pairs| >= 1
    ensures SplitLines(Jsonl(system, pairs)) == EncodeLines(system, pairs) + [""]
  {
    var ls := EncodeLines(system, pairs);
    JoinAppend(ls, "\n", "");
    assert Join(ls, "\n") + "\n" == Join(ls + [""], "\n");
    LinesAreClean(ls + [""], system, pairs);
    SplitLinesOfJoin(ls + [""]);
  }

  lemma {:induction false} LinesAreClean(lines: seq<string>, system: string, pairs: seq<QA>)
    requires lines == EncodeLines(system, pairs) + [""]
    ensures forall k :: 0 <= k < |lines| ==> '\n' !in lines[k]
    ensures forall k :: 0 <= k < |lines| ==> DropCr(lines[k]) == lines[k]
  {
    forall k | 0 <= k < |lines|
      ensures '\n' !in lines[k] && DropCr(lines[k]) == lines[k]
    {
      if k < |pairs| {
        var r := EncodeLine(ChatMessages(system, pairs[k]));
        assert lines[k] == r;
      }
    }
  }

  /** Every line of the dataset holds the system message exactly when the prompt is not blank, then the pair. */
  lemma {:induction false} DatasetLineContents(system: string, pairs: seq<QA>, k: nat)
    requires k < |pairs|
    ensures var ms := DecodeLine(EncodeLines(system, pairs)[k]);
      && ms.Some?
      && (Trim(system) != "" ==> ms.value == [ChatMessage("system", Trim(system)),
                                               ChatMessage("user", pairs[k].q), ChatMessage("assistant", pairs[k].a)])
      && (Trim(system) == "" ==> ms.value == [ChatMessage("user", pairs[k].q), ChatMessage("assistant", pairs[k].a)])
  {
    var ms := ChatMessages(system, pairs[k]);
    assert EncodeLines(system, pairs)[k] == EncodeLine(ms);
    ChatMessagesLayout(system, pairs[k]);
    DecodeLineOf(ms);
  }

  lemma {:induction false} ChatMessagesLayout(system: string, qa: QA)
    ensures var ms := ChatMessages(system, qa);
      && ms != []
      && (Trim(system) != "" ==> ms == [ChatMessage("system", Trim(system)),
                                         ChatMessage("user", qa.q), ChatMessage("assistant", qa.a)])
      && (Trim(system) == "" ==> ms == [ChatMessage("user", qa.q), ChatMessage("assistant", qa.a)])
  {
    var t := Trim(system);
    var tail := [ChatMessage("user", qa.q), ChatMessage("assistant", qa.a)];
    if t != "" {
      assert ChatMessages(system, qa) == [ChatMessage("system", t)] + tail;
    } else {
      assert ChatMessages(system, qa) == [] + tail;
    }
  }

  // ----- the controller -----

  datatype Reply =
    | BadRequest(message: string)      // 400
    | ServerFailure(message: string)   // 500
    | Download(jsonl: string)          // 200, the JSON Lines file

  /**
    `qaToJsonl`: a blank text is rejected, then text without any pair; the
    dataset is built; without an API key (from the environment or a request
    header) the request fails with 500; otherwise the dataset is returned.
  */
  method QaToJsonl(body: Body, apiKeyPresent: bool) returns (r: Reply)
    ensures AllSpace(TextOf(body)) ==> r == BadRequest("Provide 'text' with Q/A pairs.")
    ensures !AllSpace(TextOf(body)) && ParseSpec(TextOf(body)) == [] ==> r == BadRequest("No Q/A pairs found in input.")
    ensures !AllSpace(TextOf(body)) && ParseSpec(TextOf(body)) != [] ==>
      r == if apiKeyPresent then Download(Jsonl(SystemOf(body), ParseSpec(TextOf(body))))
           else ServerFailure("Missing OPENAI_API_KEY.")
  {
    var text := TextOf(body);
    var system := SystemOf(body);
    TrimEmptyIff(text);
    if Trim(text) == "" {
      return BadRequest("Provide 'text' with Q/A pairs.");
    }
    var pairs := ParseQA(text);
    if |pairs| == 0 {
      return BadRequest("No Q/A pairs found in input.");
    }
    var jsonl := Jsonl(system, pairs);
    if !apiKeyPresent {
      return ServerFailure("Missing OPENAI_API_KEY.");
    }
    r := Download(jsonl);
  }
}
