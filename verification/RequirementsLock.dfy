// The lock file reader: logical lines with their start lines, and the walk that
// attaches provenance comments to the record they follow.
module RequirementsLock {
  import opened Common
  import opened Text

  datatype LockError =
    | EmptyContinuation(line: nat) | Unterminated(line: nat) | BadRecord(line: nat) | Repeated(line: nat) | NoRecords
    | UnsupportedSource

  // ---------------------------------------------------------- physical lines

  // `raw.lstrip().startswith("#")`
  predicate IsComment(raw: string) {
    var s := StripLeft(raw);
    s != "" && s[0] == '#'
  }

  // Where a trailing comment begins: a hash behind white space.
  function CommentAt(line: string, from: nat): (at: nat)
    requires from <= |line|
    ensures from <= at <= |line|
    ensures at == |line| || CutsAt(line, at)
    ensures forall i :: from <= i < at ==> !CutsAt(line, i)
    decreases |line| - from
  {
    if from == |line| || (from > 0 && line[from] == '#' && IsSpace(line[from - 1])) then from
    else CommentAt(line, from + 1)
  }

  predicate CutsAt(line: string, i: int) {
    0 < i < |line| && line[i] == '#' && IsSpace(line[i - 1])
  }

  // `re.sub(r"\s+#.*$", "", line).strip()`
  function StripComment(line: string): string {
    Strip(line[..CommentAt(line, 0)])
  }

  predicate Meaningful(raw: string) {
    !IsComment(raw) && StripComment(raw) != ""
  }

  predicate Continued(raw: string) {
    var value := StripComment(raw);
    value != "" && value[|value| - 1] == '\\'
  }

  // The text a meaningful line contributes.
  function Piece(raw: string): string {
    var value := StripComment(raw);
    if Continued(raw) then StripRight(value[..|value| - 1]) else value
  }

  function Spaced(pieces: seq<string>): string {
    if pieces == [] then ""
    else if |pieces| == 1 then pieces[0]
    else pieces[0] + " " + Spaced(pieces[1..])
  }

  // ------------------------------------------------- what a physical line says

  /** A physical line is white space, its text, white space and a comment behind it.
      The text begins and ends with no white space and holds no hash behind any. */
  ghost predicate ReadsAs(raw: string, before: string, body: string, gap: string, comment: string) {
    && raw == before + body + gap + comment && AllSpace(before) && AllSpace(gap)
    && (comment == "" || (gap != "" && comment[0] == '#'))
    && (body == "" || (!IsSpace(body[0]) && !IsSpace(body[|body| - 1])))
    && (body == "" ==> before == "")
    && (before != "" ==> body[0] != '#')
    && forall i :: !CutsAt(body, i)
  }

  // A part of a line that ends before its comment holds none.
  lemma NoCutInside(raw: string, before: string, body: string, rest: string)
    requires raw == before + body + rest && AllSpace(before)
    requires forall i :: 0 <= i < |before| + |body| ==> !CutsAt(raw, i)
    ensures forall i :: !CutsAt(body, i)
    ensures before != "" && body != "" ==> body[0] != '#'
  {
    hide IsSpace;
    forall i ensures !CutsAt(body, i) {
      if 0 < i < |body| {
        assert raw[|before| + i] == body[i] && raw[|before| + i - 1] == body[i - 1];
        assert !CutsAt(raw, |before| + i);
      }
    }
    if before != "" && body != "" {
      assert raw[|before|] == body[0] && raw[|before| - 1] == before[|before| - 1];
      assert !CutsAt(raw, |before|);
    }
  }

  lemma CutLine(raw: string) returns (before: string, gap: string)
    ensures ReadsAs(raw, before, StripComment(raw), gap, raw[CommentAt(raw, 0)..])
  {
    hide IsSpace, CutsAt, Strip, CommentAt;
    var at := CommentAt(raw, 0);
    var front, body, comment := raw[..at], StripComment(raw), raw[at..];
    before, gap := StripParts(front);
    if body == "" {
      assert front == before + gap;
      before, gap := "", before + gap;
    }
    assert front == before + body + gap && raw == front + comment;
    assert before + body + (gap + comment) == raw;
    NoCutInside(raw, before, body, gap + comment);
    GapBefore(raw, before + body, gap, at);
  }

  // A comment stands behind white space.
  lemma GapBefore(raw: string, text: string, gap: string, at: nat)
    requires at <= |raw| && raw[..at] == text + gap && (at == |raw| || CutsAt(raw, at))
    requires text == "" || !IsSpace(text[|text| - 1])
    ensures at < |raw| ==> gap != "" && raw[at..][0] == '#'
  {
    hide IsSpace;
    if at < |raw| {
      assert IsSpace(raw[..at][at - 1]);
      assert text + "" == text;
    }
  }

  lemma CutAfter(raw: string, before: string, body: string, gap: string, comment: string)
    requires ReadsAs(raw, before, body, gap, comment)
    ensures CommentAt(raw, 0) == |before + body + gap|
  {
    var n := |before + body + gap|;
    if comment != "" {
      assert raw[n] == comment[0] && raw[n - 1] == gap[|gap| - 1];
      assert CutsAt(raw, n);
    }
    forall i | 0 <= i < n ensures !CutsAt(raw, i) {
      if i < |before| {
        assert raw[i] == before[i];
      } else if i < |before| + |body| {
        assert raw[i] == body[i - |before|];
        assert i > |before| ==> raw[i - 1] == body[i - |before| - 1] && !CutsAt(body, i - |before|);
      } else {
        assert raw[i] == gap[i - |before| - |body|];
      }
    }
  }

  lemma {:induction false} StripNothing(s: string)
    requires AllSpace(s)
    ensures StripLeft(s) == "" && Strip(s) == ""
  {
    if s != "" {
      StripNothing(s[1..]);
    }
  }

  /** Taking comments away leaves exactly the text of a line. */
  lemma StripCommentIff(raw: string, body: string)
    ensures StripComment(raw) == body <==> exists before, gap, comment :: ReadsAs(raw, before, body, gap, comment)
  {
    hide ReadsAs, StripComment;
    if StripComment(raw) == body {
      var before, gap := CutLine(raw);
    }
    if before, gap, comment :| ReadsAs(raw, before, body, gap, comment) {
      TextIsFound(raw, before, body, gap, comment);
    }
  }

  lemma TextIsFound(raw: string, before: string, body: string, gap: string, comment: string)
    requires ReadsAs(raw, before, body, gap, comment)
    ensures StripComment(raw) == body
  {
    hide IsSpace, CutsAt;
    CutAfter(raw, before, body, gap, comment);
    assert raw[..|before + body + gap|] == before + body + gap;
    if body == "" {
      assert before + body + gap == gap;
      StripNothing(gap);
    } else {
      StripFinds(before, body, gap);
    }
  }

  // The text of a line without the backslash that continues it.
  ghost predicate Continues(body: string, piece: string, gap: string) {
    && body == piece + gap + "\\" && AllSpace(gap)
    && (piece == "" || !IsSpace(piece[|piece| - 1]))
  }

  /** A line counts when its text is neither empty nor a comment; it is continued
      when the text ends with a backslash, and contributes what stands before it. */
  lemma LineMeans(raw: string)
    ensures var body := StripComment(raw);
      && (Meaningful(raw) <==> body != "" && body[0] != '#')
      && (Continued(raw) <==> exists gap :: Continues(body, Piece(raw), gap))
      && (!Continued(raw) ==> Piece(raw) == body)
  {
    hide IsSpace, StripComment, CommentAt;
    var before, gap := CutLine(raw);
    var body := StripComment(raw);
    if body != "" {
      var rest := body + gap + raw[CommentAt(raw, 0)..];
      assert raw == before + rest && rest[0] == body[0];
      StripLeftDrops(before, rest);
    }
    if Continued(raw) {
      var front := body[..|body| - 1];
      var after := StripRightParts(front);
      assert Continues(body, Piece(raw), after);
    }
  }

  /** The pieces of a logical line are joined with one space. */
  lemma {:induction false} SpacedConcat(xs: seq<string>, ys: seq<string>)
    requires xs != [] && ys != []
    ensures Spaced(xs + ys) == Spaced(xs) + " " + Spaced(ys)
    ensures |xs| == 1 ==> Spaced(xs) == xs[0]
  {
    if |xs| == 1 {
      assert (xs + ys)[1..] == ys;
    } else {
      SpacedConcat(xs[1..], ys);
      assert (xs + ys)[1..] == xs[1..] + ys;
      assert xs[0] + " " + (Spaced(xs[1..]) + " " + Spaced(ys)) == xs[0] + " " + Spaced(xs[1..]) + " " + Spaced(ys);
    }
  }

  // ----------------------------------------------------------- logical lines

  datatype Logical = Logical(start: nat, text: string)

  // Finished logical lines and the one still being continued.
  datatype Reading = Reading(done: seq<Logical>, start: Option<nat>, pieces: seq<string>)

  function Read(reading: Reading, number: nat, raw: string): Result<Reading, LockError> {
    if !Meaningful(raw) then Ok(reading)
    else if Continued(raw) && Piece(raw) == "" then Err(EmptyContinuation(number))
    else
      var start := if reading.start.None? then number else reading.start.value;
      var pieces := reading.pieces + [Piece(raw)];
      if Continued(raw) then Ok(Reading(reading.done, Some(start), pieces))
      else Ok(Reading(reading.done + [Logical(start, Spaced(pieces))], None, []))
  }

  function ReadAll(lines: seq<string>): Result<Reading, LockError> {
    if lines == [] then Ok(Reading([], None, []))
    else
      var n := |lines| - 1;
      match ReadAll(lines[..n])
      case Err(e) => Err(e)
      case Ok(reading) => Read(reading, n + 1, lines[n])
  }

  function LogicalLines(lines: seq<string>): Result<seq<Logical>, LockError> {
    match ReadAll(lines)
    case Err(e) => Err(e)
    case Ok(reading) => if reading.start.Some? then Err(Unterminated(reading.start.value)) else Ok(reading.done)
  }

  lemma {:induction false} ErrorStays(lines: seq<string>, n: nat)
    requires n <= |lines| && ReadAll(lines[..n]).Err?
    ensures ReadAll(lines) == ReadAll(lines[..n])
    decreases |lines|
  {
    if n < |lines| {
      assert lines[..|lines| - 1][..n] == lines[..n];
      ErrorStays(lines[..|lines| - 1], n);
    } else {
      assert lines[..n] == lines;
    }
  }

  /** `_logical_lines` as its loop runs. */
  method LogicalLinesLoop(lines: seq<string>) returns (r: Result<seq<Logical>, LockError>)
    ensures r == LogicalLines(lines)
  {
    hide Meaningful, Continued, Piece, Spaced;
    var records: seq<Logical> := [];
    var start: Option<nat> := None;
    var pieces: seq<string> := [];
    for i := 0 to |lines|
      invariant ReadAll(lines[..i]) == Ok(Reading(records, start, pieces))
    {
      var raw := lines[i];
      assert lines[..i + 1][..i] == lines[..i];
      assert ReadAll(lines[..i + 1]) == Read(Reading(records, start, pieces), i + 1, raw);
      if !Meaningful(raw) {
        continue;
      }
      var continued, value := Continued(raw), Piece(raw);
      if continued && value == "" {
        ErrorStays(lines, i + 1);
        return Err(EmptyContinuation(i + 1));
      }
      if start.None? {
        start := Some(i + 1);
      }
      pieces := pieces + [value];
      if !continued {
        records := records + [Logical(start.value, Spaced(pieces))];
        start, pieces := None, [];
      }
    }
    assert lines[..|lines|] == lines;
    if start.Some? {
      return Err(Unterminated(start.value));
    }
    return Ok(records);
  }

  // ------------------------------------------- where the logical lines begin

  // The last meaningful line before line `n` is continued.
  predicate OpenBefore(lines: seq<string>, n: nat)
    requires n <= |lines|
  {
    n > 0 && if Meaningful(lines[n - 1]) then Continued(lines[n - 1]) else OpenBefore(lines, n - 1)
  }

  predicate BeginsAt(lines: seq<string>, number: nat) {
    1 <= number <= |lines| && Meaningful(lines[number - 1]) && !OpenBefore(lines, number - 1)
  }

  function StartsOf(done: seq<Logical>): (starts: seq<nat>)
    ensures |starts| == |done|
    ensures forall k :: 0 <= k < |done| ==> starts[k] == done[k].start
  {
    seq(|done|, k requires 0 <= k < |done| => done[k].start)
  }

  function Starts(reading: Reading): seq<nat> {
    StartsOf(reading.done) + if reading.start.Some? then [reading.start.value] else []
  }

  predicate Increasing(xs: seq<nat>) {
    forall i, j :: 0 <= i < j < |xs| ==> xs[i] < xs[j]
  }

  // The logical lines read so far start, in order, at exactly these lines.
  ghost predicate Placed(reading: Reading, lines: seq<string>) {
    && Increasing(Starts(reading))
    && (forall number: nat :: number in Starts(reading) <==> BeginsAt(lines, number))
    && (reading.start.Some? <==> OpenBefore(lines, |lines|))
  }

  lemma {:induction false} OpenOfPrefix(lines: seq<string>, last: string, n: nat)
    requires n <= |lines|
    ensures OpenBefore(lines + [last], n) == OpenBefore(lines, n)
  {
    hide Meaningful, Continued;
    if n > 0 {
      OpenOfPrefix(lines, last, n - 1);
    }
  }

  lemma BeginsSnoc(lines: seq<string>, last: string, number: nat)
    ensures BeginsAt(lines + [last], number) <==>
      BeginsAt(lines, number) || (number == |lines| + 1 && Meaningful(last) && !OpenBefore(lines, |lines|))
    ensures BeginsAt(lines, number) ==> number <= |lines|
  {
    hide Meaningful, Continued, OpenBefore;
    var all := lines + [last];
    if 1 <= number <= |lines| {
      assert all[number - 1] == lines[number - 1];
      OpenOfPrefix(lines, last, number - 1);
    } else if number == |lines| + 1 {
      assert all[number - 1] == last;
      OpenOfPrefix(lines, last, |lines|);
    }
  }

  lemma StartsStep(reading: Reading, number: nat, last: string)
    requires Read(reading, number, last).Ok?
    ensures var next := Read(reading, number, last).value;
      && Starts(next) == Starts(reading) + (if Meaningful(last) && reading.start.None? then [number] else [])
      && (next.start.Some? <==> if Meaningful(last) then Continued(last) else reading.start.Some?)
  {
    hide Meaningful, Continued, Piece, Spaced;
  }

  lemma ReadPlaces(reading: Reading, lines: seq<string>, last: string)
    requires Placed(reading, lines) && Read(reading, |lines| + 1, last).Ok?
    ensures Placed(Read(reading, |lines| + 1, last).value, lines + [last])
  {
    hide Meaningful, Continued, BeginsAt, Starts, Read;
    var next := Read(reading, |lines| + 1, last).value;
    var all := lines + [last];
    StartsStep(reading, |lines| + 1, last);
    OpenOfPrefix(lines, last, |lines|);
    forall number: nat
      ensures number in Starts(next) <==> BeginsAt(all, number)
      ensures number in Starts(reading) ==> number <= |lines|
    {
      BeginsSnoc(lines, last, number);
    }
    assert forall i :: 0 <= i < |Starts(reading)| ==> Starts(reading)[i] in Starts(reading);
  }

  lemma {:induction false} AllPlaced(lines: seq<string>)
    requires ReadAll(lines).Ok?
    ensures Placed(ReadAll(lines).value, lines)
    decreases |lines|
  {
    hide Meaningful, Continued, Placed, Read;
    if lines == [] {
      NothingPlaced();
    } else {
      var n := |lines| - 1;
      AllPlaced(lines[..n]);
      ReadPlaces(ReadAll(lines[..n]).value, lines[..n], lines[n]);
      assert lines == lines[..n] + [lines[n]];
    }
  }

  lemma NothingPlaced()
    ensures Placed(Reading([], None, []), [])
  {
  }

  /** Logical lines start at strictly increasing lines: exactly the meaningful
      ones that no continuation leads into. */
  lemma LogicalStarts(lines: seq<string>)
    requires LogicalLines(lines).Ok?
    ensures var starts := StartsOf(LogicalLines(lines).value);
      && Increasing(starts)
      && forall number: nat :: number in starts <==> BeginsAt(lines, number)
  {
    hide BeginsAt, ReadAll;
    AllPlaced(lines);
    var reading := ReadAll(lines).value;
    assert Starts(reading) == StartsOf(reading.done);
  }

  // --------------------------------------------- what the logical lines say

  // What the meaningful lines contribute, in order.
  function PiecesOf(lines: seq<string>): seq<string> {
    if lines == [] then []
    else
      var n := |lines| - 1;
      PiecesOf(lines[..n]) + if Meaningful(lines[n]) then [Piece(lines[n])] else []
  }

  // The pieces from one line up to another, excluded.
  function PiecesFrom(lines: seq<string>, from: nat, upto: nat): seq<string>
    requires 1 <= from <= upto <= |lines| + 1
  {
    PiecesOf(lines[from - 1..upto - 1])
  }

  lemma PiecesSnoc(lines: seq<string>, last: string, from: nat, upto: nat)
    requires 1 <= from <= upto <= |lines| + 1
    ensures PiecesFrom(lines + [last], from, upto) == PiecesFrom(lines, from, upto)
    ensures PiecesFrom(lines + [last], from, |lines| + 2)
         == PiecesFrom(lines, from, |lines| + 1) + if Meaningful(last) then [Piece(last)] else []
  {
    hide Meaningful, Piece;
    var all := lines + [last];
    assert all[from - 1..upto - 1] == lines[from - 1..upto - 1];
    var tail := all[from - 1..|lines| + 1];
    assert tail == lines[from - 1..|lines|] + [last];
    assert tail[..|tail| - 1] == lines[from - 1..|lines|];
  }

  lemma NewPieces(lines: seq<string>, last: string)
    ensures PiecesFrom(lines + [last], |lines| + 1, |lines| + 2) == if Meaningful(last) then [Piece(last)] else []
  {
    hide Meaningful, Piece;
    PiecesSnoc(lines, last, |lines| + 1, |lines| + 1);
    assert lines[|lines|..|lines|] == [];
  }

  predicate InFile(starts: seq<nat>, lines: seq<string>) {
    Increasing(starts) && forall k :: 0 <= k < |starts| ==> 1 <= starts[k] <= |lines|
  }

  // Each logical line says the pieces up to where the next one starts.
  ghost predicate Says(done: seq<Logical>, starts: seq<nat>, lines: seq<string>) {
    && InFile(starts, lines) && |done| <= |starts|
    && forall k :: 0 <= k < |done| ==>
         done[k].text == Spaced(PiecesFrom(lines, starts[k], NextLine(starts, k, lines)))
  }

  ghost predicate SaysSoFar(reading: Reading, lines: seq<string>) {
    && Says(reading.done, Starts(reading), lines)
    && match reading.start
       case None => reading.pieces == []
       case Some(start) => 1 <= start <= |lines| && reading.pieces == PiecesFrom(lines, start, |lines| + 1)
  }

  lemma PlacedInFile(reading: Reading, lines: seq<string>)
    requires Placed(reading, lines)
    ensures InFile(Starts(reading), lines)
  {
    hide Starts, BeginsAt;
    forall k | 0 <= k < |Starts(reading)| ensures 1 <= Starts(reading)[k] <= |lines| {
      assert Starts(reading)[k] in Starts(reading);
      BeginsInside(lines, Starts(reading)[k]);
    }
  }

  // The logical lines already finished say the same when the file goes on.
  lemma StillSays(done: seq<Logical>, starts: seq<nat>, next: seq<nat>, lines: seq<string>, last: string)
    requires Says(done, starts, lines) && InFile(next, lines + [last])
    requires next == starts + if |next| > |starts| then [|lines| + 1] else []
    requires |next| > |done| || !Meaningful(last)
    ensures Says(done, next, lines + [last])
  {
    hide Meaningful, Piece, Spaced, PiecesFrom, Increasing;
    var all := lines + [last];
    forall k | 0 <= k < |done|
      ensures 1 <= next[k] <= NextLine(next, k, all) <= |all| + 1
      ensures done[k].text == Spaced(PiecesFrom(all, next[k], NextLine(next, k, all)))
    {
      InFileOrder(starts, k, lines);
      InFileOrder(next, k, all);
      PiecesSnoc(lines, last, starts[k], NextLine(starts, k, lines));
      var said := PiecesFrom(lines, starts[k], NextLine(starts, k, lines));
      assert said + [] == said;
    }
  }

  lemma InFileOrder(starts: seq<nat>, k: nat, lines: seq<string>)
    requires InFile(starts, lines) && k < |starts|
    ensures 1 <= starts[k] <= NextLine(starts, k, lines) <= |lines| + 1
  {
  }

  lemma StartsAre(reading: Reading)
    ensures var starts := Starts(reading);
      && |starts| == |reading.done| + (if reading.start.Some? then 1 else 0)
      && (reading.start.Some? ==> starts[|reading.done|] == reading.start.value)
      && forall k :: 0 <= k < |reading.done| ==> starts[k] == reading.done[k].start
  {
  }

  lemma LastSays(done: seq<Logical>, last: Logical, starts: seq<nat>, lines: seq<string>)
    requires Says(done, starts, lines) && |starts| == |done| + 1
    requires last.text == Spaced(PiecesFrom(lines, starts[|done|], |lines| + 1))
    ensures Says(done + [last], starts, lines)
  {
    hide Spaced, PiecesFrom, Increasing;
  }

  lemma ReadSays(reading: Reading, lines: seq<string>, last: string)
    requires SaysSoFar(reading, lines) && Read(reading, |lines| + 1, last).Ok?
    requires Placed(Read(reading, |lines| + 1, last).value, lines + [last])
    ensures SaysSoFar(Read(reading, |lines| + 1, last).value, lines + [last])
  {
    hide Meaningful, Continued, Piece, Spaced, PiecesFrom, Placed, Starts, Increasing, Says;
    var number, all := |lines| + 1, lines + [last];
    var next := Read(reading, number, last).value;
    PlacedInFile(next, all);
    StartsStep(reading, number, last);
    StartsAre(reading);
    StartsAre(next);
    StillSays(reading.done, Starts(reading), Starts(next), lines, last);
    NewPieces(lines, last);
    if reading.start.Some? {
      PiecesSnoc(lines, last, reading.start.value, number);
    }
    if |next.done| > |reading.done| {
      assert reading.start.None? ==> reading.pieces + [Piece(last)] == [Piece(last)];
      LastSays(reading.done, next.done[|reading.done|], Starts(next), all);
    }
  }

  lemma {:induction false} AllSays(lines: seq<string>)
    requires ReadAll(lines).Ok?
    ensures SaysSoFar(ReadAll(lines).value, lines)
    decreases |lines|
  {
    hide Read, SaysSoFar;
    if lines == [] {
      NothingSaid();
    } else {
      var n := |lines| - 1;
      AllSays(lines[..n]);
      AllPlaced(lines);
      assert lines == lines[..n] + [lines[n]];
      ReadSays(ReadAll(lines[..n]).value, lines[..n], lines[n]);
    }
  }

  lemma NothingSaid()
    ensures SaysSoFar(Reading([], None, []), [])
  {
  }

  /** Each logical line says what the meaningful lines from its start up to the
      next one's contribute, in order. */
  lemma LogicalTexts(lines: seq<string>)
    requires LogicalLines(lines).Ok?
    ensures var logical := LogicalLines(lines).value;
      Says(logical, StartsOf(logical), lines)
  {
    hide ReadAll, Says;
    AllSays(lines);
    var reading := ReadAll(lines).value;
    assert Starts(reading) == StartsOf(reading.done);
  }

  // A meaningful line that is nothing but a continuation.
  predicate EmptyContinued(raw: string) {
    Meaningful(raw) && Continued(raw) && Piece(raw) == ""
  }

  lemma {:induction false} ReadsUnlessEmpty(lines: seq<string>)
    ensures ReadAll(lines).Ok? <==> forall i :: 0 <= i < |lines| ==> !EmptyContinued(lines[i])
    decreases |lines|
  {
    hide Meaningful, Continued, Piece, Spaced;
    if lines != [] {
      var n := |lines| - 1;
      ReadsUnlessEmpty(lines[..n]);
      assert forall i :: 0 <= i < n ==> lines[..n][i] == lines[i];
    }
  }

  /** A file is refused exactly when a continuation is empty or never ends. */
  lemma RefusedIff(lines: seq<string>)
    ensures LogicalLines(lines).Err? <==>
      (exists i :: 0 <= i < |lines| && EmptyContinued(lines[i])) || OpenBefore(lines, |lines|)
  {
    hide EmptyContinued, OpenBefore, ReadAll;
    ReadsUnlessEmpty(lines);
    if ReadAll(lines).Ok? {
      AllPlaced(lines);
    }
  }

  // -------------------------------------------------------- provenance walk

  // The four forms of a provenance comment for one source.
  predicate IsProvenance(raw: string, source: string) {
    && IsComment(raw)
    && Strip(raw) in ["# via -r requirements/" + source, "#   -r requirements/" + source,
                      "# via -r " + source, "#   -r " + source]
  }

  // One of the four forms, with any white space around it.
  ghost predicate HasForm(raw: string, source: string, before: string, after: string, via: string, directory: string) {
    && AllSpace(before) && AllSpace(after) && via in ["# via", "#  "] && directory in ["requirements/", ""]
    && raw == before + (via + " -r " + directory + source) + after
  }

  lemma FormTexts(source: string)
    ensures "# via" + " -r " + "requirements/" + source == "# via -r requirements/" + source
    ensures "#  " + " -r " + "requirements/" + source == "#   -r requirements/" + source
    ensures "# via" + " -r " + "" + source == "# via -r " + source
    ensures "#  " + " -r " + "" + source == "#   -r " + source
  {
    assert "# via" + " -r " + "requirements/" == "# via -r requirements/";
    assert "#  " + " -r " + "requirements/" == "#   -r requirements/";
    assert "# via" + " -r " + "" == "# via -r ";
    assert "#  " + " -r " + "" == "#   -r ";
  }

  /** A line is provenance exactly when it has one of the four forms. */
  lemma ProvenanceForms(raw: string, source: string)
    requires source != "" && !IsSpace(source[|source| - 1])
    ensures IsProvenance(raw, source)
       <==> exists before, after, via, directory :: HasForm(raw, source, before, after, via, directory)
  {
    hide IsSpace, Strip, StripLeft, AllSpace;
    if IsProvenance(raw, source) {
      var before, after := StripParts(raw);
      var text := Strip(raw);
      FormTexts(source);
      var via := if text in ["# via -r requirements/" + source, "# via -r " + source] then "# via" else "#  ";
      var directory :=
        if text in ["# via -r requirements/" + source, "#   -r requirements/" + source] then "requirements/" else "";
      assert HasForm(raw, source, before, after, via, directory);
    }
    if before, after, via, directory :| HasForm(raw, source, before, after, via, directory) {
      FormIsProvenance(raw, source, before, after, via, directory);
    }
  }

  lemma FormIsProvenance(raw: string, source: string, before: string, after: string, via: string, directory: string)
    requires source != "" && !IsSpace(source[|source| - 1])
    requires HasForm(raw, source, before, after, via, directory)
    ensures IsProvenance(raw, source)
  {
    hide StripLeft, AllSpace, Strip;
    var text := via + " -r " + directory + source;
    FormTexts(source);
    StripFinds(before, text, after);
    assert raw == before + (text + after) && (text + after)[0] == '#';
    StripLeftDrops(before, text + after);
  }

  // A package record of the lock, updated by the walk.
  class Record {
    const line: nat
    const key: string
    var directSource: bool

    constructor (line: nat, key: string)
      ensures this.line == line && this.key == key && !directSource
    {
      this.line, this.key, directSource := line, key, false;
    }
  }

  predicate ProvenanceAt(lines: seq<string>, index: nat, source: string) {
    index < |lines| && IsProvenance(lines[index], source)
  }

  // A provenance comment between two line numbers, both excluded; line numbers
  // count from one, positions in the file from zero.
  ghost predicate ProvenanceBetween(lines: seq<string>, after: nat, before: nat, source: string) {
    exists index: nat :: after < index + 1 < before && ProvenanceAt(lines, index, source)
  }

  lemma BetweenStep(lines: seq<string>, after: nat, before: nat, source: string, index: nat)
    ensures after > index || before <= index + 1 ==>
      ProvenanceBetween(lines, after, Min(index + 2, before), source)
      == ProvenanceBetween(lines, after, Min(index + 1, before), source)
    ensures after <= index && before > index + 1 ==>
      ProvenanceBetween(lines, after, Min(index + 2, before), source)
      == (ProvenanceBetween(lines, after, Min(index + 1, before), source) || ProvenanceAt(lines, index, source))
  {
    hide ProvenanceAt;
    if i: nat :| after < i + 1 < Min(index + 2, before) && ProvenanceAt(lines, i, source) {
      assert i == index || after < i + 1 < Min(index + 1, before);
    }
  }

  // The line at which the reach of a record ends.
  function NextLine(starts: seq<nat>, k: nat, lines: seq<string>): nat
    requires k < |starts|
  {
    if k + 1 < |starts| then starts[k + 1] else |lines| + 1
  }

  function LinesOf(records: seq<Record>): (starts: seq<nat>)
    ensures |starts| == |records|
    ensures forall k :: 0 <= k < |records| ==> starts[k] == records[k].line
  {
    seq(|records|, k requires 0 <= k < |records| => records[k].line)
  }

  // Each record is marked by the provenance between it and `upto` or the next record.
  ghost predicate Marked(marks: seq<bool>, starts: seq<nat>, lines: seq<string>, source: string, upto: nat) {
    && |marks| == |starts|
    && forall k :: 0 <= k < |starts| ==>
         marks[k] == ProvenanceBetween(lines, starts[k], Min(upto, NextLine(starts, k, lines)), source)
  }

  // The first `next` records start at or before line `index`, the others after it.
  ghost predicate Passed(starts: seq<nat>, next: nat, index: nat) {
    && next <= |starts|
    && (forall k :: 0 <= k < next ==> starts[k] <= index)
    && forall k :: next <= k < |starts| ==> starts[k] > index
  }

  // A record line, or any line before the first record, changes no mark.
  lemma TurnKeeps(marks: seq<bool>, starts: seq<nat>, lines: seq<string>, source: string, next: nat, index: nat)
    requires Marked(marks, starts, lines, source, index + 1) && Passed(starts, next, index)
    requires next == 0 || (next < |starts| && starts[next] == index + 1)
    ensures Marked(marks, starts, lines, source, index + 2)
  {
    hide ProvenanceBetween;
    forall k | 0 <= k < |starts|
      ensures marks[k] == ProvenanceBetween(lines, starts[k], Min(index + 2, NextLine(starts, k, lines)), source)
    {
      OutOfReach(starts, lines, next, index, k);
      BetweenStep(lines, starts[k], NextLine(starts, k, lines), source, index);
    }
  }

  lemma OutOfReach(starts: seq<nat>, lines: seq<string>, next: nat, index: nat, k: nat)
    requires Passed(starts, next, index) && k < |starts|
    requires next == 0 || (next < |starts| && starts[next] == index + 1)
    ensures starts[k] > index || NextLine(starts, k, lines) <= index + 1
  {
    if k < next {
      assert k + 1 == next || starts[k + 1] <= index;
    }
  }

  // Any other line can only mark the record before it.
  lemma TurnMarks(marks: seq<bool>, starts: seq<nat>, lines: seq<string>, source: string, next: nat, index: nat)
    requires Marked(marks, starts, lines, source, index + 1) && Passed(starts, next, index) && Increasing(starts)
    requires next > 0 && (next < |starts| ==> starts[next] != index + 1) && index < |lines|
    ensures Marked(marks[next - 1 := marks[next - 1] || ProvenanceAt(lines, index, source)],
                   starts, lines, source, index + 2)
  {
    hide ProvenanceBetween, ProvenanceAt;
    var after := marks[next - 1 := marks[next - 1] || ProvenanceAt(lines, index, source)];
    forall k | 0 <= k < |starts|
      ensures after[k] == ProvenanceBetween(lines, starts[k], Min(index + 2, NextLine(starts, k, lines)), source)
    {
      BetweenStep(lines, starts[k], NextLine(starts, k, lines), source, index);
      if k < next - 1 {
        assert starts[k + 1] <= index;
      }
    }
  }

  lemma NothingMarked(starts: seq<nat>, marks: seq<bool>, lines: seq<string>, source: string)
    requires |marks| == |starts| && forall k :: 0 <= k < |marks| ==> !marks[k]
    ensures Marked(marks, starts, lines, source, 1)
  {
  }

  /** The walk marks a record exactly when a provenance comment for the source
      stands between its first line and the next record's first line. */
  method MarkDirect(records: seq<Record>, lines: seq<string>, source: string)
    requires forall i, j :: 0 <= i < j < |records| ==> records[i] != records[j]
    requires Increasing(LinesOf(records))
    requires forall k :: 0 <= k < |records| ==> 1 <= records[k].line <= |lines| && !records[k].directSource
    modifies set k | 0 <= k < |records| :: records[k]
    ensures forall k :: 0 <= k < |records| ==>
      records[k].directSource
      == ProvenanceBetween(lines, records[k].line, NextLine(LinesOf(records), k, lines), source)
  {
    hide IsProvenance, IsComment, ProvenanceBetween, Marked, Passed;
    ghost var starts := LinesOf(records);
    ghost var marks := seq(|records|, k => false);
    var next := 0;
    var previous: Record? := null;
    NothingMarked(starts, marks, lines, source);
    PassedNone(starts);
    for index := 0 to |lines|
      invariant 0 <= next <= |records| && Passed(starts, next, index)
      invariant previous == if next == 0 then null else records[next - 1]
      invariant |marks| == |records| && forall k :: 0 <= k < |records| ==> records[k].directSource == marks[k]
      invariant Marked(marks, starts, lines, source, index + 1)
    {
      var raw := lines[index];
      PassedStep(starts, next, index);
      if next < |records| && index + 1 == records[next].line {
        TurnKeeps(marks, starts, lines, source, next, index);
        previous := records[next];
        next := next + 1;
        continue;
      }
      if previous == null {
        TurnKeeps(marks, starts, lines, source, next, index);
        continue;
      }
      TurnMarks(marks, starts, lines, source, next, index);
      CommentsOnly(raw, source);
      marks := marks[next - 1 := marks[next - 1] || ProvenanceAt(lines, index, source)];
      if !IsComment(raw) {
        continue;
      }
      if IsProvenance(raw, source) {
        previous.directSource := true;
      }
    }
    MarkedToEnd(marks, starts, lines, source);
  }

  lemma PassedNone(starts: seq<nat>)
    requires forall k :: 0 <= k < |starts| ==> starts[k] >= 1
    ensures Passed(starts, 0, 0)
  {
  }

  lemma PassedStep(starts: seq<nat>, next: nat, index: nat)
    requires Passed(starts, next, index) && Increasing(starts)
    ensures Passed(starts, if next < |starts| && starts[next] == index + 1 then next + 1 else next, index + 1)
  {
  }

  lemma MarkedToEnd(marks: seq<bool>, starts: seq<nat>, lines: seq<string>, source: string)
    requires Marked(marks, starts, lines, source, |lines| + 1)
    requires forall k :: 0 <= k < |starts| ==> starts[k] <= |lines|
    ensures forall k :: 0 <= k < |starts| ==>
      marks[k] == ProvenanceBetween(lines, starts[k], NextLine(starts, k, lines), source)
  {
    hide ProvenanceBetween;
  }

  lemma CommentsOnly(raw: string, source: string)
    ensures IsProvenance(raw, source) ==> IsComment(raw)
  {
  }

  // ------------------------------------------------------------ the whole file

  const SOURCES: set<string> := {"main.in", "test.in", "ci-audit.in", "ci-lint.in", "ci-policy.in"}

  // What a record's text pins: package, version, extras and marker, or None
  // when it is not one exact pin with valid hashes.
  type PinReader = string -> Option<string>

  // Every logical line is an exact pin, and no two pin the same thing.
  predicate AllPinned(logical: seq<Logical>, pin: PinReader) {
    && (forall k :: 0 <= k < |logical| ==> pin(logical[k].text).Some?)
    && forall j, k :: 0 <= j < k < |logical| ==> pin(logical[j].text) != pin(logical[k].text)
  }

  ghost predicate Reflects(records: seq<Record>, logical: seq<Logical>, pin: PinReader) {
    && |records| == |logical|
    && forall k :: 0 <= k < |records| ==>
         records[k].line == logical[k].start && pin(logical[k].text) == Some(records[k].key)
  }

  // The keys pinned so far.
  ghost predicate Seen(seen: set<string>, logical: seq<Logical>, pin: PinReader) {
    forall key :: key in seen <==> exists k :: 0 <= k < |logical| && pin(logical[k].text) == Some(key)
  }

  lemma PinnedStep(logical: seq<Logical>, n: nat, seen: set<string>, pin: PinReader)
    requires n < |logical| && AllPinned(logical[..n], pin) && Seen(seen, logical[..n], pin)
    ensures var key := pin(logical[n].text);
      && (AllPinned(logical[..n + 1], pin) <==> key.Some? && key.value !in seen)
      && (key.Some? ==> Seen(seen + {key.value}, logical[..n + 1], pin))
  {
    var front, all := logical[..n], logical[..n + 1];
    var key := pin(logical[n].text);
    assert all == front + [logical[n]];
    if key.Some? {
      if key.value in seen {
        var k :| 0 <= k < n && pin(front[k].text) == key;
        assert all[k] == front[k] && all[n] == logical[n];
      }
      forall x ensures x in seen + {key.value} <==> exists k :: 0 <= k < n + 1 && pin(all[k].text) == Some(x) {
        if x in seen {
          var k :| 0 <= k < n && pin(front[k].text) == Some(x);
          assert all[k] == front[k];
        }
        if k :| 0 <= k < n + 1 && pin(all[k].text) == Some(x) {
          assert k < n ==> front[k] == all[k];
        }
        assert all[n] == logical[n];
      }
    } else {
      assert all[n] == logical[n];
    }
  }

  lemma PinnedPrefix(logical: seq<Logical>, n: nat, pin: PinReader)
    requires n <= |logical| && AllPinned(logical, pin)
    ensures AllPinned(logical[..n], pin)
  {
  }

  // The first loop of `parse_lock`: one record for each logical line.
  method ReadRecords(logical: seq<Logical>, pin: PinReader) returns (r: Result<seq<Record>, LockError>)
    ensures r.Ok? <==> AllPinned(logical, pin)
    ensures r.Ok? ==> Reflects(r.value, logical, pin)
    ensures r.Ok? ==> forall k :: 0 <= k < |r.value| ==> fresh(r.value[k]) && !r.value[k].directSource
    ensures r.Ok? ==> forall i, j :: 0 <= i < j < |r.value| ==> r.value[i] != r.value[j]
  {
    hide AllPinned, Seen;
    var records: seq<Record> := [];
    var seen: set<string> := {};
    NothingPinned(pin);
    assert logical[..0] == [];
    for n := 0 to |logical|
      invariant AllPinned(logical[..n], pin) && Seen(seen, logical[..n], pin)
      invariant Reflects(records, logical[..n], pin)
      invariant forall k :: 0 <= k < |records| ==> fresh(records[k]) && !records[k].directSource
      invariant forall i, j :: 0 <= i < j < |records| ==> records[i] != records[j]
    {
      var key := pin(logical[n].text);
      PinnedStep(logical, n, seen, pin);
      if key.None? || key.value in seen {
        if AllPinned(logical, pin) {
          PinnedPrefix(logical, n + 1, pin);
        }
        return Err(if key.None? then BadRecord(logical[n].start) else Repeated(logical[n].start));
      }
      seen := seen + {key.value};
      var record := new Record(logical[n].start, key.value);
      records := records + [record];
    }
    assert logical[..|logical|] == logical;
    return Ok(records);
  }

  lemma NothingPinned(pin: PinReader)
    ensures AllPinned([], pin) && Seen({}, [], pin)
  {
  }

  /** `parse_lock`: on success there is one record for each logical line, and it
      is a direct source exactly when a provenance comment for the chosen source
      stands strictly between its first line and the next record's. */
  method ParseLock(lines: seq<string>, source: string, pin: PinReader) returns (r: Result<seq<Record>, LockError>)
    ensures r.Ok? <==>
      && source in ["main.in", "test.in", "ci-audit.in", "ci-lint.in", "ci-policy.in"]
      && LogicalLines(lines).Ok? && LogicalLines(lines).value != []
      && AllPinned(LogicalLines(lines).value, pin)
    ensures r.Ok? ==> Reflects(r.value, LogicalLines(lines).value, pin)
    ensures r.Ok? ==> forall k :: 0 <= k < |r.value| ==>
      r.value[k].directSource
      == ProvenanceBetween(lines, r.value[k].line, NextLine(LinesOf(r.value), k, lines), source)
  {
    hide LogicalLines, AllPinned, ProvenanceBetween, BeginsAt;
    if source !in SOURCES {
      return Err(UnsupportedSource);
    }
    var logical := LogicalLinesLoop(lines);
    if logical.Err? {
      return Err(logical.error);
    }
    r := ReadRecords(logical.value, pin);
    if r.Err? {
      return;
    }
    if r.value == [] {
      return Err(NoRecords);
    }
    var starts := StartsOf(logical.value);
    LogicalStarts(lines);
    assert LinesOf(r.value) == starts;
    forall k | 0 <= k < |r.value| ensures 1 <= r.value[k].line <= |lines| {
      assert starts[k] in starts;
      BeginsInside(lines, starts[k]);
    }
    MarkDirect(r.value, lines, source);
  }

  lemma BeginsInside(lines: seq<string>, number: nat)
    ensures BeginsAt(lines, number) ==> 1 <= number <= |lines|
  {
  }
}
