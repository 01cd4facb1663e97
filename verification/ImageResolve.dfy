// Following links inside an image archive: the bounded loop with its cycle
// check, against plain repetition of one step.
module ImageResolve {
  import opened Common
  import opened ImagePaths

  datatype Kind = File | Directory | Symlink | Hardlink

  datatype Entry = Entry(kind: Kind, link: string)

  type Entries = map<string, Entry>

  datatype ResolveError = BadPath(PathError) | NotFound(name: string) | NotDirectory | Cycle | TooManyLinks

  predicate IsLink(entry: Entry) {
    entry.kind.Symlink? || entry.kind.Hardlink?
  }

  // --------------------------------------------------------------- one step

  // The parts `PurePosixPath` keeps of a path that does not start with a slash.
  function Kept(parts: seq<string>): seq<string> {
    if parts == [] then []
    else (if Skipped(parts[0]) then [] else [parts[0]]) + Kept(parts[1..])
  }

  function DropLast(parts: seq<string>): seq<string> {
    if parts == [] then [] else parts[..|parts| - 1]
  }

  // `str(PurePosixPath(prefix).parent / link)`
  function Beside(prefix: string, link: string): string {
    var parts := DropLast(Kept(Split(prefix))) + Kept(Split(link));
    if parts == [] then "." else Join(parts)
  }

  function LinkTarget(prefix: string, entry: Entry): string {
    if entry.kind.Symlink? && !(entry.link != "" && entry.link[0] == '/') then Beside(prefix, entry.link)
    else entry.link
  }

  datatype Move = Missing | NotDir | Jump(next: Result<string, PathError>) | Stay

  // One pass over the prefixes of a name, from the prefix that ends in `index`.
  function Look(parts: seq<string>, index: nat, entries: Entries): Move
    requires index <= |parts|
    decreases |parts| - index
  {
    if index == |parts| then Stay
    else
      var prefix := Join(parts[..index + 1]);
      if prefix !in entries then Missing
      else if IsLink(entries[prefix]) then
        Jump(Canonical(Join([LinkTarget(prefix, entries[prefix])] + parts[index + 1..])))
      else if index < |parts| - 1 && !entries[prefix].kind.Directory? then NotDir
      else Look(parts, index + 1, entries)
  }

  function Chase(name: string, visited: set<string>, left: nat, entries: Entries): Result<string, ResolveError>
    decreases left
  {
    if left == 0 then Err(TooManyLinks)
    else if name in visited then Err(Cycle)
    else
      match Look(Split(name), 0, entries)
      case Missing => Err(NotFound(name))
      case NotDir => Err(NotDirectory)
      case Jump(Err(e)) => Err(BadPath(e))
      case Jump(Ok(next)) => Chase(next, visited + {name}, left - 1, entries)
      case Stay => Ok(name)
  }

  const LIMIT: nat := 64

  function Resolution(path: string, entries: Entries): Result<string, ResolveError> {
    match Canonical(path)
    case Err(e) => Err(BadPath(e))
    case Ok(name) => Chase(name, {}, LIMIT, entries)
  }

  // ---------------------------------------------------------------- the code

  // The inner loop over the prefixes of one name.
  method LookLoop(name: string, entries: Entries) returns (move: Move)
    ensures move == Look(Split(name), 0, entries)
  {
    var parts := Split(name);
    for index := 0 to |parts|
      invariant Look(parts, index, entries) == Look(parts, 0, entries)
    {
      var prefix := Join(parts[..index + 1]);
      if prefix !in entries {
        return Missing;
      }
      var entry := entries[prefix];
      if IsLink(entry) {
        var target := entry.link;
        if entry.kind.Symlink? && !(target != "" && target[0] == '/') {
          target := Beside(prefix, target);
        }
        return Jump(Canonical(Join([target] + parts[index + 1..])));
      }
      if index < |parts| - 1 && !entry.kind.Directory? {
        return NotDir;
      }
    }
    return Stay;
  }

  /** `Image.resolve` */
  method Resolve(path: string, entries: Entries) returns (r: Result<string, ResolveError>)
    ensures r == Resolution(path, entries)
  {
    hide Look, Canonical;
    var start := Canonical(path);
    if start.Err? {
      return Err(BadPath(start.error));
    }
    var name := start.value;
    var visited := {};
    for round := 0 to LIMIT
      invariant Chase(name, visited, LIMIT - round, entries) == Chase(start.value, {}, LIMIT, entries)
    {
      if name in visited {
        return Err(Cycle);
      }
      var move := LookLoop(name, entries);
      match move
      case Missing => return Err(NotFound(name));
      case NotDir => return Err(NotDirectory);
      case Jump(Err(e)) => return Err(BadPath(e));
      case Jump(Ok(next)) =>
        visited := visited + {name};
        name := next;
      case Stay => return Ok(name);
    }
    return Err(TooManyLinks);
  }

  // ------------------------------------------------------- what it returns

  /** A name that needs no link: canonical, present at every prefix, a directory
      before every part but the last. */
  predicate IsPlain(name: string, entries: Entries) {
    var parts := Split(name);
    && Canonical(name) == Ok(name)
    && forall i :: 0 <= i < |parts| ==> PlainAt(parts, i, entries)
  }

  predicate PlainAt(parts: seq<string>, i: nat, entries: Entries)
    requires i < |parts|
  {
    var prefix := Join(parts[..i + 1]);
    && prefix in entries && entries[prefix].kind in {File, Directory}
    && (i < |parts| - 1 ==> entries[prefix].kind.Directory?)
  }

  lemma {:induction false} LookStaysIff(parts: seq<string>, index: nat, entries: Entries)
    requires index <= |parts|
    ensures Look(parts, index, entries) == Stay <==> forall i :: index <= i < |parts| ==> PlainAt(parts, i, entries)
    decreases |parts| - index
  {
    if index < |parts| {
      LookStaysIff(parts, index + 1, entries);
      assert Look(parts, index, entries) == Stay
        <==> PlainAt(parts, index, entries) && Look(parts, index + 1, entries) == Stay;
    }
  }

  // The first prefix that is not plain, from `index` on.
  ghost predicate FirstBad(parts: seq<string>, index: nat, i: int, entries: Entries) {
    && index <= i < |parts| && !PlainAt(parts, i, entries)
    && forall j :: index <= j < i ==> PlainAt(parts, j, entries)
  }

  /** A name is judged by its first prefix that is not plain: absent, a link, or
      a file where a directory should be. */
  lemma {:induction false} LookJudgesFirst(parts: seq<string>, index: nat, i: nat, entries: Entries)
    requires FirstBad(parts, index, i, entries)
    ensures var prefix := Join(parts[..i + 1]);
      && (Look(parts, index, entries).Missing? <==> prefix !in entries)
      && (Look(parts, index, entries).Jump? <==> prefix in entries && entries[prefix].kind in {Symlink, Hardlink})
      && (Look(parts, index, entries).NotDir? <==> prefix in entries && entries[prefix].kind.File?)
      && (Look(parts, index, entries).Jump? ==>
            Look(parts, index, entries).next
            == Canonical(Join([LinkTarget(prefix, entries[prefix])] + parts[i + 1..])))
    decreases |parts| - index
  {
    if index < i {
      assert PlainAt(parts, index, entries);
      LookJudgesFirst(parts, index + 1, i, entries);
    }
  }

  lemma {:induction false} JumpIsCanonical(parts: seq<string>, index: nat, entries: Entries)
    requires index <= |parts|
    requires Look(parts, index, entries).Jump? && Look(parts, index, entries).next.Ok?
    ensures var next := Look(parts, index, entries).next.value; Canonical(next) == Ok(next)
    decreases |parts| - index
  {
    hide Canonical;
    var prefix := Join(parts[..index + 1]);
    if IsLink(entries[prefix]) {
      CanonicalIsIdempotent(Join([LinkTarget(prefix, entries[prefix])] + parts[index + 1..]));
    } else {
      JumpIsCanonical(parts, index + 1, entries);
    }
  }

  lemma {:induction false} ChaseIsPlain(name: string, visited: set<string>, left: nat, entries: Entries)
    requires Canonical(name) == Ok(name) && Chase(name, visited, left, entries).Ok?
    ensures IsPlain(Chase(name, visited, left, entries).value, entries)
    decreases left
  {
    hide Canonical, Look, PlainAt;
    match Look(Split(name), 0, entries)
    case Stay => LookStaysIff(Split(name), 0, entries);
    case Jump(Ok(next)) =>
      JumpIsCanonical(Split(name), 0, entries);
      ChaseIsPlain(next, visited + {name}, left - 1, entries);
    case _ =>
  }

  /** What `resolve` returns exists, is canonical, passes through no link, and
      has a directory at every proper prefix. */
  lemma ResolvedIsPlain(path: string, entries: Entries)
    requires Resolution(path, entries).Ok?
    ensures IsPlain(Resolution(path, entries).value, entries)
  {
    hide Chase, IsPlain, Canonical;
    CanonicalIsIdempotent(path);
    ChaseIsPlain(Canonical(path).value, {}, LIMIT, entries);
  }

  /** A plain name resolves to itself. */
  lemma PlainResolvesToItself(name: string, entries: Entries)
    requires IsPlain(name, entries)
    ensures Resolution(name, entries) == Ok(name)
  {
    hide Canonical, Look, PlainAt;
    LookStaysIff(Split(name), 0, entries);
  }

  /** Resolving a resolved path changes nothing. */
  lemma ResolveIsIdempotent(path: string, entries: Entries)
    requires Resolution(path, entries).Ok?
    ensures Resolution(Resolution(path, entries).value, entries) == Resolution(path, entries)
  {
    hide Resolution, IsPlain;
    ResolvedIsPlain(path, entries);
    PlainResolvesToItself(Resolution(path, entries).value, entries);
  }

  // ------------------------------------------------- against plain iteration

  function Hop(name: string, entries: Entries): Option<string> {
    match Look(Split(name), 0, entries)
    case Jump(Ok(next)) => Some(next)
    case _ => None
  }

  // The k-th name of the plain iteration, as long as it goes on.
  function Trail(name: string, k: nat, entries: Entries): Option<string> {
    if k == 0 then Some(name)
    else
      match Trail(name, k - 1, entries)
      case None => None
      case Some(before) => Hop(before, entries)
  }

  // The plain iteration reaches `last` after `k` hops and finds this there.
  predicate StopsAt(name: string, k: nat, last: string, move: Move, entries: Entries) {
    Trail(name, k, entries) == Some(last) && Look(Split(last), 0, entries) == move
  }

  predicate Halts(move: Move) {
    !(move.Jump? && move.next.Ok?)
  }

  // What is answered for a name that the iteration cannot leave.
  function Verdict(last: string, move: Move): Result<string, ResolveError>
    requires Halts(move)
  {
    match move
    case Missing => Err(NotFound(last))
    case NotDir => Err(NotDirectory)
    case Jump(Err(e)) => Err(BadPath(e))
    case Stay => Ok(last)
  }

  // Two of the first `n` names are the same.
  ghost predicate Repeats(name: string, n: nat, entries: Entries) {
    exists i, j :: 0 <= i < j < n && Trail(name, i, entries).Some? && Trail(name, i, entries) == Trail(name, j, entries)
  }

  lemma {:induction false} TrailSplits(name: string, i: nat, j: nat, entries: Entries)
    ensures Trail(name, i + j, entries) ==
      match Trail(name, i, entries) case None => None case Some(mid) => Trail(mid, j, entries)
    decreases j
  {
    hide Hop;
    if j > 0 {
      TrailSplits(name, i, j - 1, entries);
    }
  }

  /** A name that comes back comes back for ever. */
  lemma {:induction false} RepeatNeverEnds(name: string, i: nat, j: nat, k: nat, entries: Entries)
    requires i < j && Trail(name, i, entries).Some? && Trail(name, i, entries) == Trail(name, j, entries)
    ensures Trail(name, k, entries).Some?
    decreases k
  {
    hide Hop;
    if k <= j {
      TrailSplits(name, k, j - k, entries);
    } else {
      TrailSplits(name, j, k - j, entries);
      TrailSplits(name, i, k - j, entries);
      RepeatNeverEnds(name, i, j, k - (j - i), entries);
    }
  }

  lemma RepeatsForEver(name: string, n: nat, entries: Entries)
    ensures Repeats(name, n, entries) ==> forall k: nat :: Trail(name, k, entries).Some?
  {
    hide Trail;
    if Repeats(name, n, entries) {
      var i, j :| 0 <= i < j < n && Trail(name, i, entries).Some? && Trail(name, i, entries) == Trail(name, j, entries);
      forall k: nat ensures Trail(name, k, entries).Some? {
        RepeatNeverEnds(name, i, j, k, entries);
      }
    }
  }

  // The loop after `n` rounds, seen from the name it started with.
  ghost predicate Walked(start: string, n: nat, name: string, visited: set<string>, entries: Entries) {
    && Trail(start, n, entries) == Some(name)
    && (forall v :: v in visited <==> Passed(start, n, v, entries))
  }

  predicate Passed(start: string, n: nat, v: string, entries: Entries) {
    exists i :: 0 <= i < n && Trail(start, i, entries) == Some(v)
  }

  lemma PassedStep(start: string, n: nat, v: string, entries: Entries)
    ensures Passed(start, n + 1, v, entries) <==> Passed(start, n, v, entries) || Trail(start, n, entries) == Some(v)
  {
    hide Trail;
    if i :| 0 <= i < n + 1 && Trail(start, i, entries) == Some(v) {
      assert i == n || Passed(start, n, v, entries);
    }
  }

  lemma WalkedStep(start: string, n: nat, name: string, visited: set<string>, next: string, entries: Entries)
    requires Walked(start, n, name, visited, entries) && Hop(name, entries) == Some(next)
    ensures Walked(start, n + 1, next, visited + {name}, entries)
  {
    hide Hop, Passed;
    forall v ensures v in visited + {name} <==> Passed(start, n + 1, v, entries) {
      PassedStep(start, n, v, entries);
    }
  }

  lemma WalkedHere(start: string, n: nat, name: string, visited: set<string>, entries: Entries)
    requires Walked(start, n, name, visited, entries)
    ensures Trail(start, n, entries) == Some(name)
  {
  }

  // The iteration that is still going after `k` hops has not stopped before.
  lemma NextName(start: string, n: nat, k: nat, entries: Entries)
    requires n < k && Trail(start, k, entries).Some?
    ensures Trail(start, n, entries).Some? && Trail(start, n + 1, entries).Some?
    ensures Hop(Trail(start, n, entries).value, entries) == Trail(start, n + 1, entries)
  {
    hide Hop;
    TrailSplits(start, n + 1, k - n - 1, entries);
  }

  lemma RepeatNeverStops(start: string, i: nat, j: nat, k: nat, last: string, move: Move, entries: Entries)
    requires i < j && Trail(start, i, entries).Some? && Trail(start, i, entries) == Trail(start, j, entries)
    ensures !(StopsAt(start, k, last, move, entries) && Halts(move))
  {
    hide Look;
    RepeatNeverEnds(start, i, j, k + 1, entries);
  }

  lemma {:induction false} ChaseStops(start: string, n: nat, name: string, visited: set<string>, left: nat,
                                      k: nat, last: string, move: Move, entries: Entries)
    requires Walked(start, n, name, visited, entries)
    requires n <= k < n + left && StopsAt(start, k, last, move, entries) && Halts(move)
    ensures Chase(name, visited, left, entries) == Verdict(last, move)
    decreases left
  {
    hide Look, Walked, Trail;
    WalkedHere(start, n, name, visited, entries);
    assert name !in visited by {
      if name in visited {
        var i := VisitedAt(start, n, name, visited, name, entries);
        RepeatNeverStops(start, i, n, k, last, move, entries);
      }
    }
    if n < k {
      NextName(start, n, k, entries);
      var next := Hop(name, entries).value;
      WalkedStep(start, n, name, visited, next, entries);
      ChaseStops(start, n + 1, next, visited + {name}, left - 1, k, last, move, entries);
    }
  }

  lemma VisitedAt(start: string, n: nat, name: string, visited: set<string>, v: string, entries: Entries)
    returns (i: nat)
    requires Walked(start, n, name, visited, entries) && v in visited
    ensures i < n && Trail(start, i, entries) == Some(v)
  {
    hide Trail;
    i :| 0 <= i < n && Trail(start, i, entries) == Some(v);
  }

  lemma VisitedIff(start: string, n: nat, name: string, visited: set<string>, i: nat, v: string, entries: Entries)
    requires Walked(start, n, name, visited, entries) && i < n && Trail(start, i, entries) == Some(v)
    ensures v in visited
  {
    hide Trail;
  }

  lemma {:induction false} ChaseCycles(start: string, n: nat, name: string, visited: set<string>, left: nat,
                                       i: nat, j: nat, entries: Entries)
    requires Walked(start, n, name, visited, entries)
    requires i < j && n <= j < n + left
    requires Trail(start, i, entries).Some? && Trail(start, i, entries) == Trail(start, j, entries)
    ensures Chase(name, visited, left, entries) == Err(Cycle)
    decreases left
  {
    hide Look, Walked, Trail;
    WalkedHere(start, n, name, visited, entries);
    if name !in visited {
      if n == j {
        VisitedIff(start, n, name, visited, i, name, entries);
      } else {
        NextName(start, n, j, entries);
        var next := Hop(name, entries).value;
        WalkedStep(start, n, name, visited, next, entries);
        ChaseCycles(start, n + 1, next, visited + {name}, left - 1, i, j, entries);
      }
    }
  }

  lemma {:induction false} ChaseRunsOut(start: string, n: nat, name: string, visited: set<string>, left: nat,
                                        entries: Entries)
    requires Walked(start, n, name, visited, entries)
    requires Trail(start, n + left, entries).Some? && !Repeats(start, n + left, entries)
    ensures Chase(name, visited, left, entries) == Err(TooManyLinks)
    decreases left
  {
    hide Look, Walked, Trail;
    if left > 0 {
      WalkedHere(start, n, name, visited, entries);
      assert name !in visited by {
        if name in visited {
          var i := VisitedAt(start, n, name, visited, name, entries);
        }
      }
      NextName(start, n, n + left, entries);
      var next := Hop(name, entries).value;
      WalkedStep(start, n, name, visited, next, entries);
      ChaseRunsOut(start, n + 1, next, visited + {name}, left - 1, entries);
    }
  }

  // An iteration that does not last `n` hops stops within them.
  lemma {:induction false} StopsSomewhere(start: string, n: nat, entries: Entries)
    returns (k: nat, last: string, move: Move)
    requires Trail(start, n, entries).None?
    ensures k < n && StopsAt(start, k, last, move, entries) && Halts(move)
  {
    hide Look;
    if Trail(start, n - 1, entries).None? {
      k, last, move := StopsSomewhere(start, n - 1, entries);
    } else {
      k, last := n - 1, Trail(start, n - 1, entries).value;
      move := Look(Split(last), 0, entries);
    }
  }

  lemma WalkStart(name: string, entries: Entries)
    ensures Walked(name, 0, name, {}, entries)
  {
  }

  // Every resolution is one of three: a stop within the limit, a repetition
  // within the limit, or neither.
  lemma ResolutionCases(start: string, entries: Entries)
    ensures var r := Chase(start, {}, LIMIT, entries);
      && (forall k: nat, last, move :: k < LIMIT && StopsAt(start, k, last, move, entries) && Halts(move) ==>
            r == Verdict(last, move))
      && (Repeats(start, LIMIT, entries) ==> r == Err(Cycle))
      && (Trail(start, LIMIT, entries).Some? && !Repeats(start, LIMIT, entries) ==> r == Err(TooManyLinks))
  {
    hide Chase, StopsAt, Trail, Walked, Halts, Verdict;
    WalkStart(start, entries);
    forall k: nat, last, move | k < LIMIT && StopsAt(start, k, last, move, entries) && Halts(move)
      ensures Chase(start, {}, LIMIT, entries) == Verdict(last, move)
    {
      ChaseStops(start, 0, start, {}, LIMIT, k, last, move, entries);
    }
    if Repeats(start, LIMIT, entries) {
      var i, j :| 0 <= i < j < LIMIT && Trail(start, i, entries).Some?
                  && Trail(start, i, entries) == Trail(start, j, entries);
      ChaseCycles(start, 0, start, {}, LIMIT, i, j, entries);
    } else if Trail(start, LIMIT, entries).Some? {
      ChaseRunsOut(start, 0, start, {}, LIMIT, entries);
    }
  }

  // The answer is this verdict exactly when the iteration stops with it.
  ghost predicate StopsWith(start: string, answer: Result<string, ResolveError>, entries: Entries) {
    exists k: nat, last, move ::
      k < LIMIT && StopsAt(start, k, last, move, entries) && Halts(move) && Verdict(last, move) == answer
  }

  lemma AnswersMean(start: string, answer: Result<string, ResolveError>, entries: Entries)
    ensures var r := Chase(start, {}, LIMIT, entries);
      && (r == Err(Cycle) <==> Repeats(start, LIMIT, entries))
      && (r == Err(TooManyLinks) <==>
            Trail(start, LIMIT, entries).Some? && !Repeats(start, LIMIT, entries))
      && (answer != Err(Cycle) && answer != Err(TooManyLinks) ==> (r == answer <==> StopsWith(start, answer, entries)))
  {
    hide Chase, StopsAt, Trail, Repeats;
    ResolutionCases(start, entries);
    if Trail(start, LIMIT, entries).None? {
      var k, last, move := StopsSomewhere(start, LIMIT, entries);
      assert StopsWith(start, Verdict(last, move), entries);
    }
  }

  lemma StopsWithOk(start: string, last: string, entries: Entries)
    ensures StopsWith(start, Ok(last), entries)
       <==> exists k: nat :: k < LIMIT && StopsAt(start, k, last, Stay, entries)
  {
    hide StopsAt;
    if k: nat :| k < LIMIT && StopsAt(start, k, last, Stay, entries) {
      assert Halts(Stay) && Verdict(last, Stay) == Ok(last);
    }
  }

  lemma StopsWithNotFound(start: string, name: string, entries: Entries)
    ensures StopsWith(start, Err(NotFound(name)), entries)
       <==> exists k: nat :: k < LIMIT && StopsAt(start, k, name, Missing, entries)
  {
    hide StopsAt;
    if k: nat :| k < LIMIT && StopsAt(start, k, name, Missing, entries) {
      assert Halts(Missing) && Verdict(name, Missing) == Err(NotFound(name));
    }
  }

  lemma StopsWithNotDirectory(start: string, entries: Entries)
    ensures StopsWith(start, Err(NotDirectory), entries)
       <==> exists k: nat, last :: k < LIMIT && StopsAt(start, k, last, NotDir, entries)
  {
    hide StopsAt;
    if k: nat, last :| k < LIMIT && StopsAt(start, k, last, NotDir, entries) {
      assert Halts(NotDir) && Verdict(last, NotDir) == Err(NotDirectory);
    }
  }

  lemma StopsWithBadPath(start: string, error: PathError, entries: Entries)
    ensures StopsWith(start, Err(BadPath(error)), entries)
       <==> exists k: nat, last :: k < LIMIT && StopsAt(start, k, last, Jump(Err(error)), entries)
  {
    hide StopsAt;
    var move := Jump(Err(error));
    if k: nat, last :| k < LIMIT && StopsAt(start, k, last, Jump(Err(error)), entries) {
      assert Halts(move) && Verdict(last, move) == Err(BadPath(error));
    }
  }

  /** `resolve` is plain iteration of its one step: it returns a name exactly
      when following links comes to rest there within 64 steps. */
  lemma ResolvesIffRests(path: string, last: string, entries: Entries)
    requires Canonical(path).Ok?
    ensures Resolution(path, entries) == Ok(last)
       <==> exists k: nat :: k < 64 && StopsAt(Canonical(path).value, k, last, Stay, entries)
  {
    hide Chase, StopsAt, Canonical, Repeats, Trail;
    AnswersMean(Canonical(path).value, Ok(last), entries);
    StopsWithOk(Canonical(path).value, last, entries);
  }

  /** Every refusal means what it says, and is made whenever it holds: a cycle is
      two equal names among the first 64 (and never ends), "too many links" 64
      different names with a link behind the last, and a missing name, a file used
      as a directory or a bad link is one the links lead to within 64 steps. */
  lemma RefusalsMean(path: string, name: string, error: PathError, entries: Entries)
    requires Canonical(path).Ok?
    ensures var r, start := Resolution(path, entries), Canonical(path).value;
      && (r == Err(Cycle) <==> Repeats(start, 64, entries))
      && (r == Err(Cycle) ==> forall k: nat :: Trail(start, k, entries).Some?)
      && (r == Err(TooManyLinks) <==> Trail(start, 64, entries).Some? && !Repeats(start, 64, entries))
      && (r == Err(NotFound(name)) <==> exists k: nat :: k < 64 && StopsAt(start, k, name, Missing, entries))
      && (r == Err(NotDirectory) <==>
            exists k: nat, last :: k < 64 && StopsAt(start, k, last, NotDir, entries))
      && (r == Err(BadPath(error)) <==>
            exists k: nat, last :: k < 64 && StopsAt(start, k, last, Jump(Err(error)), entries))
  {
    hide Chase, StopsAt, Canonical, Repeats, Trail;
    var start := Canonical(path).value;
    RepeatsForEver(start, 64, entries);
    StopsWithNotFound(start, name, entries);
    StopsWithNotDirectory(start, entries);
    StopsWithBadPath(start, error, entries);
    AnswersMean(start, Err(NotFound(name)), entries);
    AnswersMean(start, Err(NotDirectory), entries);
    AnswersMean(start, Err(BadPath(error)), entries);
  }

  // --------------------------------------------------- what a link refers to

  lemma SkippedTakesNothing(stack: seq<string>, part: string)
    requires Skipped(part)
    ensures Take(stack, part) == Ok(stack)
  {
  }

  lemma {:induction false} KeptTakes(stack: seq<string>, parts: seq<string>)
    ensures TakeAll(stack, Kept(parts)) == TakeAll(stack, parts)
    decreases |parts|
  {
    hide Take;
    if parts != [] {
      var next := Take(stack, parts[0]);
      if Skipped(parts[0]) {
        SkippedTakesNothing(stack, parts[0]);
        assert Kept(parts) == Kept(parts[1..]);
        KeptTakes(stack, parts[1..]);
      } else {
        assert Kept(parts)[1..] == Kept(parts[1..]);
        if next.Ok? {
          KeptTakes(next.value, parts[1..]);
        }
      }
    }
  }

  lemma KeptTakesAll(stack: seq<string>, parts: seq<string>, more: seq<string>)
    ensures TakeAll(stack, Kept(parts) + more) == TakeAll(stack, parts + more)
  {
    hide Take, Kept, TakeAll;
    KeptTakes(stack, parts);
    TakeAllConcat(stack, parts, more);
    TakeAllConcat(stack, Kept(parts), more);
  }

  lemma {:induction false} CleanIsKept(parts: seq<string>)
    requires AllClean(parts)
    ensures Kept(parts) == parts
  {
    if parts != [] {
      CleanIsKept(parts[1..]);
      assert parts == [parts[0]] + parts[1..];
    }
  }

  lemma {:induction false} KeptHasNoSlash(parts: seq<string>)
    requires forall i :: 0 <= i < |parts| ==> NoSlash(parts[i])
    ensures forall i :: 0 <= i < |Kept(parts)| ==> NoSlash(Kept(parts)[i])
  {
    hide NoSlash;
    if parts != [] {
      KeptHasNoSlash(parts[1..]);
    }
  }

  lemma JoinedWithRest(target: string, rest: seq<string>)
    requires forall i :: 0 <= i < |rest| ==> NoSlash(rest[i])
    ensures Split(Join([target] + rest)) == Split(target) + rest
  {
    if rest == [] {
      assert [target] + rest == [target];
    } else {
      assert ([target] + rest)[1..] == rest;
      SplitConcat(target, Join(rest));
      SplitJoin(rest);
    }
  }

  lemma BesideTakes(parents: seq<string>, link: seq<string>, rest: seq<string>)
    requires AllClean(parents)
    requires forall i :: 0 <= i < |link| ==> NoSlash(link[i])
    ensures var parts := parents + Kept(link);
      TakeAll([], Split(if parts == [] then "." else Join(parts)) + rest) == TakeAll(parents, link + rest)
  {
    hide Take, Kept, Clean, Split, Join;
    var parts := parents + Kept(link);
    CleanIsTaken([], parents);
    assert [] + parents == parents;
    TakeAllConcat([], parents, Kept(link) + rest);
    KeptTakesAll(parents, link, rest);
    assert parents + (Kept(link) + rest) == parts + rest;
    if parts == [] {
      DotIsNothing(rest);
      assert parts + rest == rest;
    } else {
      CleanHasNoSlash(parents);
      KeptHasNoSlash(link);
      SplitJoin(parts);
    }
  }

  lemma DotIsNothing(rest: seq<string>)
    ensures TakeAll([], Split(".") + rest) == TakeAll([], rest)
  {
    SplitNoSlash(".");
    assert (["."] + rest)[1..] == rest;
  }

  /** Following a relative symbolic link found at a canonical prefix continues,
      part by part, from the directory that holds the link. */
  lemma LinkIsRelative(prefix: string, entry: Entry, rest: seq<string>)
    requires prefix != "" && Canonical(prefix) == Ok(prefix)
    requires entry.kind.Symlink? && !(entry.link != "" && entry.link[0] == '/')
    requires forall i :: 0 <= i < |rest| ==> NoSlash(rest[i])
    ensures TakeAll([], Split(Join([LinkTarget(prefix, entry)] + rest)))
         == TakeAll(DropLast(Split(prefix)), Split(entry.link) + rest)
  {
    hide TakeAll, Clean, Split, Join, Canonical;
    CanonicalFormIff(prefix);
    var parents := DropLast(Split(prefix));
    CleanIsKept(Split(prefix));
    assert forall i :: 0 <= i < |parents| ==> parents[i] == Split(prefix)[i];
    BesideTakes(parents, Split(entry.link), rest);
    JoinedWithRest(LinkTarget(prefix, entry), rest);
  }

  lemma OtherLinks(prefix: string, entry: Entry, rest: seq<string>)
    requires !entry.kind.Symlink? || (entry.link != "" && entry.link[0] == '/')
    requires forall i :: 0 <= i < |rest| ==> NoSlash(rest[i])
    ensures TakeAll([], Split(Join([LinkTarget(prefix, entry)] + rest))) == TakeAll([], Split(entry.link) + rest)
  {
    JoinedWithRest(entry.link, rest);
  }

  // The directory a link is read from: the one that holds it for a relative
  // symbolic link, and the root for any other.
  function Base(parts: seq<string>, i: nat, entry: Entry): seq<string>
    requires i < |parts|
  {
    if entry.kind.Symlink? && !StartsAtRoot(entry.link) then parts[..i] else []
  }

  predicate StartsAtRoot(link: string) {
    link != "" && link[0] == '/'
  }

  // The first prefix of a name that is not plain is this link.
  ghost predicate LinkAt(name: string, i: nat, entry: Entry, entries: Entries) {
    && FirstBad(Split(name), 0, i, entries)
    && var prefix := Join(Split(name)[..i + 1]);
       prefix in entries && entries[prefix] == entry && entry.kind in {Symlink, Hardlink}
  }

  /** Where a link leads: what it says and the rest of the name, part by part, from
      the directory it is read from, errors included. */
  lemma JumpLeads(name: string, i: nat, entry: Entry, entries: Entries)
    requires name != "" && Canonical(name) == Ok(name) && LinkAt(name, i, entry, entries)
    ensures Look(Split(name), 0, entries) == Jump(
              match TakeAll(Base(Split(name), i, entry), Split(entry.link) + Split(name)[i + 1..])
              case Err(e) => Err(e)
              case Ok(stack) => Ok(Join(stack)))
  {
    hide TakeAll, Clean, Look, Split, Join, PlainAt;
    var parts := Split(name);
    var prefix, rest := Join(parts[..i + 1]), parts[i + 1..];
    LookJudgesFirst(parts, 0, i, entries);
    CanonicalFormIff(name);
    CleanPrefix(parts, i);
    if entry.kind.Symlink? && !StartsAtRoot(entry.link) {
      LinkIsRelative(prefix, entry, rest);
    } else {
      OtherLinks(prefix, entry, rest);
    }
  }

  lemma CleanPrefix(parts: seq<string>, i: nat)
    requires i < |parts| && AllClean(parts)
    ensures var prefix := Join(parts[..i + 1]);
      && prefix != "" && Canonical(prefix) == Ok(prefix) && DropLast(Split(prefix)) == parts[..i]
    ensures forall k :: i < k < |parts| ==> NoSlash(parts[k])
  {
    hide TakeAll, Clean;
    var front := parts[..i + 1];
    CleanHasNoSlash(parts);
    SplitJoin(front);
    CanonicalFormIff(Join(front));
    assert front[..i] == parts[..i];
    CleanIsNotEmpty(front[0]);
    JoinStarts(front);
  }

  lemma CleanIsNotEmpty(part: string)
    ensures Clean(part) ==> part != ""
  {
  }

  lemma JoinStarts(parts: seq<string>)
    requires parts != [] && parts[0] != ""
    ensures Join(parts) != ""
  {
  }

  lemma NothingIsClean()
    ensures !Clean("")
  {
  }

  // --------------------------------------------------------------- the index

  const MAX_FILE: nat := 256 * 1024 * 1024
  const MAX_IMAGE: nat := 8 * 1024 * 1024 * 1024
  const MAX_ENTRIES: nat := 200000

  // A member of the archive; `kind` is None for devices, pipes and the like.
  datatype Member = Member(name: string, kind: Option<Kind>, link: string, size: int)

  function TrimSlashes(s: string): string {
    if s != "" && s[|s| - 1] == '/' then TrimSlashes(s[..|s| - 1]) else s
  }

  predicate NamedCanonically(name: string) {
    && !(name != "" && name[0] == '/')
    && Canonical(name) == Ok(TrimSlashes(name))
  }

  // A name written out: clean parts, and slashes behind them.
  ghost predicate NamedAs(name: string, base: string, slashes: string) {
    && name == base + slashes && AllClean(Split(base))
    && forall i :: 0 <= i < |slashes| ==> slashes[i] == '/'
  }

  lemma {:induction false} TrimSlashesParts(s: string) returns (slashes: string)
    ensures s == TrimSlashes(s) + slashes && forall i :: 0 <= i < |slashes| ==> slashes[i] == '/'
  {
    if s != "" && s[|s| - 1] == '/' {
      var rest := TrimSlashesParts(s[..|s| - 1]);
      slashes := rest + "/";
    } else {
      slashes := "";
    }
  }

  lemma {:induction false} SlashesAreNothing(base: string, slashes: string)
    requires forall i :: 0 <= i < |slashes| ==> slashes[i] == '/'
    ensures Canonical(base + slashes) == Canonical(base)
    ensures base != "" && base[|base| - 1] != '/' ==> TrimSlashes(base + slashes) == base
    decreases |slashes|
  {
    hide Canonical;
    if slashes == "" {
      assert base + slashes == base;
    } else {
      var n := |slashes| - 1;
      var front := base + slashes[..n];
      SlashesAreNothing(base, slashes[..n]);
      assert base + slashes == front + "/";
      assert (front + "/")[..|front|] == front;
      OneSlash(front);
    }
  }

  lemma OneSlash(s: string)
    ensures Canonical(s + "/") == Canonical(s)
  {
    hide Split, Take, TakeAll;
    assert s + "/" + "" == s + "/";
    SplitConcat(s, "");
    TakeAllConcat([], Split(s), Split(""));
    NothingTaken();
  }

  lemma NothingTaken()
    ensures forall stack :: TakeAll(stack, Split("")) == Ok(stack)
  {
  }

  lemma EmptyPartIsNotClean(a: string, b: string)
    requires a == "" || b == ""
    ensures !AllClean(Split(a + "/" + b))
  {
    hide Split, Clean;
    SplitConcat(a, b);
    SplitNoSlash("");
    NothingIsClean();
    var parts := Split(a) + Split(b);
    assert a == "" ==> parts[0] == "";
    assert b == "" ==> parts[|parts| - 1] == "";
  }

  // Clean parts neither begin nor end with a slash.
  lemma CleanEnds(base: string)
    requires AllClean(Split(base))
    ensures base != "" && base[0] != '/' && base[|base| - 1] != '/'
  {
    hide Split, AllClean;
    if base == "" {
      NothingToClean();
    } else if base[0] == '/' {
      EmptyPartIsNotClean("", base[1..]);
      SlashFirst(base);
    } else if base[|base| - 1] == '/' {
      EmptyPartIsNotClean(base[..|base| - 1], "");
      SlashLast(base);
    }
  }

  lemma SlashFirst(base: string)
    requires base != "" && base[0] == '/'
    ensures base == "" + "/" + base[1..]
  {
  }

  lemma SlashLast(base: string)
    requires base != "" && base[|base| - 1] == '/'
    ensures base == base[..|base| - 1] + "/" + ""
  {
  }

  lemma NothingToClean()
    ensures !AllClean(Split(""))
  {
    NothingIsClean();
    assert Split("")[0] == "";
  }

  /** The index takes a name exactly when it is empty or clean parts with slashes
      between and behind them, and files it under those parts. */
  lemma NamesMean(name: string, base: string)
    ensures NamedCanonically(name) && TrimSlashes(name) == base
       <==> (name == base == "") || exists slashes :: NamedAs(name, base, slashes)
  {
    hide Canonical, Clean;
    if NamedCanonically(name) && TrimSlashes(name) == base {
      var slashes := TrimSlashesParts(name);
      CanonicalIsIdempotent(name);
      CanonicalFormIff(base);
      if base == "" {
        assert name == slashes;
      } else {
        assert NamedAs(name, base, slashes);
      }
    }
    if slashes :| NamedAs(name, base, slashes) {
      CleanEnds(base);
      SlashesAreNothing(base, slashes);
      CanonicalFormIff(base);
      assert name[0] == base[0];
    }
    if name == base == "" {
      CanonicalFormIff("");
    }
  }

  function Total(members: seq<Member>): int {
    if members == [] then 0 else Total(members[..|members| - 1]) + members[|members| - 1].size
  }

  // A member that may stand in an archive at all.
  predicate Fits(m: Member) {
    NamedCanonically(m.name) && m.kind.Some? && 0 <= m.size <= 268_435_456
  }

  // The archive as the index accepts it.
  ghost predicate Indexable(members: seq<Member>) {
    && |members| <= 200_000
    && (forall i :: 0 <= i < |members| ==> Fits(members[i]))
    && (forall i, j :: 0 <= i < j < |members| ==> TrimSlashes(members[i].name) != TrimSlashes(members[j].name))
    && Total(members) <= 8_589_934_592
  }

  ghost predicate Indexes(entries: Entries, members: seq<Member>) {
    && (forall i :: 0 <= i < |members| ==>
          var m := members[i];
          m.kind.Some? && TrimSlashes(m.name) in entries
          && entries[TrimSlashes(m.name)] == Entry(m.kind.value, m.link))
    && (forall name :: name in entries ==>
          Canonical(name) == Ok(name) && exists i :: 0 <= i < |members| && TrimSlashes(members[i].name) == name)
    && |entries| == |members|
  }

  // What one more member must satisfy.
  ghost predicate Admits(members: seq<Member>, m: Member) {
    && |members| < 200_000 && Fits(m)
    && !Named(members, TrimSlashes(m.name))
    && Total(members) + m.size <= 8_589_934_592
  }

  ghost predicate Named(members: seq<Member>, name: string) {
    exists i :: 0 <= i < |members| && TrimSlashes(members[i].name) == name
  }

  lemma IndexableFront(members: seq<Member>, m: Member)
    requires Indexable(members + [m])
    ensures Indexable(members) && Admits(members, m)
  {
    hide NamedCanonically, TrimSlashes, Total;
    var all := members + [m];
    TotalSnoc(members, m);
    assert all[|members|] == m && Fits(all[|members|]);
    forall i | 0 <= i < |members|
      ensures Fits(members[i]) && TrimSlashes(members[i].name) != TrimSlashes(m.name)
    {
      assert all[i] == members[i] && Fits(all[i]);
    }
    forall i, j | 0 <= i < j < |members| ensures TrimSlashes(members[i].name) != TrimSlashes(members[j].name) {
      assert all[i] == members[i] && all[j] == members[j];
    }
  }

  lemma IndexableLonger(members: seq<Member>, m: Member)
    requires Indexable(members) && Admits(members, m)
    ensures Indexable(members + [m])
  {
    hide NamedCanonically, TrimSlashes, Total;
    TotalSnoc(members, m);
  }

  lemma IndexableSnoc(members: seq<Member>, m: Member)
    ensures Indexable(members + [m]) <==> Indexable(members) && Admits(members, m)
  {
    hide Indexable, Admits;
    if Indexable(members + [m]) {
      IndexableFront(members, m);
    }
    if Indexable(members) && Admits(members, m) {
      IndexableLonger(members, m);
    }
  }

  lemma TotalSnoc(members: seq<Member>, m: Member)
    ensures Total(members + [m]) == Total(members) + m.size
    ensures Total([]) == 0
  {
    assert (members + [m])[..|members|] == members;
  }

  lemma {:induction false} PrefixIndexable(members: seq<Member>, k: nat)
    requires k <= |members| && Indexable(members)
    ensures Indexable(members[..k])
    decreases |members|
  {
    hide Indexable;
    if k < |members| {
      var n := |members| - 1;
      assert members == members[..n] + [members[n]];
      IndexableSnoc(members[..n], members[n]);
      PrefixIndexable(members[..n], k);
      assert members[..n][..k] == members[..k];
    } else {
      assert members[..k] == members;
    }
  }

  lemma NamedIffIndexed(entries: Entries, members: seq<Member>, name: string)
    requires Indexes(entries, members)
    ensures name in entries <==> Named(members, name)
  {
    hide TrimSlashes, Canonical;
  }

  lemma IndexesSnoc(entries: Entries, members: seq<Member>, m: Member)
    requires Indexes(entries, members) && Admits(members, m)
    ensures Indexes(entries[TrimSlashes(m.name) := Entry(m.kind.value, m.link)], members + [m])
  {
    hide TrimSlashes, Canonical;
    var name := TrimSlashes(m.name);
    var all, next := members + [m], entries[name := Entry(m.kind.value, m.link)];
    NamedIffIndexed(entries, members, name);
    CanonicalIsIdempotent(m.name);
    forall i | 0 <= i < |all|
      ensures all[i].kind.Some? && TrimSlashes(all[i].name) in next
      ensures next[TrimSlashes(all[i].name)] == Entry(all[i].kind.value, all[i].link)
    {
      assert i == |members| || all[i] == members[i];
    }
    forall other | other in next ensures Canonical(other) == Ok(other) && Named(all, other) {
      if other == name {
        assert all[|members|] == m;
      } else {
        var i :| 0 <= i < |members| && TrimSlashes(members[i].name) == other;
        assert all[i] == members[i];
      }
    }
  }

  /** `Image._index`: it accepts exactly the archives with canonical, distinct
      names of plain kinds within the limits, and then holds every member under
      its canonical name. */
  method Index(members: seq<Member>) returns (r: Option<Entries>)
    ensures r.Some? <==> Indexable(members)
    ensures r.Some? ==> Indexes(r.value, members)
  {
    hide NamedCanonically, TrimSlashes, Indexable, Indexes, Named;
    var entries: Entries := map[];
    var expanded := 0;
    EmptyIndex();
    for i := 0 to |members|
      invariant Indexable(members[..i]) && Indexes(entries, members[..i])
      invariant expanded == Total(members[..i])
    {
      var member := members[i];
      assert members[..i + 1] == members[..i] + [member];
      IndexableSnoc(members[..i], member);
      TotalSnoc(members[..i], member);
      if Indexable(members) {
        PrefixIndexable(members, i + 1);
      }
      if !NamedCanonically(member.name) {
        return None;
      }
      var name := TrimSlashes(member.name);
      NamedIffIndexed(entries, members[..i], name);
      IndexSize(entries, members[..i]);
      if name in entries || |entries| >= MAX_ENTRIES {
        return None;
      }
      if member.kind.None? {
        return None;
      }
      if member.size > MAX_FILE || member.size < 0 {
        return None;
      }
      expanded := expanded + member.size;
      if expanded > MAX_IMAGE {
        return None;
      }
      IndexesSnoc(entries, members[..i], member);
      entries := entries[name := Entry(member.kind.value, member.link)];
    }
    assert members[..|members|] == members;
    return Some(entries);
  }

  lemma EmptyIndex()
    ensures Indexable([]) && Indexes(map[], [])
  {
  }

  lemma IndexSize(entries: Entries, members: seq<Member>)
    requires Indexes(entries, members)
    ensures |entries| == |members|
  {
  }
}
