// Canonical paths inside an image archive: splitting on slashes, dropping empty
// and `.` parts, and letting `..` take back the part before it.
module ImagePaths {
  import opened Common

  datatype PathError = EscapesRoot | InvalidPart

  // -------------------------------------------------------- split and join

  predicate NoSlash(s: string) {
    '/' !in s
  }

  // `s.split('/')`: always at least one part, none with a slash.
  function Split(s: string): (parts: seq<string>)
    ensures parts != []
    ensures forall i :: 0 <= i < |parts| ==> NoSlash(parts[i])
  {
    if s == "" then [""] else Prepend(s[0], Split(s[1..]))
  }

  // One character more at the front: a slash opens a new first part.
  function Prepend(c: char, rest: seq<string>): (parts: seq<string>)
    requires rest != [] && forall i :: 0 <= i < |rest| ==> NoSlash(rest[i])
    ensures parts != [] && forall i :: 0 <= i < |parts| ==> NoSlash(parts[i])
  {
    if c == '/' then [""] + rest
    else
      assert NoSlash([c] + rest[0]) by { assert NoSlash(rest[0]); }
      [[c] + rest[0]] + rest[1..]
  }

  // `'/'.join(parts)`
  function Join(parts: seq<string>): string {
    if parts == [] then ""
    else if |parts| == 1 then parts[0]
    else parts[0] + "/" + Join(parts[1..])
  }

  lemma {:induction false} SplitNoSlash(s: string)
    requires NoSlash(s)
    ensures Split(s) == [s]
  {
    if s != "" {
      SplitNoSlash(s[1..]);
      assert [s[0]] + s[1..] == s;
    }
  }

  /** Splitting a path that was put together with a slash splits both sides. */
  lemma {:induction false} SplitConcat(a: string, b: string)
    ensures Split(a + "/" + b) == Split(a) + Split(b)
  {
    var s := a + "/" + b;
    if a == "" {
      assert s == "/" + b && s[1..] == b;
    } else {
      SplitConcat(a[1..], b);
      assert s[1..] == a[1..] + "/" + b;
      PrependConcat(a[0], Split(a[1..]), Split(b));
    }
  }

  lemma PrependConcat(c: char, rest: seq<string>, more: seq<string>)
    requires rest != [] && forall i :: 0 <= i < |rest| ==> NoSlash(rest[i])
    requires forall i :: 0 <= i < |more| ==> NoSlash(more[i])
    ensures Prepend(c, rest + more) == Prepend(c, rest) + more
  {
    hide NoSlash;
    assert (rest + more)[0] == rest[0];
    TailConcat(rest, more);
    var first := [c] + rest[0];
    assert [first] + (rest[1..] + more) == [first] + rest[1..] + more;
    assert [""] + (rest + more) == [""] + rest + more;
  }

  lemma TailConcat<T>(rest: seq<T>, more: seq<T>)
    requires rest != []
    ensures (rest + more)[1..] == rest[1..] + more
  {
  }

  lemma {:induction false} SplitJoin(parts: seq<string>)
    requires parts != [] && forall i :: 0 <= i < |parts| ==> NoSlash(parts[i])
    ensures Split(Join(parts)) == parts
  {
    if |parts| == 1 {
      SplitNoSlash(parts[0]);
      assert parts == [parts[0]];
    } else {
      SplitConcat(parts[0], Join(parts[1..]));
      SplitNoSlash(parts[0]);
      SplitJoin(parts[1..]);
      assert parts == [parts[0]] + parts[1..];
    }
  }

  // ------------------------------------------------------------- the stack

  predicate Skipped(part: string) {
    part == "" || part == "."
  }

  predicate Bad(part: string) {
    '\\' in part || '\0' in part
  }

  function Take(stack: seq<string>, part: string): Result<seq<string>, PathError> {
    if Skipped(part) then Ok(stack)
    else if part == ".." then if stack == [] then Err(EscapesRoot) else Ok(stack[..|stack| - 1])
    else if Bad(part) then Err(InvalidPart)
    else Ok(stack + [part])
  }

  function TakeAll(stack: seq<string>, parts: seq<string>): Result<seq<string>, PathError>
    decreases |parts|
  {
    if parts == [] then Ok(stack)
    else
      match Take(stack, parts[0])
      case Err(e) => Err(e)
      case Ok(next) => TakeAll(next, parts[1..])
  }

  function Canonical(path: string): Result<string, PathError> {
    match TakeAll([], Split(path))
    case Err(e) => Err(e)
    case Ok(parts) => Ok(Join(parts))
  }

  /** `canonical` as it runs: one pass over the parts with a stack. */
  method CanonicalLoop(path: string) returns (r: Result<string, PathError>)
    ensures r == Canonical(path)
  {
    var all := Split(path);
    var parts := [];
    for i := 0 to |all|
      invariant TakeAll(parts, all[i..]) == TakeAll([], all)
    {
      var part := all[i];
      assert all[i..][0] == part && all[i..][1..] == all[i + 1..];
      if part == "" || part == "." {
        continue;
      }
      if part == ".." {
        if parts == [] {
          return Err(EscapesRoot);
        }
        parts := parts[..|parts| - 1];
      } else {
        if '\\' in part || '\0' in part {
          return Err(InvalidPart);
        }
        parts := parts + [part];
      }
    }
    return Ok(Join(parts));
  }

  // --------------------------------------------------------------- the laws

  // A part that stays: neither skipped, nor a step up, nor refused.
  predicate Clean(part: string) {
    NoSlash(part) && !Skipped(part) && part != ".." && !Bad(part)
  }

  predicate AllClean(parts: seq<string>) {
    forall i :: 0 <= i < |parts| ==> Clean(parts[i])
  }

  lemma {:induction false} TakeAllConcat(stack: seq<string>, xs: seq<string>, ys: seq<string>)
    ensures TakeAll(stack, xs + ys) ==
      match TakeAll(stack, xs) case Err(e) => Err(e) case Ok(next) => TakeAll(next, ys)
    decreases |xs|
  {
    hide Take;
    if xs == [] {
      assert xs + ys == ys;
    } else {
      assert (xs + ys)[1..] == xs[1..] + ys;
      var next := Take(stack, xs[0]);
      if next.Ok? {
        TakeAllConcat(next.value, xs[1..], ys);
      }
    }
  }

  lemma {:induction false} TakeAllKeepsClean(stack: seq<string>, parts: seq<string>)
    requires AllClean(stack) && forall i :: 0 <= i < |parts| ==> NoSlash(parts[i])
    requires TakeAll(stack, parts).Ok?
    ensures AllClean(TakeAll(stack, parts).value)
    decreases |parts|
  {
    if parts != [] {
      var next := Take(stack, parts[0]).value;
      assert AllClean(next);
      TakeAllKeepsClean(next, parts[1..]);
    }
  }

  lemma {:induction false} CleanIsTaken(stack: seq<string>, parts: seq<string>)
    requires AllClean(parts)
    ensures TakeAll(stack, parts) == Ok(stack + parts)
    decreases |parts|
  {
    if parts == [] {
      assert stack + parts == stack;
    } else {
      CleanIsTaken(stack + [parts[0]], parts[1..]);
      assert stack + [parts[0]] + parts[1..] == stack + parts;
    }
  }

  // A joined stack reads back as the stack, the empty one included.
  lemma StackReadsBack(parts: seq<string>)
    requires AllClean(parts)
    ensures TakeAll([], Split(Join(parts))) == Ok(parts)
  {
    hide TakeAll, Clean;
    if parts == [] {
      EmptyReadsBack();
    } else {
      CleanHasNoSlash(parts);
      SplitJoin(parts);
      CleanIsTaken([], parts);
      assert [] + parts == parts;
    }
  }

  lemma CleanHasNoSlash(parts: seq<string>)
    requires AllClean(parts)
    ensures forall i :: 0 <= i < |parts| ==> NoSlash(parts[i])
  {
  }

  lemma EmptyReadsBack()
    ensures TakeAll([], Split(Join([]))) == Ok([])
  {
  }

  // The parts behind a canonical path.
  function Parts(path: string): seq<string>
    requires Canonical(path).Ok?
  {
    TakeAll([], Split(path)).value
  }

  lemma PartsAreClean(path: string)
    requires Canonical(path).Ok?
    ensures AllClean(Parts(path)) && Canonical(path) == Ok(Join(Parts(path)))
  {
    TakeAllKeepsClean([], Split(path));
  }

  /** What `canonical` returns is its own canonical form. */
  lemma CanonicalIsIdempotent(path: string)
    requires Canonical(path).Ok?
    ensures Canonical(Canonical(path).value) == Canonical(path)
  {
    PartsAreClean(path);
    StackReadsBack(Parts(path));
  }

  /** A path may be made canonical before or after more is appended: the result
      is the same, errors included. */
  lemma CanonicalAppend(a: string, b: string)
    ensures Canonical(a).Ok? ==> Canonical(Canonical(a).value + "/" + b) == Canonical(a + "/" + b)
    ensures Canonical(a).Err? ==> Canonical(a + "/" + b) == Err(Canonical(a).error)
  {
    hide TakeAll, Split, Join;
    SplitConcat(a, b);
    TakeAllConcat([], Split(a), Split(b));
    if Canonical(a).Ok? {
      var c := Canonical(a).value;
      SplitConcat(c, b);
      TakeAllConcat([], Split(c), Split(b));
      PartsAreClean(a);
      StackReadsBack(Parts(a));
    }
  }

  /** Canonical paths are exactly the joined lists of clean parts. */
  lemma CanonicalFormIff(path: string)
    ensures Canonical(path) == Ok(path) <==> path == "" || AllClean(Split(path))
  {
    if path == "" {
      EmptyReadsBack();
    } else if AllClean(Split(path)) {
      JoinSplit(path);
      StackReadsBack(Split(path));
    } else if Canonical(path) == Ok(path) {
      PartsAreClean(path);
      CleanHasNoSlash(Parts(path));
      if Parts(path) != [] {
        SplitJoin(Parts(path));
        assert false;
      }
    }
  }

  lemma {:induction false} JoinSplit(s: string)
    ensures Join(Split(s)) == s
  {
    if s != "" {
      JoinSplit(s[1..]);
      var rest := Split(s[1..]);
      if s[0] == '/' {
        assert ([""] + rest)[1..] == rest;
      } else {
        var parts := [[s[0]] + rest[0]] + rest[1..];
        assert parts[1..] == rest[1..];
        JoinHead(s[0], rest);
      }
    }
  }

  lemma JoinHead(c: char, rest: seq<string>)
    requires rest != []
    ensures Join([[c] + rest[0]] + rest[1..]) == [c] + Join(rest)
  {
    var parts := [[c] + rest[0]] + rest[1..];
    assert parts[1..] == rest[1..];
  }

  // How far a list of parts leads down, less how far it leads up.
  function Depth(parts: seq<string>): int {
    if parts == [] then 0 else Down(parts[0]) + Depth(parts[1..])
  }

  function Down(part: string): int {
    if part == "" || part == "." then 0 else if part == ".." then -1 else 1
  }

  // No part leads above a directory this deep.
  predicate StaysBelow(depth: int, parts: seq<string>) {
    forall k :: 0 <= k <= |parts| ==> depth + Depth(parts[..k]) >= 0
  }

  lemma StaysBelowCons(depth: int, parts: seq<string>)
    requires parts != [] && depth >= 0
    ensures StaysBelow(depth, parts) <==> StaysBelow(depth + Down(parts[0]), parts[1..])
  {
    var first := Down(parts[0]);
    forall k | 0 <= k < |parts| ensures Depth(parts[..k + 1]) == first + Depth(parts[1..][..k]) {
      assert parts[..k + 1][1..] == parts[1..][..k];
    }
    assert forall k :: 0 < k <= |parts| ==> Depth(parts[..k]) == first + Depth(parts[1..][..k - 1]);
    if StaysBelow(depth + first, parts[1..]) {
      forall k | 0 <= k <= |parts| ensures depth + Depth(parts[..k]) >= 0 {
        assert k > 0 ==> depth + first + Depth(parts[1..][..k - 1]) >= 0;
      }
    }
  }

  predicate NoBadCharacter(s: string) {
    '\\' !in s && '\0' !in s
  }

  lemma {:induction false} TakeAllOkIff(stack: seq<string>, parts: seq<string>)
    ensures TakeAll(stack, parts).Ok?
       <==> (forall i :: 0 <= i < |parts| ==> NoBadCharacter(parts[i])) && StaysBelow(|stack|, parts)
    decreases |parts|
  {
    hide StaysBelow;
    if parts == [] {
      NothingStaysBelow(|stack|);
    } else {
      StaysBelowCons(|stack|, parts);
      var next := Take(stack, parts[0]);
      if next.Ok? {
        TakeAllOkIff(next.value, parts[1..]);
        assert parts == [parts[0]] + parts[1..];
      } else {
        assert parts[0] == ".." ==> !StaysBelow(-1, parts[1..]) by { AboveIsAbove(parts[1..]); }
      }
    }
  }

  lemma NothingStaysBelow(depth: nat)
    ensures StaysBelow(depth, [])
  {
  }

  lemma AboveIsAbove(parts: seq<string>)
    ensures !StaysBelow(-1, parts)
  {
    assert parts[..0] == [] && Depth(parts[..0]) == 0;
  }

  lemma {:induction false} InSplit(c: char, s: string)
    requires c != '/'
    ensures c in s <==> exists i :: 0 <= i < |Split(s)| && c in Split(s)[i]
  {
    if s == "" {
      assert Split(s) == [""];
    } else {
      assert Split(s) == Prepend(s[0], Split(s[1..]));
      InSplit(c, s[1..]);
      InPrepend(c, s[0], Split(s[1..]));
      assert s == [s[0]] + s[1..];
    }
  }

  lemma InPrepend(c: char, first: char, rest: seq<string>)
    requires c != '/' && rest != [] && forall i :: 0 <= i < |rest| ==> NoSlash(rest[i])
    ensures (exists i :: 0 <= i < |Prepend(first, rest)| && c in Prepend(first, rest)[i])
       <==> c == first || exists i :: 0 <= i < |rest| && c in rest[i]
  {
    var all := Prepend(first, rest);
    if i :| 0 <= i < |rest| && c in rest[i] {
      assert c in all[if first == '/' then i + 1 else i];
    }
    if c == first {
      assert c in all[0];
    }
    if i :| 0 <= i < |all| && c in all[i] {
      assert c == first || c in rest[if first == '/' then i - 1 else i];
    }
  }

  /** A path is accepted exactly when it holds no backslash and no NUL and none of
      its prefixes leads above the root, and it says which of the two was wrong. */
  lemma AcceptedIff(path: string)
    ensures Canonical(path).Ok? <==> NoBadCharacter(path) && StaysBelow(0, Split(path))
    ensures Canonical(path) == Err(InvalidPart) ==> !NoBadCharacter(path)
    ensures Canonical(path) == Err(EscapesRoot) ==> !StaysBelow(0, Split(path))
  {
    hide StaysBelow;
    TakeAllOkIff([], Split(path));
    InSplit('\\', path);
    InSplit('\0', path);
    ErrorMeans([], Split(path));
  }

  lemma {:induction false} ErrorMeans(stack: seq<string>, parts: seq<string>)
    ensures TakeAll(stack, parts) == Err(InvalidPart) ==>
      exists i :: 0 <= i < |parts| && !NoBadCharacter(parts[i])
    ensures TakeAll(stack, parts) == Err(EscapesRoot) ==> !StaysBelow(|stack|, parts)
    decreases |parts|
  {
    hide StaysBelow;
    if parts != [] {
      StaysBelowCons(|stack|, parts);
      var next := Take(stack, parts[0]);
      if next.Ok? {
        ErrorMeans(next.value, parts[1..]);
      } else {
        AboveIsAbove(parts[1..]);
      }
    }
  }
}
