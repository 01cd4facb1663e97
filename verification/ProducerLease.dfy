// The lease protocol that keeps the legacy and the paymentd producer apart: any
// number of processes take a shared or exclusive lock on one root-owned file, pin
// it, recheck the marker and only then enter their body.
module ProducerLease {
  import opened Common

  datatype Mode = Legacy | Paymentd | Invalid

  // Where one call of the lease stands. `lease` is the inode of the lock file it has
  // open, or None for the pre-cutover legacy call that found no lock file.
  datatype Phase =
    | Polling(expected: Mode, exclusive: bool, inode: nat)
    | Locked(expected: Mode, exclusive: bool, inode: nat)
    | Checking(expected: Mode, exclusive: bool, lease: Option<nat>)
    | Body(expected: Mode, exclusive: bool, lease: Option<nat>, rewrote: bool)

  // `marker` is what the selection file reads as, `lock` the inode at the lock path.
  datatype System = System(marker: Mode, lock: Option<nat>, procs: map<nat, Phase>)

  datatype Step =
    | Request(p: nat, expected: Mode, exclusive: bool, root: bool)
    | Poll(p: nat)
    | Pin(p: nat)
    | Check(p: nat)
    | Rewrite(p: nat, mode: Mode)
    | Leave(p: nat)
    | Install(inode: nat)
    | Replace(inode: nat)

  // The inode a phase holds its lock on, if any.
  function Held(phase: Phase): Option<nat> {
    match phase
    case Polling(_, _, _) => None
    case Locked(_, _, inode) => Some(inode)
    case Checking(_, _, lease) => lease
    case Body(_, _, lease, _) => lease
  }

  predicate Holds(phase: Phase, inode: nat) {
    Held(phase) == Some(inode)
  }

  /** Whether the kernel grants `p` its lock now: shared locks coexist, an exclusive one is alone. */
  predicate Grantable(s: System, p: nat)
    requires p in s.procs && s.procs[p].Polling?
  {
    forall q :: q in s.procs && q != p && Holds(s.procs[q], s.procs[p].inode) ==>
      !s.procs[p].exclusive && !s.procs[q].exclusive
  }

  predicate Refused(expected: Mode, exclusive: bool, root: bool) {
    (expected.Invalid? && !exclusive) || (exclusive && !root)
  }

  function Enter(s: System, p: nat, phase: Phase): System {
    s.(procs := s.procs[p := phase])
  }

  function Drop(s: System, p: nat): System {
    s.(procs := s.procs - {p})
  }

  /** One atomic step; a step that is not enabled changes nothing. */
  function Next(s: System, step: Step): System {
    match step
    case Request(p, expected, exclusive, root) =>
      if p in s.procs || Refused(expected, exclusive, root) then s
      else if s.lock.Some? then Enter(s, p, Polling(expected, exclusive, s.lock.value))
      else if expected.Legacy? && !exclusive then Enter(s, p, Checking(expected, exclusive, None))
      else s
    case Poll(p) =>
      if p in s.procs && s.procs[p].Polling? && Grantable(s, p)
      then Enter(s, p, Locked(s.procs[p].expected, s.procs[p].exclusive, s.procs[p].inode))
      else s
    case Pin(p) =>
      if !(p in s.procs && s.procs[p].Locked?) then s
      else if s.lock == Some(s.procs[p].inode)
      then Enter(s, p, Checking(s.procs[p].expected, s.procs[p].exclusive, Some(s.procs[p].inode)))
      else Drop(s, p)
    case Check(p) =>
      if !(p in s.procs && s.procs[p].Checking?) then s
      else if s.marker == s.procs[p].expected
      then Enter(s, p, Body(s.procs[p].expected, s.procs[p].exclusive, s.procs[p].lease, false))
      else Drop(s, p)
    case Rewrite(p, mode) =>
      if p in s.procs && s.procs[p].Body? && s.procs[p].exclusive
      then Enter(s, p, s.procs[p].(rewrote := true)).(marker := mode)
      else s
    case Leave(p) => Drop(s, p)
    case Install(inode) => if s.lock.None? then s.(lock := Some(inode)) else s
    case Replace(inode) => if s.lock.Some? then s.(lock := Some(inode)) else s
  }

  function Exec(s: System, steps: seq<Step>): System
    decreases |steps|
  {
    if steps == [] then s else Exec(Next(s, steps[0]), steps[1..])
  }

  // ------------------------------------------------------- what operators must respect

  // A legacy call that started before the lock file was installed.
  predicate Unleased(phase: Phase) {
    (phase.Checking? || phase.Body?) && phase.lease.None?
  }

  /** No call is left that never took a lease. */
  predicate Drained(s: System) {
    forall p :: p in s.procs ==> !Unleased(s.procs[p])
  }

  // A call past its pin: it will not look at the lock file again.
  predicate Pinned(phase: Phase) {
    (phase.Checking? || phase.Body?) && phase.lease.Some?
  }

  predicate Unpinned(s: System) {
    forall p :: p in s.procs ==> !Pinned(s.procs[p])
  }

  /** The lock file is not replaced under a call that has pinned it, and the marker
      only rewritten once no call without a lease is left. */
  predicate Disciplined(s: System, step: Step) {
    (step.Replace? ==> Unpinned(s)) && (step.Rewrite? ==> Drained(s))
  }

  predicate DisciplinedRun(s: System, steps: seq<Step>)
    decreases |steps|
  {
    steps == [] || (Disciplined(s, steps[0]) && DisciplinedRun(Next(s, steps[0]), steps[1..]))
  }

  predicate InBody(s: System, p: nat) {
    p in s.procs && s.procs[p].Body?
  }

  /** A body is entered by a check that finds the marker as expected and by nothing
      else, and left by leaving it and by nothing else. */
  lemma BodiesComeAndGo(s: System, step: Step, p: nat)
    ensures !InBody(s, p) ==> (InBody(Next(s, step), p)
      <==> step == Check(p) && p in s.procs && s.procs[p].Checking? && s.procs[p].expected == s.marker)
    ensures InBody(s, p) ==> (!InBody(Next(s, step), p) <==> step == Leave(p))
  {
  }

  // ------------------------------------------------------- exclusion

  /** Every body was selected by the marker as it stands, except that of the exclusive holder that rewrote it. */
  predicate BodiesSelected(s: System) {
    forall p :: p in s.procs && s.procs[p].Body? ==>
      s.procs[p].expected == s.marker || (s.procs[p].exclusive && s.procs[p].rewrote)
  }

  /** Once an exclusive holder has rewritten the marker, no other body runs. */
  predicate RewriterAlone(s: System) {
    forall p, q :: p in s.procs && q in s.procs && p != q && s.procs[p].Body? && s.procs[p].rewrote
      ==> !s.procs[q].Body?
  }

  /** The two producers are never both in their bodies. */
  predicate ProducersApart(s: System) {
    forall p, q :: p in s.procs && q in s.procs && s.procs[p].Body? && s.procs[q].Body?
      ==> !(s.procs[p].expected.Legacy? && s.procs[q].expected.Paymentd?)
  }

  /** Only shared legacy calls run without a lease. */
  predicate UnleasedAreLegacy(s: System) {
    forall p :: p in s.procs && Unleased(s.procs[p]) ==> s.procs[p].expected.Legacy? && !s.procs[p].exclusive
  }

  // What one call may rely on. A call that has not pinned the lock file may still
  // wait for, or hold, one that is no longer installed.
  predicate Sound(s: System, phase: Phase) {
    && (phase.expected.Invalid? ==> phase.exclusive)
    && match phase
       case Polling(_, _, _) => s.lock.Some?
       case Locked(_, _, _) => s.lock.Some?
       case Checking(expected, exclusive, lease) =>
         if lease.Some? then s.lock == lease else expected.Legacy? && !exclusive
       case Body(expected, exclusive, lease, rewrote) =>
         && (if lease.Some? then s.lock == lease else expected.Legacy? && !exclusive)
         && (if rewrote then exclusive else expected == s.marker)
  }

  predicate Compatible(a: Phase, b: Phase) {
    Held(a).Some? && Held(a) == Held(b) ==> !a.exclusive && !b.exclusive
  }

  // The inductive invariant: one pinned inode, kernel-granted locks, marker agreement.
  predicate Inv(s: System) {
    && (forall p :: p in s.procs ==> Sound(s, s.procs[p]))
    && (forall p, q :: p in s.procs && q in s.procs && p != q ==> Compatible(s.procs[p], s.procs[q]))
    && (forall p :: p in s.procs && s.procs[p].Body? && s.procs[p].rewrote ==> Drained(s))
  }

  lemma EnterKeeps(s: System, p: nat, phase: Phase)
    requires Inv(s) && Sound(s, phase)
    requires forall q :: q in s.procs && q != p ==> Compatible(phase, s.procs[q])
    requires Unleased(phase) ==> forall q :: q in s.procs && s.procs[q].Body? && q != p ==> !s.procs[q].rewrote
    requires !(phase.Body? && phase.rewrote)
    ensures Inv(Enter(s, p, phase))
  {
  }

  lemma RewriteKeeps(s: System, p: nat, mode: Mode)
    requires Inv(s) && Drained(s)
    ensures Inv(Next(s, Rewrite(p, mode)))
  {
    if p in s.procs && s.procs[p].Body? && s.procs[p].exclusive {
      var s' := Next(s, Rewrite(p, mode));
      forall q | q in s'.procs ensures Sound(s', s'.procs[q]) {
        assert Sound(s, s.procs[q]) && Sound(s, s.procs[p]);
        assert q != p ==> Compatible(s.procs[p], s.procs[q]);
      }
    }
  }

  lemma RequestKeeps(s: System, step: Step)
    requires Inv(s) && step.Request?
    ensures Inv(Next(s, step))
  {
    var p := step.p;
    if p !in s.procs && !Refused(step.expected, step.exclusive, step.root) {
      if s.lock.Some? {
        EnterKeeps(s, p, Polling(step.expected, step.exclusive, s.lock.value));
      } else if step.expected.Legacy? && !step.exclusive {
        forall q | q in s.procs && s.procs[q].Body? ensures !s.procs[q].rewrote {
          assert Sound(s, s.procs[q]);
        }
        EnterKeeps(s, p, Checking(step.expected, step.exclusive, None));
      }
    }
  }

  lemma PollKeeps(s: System, p: nat)
    requires Inv(s)
    ensures Inv(Next(s, Poll(p)))
  {
    if p in s.procs && s.procs[p].Polling? && Grantable(s, p) {
      assert Sound(s, s.procs[p]);
      EnterKeeps(s, p, Locked(s.procs[p].expected, s.procs[p].exclusive, s.procs[p].inode));
    }
  }

  lemma PinKeeps(s: System, p: nat)
    requires Inv(s)
    ensures Inv(Next(s, Pin(p)))
  {
    DropKeeps(s, p);
    if p in s.procs && s.procs[p].Locked? && s.lock == Some(s.procs[p].inode) {
      var phase := Checking(s.procs[p].expected, s.procs[p].exclusive, Some(s.procs[p].inode));
      forall q | q in s.procs && q != p ensures Compatible(phase, s.procs[q]) {
        assert Compatible(s.procs[p], s.procs[q]);
      }
      EnterKeeps(s, p, phase);
    }
  }

  lemma CheckKeeps(s: System, p: nat)
    requires Inv(s)
    ensures Inv(Next(s, Check(p)))
  {
    DropKeeps(s, p);
    if p in s.procs && s.procs[p].Checking? && s.marker == s.procs[p].expected {
      var phase := Body(s.procs[p].expected, s.procs[p].exclusive, s.procs[p].lease, false);
      assert Sound(s, s.procs[p]);
      forall q | q in s.procs && q != p ensures Compatible(phase, s.procs[q]) {
        assert Compatible(s.procs[p], s.procs[q]);
      }
      EnterKeeps(s, p, phase);
    }
  }

  lemma InvKept(s: System, step: Step)
    requires Inv(s) && Disciplined(s, step)
    ensures Inv(Next(s, step))
  {
    hide Inv;
    match step
    case Request(_, _, _, _) => RequestKeeps(s, step);
    case Poll(p) => PollKeeps(s, p);
    case Pin(p) => PinKeeps(s, p);
    case Check(p) => CheckKeeps(s, p);
    case Rewrite(p, mode) => RewriteKeeps(s, p, mode);
    case Leave(p) => DropKeeps(s, p);
    case Install(inode) => InstallKeeps(s, inode);
    case Replace(inode) => ReplaceKeeps(s, inode);
  }

  lemma DropKeeps(s: System, p: nat)
    requires Inv(s)
    ensures Inv(Drop(s, p))
  {
    var s' := Drop(s, p);
    forall q | q in s'.procs ensures Sound(s', s'.procs[q]) {
      assert Sound(s, s.procs[q]);
    }
  }

  lemma InstallKeeps(s: System, inode: nat)
    requires Inv(s)
    ensures Inv(Next(s, Install(inode)))
  {
    if s.lock.None? {
      var s' := s.(lock := Some(inode));
      forall q | q in s'.procs ensures Sound(s', s'.procs[q]) {
        assert Sound(s, s.procs[q]);
      }
    }
  }

  lemma ReplaceKeeps(s: System, inode: nat)
    requires Inv(s) && Unpinned(s)
    ensures Inv(Next(s, Replace(inode)))
  {
    if s.lock.Some? {
      var s' := s.(lock := Some(inode));
      forall q | q in s'.procs ensures Sound(s', s'.procs[q]) {
        assert Sound(s, s.procs[q]) && !Pinned(s.procs[q]);
      }
    }
  }

  lemma InvSeparates(s: System)
    requires Inv(s)
    ensures BodiesSelected(s) && RewriterAlone(s) && ProducersApart(s) && UnleasedAreLegacy(s)
  {
    forall p | p in s.procs ensures Sound(s, s.procs[p]) {
    }
    forall p, q | p in s.procs && q in s.procs && p != q && s.procs[p].Body? && s.procs[p].rewrote
      ensures !s.procs[q].Body?
    {
      assert Sound(s, s.procs[p]) && Sound(s, s.procs[q]) && !Unleased(s.procs[q]);
      assert Compatible(s.procs[p], s.procs[q]);
    }
  }

  predicate Quiet(s: System) {
    s.procs == map[]
  }

  lemma {:induction false} RunKeepsInv(s: System, steps: seq<Step>)
    requires Inv(s) && DisciplinedRun(s, steps)
    ensures Inv(Exec(s, steps))
    decreases |steps|
  {
    hide Inv, Next;
    if steps != [] {
      InvKept(s, steps[0]);
      RunKeepsInv(Next(s, steps[0]), steps[1..]);
    }
  }

  /** Whatever the number of processes and however their steps interleave, every body
      agrees with the marker and the two producers are never in their bodies together. */
  lemma ProducersNeverOverlap(s: System, steps: seq<Step>)
    requires Quiet(s) && DisciplinedRun(s, steps)
    ensures
      var now := Exec(s, steps);
      BodiesSelected(now) && RewriterAlone(now) && ProducersApart(now) && UnleasedAreLegacy(now)
  {
    assert Inv(s);
    RunKeepsInv(s, steps);
    InvSeparates(Exec(s, steps));
  }

  /** Draining is exactly what a transition needs: in a reachable state, rewriting the
      marker away from legacy leaves every other body selected iff no unleased body runs. */
  lemma TransitionNeedsDraining(s: System, p: nat, mode: Mode)
    requires Inv(s) && p in s.procs && s.procs[p].Body? && s.procs[p].exclusive
    requires s.marker.Legacy? && !mode.Legacy?
    ensures BodiesSelected(Next(s, Rewrite(p, mode)))
       <==> forall q :: q in s.procs && s.procs[q].Body? ==> s.procs[q].lease.Some?
  {
    var s' := Next(s, Rewrite(p, mode));
    assert Sound(s, s.procs[p]);
    forall q | q in s.procs && s.procs[q].Body? && q != p
      ensures s'.procs[q] == s.procs[q] && s.procs[q].lease.None?
           && (s.procs[q].expected.Legacy? && !s.procs[q].exclusive)
    {
      assert Sound(s, s.procs[q]) && Compatible(s.procs[p], s.procs[q]);
      assert !s.procs[q].rewrote;
    }
  }

  lemma ExecFour(s: System, a: Step, b: Step, c: Step, d: Step, rest: seq<Step>)
    ensures Exec(s, [a, b, c, d] + rest) == Exec(Next(Next(Next(Next(s, a), b), c), d), rest)
  {
    hide Next;
    assert [a, b, c, d] + rest == [a] + ([b] + ([c] + ([d] + rest)));
    ExecCons(s, a, [b] + ([c] + ([d] + rest)));
    ExecCons(Next(s, a), b, [c] + ([d] + rest));
    ExecCons(Next(Next(s, a), b), c, [d] + rest);
    ExecCons(Next(Next(Next(s, a), b), c), d, rest);
  }

  lemma ExecCons(s: System, a: Step, rest: seq<Step>)
    ensures Exec(s, [a] + rest) == Exec(Next(s, a), rest)
  {
    assert ([a] + rest)[1..] == rest;
  }

  lemma ExecOne(s: System, a: Step)
    ensures Exec(s, [a]) == Next(s, a)
  {
    assert [a][1..] == [];
  }

  // A process that takes the four steps of an uncontended lease.
  function Lease(p: nat, expected: Mode, exclusive: bool, root: bool): seq<Step> {
    [Request(p, expected, exclusive, root), Poll(p), Pin(p), Check(p)]
  }

  lemma PollAlone(s: System, p: nat, expected: Mode, exclusive: bool, inode: nat)
    requires p !in s.procs
    requires forall q :: q in s.procs && Holds(s.procs[q], inode) ==> !exclusive && !s.procs[q].exclusive
    ensures Next(Enter(s, p, Polling(expected, exclusive, inode)), Poll(p))
         == Enter(s, p, Locked(expected, exclusive, inode))
  {
    hide Holds;
    var polling := Enter(s, p, Polling(expected, exclusive, inode));
    assert Grantable(polling, p);
  }

  lemma LeaseEnters(s: System, p: nat, expected: Mode, exclusive: bool, root: bool, rest: seq<Step>)
    requires p !in s.procs && s.lock.Some? && s.marker == expected
    requires (expected.Invalid? ==> exclusive) && (exclusive ==> root)
    requires forall q :: q in s.procs && Holds(s.procs[q], s.lock.value) ==> !exclusive && !s.procs[q].exclusive
    ensures Exec(s, Lease(p, expected, exclusive, root) + rest)
         == Exec(Enter(s, p, Body(expected, exclusive, s.lock, false)), rest)
  {
    hide Exec, Holds, Grantable;
    ExecFour(s, Request(p, expected, exclusive, root), Poll(p), Pin(p), Check(p), rest);
    PollAlone(s, p, expected, exclusive, s.lock.value);
    var locked := Enter(s, p, Locked(expected, exclusive, s.lock.value));
    var checking := Enter(s, p, Checking(expected, exclusive, s.lock));
    assert Next(locked, Pin(p)) == checking;
    assert Next(checking, Check(p)) == Enter(s, p, Body(expected, exclusive, s.lock, false));
  }

  // ------------------------------------------------------- replacing the lock file

  lemma {:induction false} ExecAppend(s: System, a: seq<Step>, b: seq<Step>)
    ensures Exec(s, a + b) == Exec(Exec(s, a), b)
    decreases |a|
  {
    hide Next;
    if a == [] {
      assert a + b == b;
    } else {
      assert (a + b)[1..] == a[1..] + b;
      ExecAppend(Next(s, a[0]), a[1..], b);
    }
  }

  lemma {:induction false} DisciplinedAppend(s: System, a: seq<Step>, b: seq<Step>)
    requires DisciplinedRun(s, a) && DisciplinedRun(Exec(s, a), b)
    ensures DisciplinedRun(s, a + b)
    decreases |a|
  {
    hide Next, Disciplined;
    if a == [] {
      assert a + b == b;
    } else {
      assert (a + b)[1..] == a[1..] + b;
      DisciplinedAppend(Next(s, a[0]), a[1..], b);
    }
  }

  // A disciplined run from one state to another.
  predicate Leads(s: System, steps: seq<Step>, t: System) {
    DisciplinedRun(s, steps) && Exec(s, steps) == t
  }

  lemma LeadsOn(s: System, a: seq<Step>, t: System, b: seq<Step>, u: System)
    requires Leads(s, a, t) && Leads(t, b, u)
    ensures Leads(s, a + b, u)
  {
    hide Exec, DisciplinedRun;
    ExecAppend(s, a, b);
    DisciplinedAppend(s, a, b);
  }

  lemma OneStep(s: System, step: Step)
    requires Disciplined(s, step)
    ensures Leads(s, [step], Next(s, step))
  {
    hide Next, Disciplined;
    assert [step][1..] == [];
    assert Exec(Next(s, step), []) == Next(s, step) && DisciplinedRun(Next(s, step), []);
  }

  lemma LeaseLeads(s: System, p: nat, expected: Mode, exclusive: bool)
    requires p !in s.procs && s.lock.Some? && s.marker == expected && (expected.Invalid? ==> exclusive)
    requires forall q :: q in s.procs && Holds(s.procs[q], s.lock.value) ==> !exclusive && !s.procs[q].exclusive
    ensures Leads(s, Lease(p, expected, exclusive, exclusive), Enter(s, p, Body(expected, exclusive, s.lock, false)))
  {
    hide Next, Holds;
    var steps := Lease(p, expected, exclusive, exclusive);
    assert steps + [] == steps;
    LeaseEnters(s, p, expected, exclusive, exclusive, []);
    CalmRun(s, steps);
  }

  // Steps that no discipline restrains.
  lemma {:induction false} CalmRun(s: System, steps: seq<Step>)
    requires forall i :: 0 <= i < |steps| ==> !steps[i].Replace? && !steps[i].Rewrite?
    ensures DisciplinedRun(s, steps)
    decreases |steps|
  {
    hide Next;
    if steps != [] {
      CalmRun(Next(s, steps[0]), steps[1..]);
    }
  }

  // One call alone, whatever lock it has pinned.
  function Only(marker: Mode, lock: nat, q: nat, phase: Phase): System {
    System(marker, Some(lock), map[q := phase])
  }

  // All others leave.
  lemma {:induction false} LeftAlone(s: System, q: nat) returns (steps: seq<Step>)
    requires q in s.procs && s.lock.Some?
    ensures Leads(s, steps, Only(s.marker, s.lock.value, q, s.procs[q]))
    decreases |s.procs|
  {
    hide Leads;
    if p :| p in s.procs && p != q {
      var t := Drop(s, p);
      Fewer(s.procs, p);
      var rest := LeftAlone(t, q);
      OneStep(s, Leave(p));
      LeadsOn(s, [Leave(p)], t, rest, Only(s.marker, s.lock.value, q, s.procs[q]));
      steps := [Leave(p)] + rest;
    } else {
      steps := [];
      assert s.procs == map[q := s.procs[q]];
      NoSteps(s);
    }
  }

  lemma Fewer(procs: map<nat, Phase>, p: nat)
    requires p in procs
    ensures |procs - {p}| < |procs|
  {
    assert procs.Keys == (procs - {p}).Keys + {p};
  }

  lemma NoSteps(s: System)
    ensures Leads(s, [], s)
  {
  }

  // A transition under the new lock, beside a call that pinned the old one.
  lemma Transition(marker: Mode, lock: nat, q: nat, phase: Phase, mode: Mode) returns (steps: seq<Step>)
    requires Pinned(phase) && phase.lease != Some(lock)
    ensures Leads(Only(marker, lock, q, phase), steps, Only(mode, lock, q, phase))
  {
    hide Leads;
    var s, p := Only(marker, lock, q, phase), q + 1;
    var body := Body(marker, true, Some(lock), false);
    LeaseLeads(s, p, marker, true);
    var t := Enter(s, p, body);
    OneStep(t, Rewrite(p, mode));
    var u := Enter(t, p, body.(rewrote := true)).(marker := mode);
    OneStep(u, Leave(p));
    assert Drop(u, p) == Only(mode, lock, q, phase);
    LeadsOn(s, Lease(p, marker, true, true), t, [Rewrite(p, mode)], u);
    LeadsOn(s, Lease(p, marker, true, true) + [Rewrite(p, mode)], u, [Leave(p)], Only(mode, lock, q, phase));
    steps := Lease(p, marker, true, true) + [Rewrite(p, mode)] + [Leave(p)];
  }

  // A body of one producer under the old lock, and one of the other under the new.
  lemma SharedOverlaps(lock: nat, q: nat, phase: Phase) returns (steps: seq<Step>)
    requires phase.Body? && Pinned(phase) && phase.lease != Some(lock)
    requires !phase.expected.Invalid?
    ensures DisciplinedRun(Only(phase.expected, lock, q, phase), steps)
    ensures !ProducersApart(Exec(Only(phase.expected, lock, q, phase), steps))
  {
    hide DisciplinedRun, Exec;
    var other := if phase.expected.Legacy? then Paymentd else Legacy;
    var s, t, p := Only(phase.expected, lock, q, phase), Only(other, lock, q, phase), q + 1;
    var first := Transition(phase.expected, lock, q, phase, other);
    LeaseLeads(t, p, other, false);
    var u := Enter(t, p, Body(other, false, Some(lock), false));
    LeadsOn(s, first, t, Lease(p, other, false, false), u);
    steps := first + Lease(p, other, false, false);
    assert u.procs[q].Body? && u.procs[p].Body?;
  }

  // A transition that pinned the old lock rewrites the marker under both producers.
  lemma TransitionOverlaps(marker: Mode, lock: nat, q: nat, phase: Phase) returns (steps: seq<Step>)
    requires phase.Body? && phase.exclusive && Pinned(phase) && phase.lease != Some(lock)
    ensures DisciplinedRun(Only(marker, lock, q, phase), steps)
    ensures !ProducersApart(Exec(Only(marker, lock, q, phase), steps))
  {
    hide DisciplinedRun, Exec;
    var done, a, b := phase.(rewrote := true), q + 1, q + 2;
    var s, t := Only(marker, lock, q, phase), Only(Legacy, lock, q, done);
    OneStep(s, Rewrite(q, Legacy));
    assert Next(s, Rewrite(q, Legacy)) == t;
    LeaseLeads(t, a, Legacy, false);
    var u := Enter(t, a, Body(Legacy, false, Some(lock), false));
    OneStep(u, Rewrite(q, Paymentd));
    var v := u.(marker := Paymentd);
    assert Next(u, Rewrite(q, Paymentd)) == v;
    LeaseLeads(v, b, Paymentd, false);
    var w := Enter(v, b, Body(Paymentd, false, Some(lock), false));
    LeadsOn(s, [Rewrite(q, Legacy)], t, Lease(a, Legacy, false, false), u);
    LeadsOn(s, [Rewrite(q, Legacy)] + Lease(a, Legacy, false, false), u, [Rewrite(q, Paymentd)], v);
    steps := [Rewrite(q, Legacy)] + Lease(a, Legacy, false, false) + [Rewrite(q, Paymentd)];
    LeadsOn(s, steps, v, Lease(b, Paymentd, false, false), w);
    steps := steps + Lease(b, Paymentd, false, false);
    assert w.procs[a].Body? && w.procs[b].Body?;
  }

  // A disciplined run ends in an overlap.
  predicate Overlaps(s: System, steps: seq<Step>) {
    DisciplinedRun(s, steps) && !ProducersApart(Exec(s, steps))
  }

  lemma OverlapsAfter(s: System, a: seq<Step>, t: System, b: seq<Step>)
    requires Leads(s, a, t) && Overlaps(t, b)
    ensures Overlaps(s, a + b)
  {
    hide ProducersApart;
    LeadsOn(s, a, t, b, Exec(t, b));
  }

  lemma BodyOverlaps(marker: Mode, lock: nat, q: nat, phase: Phase) returns (steps: seq<Step>)
    requires phase.Body? && Pinned(phase) && phase.lease != Some(lock)
    requires phase.exclusive || (phase.expected == marker && !marker.Invalid?)
    ensures Overlaps(Only(marker, lock, q, phase), steps)
  {
    hide DisciplinedRun, Exec, ProducersApart;
    if phase.exclusive {
      steps := TransitionOverlaps(marker, lock, q, phase);
    } else {
      steps := SharedOverlaps(lock, q, phase);
    }
  }

  lemma PinnedOverlaps(marker: Mode, lock: nat, q: nat, phase: Phase) returns (steps: seq<Step>)
    requires Pinned(phase) && phase.lease != Some(lock) && (phase.expected.Invalid? ==> phase.exclusive)
    requires phase.Body? && !phase.exclusive ==> phase.expected == marker
    ensures Overlaps(Only(marker, lock, q, phase), steps)
  {
    hide Overlaps, Leads;
    if phase.Body? {
      steps := BodyOverlaps(marker, lock, q, phase);
    } else {
      var s, t := Only(marker, lock, q, phase), Only(phase.expected, lock, q, phase);
      var body := Body(phase.expected, phase.exclusive, phase.lease, false);
      var first := Transition(marker, lock, q, phase, phase.expected);
      OneStep(t, Check(q));
      assert Next(t, Check(q)) == Only(phase.expected, lock, q, body);
      LeadsOn(s, first, t, [Check(q)], Only(phase.expected, lock, q, body));
      var rest := BodyOverlaps(phase.expected, lock, q, body);
      OverlapsAfter(s, first + [Check(q)], Only(phase.expected, lock, q, body), rest);
      steps := first + [Check(q)] + rest;
    }
  }

  // However a disciplined run goes on, the producers never overlap.
  ghost predicate StaysApart(s: System) {
    forall steps :: !Overlaps(s, steps)
  }

  /** When the lock file may be replaced: in a reachable state, putting another one in
      its place keeps the producers apart in every disciplined run from there if and
      only if no call has pinned the old one. */
  lemma ReplacementNeedsUnpinned(s: System, inode: nat)
    requires Inv(s) && s.lock.Some? && inode != s.lock.value
    ensures StaysApart(Next(s, Replace(inode))) <==> Unpinned(s)
  {
    hide Inv, Overlaps, Sound, Leads;
    var t := Next(s, Replace(inode));
    if Unpinned(s) {
      ReplaceKeeps(s, inode);
      forall steps ensures !Overlaps(t, steps) {
        InvStaysApart(t, steps);
      }
    } else {
      var q :| q in s.procs && Pinned(s.procs[q]);
      var phase := s.procs[q];
      PinnedIsSound(s, q);
      var first := LeftAlone(t, q);
      var rest := PinnedOverlaps(s.marker, inode, q, phase);
      OverlapsAfter(t, first, Only(s.marker, inode, q, phase), rest);
    }
  }

  /** One such run, from a host where nothing runs: a legacy call pins the lock file,
      and after its replacement a paymentd call joins it. */
  lemma ReplacedLockOverlaps() returns (steps: seq<Step>)
    ensures
      var s := Exec(System(Legacy, Some(1), map[]), Lease(1, Legacy, false, false));
      Inv(s) && Overlaps(Next(s, Replace(2)), steps)
  {
    hide Overlaps, DisciplinedRun, Exec;
    var phase := Body(Legacy, false, Some(1), false);
    LeaseLeads(System(Legacy, Some(1), map[]), 1, Legacy, false);
    assert Exec(System(Legacy, Some(1), map[]), Lease(1, Legacy, false, false)) == Only(Legacy, 1, 1, phase);
    assert Next(Only(Legacy, 1, 1, phase), Replace(2)) == Only(Legacy, 2, 1, phase);
    steps := PinnedOverlaps(Legacy, 2, 1, phase);
  }

  lemma PinnedIsSound(s: System, q: nat)
    requires Inv(s) && q in s.procs && Pinned(s.procs[q])
    ensures var phase := s.procs[q];
      && phase.lease == s.lock && (phase.expected.Invalid? ==> phase.exclusive)
      && (phase.Body? && !phase.exclusive ==> phase.expected == s.marker)
  {
    assert Sound(s, s.procs[q]);
  }

  lemma InvStaysApart(s: System, steps: seq<Step>)
    requires Inv(s)
    ensures !Overlaps(s, steps)
  {
    hide Inv;
    if DisciplinedRun(s, steps) {
      RunKeepsInv(s, steps);
      InvSeparates(Exec(s, steps));
    }
  }

  // ------------------------------------------------------- one call of the lease

  // Steps taken by anybody but `p`.
  predicate Foreign(steps: seq<Step>, p: nat) {
    forall i :: 0 <= i < |steps| ==> (steps[i].Install? || steps[i].Replace? || steps[i].p != p)
  }

  lemma {:induction false} ForeignKeeps(s: System, steps: seq<Step>, p: nat)
    requires Foreign(steps, p) && p in s.procs
    ensures p in Exec(s, steps).procs && Exec(s, steps).procs[p] == s.procs[p]
    decreases |steps|
  {
    if steps != [] {
      ForeignKeeps(Next(s, steps[0]), steps[1..], p);
    }
  }

  lemma {:induction false} LockStays(s: System, steps: seq<Step>)
    requires s.lock.Some? && forall i :: 0 <= i < |steps| ==> !steps[i].Replace?
    ensures Exec(s, steps).lock == s.lock
    decreases |steps|
  {
    if steps != [] {
      LockStays(Next(s, steps[0]), steps[1..]);
    }
  }

  // What others do between the polls of a waiting call, one burst after the other.
  function Flat(bursts: seq<seq<Step>>): seq<Step> {
    if bursts == [] then [] else Flat(bursts[..|bursts| - 1]) + bursts[|bursts| - 1]
  }

  predicate Grants(s: System, p: nat) {
    p in s.procs && s.procs[p].Polling? && Grantable(s, p)
  }

  // The state at the poll after burst `k`, when no earlier poll was granted.
  function AtPoll(s: System, bursts: seq<seq<Step>>, k: nat): System
    requires k < |bursts|
  {
    Exec(s, Flat(bursts[..k + 1]))
  }

  ghost predicate FirstGrant(s: System, p: nat, bursts: seq<seq<Step>>, k: int) {
    && 0 <= k < |bursts| && Grants(AtPoll(s, bursts, k), p)
    && forall j :: 0 <= j < k ==> !Grants(AtPoll(s, bursts, j), p)
  }

  // The state in which a call granted after burst `k` pins the lock file.
  function AtPin(s: System, p: nat, bursts: seq<seq<Step>>, k: nat, pinning: seq<Step>): System
    requires k < |bursts|
  {
    Exec(Next(AtPoll(s, bursts, k), Poll(p)), pinning)
  }

  ghost predicate EntersAt(s: System, p: nat, expected: Mode, bursts: seq<seq<Step>>, k: int,
                           pinning: seq<Step>, checking: seq<Step>)
  {
    && FirstGrant(s, p, bursts, k)
    && AtPin(s, p, bursts, k, pinning).lock == s.lock
    && Exec(Next(AtPin(s, p, bursts, k, pinning), Pin(p)), checking).marker == expected
  }

  /** A call enters its body exactly when it is not refused, its lock is granted at
      some poll, the lock file it polled is still installed when it pins it, and the
      marker reads as expected when it is checked. Without a lock file only a shared
      legacy call goes on, to the check alone. */
  ghost predicate Enters(s: System, p: nat, expected: Mode, exclusive: bool, root: bool, bursts: seq<seq<Step>>,
                         pinning: seq<Step>, checking: seq<Step>)
  {
    var waiting := Next(s, Request(p, expected, exclusive, root));
    && (if exclusive then root else !expected.Invalid?)
    && if s.lock.None? then expected.Legacy? && !exclusive && Exec(waiting, checking).marker == expected
       else exists k :: EntersAt(waiting, p, expected, bursts, k, pinning, checking)
  }

  lemma NextPoll(s: System, bursts: seq<seq<Step>>, k: nat)
    requires k < |bursts|
    ensures Exec(Exec(s, Flat(bursts[..k])), bursts[k]) == AtPoll(s, bursts, k)
  {
    assert bursts[..k + 1][..k] == bursts[..k];
    ExecAppend(s, Flat(bursts[..k]), bursts[k]);
  }

  // A poll that is not granted changes nothing, and before the first burst nothing has.
  lemma PollIs(s: System, p: nat)
    requires p in s.procs && s.procs[p].Polling?
    ensures if Grants(s, p)
            then p in Next(s, Poll(p)).procs && Next(s, Poll(p)).procs[p]
              == Locked(s.procs[p].expected, s.procs[p].exclusive, s.procs[p].inode)
            else Next(s, Poll(p)) == s
    ensures Exec(s, Flat([])) == s
  {
  }

  lemma OneFirstGrant(s: System, p: nat, bursts: seq<seq<Step>>, i: int, k: int)
    requires FirstGrant(s, p, bursts, i) && FirstGrant(s, p, bursts, k)
    ensures i == k
  {
    hide AtPoll, Grants;
  }

  lemma GrantIsFirst(s: System, p: nat, expected: Mode, bursts: seq<seq<Step>>, k: nat,
                     pinning: seq<Step>, checking: seq<Step>)
    requires FirstGrant(s, p, bursts, k)
    ensures (exists i :: EntersAt(s, p, expected, bursts, i, pinning, checking))
       <==> EntersAt(s, p, expected, bursts, k, pinning, checking)
  {
    hide AtPoll, AtPin, Exec, Grants, Next;
    if i :| EntersAt(s, p, expected, bursts, i, pinning, checking) {
      OneFirstGrant(s, p, bursts, i, k);
    }
  }

  lemma NoGrantNoEntry(s: System, p: nat, expected: Mode, bursts: seq<seq<Step>>,
                       pinning: seq<Step>, checking: seq<Step>)
    requires forall j :: 0 <= j < |bursts| ==> !Grants(AtPoll(s, bursts, j), p)
    ensures !exists i :: EntersAt(s, p, expected, bursts, i, pinning, checking)
  {
    hide AtPoll, AtPin, Exec, Grants, Next;
  }

  /** The kernel and file state every call of the lease works on. */
  class LeaseHost {
    var system: System

    constructor (initial: System)
      ensures system == initial
    {
      system := initial;
    }

    method Take(step: Step)
      modifies this
      ensures system == Next(old(system), step)
    {
      system := Next(system, step);
    }

    method Interfere(steps: seq<Step>)
      modifies this
      ensures system == Exec(old(system), steps)
    {
      var i := 0;
      while i < |steps|
        invariant 0 <= i <= |steps|
        invariant Exec(system, steps[i..]) == Exec(old(system), steps)
      {
        Take(steps[i]);
        assert steps[i..][1..] == steps[i + 1..];
        i := i + 1;
      }
    }

    // Some steps of others, then one of this call.
    method StepAfter(burst: seq<Step>, step: Step, ghost start: System, taken: seq<Step>) returns (path: seq<Step>)
      requires system == Exec(start, taken)
      modifies this
      ensures system == Next(Exec(old(system), burst), step)
      ensures path == taken + (burst + [step]) && system == Exec(start, path)
    {
      ExecAppend(start, taken, burst + [step]);
      ExecAppend(system, burst, [step]);
      Interfere(burst);
      Take(step);
      path := taken + (burst + [step]);
    }

    // Polls once after each burst of foreign steps, until granted or out of time.
    method Wait(p: nat, bursts: seq<seq<Step>>, ghost start: System, taken: seq<Step>)
      returns (granted: bool, path: seq<Step>, ghost k: int)
      requires p in system.procs && system.procs[p].Polling? && system == Exec(start, taken)
      requires forall k :: 0 <= k < |bursts| ==> Foreign(bursts[k], p)
      modifies this
      ensures system == Exec(start, path) && p in system.procs
      ensures granted ==>
        && 0 <= k < |bursts| && FirstGrant(old(system), p, bursts, k)
        && system == Next(AtPoll(old(system), bursts, k), Poll(p))
        && system.procs[p] == Locked(old(system).procs[p].expected, old(system).procs[p].exclusive,
                                     old(system).procs[p].inode)
      ensures !granted ==>
        && (forall j :: 0 <= j < |bursts| ==> !Grants(AtPoll(old(system), bursts, j), p))
        && system.procs[p] == old(system).procs[p]
    {
      hide Exec, Grants, Next;
      path := taken;
      var polls := 0;
      PollIs(system, p);
      assert bursts[..0] == [];
      while polls < |bursts|
        invariant 0 <= polls <= |bursts|
        invariant p in system.procs && system.procs[p] == old(system).procs[p]
        invariant system == Exec(start, path) && system == Exec(old(system), Flat(bursts[..polls]))
        invariant forall j :: 0 <= j < polls ==> !Grants(AtPoll(old(system), bursts, j), p)
      {
        ForeignKeeps(system, bursts[polls], p);
        NextPoll(old(system), bursts, polls);
        PollIs(Exec(system, bursts[polls]), p);
        path := StepAfter(bursts[polls], Poll(p), start, path);
        polls := polls + 1;
        if !system.procs[p].Polling? {
          return true, path, polls - 1;
        }
      }
      return false, path, -1;
    }

    // Enters the body if the marker still reads as expected.
    method CheckMarker(p: nat, checking: seq<Step>, ghost start: System, taken: seq<Step>)
      returns (entered: bool, path: seq<Step>)
      requires p in system.procs && system.procs[p].Checking? && Foreign(checking, p)
      requires system == Exec(start, taken)
      modifies this
      ensures system == Exec(start, path) && entered == (p in system.procs)
      ensures entered <==> Exec(old(system), checking).marker == old(system).procs[p].expected
      ensures entered ==>
        && system.marker == old(system).procs[p].expected
        && system.procs[p] == Body(old(system).procs[p].expected, old(system).procs[p].exclusive,
                                   old(system).procs[p].lease, false)
        && (old(system).lock.Some? && (forall i :: 0 <= i < |checking| ==> !checking[i].Replace?) ==>
              system.lock == old(system).lock)
    {
      ForeignKeeps(system, checking, p);
      if system.lock.Some? && forall i :: 0 <= i < |checking| ==> !checking[i].Replace? {
        LockStays(system, checking);
      }
      path := StepAfter(checking, Check(p), start, taken);
      entered := p in system.procs;
    }

    /** Acquires the lease, polling once after each burst of foreign steps until the
        deadline, which comes after the last burst; others also act before the pin and
        before the marker is checked. Every call is a path of the protocol. */
    method Acquire(p: nat, expected: Mode, exclusive: bool, root: bool, bursts: seq<seq<Step>>,
                   pinning: seq<Step>, checking: seq<Step>)
      returns (entered: bool, taken: seq<Step>)
      requires p !in system.procs
      requires Foreign(pinning, p) && Foreign(checking, p)
      requires forall k :: 0 <= k < |bursts| ==> Foreign(bursts[k], p)
      modifies this
      ensures system == Exec(old(system), taken)
      ensures entered == (p in system.procs)
      ensures entered <==> Enters(old(system), p, expected, exclusive, root, bursts, pinning, checking)
      ensures exclusive && !root ==> !entered && system == old(system)
      ensures !exclusive && expected.Invalid? ==> !entered && system == old(system)
      ensures entered ==>
        && system.procs[p].Body? && !system.procs[p].rewrote
        && system.procs[p].expected == expected == system.marker
        && system.procs[p].exclusive == exclusive
        && (system.procs[p].lease.Some? && (forall i :: 0 <= i < |checking| ==> !checking[i].Replace?) ==>
              system.lock == system.procs[p].lease)
    {
      hide Exec, Grants, AtPoll, FirstGrant;
      taken := [Request(p, expected, exclusive, root)];
      ExecOne(system, taken[0]);
      Take(taken[0]);
      ghost var waiting := system;
      if p !in system.procs {
        return false, taken;
      }
      if system.procs[p].Polling? {
        ghost var k;
        var granted;
        granted, taken, k := Wait(p, bursts, old(system), taken);
        if !granted {
          NoGrantNoEntry(waiting, p, expected, bursts, pinning, checking);
          taken := StepAfter([], Leave(p), old(system), taken);
          return false, taken;
        }
        GrantIsFirst(waiting, p, expected, bursts, k, pinning, checking);
        ForeignKeeps(system, pinning, p);
        taken := StepAfter(pinning, Pin(p), old(system), taken);
        if p !in system.procs {
          return false, taken;
        }
      }
      entered, taken := CheckMarker(p, checking, old(system), taken);
    }
  }
}
