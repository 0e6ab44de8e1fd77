/** The readiness barrier (grcache-shared/src/health.rs), one step per atomic operation. The
    interleaving semantics idealises `Ordering::Relaxed`. */
module Health {

  /** Where an endpoint stands. Only the caller that swaps the flag from true moves it on, so the
      phase is also the program counter of that caller. */
  datatype Phase =
    | NonBlocking          // created with the flag down
    | Armed                // flag up
    | Swapped              // flag taken down, about to `fetch_sub`
    | Signalling           // saw a count of 1, about to send
    | Reported             // done

  predicate Unreported(p: Phase) { p == Armed || p == Swapped }

  /** `adding` counts the blocking `add` calls between their `fetch_add` and the creation of their
      endpoint; endpoint 0 is the root. */
  datatype State = State(readyBlocks: nat, ready: bool, endpoints: seq<Phase>, adding: nat)

  const INITIAL := State(1, false, [Armed], 0)

  datatype Action =
    | AddNonBlocking
    | FetchAdd
    | FinishAdd
    | Swap(endpoint: nat)
    | FetchSub(endpoint: nat)
    | Send(endpoint: nat)

  /** `ready()` may be called, and the endpoint dropped, any number of times by any caller: `Swap`
      is always possible. */
  predicate Enabled(s: State, a: Action) {
    match a
    case AddNonBlocking => true
    case FetchAdd => true
    case FinishAdd => s.adding > 0
    case Swap(e) => e < |s.endpoints|
    case FetchSub(e) => e < |s.endpoints| && s.endpoints[e] == Swapped
    case Send(e) => e < |s.endpoints| && s.endpoints[e] == Signalling
  }

  const U64_MAX: nat := 0xFFFF_FFFF_FFFF_FFFF

  /** `fetch_sub` wraps at zero. */
  function WrappingPred(n: nat): nat { if n == 0 then U64_MAX else n - 1 }

  /** No caller is in the middle of an operation. */
  ghost predicate Quiescent(s: State) {
    s.adding == 0 && forall e :: 0 <= e < |s.endpoints| ==> s.endpoints[e] != Swapped && s.endpoints[e] != Signalling
  }

  function SwapAt(s: State, e: nat): State
    requires e < |s.endpoints|
  {
    if s.endpoints[e] == Armed then s.(endpoints := s.endpoints[e := Swapped]) else s
  }

  function FetchSubAt(s: State, e: nat): State
    requires e < |s.endpoints|
  {
    s.(readyBlocks := WrappingPred(s.readyBlocks),
       endpoints := s.endpoints[e := if s.readyBlocks == 1 then Signalling else Reported])
  }

  function SendAt(s: State, e: nat): State
    requires e < |s.endpoints|
  {
    s.(ready := true, endpoints := s.endpoints[e := Reported])
  }

  function Step(s: State, a: Action): State
    requires Enabled(s, a)
  {
    match a
    case AddNonBlocking => s.(endpoints := s.endpoints + [NonBlocking])
    case FetchAdd => s.(readyBlocks := s.readyBlocks + 1, adding := s.adding + 1)
    case FinishAdd => s.(endpoints := s.endpoints + [Armed], adding := s.adding - 1)
    case Swap(e) => SwapAt(s, e)
    case FetchSub(e) => FetchSubAt(s, e)
    case Send(e) => SendAt(s, e)
  }

  predicate LegalRun(s: State, actions: seq<Action>)
    decreases |actions|
  {
    actions == [] || (Enabled(s, actions[0]) && LegalRun(Step(s, actions[0]), actions[1..]))
  }

  function Run(s: State, actions: seq<Action>): State
    requires LegalRun(s, actions)
    decreases |actions|
  {
    if actions == [] then s else Run(Step(s, actions[0]), actions[1..])
  }

  // ---- In place: one caller at a time ----

  class Tracker {
    var readyBlocks: nat
    var ready: bool
    var endpoints: seq<Phase>

    ghost function View(): State
      reads this
    {
      State(readyBlocks, ready, endpoints, 0)
    }

    /** Between calls nothing is in flight, so a zero count has been signalled. */
    ghost predicate Valid()
      reads this
    {
      Inv(View()) && Quiescent(View())
    }

    constructor ()
      ensures Valid() && View() == INITIAL
    {
      readyBlocks, ready, endpoints := 1, false, [Armed];
      new;
      InitialInv();
    }

    method Add(blocksReady: bool) returns (e: nat, late: bool)
      requires Valid()
      modifies this
      ensures Valid()
      ensures View() == if blocksReady then Step(Step(old(View()), FetchAdd), FinishAdd) else Step(old(View()), AddNonBlocking)
      ensures e == old(|endpoints|) && late == (blocksReady && old(readyBlocks) == 0)
    {
      e, late := |endpoints|, false;
      if blocksReady {
        StepKeepsInv(View(), FetchAdd);
        StepKeepsInv(Step(View(), FetchAdd), FinishAdd);
        late := readyBlocks == 0;
        readyBlocks := readyBlocks + 1;
        endpoints := endpoints + [Armed];
      } else {
        StepKeepsInv(View(), AddNonBlocking);
        endpoints := endpoints + [NonBlocking];
      }
    }

    /** `ready()` and `drop` without interference: the endpoint has reported afterwards, the count is
        lowered exactly if it was armed, and a count that reaches zero is signalled. */
    method Ready(e: nat)
      requires Valid() && e < |endpoints|
      modifies this
      ensures Valid() && |endpoints| == |old(endpoints)| && !Unreported(endpoints[e])
      ensures forall k :: 0 <= k < |endpoints| && k != e ==> endpoints[k] == old(endpoints)[k]
      ensures readyBlocks == old(readyBlocks) - (if old(endpoints)[e] == Armed then 1 else 0)
      ensures readyBlocks == 0 ==> ready
    {
      if endpoints[e] == Armed {
        ghost var s1 := Step(View(), Swap(e));
        ghost var s2 := Step(s1, FetchSub(e));
        StepKeepsInv(View(), Swap(e));
        StepKeepsInv(s1, FetchSub(e));
        endpoints := endpoints[e := Swapped];
        var before := readyBlocks;
        readyBlocks := WrappingPred(readyBlocks);
        endpoints := endpoints[e := if before == 1 then Signalling else Reported];
        assert View() == s2;
        if before == 1 {
          StepKeepsInv(s2, Send(e));
          ready := true;
          endpoints := endpoints[e := Reported];
          assert View() == Step(s2, Send(e));
        }
      }
    }
  }

  // ---- Conservation ----

  ghost function Blocks(endpoints: seq<Phase>): nat {
    if endpoints == [] then 0
    else (if Unreported(endpoints[0]) then 1 else 0) + Blocks(endpoints[1..])
  }

  lemma {:induction false} BlocksAppend(endpoints: seq<Phase>, p: Phase)
    ensures Blocks(endpoints + [p]) == Blocks(endpoints) + if Unreported(p) then 1 else 0
  {
    if endpoints == [] {
      assert [] + [p] == [p] && [p][1..] == [];
    } else {
      assert (endpoints + [p])[1..] == endpoints[1..] + [p];
      BlocksAppend(endpoints[1..], p);
    }
  }

  lemma {:induction false} BlocksUpdate(endpoints: seq<Phase>, e: nat, p: Phase)
    requires e < |endpoints|
    ensures Blocks(endpoints[e := p]) ==
            Blocks(endpoints) + (if Unreported(p) then 1 else 0) - (if Unreported(endpoints[e]) then 1 else 0)
  {
    if e == 0 {
      assert endpoints[e := p][1..] == endpoints[1..];
    } else {
      assert endpoints[e := p][1..] == endpoints[1..][e - 1 := p];
      BlocksUpdate(endpoints[1..], e - 1, p);
    }
  }

  lemma {:induction false} BlocksZero(endpoints: seq<Phase>)
    ensures Blocks(endpoints) == 0 <==> forall e :: 0 <= e < |endpoints| ==> !Unreported(endpoints[e])
  {
    if endpoints != [] {
      BlocksZero(endpoints[1..]);
      assert forall e :: 0 < e < |endpoints| ==> endpoints[e] == endpoints[1..][e - 1];
      if forall e :: 0 <= e < |endpoints| ==> !Unreported(endpoints[e]) {
        forall e | 0 <= e < |endpoints[1..]| ensures !Unreported(endpoints[1..][e]) { assert endpoints[1..][e] == endpoints[e + 1]; }
      }
    }
  }

  ghost predicate SomeSignalling(s: State) { exists e :: 0 <= e < |s.endpoints| && s.endpoints[e] == Signalling }

  /** The counter is the number of endpoints armed or between swap and `fetch_sub`, plus the
      blocking adds in progress; and once it has reached zero the signal is out or on its way. */
  ghost predicate Inv(s: State) {
    && s.readyBlocks == Blocks(s.endpoints) + s.adding
    && s.endpoints != []
    && (s.readyBlocks == 0 ==> s.ready || SomeSignalling(s))
  }

  lemma StepKeepsInv(s: State, a: Action)
    requires Inv(s) && Enabled(s, a)
    ensures Inv(Step(s, a))
    ensures a.FetchSub? ==> s.readyBlocks > 0
  {
    var s' := Step(s, a);
    match a {
      case AddNonBlocking =>
        BlocksAppend(s.endpoints, NonBlocking);
        if SomeSignalling(s) { var e :| 0 <= e < |s.endpoints| && s.endpoints[e] == Signalling; assert s'.endpoints[e] == Signalling; }
      case FetchAdd =>
      case FinishAdd => BlocksAppend(s.endpoints, Armed);
      case Swap(e) => BlocksUpdate(s.endpoints, e, Swapped);
      case FetchSub(e) =>
        BlocksUpdate(s.endpoints, e, Reported);
        BlocksUpdate(s.endpoints, e, Signalling);
        if s.readyBlocks == 1 { assert s'.endpoints[e] == Signalling; }
      case Send(e) => BlocksUpdate(s.endpoints, e, Reported);
    }
    if Blocks(s.endpoints) == 0 { BlocksZero(s.endpoints); }
  }

  lemma {:induction false} RunKeepsInv(s: State, actions: seq<Action>)
    requires Inv(s) && LegalRun(s, actions)
    ensures Inv(Run(s, actions))
    decreases |actions|
  {
    if actions != [] {
      StepKeepsInv(s, actions[0]);
      RunKeepsInv(Step(s, actions[0]), actions[1..]);
    }
  }

  lemma InitialInv()
    ensures Inv(INITIAL)
  {
    assert INITIAL.endpoints[1..] == [];
  }

  /** Conservation over every interleaving; in particular a `fetch_sub` never wraps. */
  lemma CounterConserved(actions: seq<Action>)
    requires LegalRun(INITIAL, actions)
    ensures var s := Run(INITIAL, actions);
            && s.readyBlocks == Blocks(s.endpoints) + s.adding
            && (forall e :: Enabled(s, FetchSub(e)) ==> s.readyBlocks > 0)
  {
    InitialInv();
    RunKeepsInv(INITIAL, actions);
    var s := Run(INITIAL, actions);
    forall e | Enabled(s, FetchSub(e)) ensures s.readyBlocks > 0 { StepKeepsInv(s, FetchSub(e)); }
  }

  // ---- Each endpoint decrements at most once ----

  lemma {:induction false} NoDecrementWhenDone(s: State, actions: seq<Action>, e: nat, k: nat)
    requires LegalRun(s, actions) && e < |s.endpoints| && !Unreported(s.endpoints[e]) && k < |actions|
    ensures actions[k] != FetchSub(e)
    decreases |actions|
  {
    if k > 0 {
      assert actions[k] == actions[1..][k - 1];
      NoDecrementWhenDone(Step(s, actions[0]), actions[1..], e, k - 1);
    }
  }

  /** `ready` is idempotent: however often and by whomever it is called, an endpoint takes at most
      one `fetch_sub`. */
  lemma {:induction false} DecrementsOnce(s: State, actions: seq<Action>, e: nat, j: nat, k: nat)
    requires LegalRun(s, actions) && j < k < |actions| && actions[j] == FetchSub(e)
    ensures actions[k] != FetchSub(e)
    decreases |actions|
  {
    assert actions[k] == actions[1..][k - 1];
    if j == 0 {
      NoDecrementWhenDone(Step(s, actions[0]), actions[1..], e, k - 1);
    } else {
      assert actions[j] == actions[1..][j - 1];
      DecrementsOnce(Step(s, actions[0]), actions[1..], e, j - 1, k - 1);
    }
  }

  // ---- The barrier, and exactly when it holds ----

  /** Readiness has been signalled, or some caller is about to signal it. */
  ghost predicate Signalled(s: State) { s.ready || SomeSignalling(s) }

  /** Readiness goes out although a blocking endpoint has not reported or is being added. */
  ghost predicate Breached(s: State) { Signalled(s) && s.readyBlocks > 0 }

  /** The add that the code only warns about: it found the count already at zero. */
  ghost predicate Late(s: State, a: Action) { a.FetchAdd? && s.readyBlocks == 0 }

  lemma LateBreaches(s: State, a: Action)
    requires Inv(s) && Enabled(s, a) && Late(s, a)
    ensures Breached(Step(s, a))
  {
    if SomeSignalling(s) {
      var e :| 0 <= e < |s.endpoints| && s.endpoints[e] == Signalling;
      assert Step(s, a).endpoints[e] == Signalling;
    }
  }

  lemma OthersDoNotBreach(s: State, a: Action)
    requires Inv(s) && Enabled(s, a) && !Breached(s) && !Late(s, a)
    ensures !Breached(Step(s, a))
  {
    var s' := Step(s, a);
    StepKeepsInv(s, a);
    if SomeSignalling(s') && !(a.FetchSub? && s.readyBlocks == 1) {
      var e :| 0 <= e < |s'.endpoints| && s'.endpoints[e] == Signalling;
      assert e < |s.endpoints| && s.endpoints[e] == Signalling;
    }
    if a.Send? { assert s.endpoints[a.endpoint] == Signalling; }
  }

  ghost predicate NeverBreached(s: State, actions: seq<Action>)
    requires LegalRun(s, actions)
    decreases |actions|
  {
    !Breached(s) && (actions != [] ==> NeverBreached(Step(s, actions[0]), actions[1..]))
  }

  ghost predicate NeverLate(s: State, actions: seq<Action>)
    requires LegalRun(s, actions)
    decreases |actions|
  {
    actions != [] ==> !Late(s, actions[0]) && NeverLate(Step(s, actions[0]), actions[1..])
  }

  lemma {:induction false} BarrierFrom(s: State, actions: seq<Action>)
    requires Inv(s) && !Breached(s) && LegalRun(s, actions)
    ensures NeverBreached(s, actions) <==> NeverLate(s, actions)
    decreases |actions|
  {
    if actions != [] {
      StepKeepsInv(s, actions[0]);
      if Late(s, actions[0]) {
        LateBreaches(s, actions[0]);
      } else {
        OthersDoNotBreach(s, actions[0]);
        BarrierFrom(Step(s, actions[0]), actions[1..]);
      }
    }
  }

  /** Throughout a run no signal is out, or about to be sent, while a block is left, exactly when no
      blocking add finds the count at zero. */
  lemma EarlySignalIff(actions: seq<Action>)
    requires LegalRun(INITIAL, actions)
    ensures NeverBreached(INITIAL, actions) <==> NeverLate(INITIAL, actions)
    ensures NeverLate(INITIAL, actions) ==> AlwaysBarrier(INITIAL, actions)
  {
    InitialInv();
    BarrierFrom(INITIAL, actions);
    if NeverLate(INITIAL, actions) { UnbreachedIsBarrier(INITIAL, actions); }
  }

  // ---- The barrier itself ----

  /** Readiness means that every blocking endpoint has reported or been dropped and that no blocking
      add is in progress. */
  ghost predicate Barrier(s: State) {
    s.ready ==> s.adding == 0 && forall e :: 0 <= e < |s.endpoints| ==> !Unreported(s.endpoints[e])
  }

  lemma BarrierIsZero(s: State)
    requires Inv(s)
    ensures Barrier(s) <==> (s.ready ==> s.readyBlocks == 0)
  {
    BlocksZero(s.endpoints);
  }

  /** The two steps that break the barrier: a blocking add after readiness is out, and a signal sent
      although another block was added since its sender saw the last one go. */
  ghost predicate Breaks(s: State, a: Action) {
    (a.FetchAdd? && s.ready) || (a.Send? && s.readyBlocks > 0)
  }

  lemma StepBreaksIff(s: State, a: Action)
    requires Inv(s) && Enabled(s, a) && Barrier(s)
    ensures Barrier(Step(s, a)) <==> !Breaks(s, a)
  {
    StepKeepsInv(s, a);
    BarrierIsZero(s);
    BarrierIsZero(Step(s, a));
  }

  ghost predicate AlwaysBarrier(s: State, actions: seq<Action>)
    requires LegalRun(s, actions)
    decreases |actions|
  {
    Barrier(s) && (actions != [] ==> AlwaysBarrier(Step(s, actions[0]), actions[1..]))
  }

  ghost predicate NeverBreaks(s: State, actions: seq<Action>)
    requires LegalRun(s, actions)
    decreases |actions|
  {
    actions != [] ==> !Breaks(s, actions[0]) && NeverBreaks(Step(s, actions[0]), actions[1..])
  }

  lemma {:induction false} BarrierIffFrom(s: State, actions: seq<Action>)
    requires Inv(s) && Barrier(s) && LegalRun(s, actions)
    ensures AlwaysBarrier(s, actions) <==> NeverBreaks(s, actions)
    decreases |actions|
  {
    if actions != [] {
      StepBreaksIff(s, actions[0]);
      if !Breaks(s, actions[0]) {
        StepKeepsInv(s, actions[0]);
        BarrierIffFrom(Step(s, actions[0]), actions[1..]);
      }
    }
  }

  /** Readiness implies, throughout a run, that every blocking endpoint has reported and no add is in
      progress exactly when no blocking add starts after readiness is out and no signal is sent
      while the count is positive again. */
  lemma BarrierIff(actions: seq<Action>)
    requires LegalRun(INITIAL, actions)
    ensures AlwaysBarrier(INITIAL, actions) <==> NeverBreaks(INITIAL, actions)
  {
    InitialInv();
    BarrierIffFrom(INITIAL, actions);
  }

  lemma {:induction false} UnbreachedIsBarrier(s: State, actions: seq<Action>)
    requires Inv(s) && LegalRun(s, actions) && NeverBreached(s, actions)
    ensures AlwaysBarrier(s, actions)
    decreases |actions|
  {
    BarrierIsZero(s);
    if actions != [] {
      StepKeepsInv(s, actions[0]);
      UnbreachedIsBarrier(Step(s, actions[0]), actions[1..]);
    }
  }

  /** The documented discipline: blocking endpoints are added before the root reports. */
  ghost predicate AddsBeforeRoot(s: State, actions: seq<Action>)
    requires LegalRun(s, actions)
    decreases |actions|
  {
    actions != [] ==>
      && (actions[0].FetchAdd? ==> s.endpoints != [] && Unreported(s.endpoints[0]))
      && AddsBeforeRoot(Step(s, actions[0]), actions[1..])
  }

  lemma {:induction false} DisciplineIsNeverLate(s: State, actions: seq<Action>)
    requires Inv(s) && LegalRun(s, actions) && AddsBeforeRoot(s, actions)
    ensures NeverLate(s, actions)
    decreases |actions|
  {
    if actions != [] {
      BlocksZero(s.endpoints);
      StepKeepsInv(s, actions[0]);
      DisciplineIsNeverLate(Step(s, actions[0]), actions[1..]);
    }
  }

  lemma BarrierUnderDiscipline(actions: seq<Action>)
    requires LegalRun(INITIAL, actions) && AddsBeforeRoot(INITIAL, actions)
    ensures AlwaysBarrier(INITIAL, actions)
  {
    InitialInv();
    DisciplineIsNeverLate(INITIAL, actions);
    EarlySignalIff(actions);
  }

  /** A late add does breach it: the root reports, readiness is out, then a block is added. */
  lemma LateAddBreaches()
    ensures var actions := [Swap(0), FetchSub(0), Send(0), FetchAdd, FinishAdd];
            LegalRun(INITIAL, actions) && var s := Run(INITIAL, actions); s.ready && s.endpoints == [Reported, Armed] && !Barrier(s)
  {
    var s1 := Step(INITIAL, Swap(0));
    var s2 := Step(s1, FetchSub(0));
    var s3 := Step(s2, Send(0));
    assert s3 == State(0, true, [Reported], 0);
    var s4 := Step(s3, FetchAdd);
    assert Unreported(Step(s4, FinishAdd).endpoints[1]);
    LegalCons(s4, FinishAdd, []);
    LegalCons(s3, FetchAdd, [FinishAdd]);
    LegalCons(s2, Send(0), [FetchAdd, FinishAdd]);
    LegalCons(s1, FetchSub(0), [Send(0), FetchAdd, FinishAdd]);
    LegalCons(INITIAL, Swap(0), [FetchSub(0), Send(0), FetchAdd, FinishAdd]);
  }

  lemma LegalCons(s: State, a: Action, rest: seq<Action>)
    requires Enabled(s, a) && LegalRun(Step(s, a), rest)
    ensures LegalRun(s, [a] + rest) && Run(s, [a] + rest) == Run(Step(s, a), rest)
  {
    assert ([a] + rest)[0] == a && ([a] + rest)[1..] == rest;
  }

  lemma BreaksCons(s: State, a: Action, rest: seq<Action>)
    requires Enabled(s, a) && LegalRun(Step(s, a), rest)
    ensures LegalRun(s, [a] + rest)
    ensures NeverLate(s, [a] + rest) <==> !Late(s, a) && NeverLate(Step(s, a), rest)
    ensures NeverBreaks(s, [a] + rest) <==> !Breaks(s, a) && NeverBreaks(Step(s, a), rest)
  {
    assert ([a] + rest)[0] == a && ([a] + rest)[1..] == rest;
  }

  ghost function ReportBoth(): seq<Action> { [Swap(1), FetchSub(1), Send(0), Send(1)] }

  lemma BothReport(s: State)
    requires s == State(1, false, [Signalling, Armed], 0)
    ensures LegalRun(s, ReportBoth()) && NeverBreaks(s, ReportBoth())
  {
    var s1 := s.(endpoints := [Signalling, Swapped]);
    assert Step(s, Swap(1)) == s1;
    var s2 := State(0, false, [Signalling, Signalling], 0);
    assert Step(s1, FetchSub(1)) == s2;
    var s3 := State(0, true, [Reported, Signalling], 0);
    assert Step(s2, Send(0)) == s3;
    BreaksCons(s3, Send(1), []);
    BreaksCons(s2, Send(0), [Send(1)]);
    BreaksCons(s1, FetchSub(1), [Send(0), Send(1)]);
    BreaksCons(s, Swap(1), [FetchSub(1), Send(0), Send(1)]);
  }

  /** The warning is not the exact condition: an add that it warns about does no harm if its endpoint
      reports before the signal that is on its way goes out. */
  lemma LateAddMayBeHarmless()
    ensures var actions := [Swap(0)] + ([FetchSub(0)] + ([FetchAdd] + ([FinishAdd] + ReportBoth())));
            LegalRun(INITIAL, actions) && !NeverLate(INITIAL, actions) && AlwaysBarrier(INITIAL, actions)
  {
    var s1 := State(1, false, [Swapped], 0);
    assert Step(INITIAL, Swap(0)) == s1;
    var s2 := State(0, false, [Signalling], 0);
    assert Step(s1, FetchSub(0)) == s2;
    var s3 := State(1, false, [Signalling], 1);
    assert Step(s2, FetchAdd) == s3;
    var s4 := State(1, false, [Signalling, Armed], 0);
    assert Step(s3, FinishAdd) == s4;
    BothReport(s4);
    var rest := [FinishAdd] + ReportBoth();
    BreaksCons(s3, FinishAdd, ReportBoth());
    BreaksCons(s2, FetchAdd, rest);
    BreaksCons(s1, FetchSub(0), [FetchAdd] + rest);
    BreaksCons(INITIAL, Swap(0), [FetchSub(0)] + ([FetchAdd] + rest));
    BarrierIff([Swap(0)] + ([FetchSub(0)] + ([FetchAdd] + rest)));
  }

  // ---- The other direction: readiness is not lost ----

  /** When no operation is in flight, a count of zero, or equivalently no endpoint left armed, means
      the signal is set: there is no state where everyone has reported and readiness never comes. */
  lemma QuiescentZeroIsReady(actions: seq<Action>)
    requires LegalRun(INITIAL, actions) && Quiescent(Run(INITIAL, actions))
    ensures var s := Run(INITIAL, actions);
            && (s.readyBlocks == 0 ==> s.ready)
            && (s.readyBlocks == 0 <==> forall e :: 0 <= e < |s.endpoints| ==> s.endpoints[e] != Armed)
  {
    InitialInv();
    RunKeepsInv(INITIAL, actions);
    BlocksZero(Run(INITIAL, actions).endpoints);
  }

  /** The signal never reverts. */
  lemma {:induction false} ReadyIsPermanent(s: State, actions: seq<Action>)
    requires LegalRun(s, actions) && s.ready
    ensures Run(s, actions).ready
    decreases |actions|
  {
    if actions != [] { ReadyIsPermanent(Step(s, actions[0]), actions[1..]); }
  }
}
