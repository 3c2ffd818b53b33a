/** A run in which the changes of a failed call survive it: a rollback pops one change set, but a
    call that succeeded inside the failed one left its checkpoint on the stack. */
module InvocationExample {
  import opened Common
  import opened Amounts
  import opened Sums
  import opened ChangeSets
  import opened InvocationMachine
  import opened InvocationProofs
  import opened InvocationLimits
  import opened Codecs

  /** Two contracts, 1 and 2, in state 0, and an invoker for whom 10000 energy costs 100. */
  const CTX: Context := Context(
    map[0 := ChainAccount(1000, 1000)],
    map[1 := ChainContract(0, 0, 0), 2 := ChainContract(0, 0, 0)],
    {0}, 0, 100, 10000, 300)

  const PLENTY: nat := 100_000_000

  /** 1 calls itself; the inner call changes the state to 7 and calls 2; 2 succeeds; the inner call
      rejects; the outer one goes on and succeeds. */
  const ANSWERS: seq<Oracle> := [
    Oracle(true, 0, Interrupted(None, PLENTY, Call(1, 0))),
    Oracle(true, 0, Interrupted(Some(7), PLENTY, Call(2, 0))),
    Oracle(true, 0, Finished(None, PLENTY)),
    Oracle(true, 0, Rejected(PLENTY)),
    Oracle(true, 0, Finished(None, PLENTY))]

  lemma ContextFits()
    ensures true == ContextOk(CTX)
    ensures Exists(CTX, Account(0))
  {
    assert CTX.accounts.Keys == {0};
    SmallContext(CTX);
  }

  lemma SmallContext(ctx: Context)
    requires ctx.accounts.Keys == {0} && ctx.accounts[0] == ChainAccount(1000, 1000)
    requires ctx.invoker == 0 && ctx.reserved == 100
    requires forall a :: a in ctx.contracts ==>
             ctx.contracts[a].moduleRef in ctx.modules && ctx.contracts[a].balance == 0
    ensures true == ContextOk(ctx)
  {
    var balances := ContractBalances(ctx);
    assert forall a :: a in balances ==> a in ctx.contracts && balances[a] == 0;
    SumZero(balances);
    assert AccountBalances(ctx).Keys == ctx.accounts.Keys;
    SumOne(AccountBalances(ctx), 0);
  }

  lemma FullEnergy(energy: nat)
    requires energy <= 10000
    ensures AfterRun(energy, PLENTY) == energy
  {
    RunOnlySpends(energy, PLENTY);
  }

  const ROOT: InvocationData := InvocationData(Account(0), 1, 0, 0, 0, 1, 0, 0)
  const CHILD: InvocationData := InvocationData(Contract(1), 1, 0, 7, 1, 1, 1, 1)
  const SEVEN: Changes := Changes(map[1 := ContractChanges(1, Positive(0), 0, Some(7), None)], map[])
  const ROOT_CALL: CallRecord := CallRecord([NO_CHANGES], 0, 1)
  const CHILD_CALL: CallRecord := CallRecord([NO_CHANGES, SEVEN], 0, 2)

  const M0: Machine := Start(10000, Account(0), 1, 0)

  const M1: Machine := Machine(
    [Resume(ROOT, None, ROOT_CALL), Initial(Contract(1), 1, 0, 1, 1)],
    [Regular(0, Interruption)], None, [NO_CHANGES, NO_CHANGES], 9700, 1, History(0, 2, map[1 := 0], {}, []))

  const M2: Machine := Machine(
    [Resume(ROOT, None, ROOT_CALL), Resume(CHILD, None, CHILD_CALL), Initial(Contract(1), 2, 0, 2, 2)],
    [Regular(0, Interruption), Regular(1, Interruption)], None,
    [NO_CHANGES, SEVEN, SEVEN], 9400, 2, History(0, 3, map[1 := 0, 2 := 1], {}, []))

  const M3: Machine := Machine(
    [Resume(ROOT, None, ROOT_CALL), Resume(CHILD, None, CHILD_CALL)],
    [Regular(0, Interruption), Regular(1, Interruption), Regular(2, Updated)], Some(Success(0)),
    [NO_CHANGES, SEVEN, SEVEN], 9100, 2, History(0, 3, map[1 := 0, 2 := 1], {}, []))

  const R1: Return := Return(Success(0), false, [NO_CHANGES, SEVEN], [NO_CHANGES, SEVEN, SEVEN], 0)

  const M4: Machine := Machine(
    [Resume(ROOT, None, ROOT_CALL)],
    [Regular(0, Interruption),
     WithFailures(1, [Regular(1, Interruption), Regular(2, Updated), Regular(1, Resumed(true))])],
    Some(Failure), [NO_CHANGES, SEVEN, SEVEN], 9100, 1, History(1, 3, map[1 := 0, 2 := 1], {1}, [R1]))

  const R2: Return := Return(Failure, false, [NO_CHANGES], [NO_CHANGES, SEVEN], 1)

  const M5: Machine := Machine(
    [],
    [Regular(0, Interruption),
     WithFailures(1, [Regular(1, Interruption), Regular(2, Updated), Regular(1, Resumed(true))]),
     Regular(0, Resumed(false)), Regular(0, Updated)],
    Some(Success(0)), [NO_CHANGES, SEVEN], 9100, 1, History(1, 3, map[1 := 0, 2 := 1], {1}, [R1, R2]))

  lemma Step0()
    ensures Step(CTX, M0, ANSWERS[0]) == Running(M1)
  {
    FullEnergy(9700);
    assert M0.work[..0] == [] && M0.changes[..0] == [];
    assert [NO_CHANGES] + [NO_CHANGES] == [NO_CHANGES, NO_CHANGES];
    assert [] + [Regular(0, Interruption)] == [Regular(0, Interruption)];
    var m := M0.(work := [], energy := 9700);
    assert m.changes[..0] + [NO_CHANGES] == m.changes;
    assert BeginInitial(CTX, M0.(work := []), M0.work[0], ANSWERS[0]) == Ready(m, ROOT.(modIdxBefore := 1));
    assert OnCall(CTX, m, ROOT, 1, 0) == Running(M1);
    assert OnInterrupted(CTX, m, ROOT.(modIdxBefore := 1), ANSWERS[0].ran) == Running(M1);
  }

  lemma Step1()
    ensures Step(CTX, M1, ANSWERS[1]) == Running(M2)
  {
    FullEnergy(9400);
    assert M1.work[..1] == [Resume(ROOT, None, ROOT_CALL)];
    assert M1.changes[..1] == [NO_CHANGES];
    assert SaveState(CTX, NO_CHANGES, 1, 7, 1) == SEVEN;
    var m := Machine([Resume(ROOT, None, ROOT_CALL)], [Regular(0, Interruption)], None, [NO_CHANGES, SEVEN], 9400, 2,
                     M1.history);
    assert OnCall(CTX, m, CHILD, 2, 0) == Running(M2);
    var b := m.(changes := [NO_CHANGES, NO_CHANGES], nextModIdx := 1);
    assert b.changes[..1] + [NO_CHANGES] == b.changes;
    assert BeginInitial(CTX, M1.(work := b.work), M1.work[1], ANSWERS[1]) == Ready(b, CHILD.(state := 0));
    assert SaveIfChanged(CTX, b, CHILD.(state := 0), Some(7)) == m;
  }

  lemma Step2()
    ensures Step(CTX, M2, ANSWERS[2]) == Running(M3)
  {
    FullEnergy(9100);
    assert M2.work[..2] == M3.work;
    assert M2.changes[..2] == [NO_CHANGES, SEVEN];
  }

  lemma Step3()
    ensures Step(CTX, M3, ANSWERS[3]) == Running(M4)
  {
    FullEnergy(9100);
    assert M3.work[..1] == M4.work;
    var trace := M3.trace + [Regular(1, Resumed(true))];
    assert trace[..1] == [Regular(0, Interruption)];
    assert trace[1..] == [Regular(1, Interruption), Regular(2, Updated), Regular(1, Resumed(true))];
  }

  lemma Step4()
    ensures Step(CTX, M4, ANSWERS[4]) == Running(M5)
  {
    FullEnergy(9100);
    assert M4.work[..0] == [];
    assert M4.changes[..2] == [NO_CHANGES, SEVEN];
  }

  /** What the run shows. */
  ghost predicate Shows(ms: seq<Machine>) {
    && IsRun(CTX, ms, ANSWERS) && ms[0] == Start(10000, Account(0), 1, 0)
    && ms[5].work == [] && ms[5].response.Some? && ms[5].response.value.Success?
    // The frame 1, of contract 1, has failed.
    && ms[5].history.failed == {1} && |ms[2].work| == 3 && ms[2].work[1].Resume?
    && ms[2].work[1].data.address == 1 && ms[2].work[1].data.frame == 1
    // Its state is there all the same.
    && ms[5].changes != [] && StateOf(CTX, Current(ms[5]), 1) == 7
    // The caller goes on with the old state, having been told that nothing changed.
    && var b := Begin(CTX, ms[4], ANSWERS[4]);
    && b.Ready? && b.data.frame == 0 && b.data.address == 1 && b.data.state == 0
    && b.machine.history.log == [R1, R2] && !R2.toldChanged
    && b.machine.changes != [] && StateOf(CTX, Current(b.machine), 1) == 7
  }

  lemma AllSteps(ms: seq<Machine>)
    requires ms == [M0, M1, M2, M3, M4, M5]
    ensures true == IsRun(CTX, ms, ANSWERS)
  {
    forall i | 0 <= i < 5 ensures ms[i].work != [] && Step(CTX, ms[i], ANSWERS[i]) == Running(ms[i + 1]) {
      if i == 0 { Step0(); }
      else if i == 1 { Step1(); }
      else if i == 2 { Step2(); }
      else if i == 3 { Step3(); }
      else { Step4(); }
    }
  }

  lemma TheRun() returns (ms: seq<Machine>)
    ensures true == Shows(ms)
  {
    ms := [M0, M1, M2, M3, M4, M5];
    AllSteps(ms);
    GoesOnWithOldState();
  }

  /** The invocation succeeds with contract 1 in state 7, which only the frame that rejected wrote;
      and the outer frame goes on with state 0, having been told that nothing changed. */
  lemma FailedCallNotUndone() returns (ms: seq<Machine>)
    ensures true == ContextOk(CTX)
    ensures Exists(CTX, Account(0))
    ensures true == Shows(ms)
  {
    ContextFits();
    ms := TheRun();
  }

  // ---------------------------------------------------------------- an amount that is too large

  /** A contract with a balance of 5. */
  const PAYER: Context := CTX.(contracts := map[1 := ChainContract(5, 0, 0)])

  const PAID: Changes := Changes(map[1 := ContractChanges(0, Negative(1), 5, None, None)],
                                 map[0 := AccountChanges(900, Positive(1))])

  const PAID_ONCE: Machine := Machine(
    [Resume(ROOT.(modIdxBefore := 0), Some(Success(4)), NO_CALL)],
    [Regular(0, Interruption), Regular(0, Transferred), Regular(0, Resumed(true))],
    None, [PAID], 9400, 1, History(0, 1, map[], {}, []))

  /** It pays 1, and then asks for the largest amount there is. */
  const PAYMENTS: seq<Oracle> := [
    Oracle(true, 0, Interrupted(None, PLENTY, Transfer(0, 1))),
    Oracle(true, 0, Interrupted(None, PLENTY, Transfer(0, MAX_AMOUNT)))]

  lemma PayerFits()
    ensures true == ContextOk(PAYER)
    ensures Exists(PAYER, Account(0))
  {
    SumOne(ContractBalances(PAYER), 1);
    SumOne(AccountBalances(PAYER), 0);
  }

  const PAYING: Machine := Machine([], [], None, [NO_CHANGES], 9700, 1, History(0, 1, map[], {}, []))

  lemma PaysOnce()
    ensures Step(PAYER, M0, PAYMENTS[0]) == Running(PAID_ONCE)
  {
    StartsToPay();
    Interrupts(PAYMENTS[0].ran);
  }

  lemma StartsToPay()
    ensures Begin(PAYER, M0, PAYMENTS[0]) == Ready(PAYING, ROOT.(modIdxBefore := 1))
  {
    assert M0.work[..0] == [] && M0.changes[..0] == [];
    var m := M0.(work := [], energy := 9700);
    assert m.changes[..0] + [NO_CHANGES] == m.changes;
  }

  lemma Interrupts(ran: Ran)
    requires ran == Interrupted(None, PLENTY, Transfer(0, 1))
    ensures OnInterrupted(PAYER, PAYING, ROOT.(modIdxBefore := 1), ran) == Running(PAID_ONCE)
  {
    FullEnergy(9700);
    MovesOne();
    assert [] + [Regular(0, Interruption)] == [Regular(0, Interruption)];
    assert PAYING.changes[..0] + [PAID] == [PAID];
  }

  lemma MovesOne()
    ensures TransferContractToAccount(PAYER, NO_CHANGES, 1, 1, 0) == Moved(PAID, 4)
  {
  }

  lemma PaysTooMuch()
    ensures PAID_ONCE.work != [] && Step(PAYER, PAID_ONCE, PAYMENTS[1]) == Panicked
  {
    FullEnergy(9400);
    LargestAmount(PAID, 1);
  }

  /** The invocation panics although the contract only lacks the funds. */
  lemma LargestAmountPanics()
    ensures true == ContextOk(PAYER)
    ensures Exists(PAYER, Account(0)) && Invocation(PAYER, 10000, Account(0), 1, 0, PAYMENTS) == Crashed
  {
    PayerFits();
    PaysOnce();
    PaysTooMuch();
    assert PAYMENTS[1..][0] == PAYMENTS[1];
    assert RunFrom(PAYER, PAID_ONCE, PAYMENTS[1..]) == Crashed;
  }

  // ---------------------------------------------------------------- data that is too short

  lemma ShortPayload()
    ensures ReadPayload(LeBytes(5, 4)) == TooShort
  {
    FourBytes();
    ShortData(5, []);
    assert LeBytes(5, 4) + [] == LeBytes(5, 4);
  }

  lemma FourBytes()
    ensures Pow256(4) > 5
  {
  }

  lemma PanicsAtOnce(o: Oracle)
    requires o.hasEntrypoint && o.lookupCost == 0 && o.ran.Interrupted? && o.ran.newState.None?
    requires o.ran.remaining == PLENTY && o.ran.interrupt.CheckSignature? && o.ran.interrupt.account == 0
    requires ReadPayload(o.ran.interrupt.payload) == TooShort
    ensures M0.work != [] && Step(CTX, M0, o) == Panicked
  {
    FirstRuns(o);
    FullEnergy(9700);
  }

  /** A contract sends data that is to be five bytes long, but has none, to have signatures checked. */
  lemma ShortDataPanics(o: Oracle)
    requires o == Oracle(true, 0, Interrupted(None, PLENTY, CheckSignature(0, LeBytes(5, 4), true)))
    ensures true == ContextOk(CTX)
    ensures Exists(CTX, Account(0)) && Invocation(CTX, 10000, Account(0), 1, 0, [o]) == Crashed
  {
    ContextFits();
    ShortPayload();
    PanicsAtOnce(o);
  }

  lemma FirstRuns(o: Oracle)
    requires o.hasEntrypoint && o.lookupCost == 0
    ensures Begin(CTX, M0, o) == Ready(PAYING, ROOT.(modIdxBefore := 1))
  {
    assert M0.work[..0] == [] && M0.changes[..0] == [];
    var m := M0.(work := [], energy := 9700);
    assert m.changes[..0] + [NO_CHANGES] == m.changes;
  }

  // ---------------------------------------------------------------- too many saved states

  /** The contract saves a state and calls a contract that does not exist; the interpreter says that
      nothing was used. */
  const AGAIN: Oracle := Oracle(true, 0, Interrupted(Some(7), 10_000_000, Call(99, 0)))

  /** A contract that goes on after such a call. */
  ghost predicate GoesOn(m: Machine) {
    && |m.work| == 1 && m.work[0].Resume? && m.work[0].response.Some? && m.work[0].data.address == 1
    && |m.changes| == 1 && m.energy <= 10000
  }

  /** Each time, one index is used up. */
  lemma OneIndex(ctx: Context, m: Machine)
    requires 1 in ctx.contracts && 99 !in ctx.contracts && GoesOn(m) && m.nextModIdx < MAX_INDEX
    ensures var o := Step(ctx, m, AGAIN); o.Running? && GoesOn(o.machine) && o.machine.nextModIdx == m.nextModIdx + 1
  {
    RunOnlySpends(m.energy, 10_000_000);
    assert m.work[..0] == [];
  }

  lemma NoIndex(ctx: Context, m: Machine)
    requires 1 in ctx.contracts && GoesOn(m) && m.nextModIdx >= MAX_INDEX
    ensures Step(ctx, m, AGAIN) == Panicked
  {
    assert m.work[..0] == [];
  }

  lemma {:induction false} RunsOut(ctx: Context, m: Machine, answers: seq<Oracle>)
    requires 1 in ctx.contracts && 99 !in ctx.contracts && GoesOn(m)
    requires forall i :: 0 <= i < |answers| ==> answers[i] == AGAIN
    requires m.nextModIdx + |answers| > MAX_INDEX >= m.nextModIdx
    ensures RunFrom(ctx, m, answers) == Crashed
    decreases |answers|
  {
    if m.nextModIdx < MAX_INDEX {
      OneIndex(ctx, m);
      RunsOut(ctx, Step(ctx, m, AGAIN).machine, answers[1..]);
    } else {
      NoIndex(ctx, m);
    }
  }

  lemma FirstGoesOn()
    ensures var o := Step(CTX, M0, AGAIN); o.Running? && GoesOn(o.machine) && o.machine.nextModIdx == 2
  {
    FirstRuns(AGAIN);
    RunOnlySpends(9700, 10_000_000);
  }

  lemma CrashesLater(ctx: Context, m: Machine, next: Machine, answers: seq<Oracle>, rest: seq<Oracle>)
    requires m.work != [] && answers != [] && Step(ctx, m, answers[0]) == Running(next)
    requires rest == answers[1..] && RunFrom(ctx, next, rest) == Crashed
    ensures RunFrom(ctx, m, answers) == Crashed
  {
  }

  lemma Repeats(answers: seq<Oracle>, rest: seq<Oracle>)
    requires answers != [] && rest == answers[1..] && forall i :: 0 <= i < |answers| ==> answers[i] == AGAIN
    ensures answers[0] == AGAIN && |rest| == |answers| - 1 && forall i :: 0 <= i < |rest| ==> rest[i] == AGAIN
  {
  }

  lemma FewerFit(ctx: Context, rest: seq<Oracle>)
    requires ContextOk(ctx) && |rest| < MAX_INDEX && forall i :: 0 <= i < |rest| ==> rest[i] == AGAIN
    ensures InvocationFits(ctx, 10000, rest)
  {
  }

  /** As many answers as there are modification indices can be too many; one fewer never are. */
  lemma IndicesRunOut(answers: seq<Oracle>, rest: seq<Oracle>)
    requires |answers| == MAX_INDEX && (forall i :: 0 <= i < |answers| ==> answers[i] == AGAIN) && rest == answers[1..]
    ensures true == ContextOk(CTX)
    ensures Exists(CTX, Account(0)) && Invocation(CTX, 10000, Account(0), 1, 0, answers) == Crashed
    ensures true == InvocationFits(CTX, 10000, rest)
  {
    ContextFits();
    Repeats(answers, rest);
    FewerFit(CTX, rest);
    FirstGoesOn();
    var next := Step(CTX, M0, AGAIN).machine;
    RunsOut(CTX, next, rest);
    CrashesLater(CTX, M0, next, answers, rest);
  }

  lemma GoesOnWithOldState()
    ensures var b := Begin(CTX, M4, ANSWERS[4]);
            && b.Ready? && b.data == ROOT.(modIdxBefore := 0) && b.machine.history.log == [R1, R2]
            && b.machine.changes == [NO_CHANGES, SEVEN]
  {
    assert M4.work[..0] == [];
    assert M4.changes[..2] == [NO_CHANGES, SEVEN];
  }
}
