/** Every iteration of the invocation machine does what `InvocationEffects` says. */
module InvocationSteps {
  import opened Common
  import opened Amounts
  import opened ChangeSets
  import opened InvocationMachine
  import opened InvocationProofs
  import opened InvocationEffects

  // ---------------------------------------------------------------- payments and what is saved

  /** The last change set is replaced. */
  lemma Replaced(ctx: Context, m: Machine, m': Machine, c: Changes, p: Payment, a: ContractId, s: Saved)
    requires m.changes != [] && m'.changes == WithCurrent(m, c).changes && Became(ctx, Current(m), c, p, a, s)
    ensures true == Edited(ctx, m, m', p, a, s)
  {
    assert Current(m') == c;
  }

  /** What the transfers say of balances, as a payment. */
  lemma PaidToAccount(ctx: Context, c: Changes, e: Changes, amount: nat, from: ContractId, to: AccountId, a: ContractId)
    requires ContractsMoved(ctx, c, e, from, amount, from, 0) && AccountsMoved(ctx, c, e, to, amount)
    requires SameStates(ctx, c, e)
    ensures true == Became(ctx, c, e, Payment(Contract(from), Account(to), amount), a, NOTHING)
  {
  }

  lemma PaidByAccount(ctx: Context, c: Changes, e: Changes, amount: nat, from: AccountId, to: ContractId, a: ContractId)
    requires ContractsMoved(ctx, c, e, to, 0, to, amount) && AccountsMoved(ctx, c, e, from, -(amount as int))
    requires SameStates(ctx, c, e)
    ensures true == Became(ctx, c, e, Payment(Account(from), Contract(to), amount), a, NOTHING)
  {
  }

  lemma PaidBetween(ctx: Context, c: Changes, e: Changes, amount: nat, from: ContractId, to: ContractId, a: ContractId)
    requires ContractsMoved(ctx, c, e, from, amount, to, amount) && e.accounts == c.accounts
    requires SameStates(ctx, c, e)
    ensures true == Became(ctx, c, e, Payment(Contract(from), Contract(to), amount), a, NOTHING)
  {
  }

  lemma ContractPays(ctx: Context, c: Changes, amount: nat, from: ContractId, to: AccountId, a: ContractId)
    requires ContextOk(ctx) && Balanced(ctx, c, 0) && from in ctx.contracts
    ensures var r := TransferContractToAccount(ctx, c, amount, from, to);
            && (r.Moved? <==> to in ctx.accounts && amount <= ContractBalance(ctx, c, from))
            && (r.Moved? ==> true == Became(ctx, c, r.changes, Payment(Contract(from), Account(to), amount), a, NOTHING)
                             && r.balance == ContractBalance(ctx, r.changes, from))
  {
    ContractToAccount(ctx, c, amount, from, to);
    var r := TransferContractToAccount(ctx, c, amount, from, to);
    if r.Moved? { PaidToAccount(ctx, c, r.changes, amount, from, to, a); }
  }

  lemma AccountPays(ctx: Context, c: Changes, amount: nat, from: AccountId, to: ContractId, a: ContractId)
    requires ContextOk(ctx) && Balanced(ctx, c, 0) && from in ctx.accounts
    ensures var r := TransferAccountToContract(ctx, c, amount, from, to);
            && (r.Moved? <==> to in ctx.contracts && amount <= AccountBalance(ctx, c, from))
            && (r.Moved? ==>
                  true == Became(ctx, c, r.changes, Payment(Account(from), Contract(to), amount), a, NOTHING))
  {
    AccountToContract(ctx, c, amount, from, to);
    var r := TransferAccountToContract(ctx, c, amount, from, to);
    if r.Moved? { PaidByAccount(ctx, c, r.changes, amount, from, to, a); }
  }

  lemma ContractPaysContract(ctx: Context, c: Changes, amount: nat, from: ContractId, to: ContractId, a: ContractId)
    requires ContextOk(ctx) && Balanced(ctx, c, 0) && from in ctx.contracts
    ensures var r := TransferContractToContract(ctx, c, amount, from, to);
            && (r.Moved? <==> to in ctx.contracts && amount <= ContractBalance(ctx, c, from))
            && (r.Moved? ==>
                  true == Became(ctx, c, r.changes, Payment(Contract(from), Contract(to), amount), a, NOTHING))
  {
    ContractToContract(ctx, c, amount, from, to);
    var r := TransferContractToContract(ctx, c, amount, from, to);
    if r.Moved? { PaidBetween(ctx, c, r.changes, amount, from, to, a); }
  }

  /** The amount of a call is moved exactly if the contract and the amount are there. */
  lemma AmountMoves(ctx: Context, m: Machine, sender: Address, address: ContractId, amount: nat, r: TransferResult)
    requires ContextOk(ctx) && m.changes != [] && Balanced(ctx, Current(m), 0) && Exists(ctx, sender)
    requires r == MoveAmount(ctx, m, sender, address, amount)
    ensures r.Moved? <==> address in ctx.contracts && amount <= Funds(ctx, Current(m), sender)
    ensures r.Moved? ==>
              Became(ctx, Current(m), r.changes, Payment(sender, Contract(address), amount), address, NOTHING)
  {
    if amount > 0 {
      match sender
      case Account(a) => AccountPays(ctx, Current(m), amount, a, address, address);
      case Contract(a) => ContractPaysContract(ctx, Current(m), amount, a, address, address);
    } else {
      BalanceBound(ctx, Current(m), 0);
    }
  }

  lemma StateSaved(ctx: Context, m: Machine, m0: Machine, data: InvocationData, newState: Option<ContractState>)
    requires m.changes != [] && data.address in ctx.contracts
    requires m0.changes == m.changes && m0.nextModIdx == m.nextModIdx
    ensures var m1 := SaveIfChanged(ctx, m0, data, newState);
            && true == Edited(ctx, m, m1, NoPayment, data.address, Saved(newState, m.nextModIdx, None))
            && m1 == m0.(changes := m1.changes, nextModIdx := m1.nextModIdx)
            && m1.nextModIdx == (if newState.Some? then m.nextModIdx + 1 else m.nextModIdx)
            && m1.changes != []
            && ModificationIndex(Current(m1), data.address) ==
               (if newState.Some? then m.nextModIdx else ModificationIndex(Current(m), data.address))
  {
    var m1 := SaveIfChanged(ctx, m0, data, newState);
    if newState.Some? {
      StateBecomes(ctx, Current(m), data.address, newState.value, m.nextModIdx);
      var c := SaveState(ctx, Current(m), data.address, newState.value, m.nextModIdx);
      Replaced(ctx, m, m1, c, NoPayment, data.address, Saved(newState, m.nextModIdx, None));
      assert Current(m1) == c;
    } else {
      Unedited(ctx, m, m1, data.address);
    }
  }

  lemma StateBecomes(ctx: Context, c: Changes, a: ContractId, state: ContractState, index: nat)
    requires a in ctx.contracts
    ensures true == Became(ctx, c, SaveState(ctx, c, a, state, index), NoPayment, a, Saved(Some(state), index, None))
    ensures ModificationIndex(SaveState(ctx, c, a, state, index), a) == index
  {
  }

  lemma ModuleBecomes(ctx: Context, c: Changes, a: ContractId, moduleRef: ModuleRef)
    requires a in ctx.contracts
    ensures true == Became(ctx, c, SaveModule(ctx, c, a, moduleRef), NoPayment, a, Saved(None, 0, Some(moduleRef)))
  {
  }

  // ---------------------------------------------------------------- starting and resuming

  lemma EnterStarts(ctx: Context, m: Machine, m1: Machine, item: Next, o: Oracle)
    requires item.Initial? && m.changes != [] && m.energy >= 300 && Exists(ctx, item.sender)
    requires m1.changes != [] && item.address in ctx.contracts && ctx.invoker in ctx.accounts
    requires ModuleOf(ctx, Current(m1), item.address) in ctx.modules
    requires item.amount <= Funds(ctx, Current(m), item.sender)
    requires Edited(ctx, m, m1, Payment(item.sender, Contract(item.address), item.amount), item.address, NOTHING)
    requires m1 == m.(changes := m1.changes, energy := m.energy - 300)
    ensures true == Starts(ctx, m, item, o, Enter(ctx, m1, item, o))
  {
    var b := Enter(ctx, m1, item, o);
    if b.Ready? {
      assert b.machine.changes == m1.changes;
    } else if b.Over? {
      assert b.machine.changes == m1.changes;
    }
  }

  lemma MovedStarts(ctx: Context, m: Machine, m1: Machine, item: Next, o: Oracle, c: Changes)
    requires item.Initial? && m.changes != [] && m.energy >= 300 && Exists(ctx, item.sender)
    requires m1 == m.(energy := m.energy - 300) && ctx.invoker in ctx.accounts
    requires item.address in ctx.contracts && item.amount <= Funds(ctx, Current(m), item.sender)
    requires Became(ctx, Current(m), c, Payment(item.sender, Contract(item.address), item.amount), item.address,
                    NOTHING)
    requires ModuleOf(ctx, c, item.address) in ctx.modules
    ensures true == Starts(ctx, m, item, o, Enter(ctx, WithCurrent(m1, c), item, o))
  {
    var m2 := WithCurrent(m1, c);
    assert Current(m2) == c;
    Replaced(ctx, m, m2, c, Payment(item.sender, Contract(item.address), item.amount), item.address, NOTHING);
    EnterStarts(ctx, m, m2, item, o);
  }

  /** The amount is moved, or the call fails without. */
  lemma MoveStarts(ctx: Context, m: Machine, m1: Machine, item: Next, o: Oracle, r: TransferResult)
    requires item.Initial? && ContextOk(ctx) && m.changes != [] && m.energy >= 300 && Exists(ctx, item.sender)
    requires m1 == m.(energy := m.energy - 300)
    requires !r.Panic? && MovesOk(ctx, m, item, r)
    ensures true == Starts(ctx, m, item, o, AfterMove(ctx, m1, item, o, r))
  {
    if r.Moved? {
      ModuleKnown(ctx, r.changes, item.address);
      MovedStarts(ctx, m, m1, item, o, r.changes);
    } else {
      Unedited(ctx, m, m1.(response := Some(Failure)), item.address);
    }
  }

  /** What the transfer of the amount leads to. */
  ghost predicate MovesOk(ctx: Context, m: Machine, item: Next, r: TransferResult)
    requires item.Initial? && m.changes != [] && Exists(ctx, item.sender)
  {
    && !r.TransferOverflow? && (r.Moved? ==> Balanced(ctx, r.changes, 0))
    && (r.Panic? <==> MoveOverpays(ctx, m, item.sender, item.address, item.amount))
    && (r.Moved? <==> item.address in ctx.contracts && item.amount <= Funds(ctx, Current(m), item.sender))
    && (r.Moved? ==> Became(ctx, Current(m), r.changes, Payment(item.sender, Contract(item.address), item.amount),
                            item.address, NOTHING))
  }

  lemma Moves(ctx: Context, m: Machine, item: Next, energy: nat)
    requires item.Initial? && ContextOk(ctx) && m.changes != [] && AllBalanced(ctx, m.changes)
    requires Exists(ctx, item.sender)
    ensures true == MovesOk(ctx, m, item, MoveAmount(ctx, m.(energy := energy), item.sender, item.address, item.amount))
  {
    var m1 := m.(energy := energy);
    CurrentBalanced(ctx, m1);
    MoveAmountOk(ctx, m1, item.sender, item.address, item.amount);
    AmountMoves(ctx, m1, item.sender, item.address, item.amount,
                MoveAmount(ctx, m1, item.sender, item.address, item.amount));
  }

  lemma InitialStarts(ctx: Context, m: Machine, item: Next, o: Oracle)
    requires item.Initial? && ContextOk(ctx) && m.changes != [] && AllBalanced(ctx, m.changes)
    requires Exists(ctx, item.sender)
    ensures true == Starts(ctx, m, item, o, BeginInitial(ctx, m, item, o))
  {
    if m.energy >= UPDATE_BASE_COST {
      var m1 := m.(energy := m.energy - UPDATE_BASE_COST);
      var r := MoveAmount(ctx, m1, item.sender, item.address, item.amount);
      Moves(ctx, m, item, m1.energy);
      StartsByMoving(ctx, m, item, o, m1);
      if !r.Panic? { MoveStarts(ctx, m, m1, item, o, r); }
    }
  }

  lemma CallerOnTop(ctx: Context, m: Machine)
    requires Callers(ctx, m) && m.work != []
    ensures m.work[|m.work| - 1].Resume?
  {
    assert CallerOk(ctx, m, |m.work| - 1);
  }

  /** What a call that is on top brings along. */
  lemma InitialOnTop(ctx: Context, m: Machine)
    requires Inv(ctx, m) && m.work != [] && m.work[|m.work| - 1].Initial?
    ensures var item := m.work[|m.work| - 1];
            && true == TopOk(ctx, m.(work := m.work[..|m.work| - 1]), item)
            && true == ContextOk(ctx)
            && m.changes != [] && true == AllBalanced(ctx, m.changes)
            && Exists(ctx, item.sender)
  {
    if Settled(ctx, m) { CallerOnTop(ctx, m); }
  }

  lemma CallReturns(ctx: Context, m: Machine)
    requires Settled(ctx, m) && m.work != [] && m.response.Some?
    ensures var n := |m.work| - 1;
            && m.work[n].Resume? && m.work[n].response.None? && m.work[n].data.address in ctx.contracts
            && m.changes != []
            && true == Returns(ctx, m.(work := m.work[..n]), m.work[n],
                               BeginResume(ctx, m.(work := m.work[..n]), m.work[n]))
  {
    PopCaller(ctx, m);
    var item := m.work[|m.work| - 1];
    CurrentBalanced(ctx, m);
    BalanceBound(ctx, Current(m), 0);
  }

  // ---------------------------------------------------------------- after the interpreter

  lemma BalancesKnown(ctx: Context, m: Machine, a: ContractId)
    requires ContextOk(ctx) && AllBalanced(ctx, m.changes) && m.changes != [] && a in ctx.contracts
    ensures ContractBalance(ctx, Current(m), a) >= 0 && BalanceOf(ctx, m, a) == ContractBalance(ctx, Current(m), a)
  {
    CurrentBalanced(ctx, m);
    BalanceBound(ctx, Current(m), 0);
  }

  lemma FinishedIs(ctx: Context, m: Machine, m1: Machine, data: InvocationData, ran: Ran)
    requires m.changes != [] && m1.changes != [] && data.address in ctx.contracts && ran.Finished?
    requires ContractBalance(ctx, Current(m), data.address) >= 0
    requires Edited(ctx, m, m1, NoPayment, data.address, SavedBy(m, ran))
    requires m1 == m.(changes := m1.changes, energy := m1.energy, nextModIdx := NextIndex(m, ran),
                      trace := m.trace + [Regular(data.frame, Updated)])
    requires Left(m.energy, ran.remaining, m1.energy)
    ensures true == RunDoes(ctx, m, data, ran,
                            Running(m1.(response := Some(Success(BalanceOf(ctx, m1, data.address))))))
  {
    assert Current(m1.(response := m.response)) == Current(m1);
    assert ContractBalance(ctx, Current(m1), data.address) == ContractBalance(ctx, Current(m), data.address);
  }

  lemma FinishedDoes(ctx: Context, m: Machine, data: InvocationData, ran: Ran)
    requires Active(ctx, m, data.frame, data.traceCheckpoint) && data.address in ctx.contracts && ran.Finished?
    ensures m.changes != [] && true == RunDoes(ctx, m, data, ran, OnFinished(ctx, m, data, ran))
  {
    RunLeaves(m.energy, ran.remaining);
    var m1 := Emit(m.(energy := AfterRun(m.energy, ran.remaining)), Regular(data.frame, Updated));
    StateSaved(ctx, m, m1, data, ran.newState);
    BalancesKnown(ctx, m, data.address);
    FinishedIs(ctx, m, SaveIfChanged(ctx, m1, data, ran.newState), data, ran);
  }

  lemma FailedDoes(ctx: Context, m: Machine, data: InvocationData, ran: Ran)
    requires Active(ctx, m, data.frame, data.traceCheckpoint) && data.address in ctx.contracts
    requires ran.Rejected? || ran.Trapped? || ran.Broken?
    ensures true == RunDoes(ctx, m, data, ran, HandleRan(ctx, m, data, ran))
  {
    if !ran.Broken? { RunLeaves(m.energy, ran.remaining); }
  }

  /** An interrupt served from `m`, where the state is saved already: it costs its price, or energy
      runs out. */
  ghost predicate ServeDoes(ctx: Context, m: Machine, data: InvocationData, i: Interrupt, o: Outcome)
    requires m.changes != [] && data.address in ctx.contracts
  {
    match o
    case Panicked => ServePanics(ctx, m, data.address, i)
    case Stopped(e) => e == OutOfEnergy && m.energy < Cost(ctx, i)
    case Running(m') =>
      && m'.energy + Cost(ctx, i) == m.energy && m'.nextModIdx == m.nextModIdx && m'.response == m.response
      && Interrupts(ctx, m, data, NOTHING, i, m')
  }

  /** What is common to all answers: `m'` is `m` with the edit, the events and the answer, and costs. */
  lemma Served(ctx: Context, m: Machine, m1: Machine, data: InvocationData, i: Interrupt, ok: bool, response: Response)
    requires m.changes != [] && m1.changes != [] && data.address in ctx.contracts
    requires !(i.Call? && i.address in ctx.contracts)
    requires ok == Succeeds(ctx, Current(m1), ContractBalance(ctx, Current(m), data.address), i)
    requires Edited(ctx, m, m1, PaymentOf(data.address, i, ok), data.address, Saved(None, 0, ModuleOfUpgrade(i, ok)))
    requires m1.trace == m.trace + EventsOf(data.frame, i, ok) && m1.energy + Cost(ctx, i) == m.energy
    requires m1 == m.(changes := m1.changes, trace := m1.trace, energy := m1.energy)
    requires data.modIdxBefore == ModificationIndex(Current(m), data.address)
    requires ContractBalance(ctx, Current(m1), data.address) >= 0
    requires response == if ok then Success(ContractBalance(ctx, Current(m1), data.address)) else Failure
    ensures true == ServeDoes(ctx, m, data, i, Answered(m1, data, response))
  {
    assert Answered(m1, data, response).machine.changes == m1.changes;
    assert DataAfter(data, NOTHING, Current(m1)) == data;
  }

  /** A refusal with the interrupt event before it. */
  lemma RefusedDoes(ctx: Context, m: Machine, m1: Machine, data: InvocationData, i: Interrupt)
    requires m.changes != [] && data.address in ctx.contracts && !i.Query? && !i.CheckSignature?
    requires !(i.Call? && i.address in ctx.contracts)
    requires !Succeeds(ctx, Current(m), ContractBalance(ctx, Current(m), data.address), i)
    requires m1 == m.(trace := m.trace + [Regular(data.frame, Interruption), Regular(data.frame, Resumed(false))],
                      energy := m1.energy)
    requires m1.energy + Cost(ctx, i) == m.energy && ContractBalance(ctx, Current(m), data.address) >= 0
    requires data.modIdxBefore == ModificationIndex(Current(m), data.address)
    ensures true == ServeDoes(ctx, m, data, i, Answered(m1, data, Failure))
  {
    Unedited(ctx, m, m1, data.address);
    assert EventsOf(data.frame, i, false) == [Regular(data.frame, Interruption), Regular(data.frame, Resumed(false))];
    Served(ctx, m, m1, data, i, false, Failure);
  }

  /** The frame runs, and knows the modification index of its contract. */
  ghost predicate Serving(ctx: Context, m: Machine, data: InvocationData) {
    && Active(ctx, m, data.frame, data.traceCheckpoint) && data.address in ctx.contracts
    && data.modIdxBefore == ModificationIndex(Current(m), data.address)
  }

  /** What a payment to an account leads to. */
  ghost predicate PaysOk(ctx: Context, c: Changes, a: ContractId, to: AccountId, amount: nat, r: TransferResult)
    requires a in ctx.contracts
  {
    && !r.TransferOverflow? && (r.Panic? ==> to in ctx.accounts && Overpays(c, Contract(a), amount))
    && (r.Moved? <==> to in ctx.accounts && amount <= ContractBalance(ctx, c, a))
    && (r.Moved? ==> Became(ctx, c, r.changes, Payment(Contract(a), Account(to), amount), a, NOTHING)
                     && r.balance == ContractBalance(ctx, r.changes, a))
  }

  lemma Pays(ctx: Context, m: Machine, a: ContractId, to: AccountId, amount: nat)
    requires ContextOk(ctx) && m.changes != [] && AllBalanced(ctx, m.changes) && a in ctx.contracts
    ensures true == PaysOk(ctx, Current(m), a, to, amount,
                           TransferContractToAccount(ctx, Current(m), amount, a, to))
  {
    CurrentBalanced(ctx, m);
    ContractPays(ctx, Current(m), amount, a, to, a);
    ContractToAccount(ctx, Current(m), amount, a, to);
  }

  lemma TransferDoes(ctx: Context, m: Machine, data: InvocationData, to: AccountId, amount: nat)
    requires Serving(ctx, m, data)
    ensures m.changes != []
            && true == ServeDoes(ctx, m, data, Transfer(to, amount), OnTransfer(ctx, m, data, to, amount))
  {
    var m1 := Emit(m, Regular(data.frame, Interruption));
    BalancesKnown(ctx, m, data.address);
    Pays(ctx, m, data.address, to, amount);
    TransferIs(ctx, m, data, to, amount, m1);
    var r := TransferContractToAccount(ctx, Current(m), amount, data.address, to);
    assert Current(m1) == Current(m);
    if r.Moved? {
      TransferPaid(ctx, m, data, to, amount, r);
    } else if !r.Panic? {
      TransferRefused(ctx, m, data, to, amount, r);
    }
  }

  lemma TransferRefused(ctx: Context, m: Machine, data: InvocationData, to: AccountId, amount: nat, r: TransferResult)
    requires m.changes != [] && data.address in ctx.contracts && (r.ToMissing? || r.InsufficientAmount?)
    requires data.modIdxBefore == ModificationIndex(Current(m), data.address)
    requires !(to in ctx.accounts && amount <= ContractBalance(ctx, Current(m), data.address))
    requires ContractBalance(ctx, Current(m), data.address) >= 0
    ensures true == ServeDoes(ctx, m, data, Transfer(to, amount),
                              AfterTransfer(ctx, Emit(m, Regular(data.frame, Interruption)), data, r))
  {
    var f := data.frame;
    if m.energy >= ctx.simpleTransferCost {
      var m2 := Emit(Emit(m, Regular(f, Interruption)), Regular(f, Resumed(false)))
                  .(energy := m.energy - ctx.simpleTransferCost);
      assert m2.trace == m.trace + [Regular(f, Interruption), Regular(f, Resumed(false))];
      RefusedDoes(ctx, m, m2, data, Transfer(to, amount));
    }
  }

  lemma TransferPaid(ctx: Context, m: Machine, data: InvocationData, to: AccountId, amount: nat, r: TransferResult)
    requires m.changes != [] && data.address in ctx.contracts && r.Moved?
    requires data.modIdxBefore == ModificationIndex(Current(m), data.address)
    requires to in ctx.accounts && amount <= ContractBalance(ctx, Current(m), data.address)
    requires r.balance == ContractBalance(ctx, r.changes, data.address)
    requires Became(ctx, Current(m), r.changes, Payment(Contract(data.address), Account(to), amount), data.address,
                    NOTHING)
    ensures true == ServeDoes(ctx, m, data, Transfer(to, amount),
                              AfterTransfer(ctx, Emit(m, Regular(data.frame, Interruption)), data, r))
  {
    var f, i := data.frame, Transfer(to, amount);
    var m1 := WithCurrent(Emit(m, Regular(f, Interruption)), r.changes);
    if m.energy >= ctx.simpleTransferCost {
      var m3 := Emit(Emit(m1, Regular(f, Transferred)), Regular(f, Resumed(true)))
                  .(energy := m.energy - ctx.simpleTransferCost);
      PaidIs(ctx, m1, data, r.balance, m3);
      Replaced(ctx, m, m3, r.changes, PaymentOf(data.address, i, true), data.address, NOTHING);
      assert m3.trace == m.trace + EventsOf(f, i, true);
      Served(ctx, m, m3, data, i, true, Success(r.balance));
    }
  }

  lemma CallDoes(ctx: Context, m: Machine, data: InvocationData, address: ContractId, amount: nat)
    requires Serving(ctx, m, data)
    ensures true == ServeDoes(ctx, m, data, Call(address, amount), OnCall(ctx, m, data, address, amount))
  {
    var f, i := data.frame, Call(address, amount);
    var m1 := Emit(m, Regular(f, Interruption));
    BalancesKnown(ctx, m, data.address);
    if address in ctx.contracts {
      var m' := OnCall(ctx, m, data, address, amount).machine;
      assert m'.changes[..|m.changes|] == m.changes;
      Unedited(ctx, m, m.(changes := m'.changes[..|m.changes|]), data.address);
      assert DataAfter(data, NOTHING, Current(m')) == data;
    } else {
      var m2 := Emit(m1, Regular(f, Resumed(false)));
      assert m2.trace == m.trace + [Regular(f, Interruption), Regular(f, Resumed(false))];
      RefusedDoes(ctx, m, m2, data, i);
    }
  }

  lemma UpgradeRefused(ctx: Context, m: Machine, m1: Machine, data: InvocationData, i: Interrupt)
    requires m.changes != [] && data.address in ctx.contracts
    requires i.Upgrade? && !(i.moduleRef in ctx.modules && i.exported)
    requires m1 == Emit(m, Regular(data.frame, Interruption)).(energy := m1.energy)
    requires m1.energy + Cost(ctx, i) == m.energy && ContractBalance(ctx, Current(m), data.address) >= 0
    requires data.modIdxBefore == ModificationIndex(Current(m), data.address)
    ensures true == ServeDoes(ctx, m, data, i, Answered(Emit(m1, Regular(data.frame, Resumed(false))), data, Failure))
  {
    var f := data.frame;
    var m2 := Emit(m1, Regular(f, Resumed(false)));
    assert m2.trace == m.trace + [Regular(f, Interruption), Regular(f, Resumed(false))];
    RefusedDoes(ctx, m, m2, data, i);
  }

  /** The module is saved and the events are there. */
  lemma UpgradeAnswered(ctx: Context, m: Machine, m1: Machine, data: InvocationData, i: Interrupt, c: Changes)
    requires m.changes != [] && data.address in ctx.contracts && i.Upgrade? && i.moduleRef in ctx.modules && i.exported
    requires Became(ctx, Current(m), c, NoPayment, data.address, Saved(None, 0, Some(i.moduleRef)))
    requires m1 == m.(changes := WithCurrent(m, c).changes, energy := m1.energy,
                      trace := m.trace + EventsOf(data.frame, i, true))
    requires m.energy == m1.energy + Cost(ctx, i) && ContractBalance(ctx, Current(m), data.address) >= 0
    requires data.modIdxBefore == ModificationIndex(Current(m), data.address)
    ensures true == ServeDoes(ctx, m, data, i, Answered(m1, data, Success(BalanceOf(ctx, m1, data.address))))
  {
    assert Current(m1) == c;
    Replaced(ctx, m, m1, c, NoPayment, data.address, Saved(None, 0, Some(i.moduleRef)));
    Served(ctx, m, m1, data, i, true, Success(BalanceOf(ctx, m1, data.address)));
  }

  lemma UpgradeDone(ctx: Context, m: Machine, m1: Machine, data: InvocationData, i: Interrupt)
    requires m.changes != [] && data.address in ctx.contracts && i.Upgrade? && i.moduleRef in ctx.modules && i.exported
    requires m1 == Emit(m, Regular(data.frame, Interruption)).(energy := m1.energy)
    requires m.energy == m1.energy + 300 + i.lookupCost && m1.energy >= 200
    requires ContractBalance(ctx, Current(m), data.address) >= 0
    requires data.modIdxBefore == ModificationIndex(Current(m), data.address)
    ensures m1.changes != [] && true == ServeDoes(ctx, m, data, i, UpgradeTo(ctx, m1, data, i))
  {
    var f := data.frame;
    var c := SaveModule(ctx, Current(m1), data.address, i.moduleRef);
    var m2 := WithCurrent(m1, c).(energy := m1.energy - INITIALIZE_CREATE_COST);
    UpgradeToIs(ctx, m1, data, i, m2);
    var m3 := Emit(Emit(m2, Regular(f, Upgraded)), Regular(f, Resumed(true)));
    ModuleBecomes(ctx, Current(m), data.address, i.moduleRef);
    assert m3.trace == m.trace + EventsOf(f, i, true);
    UpgradeAnswered(ctx, m, m3, data, i, c);
  }

  lemma UpgradeDoes(ctx: Context, m: Machine, data: InvocationData, i: Interrupt)
    requires Serving(ctx, m, data) && i.Upgrade?
    ensures m.changes != [] && true == ServeDoes(ctx, m, data, i, OnUpgrade(ctx, m, data, i))
  {
    BalancesKnown(ctx, m, data.address);
    if m.energy >= INITIALIZE_BASE_COST {
      var m1 := Emit(m, Regular(data.frame, Interruption)).(energy := m.energy - INITIALIZE_BASE_COST);
      UpgradeIs(ctx, m, data, i, m1);
      if i.moduleRef !in ctx.modules {
        UpgradeRefused(ctx, m, m1, data, i);
      } else if m1.energy >= i.lookupCost {
        var m2 := m1.(energy := m1.energy - i.lookupCost);
        UpgradeLookupIs(ctx, m1, data, i, m2);
        if !i.exported {
          UpgradeRefused(ctx, m, m2, data, i);
        } else if m2.energy >= INITIALIZE_CREATE_COST {
          UpgradeDone(ctx, m, m2, data, i);
        }
      }
    }
  }

  /** The frame can be told the balance of its contract, and knows its modification index. */
  ghost predicate Knows(ctx: Context, m: Machine, data: InvocationData) {
    && m.changes != [] && data.address in ctx.contracts
    && ContractBalance(ctx, Current(m), data.address) >= 0
    && data.modIdxBefore == ModificationIndex(Current(m), data.address)
  }

  lemma ServingKnows(ctx: Context, m: Machine, data: InvocationData)
    requires Serving(ctx, m, data)
    ensures Knows(ctx, m, data)
  {
    BalancesKnown(ctx, m, data.address);
  }

  lemma DebuggedDoes(ctx: Context, m: Machine, m1: Machine, data: InvocationData, i: Interrupt, ok: bool)
    requires Knows(ctx, m, data) && (i.Query? || i.CheckSignature?)
    requires m1 == m.(energy := m1.energy) && m1.energy + Cost(ctx, i) == m.energy
    requires ok == Succeeds(ctx, Current(m), ContractBalance(ctx, Current(m), data.address), i)
    ensures true == ServeDoes(ctx, m, data, i, Debugged(ctx, m1, data, ok))
  {
    var m2 := Emit(m1, Debug(data.frame));
    Unedited(ctx, m, m2, data.address);
    Served(ctx, m, m2, data, i, ok, if ok then Success(BalanceOf(ctx, m2, data.address)) else Failure);
  }

  lemma AnswerKnown(ctx: Context, c: Changes, q: Question)
    requires Balanced(ctx, c, 0)
    ensures Ask(ctx, c, q).Some? <==> HasAnswer(ctx, c, q)
    ensures QuestionCost(ctx, q) == Cost(ctx, Query(q))
  {
    if q.AskModule? { assert q.contract in c.contracts ==> ContractFits(ctx, q.contract, c.contracts[q.contract]); }
  }

  lemma QueryDoes(ctx: Context, m: Machine, data: InvocationData, q: Question)
    requires Serving(ctx, m, data)
    ensures m.changes != [] && true == ServeDoes(ctx, m, data, Query(q), OnQuery(ctx, m, data, q))
  {
    ServingKnows(ctx, m, data);
    CurrentBalanced(ctx, m);
    AnswerKnown(ctx, Current(m), q);
    if m.energy >= QuestionCost(ctx, q) {
      var m1 := m.(energy := m.energy - QuestionCost(ctx, q));
      QueryIs(ctx, m, data, q, m1);
      DebuggedDoes(ctx, m, m1, data, Query(q), Ask(ctx, Current(m), q).Some?);
    }
  }

  lemma PayloadDoes(ctx: Context, m: Machine, m1: Machine, data: InvocationData, i: Interrupt)
    requires Knows(ctx, m, data) && i.CheckSignature? && i.account in ctx.accounts && m.energy >= 200
    requires m1 == m.(energy := m.energy - 200)
    ensures CheckPayload(ctx, m1, data, ReadPayload(i.payload), i.valid) == Panicked
            || true == ServeDoes(ctx, m, data, i, CheckPayload(ctx, m1, data, ReadPayload(i.payload), i.valid))
    ensures CheckPayload(ctx, m1, data, ReadPayload(i.payload), i.valid) == Panicked
            ==> ReadPayload(i.payload).TooShort?
  {
    var p := ReadPayload(i.payload);
    if p.Malformed? {
      DebuggedDoes(ctx, m, m1, data, i, false);
    } else if p.Signed? && m1.energy >= PayloadCost(p) {
      DebuggedDoes(ctx, m, m1.(energy := m1.energy - PayloadCost(p)), data, i, i.valid);
    }
  }

  lemma CheckSignatureDoes(ctx: Context, m: Machine, data: InvocationData, i: Interrupt)
    requires Serving(ctx, m, data) && i.CheckSignature?
    ensures m.changes != [] && true == ServeDoes(ctx, m, data, i, OnCheckSignature(ctx, m, data, i))
  {
    ServingKnows(ctx, m, data);
    if m.energy >= ACCOUNT_KEYS_BASE_COST {
      var m1 := m.(energy := m.energy - ACCOUNT_KEYS_BASE_COST);
      CheckSignatureIs(ctx, m, data, i, m1);
      if i.account !in ctx.accounts {
        DebuggedDoes(ctx, m, m1, data, i, false);
      } else {
        PayloadDoes(ctx, m, m1, data, i);
      }
    }
  }

  lemma EveryInterruptDoes(ctx: Context, m: Machine, data: InvocationData, i: Interrupt)
    requires Serving(ctx, m, data)
    ensures m.changes != [] && true == ServeDoes(ctx, m, data, i, Serve(ctx, m, data, i))
  {
    match i
    case Transfer(to, amount) => TransferDoes(ctx, m, data, to, amount);
    case Call(address, amount) => CallDoes(ctx, m, data, address, amount);
    case Upgrade(_, _, _) => UpgradeDoes(ctx, m, data, i);
    case Query(question) => QueryDoes(ctx, m, data, question);
    case CheckSignature(_, _, _) => CheckSignatureDoes(ctx, m, data, i);
  }

  // ---------------------------------------------------------------- a whole iteration

  /** What is saved before an interrupt and what the interrupt does, taken together. */
  lemma SavedThenServed(ctx: Context, m: Machine, m1: Machine, data: InvocationData, data1: InvocationData, ran: Ran,
                        m': Machine)
    requires ran.Interrupted? && m.changes != [] && m1.changes != [] && data.address in ctx.contracts
    requires Edited(ctx, m, m1, NoPayment, data.address, SavedBy(m, ran))
    requires m1 == m.(changes := m1.changes, energy := m1.energy, nextModIdx := NextIndex(m, ran))
    requires data1 == DataAfter(data, SavedBy(m, ran), Current(m1))
    requires Interrupts(ctx, m1, data1, NOTHING, ran.interrupt, m')
    requires m'.nextModIdx == m1.nextModIdx
    ensures true == Interrupts(ctx, m, data, SavedBy(m, ran), ran.interrupt, m')
  {
    var s, i, a := SavedBy(m, ran), ran.interrupt, data.address;
    if i.Call? && i.address in ctx.contracts {
      var m2 := m1.(changes := m'.changes[..|m1.changes|]);
      EditedTwice(ctx, m, m1, m2, NoPayment, a, s, NOTHING);
      assert Current(m2) == Current(m');
      assert m.(changes := m2.changes).changes == m2.changes;
      assert Edited(ctx, m, m.(changes := m2.changes), NoPayment, a, s);
    } else {
      var ok := Succeeds(ctx, Current(m'), ContractBalance(ctx, Current(m1), a), i);
      EditedTwice(ctx, m, m1, m', PaymentOf(a, i, ok), a, s, NOTHING.(moduleRef := ModuleOfUpgrade(i, ok)));
    }
  }

  /** The frame as it is served, with its state saved. */
  lemma SavedServing(ctx: Context, m: Machine, data: InvocationData, ran: Ran)
    returns (m1: Machine, data1: InvocationData)
    requires ran.Interrupted? && Active(ctx, m, data.frame, data.traceCheckpoint) && data.address in ctx.contracts
    ensures m.changes != [] && true == Serving(ctx, m1, data1)
    ensures OnInterrupted(ctx, m, data, ran) == Serve(ctx, m1, data1, ran.interrupt)
    ensures InterruptPanics(ctx, m, data.address, ran) == ServePanics(ctx, m1, data.address, ran.interrupt)
    ensures true == Edited(ctx, m, m1, NoPayment, data.address, SavedBy(m, ran))
    ensures m1 == m.(changes := m1.changes, energy := m1.energy, nextModIdx := NextIndex(m, ran))
    ensures data1 == DataAfter(data, SavedBy(m, ran), Current(m1)) && Left(m.energy, ran.remaining, m1.energy)
  {
    m1 := SavedOk(ctx, m, data, ran);
    StateSaved(ctx, m, m.(energy := AfterRun(m.energy, ran.remaining)), data, ran.newState);
    RunLeaves(m.energy, ran.remaining);
    data1 := Latest(data, ran.newState).(
      modIdxBefore := if ran.newState.Some? then m.nextModIdx else ModificationIndex(Current(m), data.address));
  }

  lemma InterruptedDoes(ctx: Context, m: Machine, data: InvocationData, ran: Ran)
    requires ran.Interrupted? && Active(ctx, m, data.frame, data.traceCheckpoint) && data.address in ctx.contracts
    ensures m.changes != [] && true == RunDoes(ctx, m, data, ran, OnInterrupted(ctx, m, data, ran))
  {
    var m1, data1 := SavedServing(ctx, m, data, ran);
    EveryInterruptDoes(ctx, m1, data1, ran.interrupt);
    var o := Serve(ctx, m1, data1, ran.interrupt);
    if o.Running? { SavedThenServed(ctx, m, m1, data, data1, ran, o.machine); }
  }

  lemma HandleDoes(ctx: Context, m: Machine, data: InvocationData, ran: Ran)
    requires Active(ctx, m, data.frame, data.traceCheckpoint) && data.address in ctx.contracts
    ensures m.changes != [] && true == RunDoes(ctx, m, data, ran, Handle(ctx, m, data, ran))
  {
    HandleIs(ctx, m, data, ran);
    match ran
    case Finished(_, _) => FinishedDoes(ctx, m, data, ran);
    case Interrupted(_, _, _) => InterruptedDoes(ctx, m, data, ran);
    case Rejected(_) => FailedDoes(ctx, m, data, ran);
    case Trapped(_) => FailedDoes(ctx, m, data, ran);
    case Broken => FailedDoes(ctx, m, data, ran);
    case RanOut =>
  }

  /** Every iteration from a machine in the invariant, whatever the interpreter answers. */
  lemma StepIterates(ctx: Context, m: Machine, o: Oracle)
    requires Inv(ctx, m) && m.work != []
    ensures true == Iterates(ctx, m, o, Begin(ctx, m, o), Step(ctx, m, o))
  {
    var n := |m.work| - 1;
    var m0, item := m.(work := m.work[..n]), m.work[n];
    var b := Begin(ctx, m, o);
    BeginOk(ctx, m, o);
    if item.Initial? {
      InitialOnTop(ctx, m);
      InitialStarts(ctx, m0, item, o);
    } else if Settled(ctx, m) && m.response.Some? {
      CallReturns(ctx, m);
    }
    if b.Ready? { HandleDoes(ctx, b.machine, b.data, o.ran); }
  }

  // ---------------------------------------------------------------- whole runs

  /** Every iteration of a run does what is said of iterations. */
  ghost predicate RunIterates(ctx: Context, ms: seq<Machine>, answers: seq<Oracle>) {
    && |ms| == |answers| + 1
    && forall i {:trigger answers[i]} :: 0 <= i < |answers| ==>
         && ms[i].work != []
         && Iterates(ctx, ms[i], answers[i], Begin(ctx, ms[i], answers[i]), Running(ms[i + 1]))
  }

  lemma {:induction false} RunInv(ctx: Context, ms: seq<Machine>, answers: seq<Oracle>, i: nat)
    requires IsRun(ctx, ms, answers) && true == Inv(ctx, ms[0])
    requires i < |ms|
    ensures true == Inv(ctx, ms[i])
    decreases i
  {
    if i > 0 {
      RunInv(ctx, ms, answers, i - 1);
      StepKeeps(ctx, ms[i - 1], answers[i - 1]);
    }
  }

  lemma EveryStepIterates(ctx: Context, ms: seq<Machine>, answers: seq<Oracle>)
    requires IsRun(ctx, ms, answers) && true == Inv(ctx, ms[0])
    ensures true == RunIterates(ctx, ms, answers)
  {
    forall i | 0 <= i < |answers|
      ensures ms[i].work != []
              && true == Iterates(ctx, ms[i], answers[i], Begin(ctx, ms[i], answers[i]), Running(ms[i + 1]))
    {
      RunInv(ctx, ms, answers, i);
      StepIterates(ctx, ms[i], answers[i]);
    }
  }

  lemma NotStartedSettled(ctx: Context, m: Machine, item: Next, o: Oracle, m1: Machine)
    requires item.Initial? && TopOk(ctx, m, item) && BeginInitial(ctx, m, item, o) == Over(m1)
    ensures true == Settled(ctx, m1)
  {
    BeginInitialOk(ctx, m, item, o);
  }

  lemma OverIsInitial(ctx: Context, m: Machine, item: Next, o: Oracle, m1: Machine)
    requires Over(m1) == if item.Initial? then BeginInitial(ctx, m, item, o) else BeginResume(ctx, m, item)
    ensures item.Initial?
  {
  }

  lemma NotStartedFailed(ctx: Context, m: Machine, item: Next, o: Oracle, m1: Machine)
    requires item.Initial? && m.changes != [] && Exists(ctx, item.sender) && Starts(ctx, m, item, o, Over(m1))
    ensures m1.response == Some(Failure) && m1.history == m.history && |m1.changes| == |m.changes|
    ensures m1.changes[..|m.changes| - 1] == m.changes[..|m.changes| - 1]
  {
  }

  /** A call that is over before it ran has failed, and has worked on the last change set only. */
  lemma NotStarted(ctx: Context, m: Machine, o: Oracle, m1: Machine)
    requires Inv(ctx, m) && m.work != [] && Begin(ctx, m, o) == Over(m1)
    ensures true == Settled(ctx, m1)
    ensures m1.response == Some(Failure) && m1.history == m.history
    ensures m.changes != [] && |m1.changes| == |m.changes|
            && m1.changes[..|m.changes| - 1] == m.changes[..|m.changes| - 1]
  {
    var m0, item := m.(work := m.work[..|m.work| - 1]), m.work[|m.work| - 1];
    OverIsInitial(ctx, m0, item, o, m1);
    InitialOnTop(ctx, m);
    NotStartedSettled(ctx, m0, item, o, m1);
    InitialStarts(ctx, m0, item, o);
    NotStartedFailed(ctx, m0, item, o, m1);
  }

  /** It is undone when its caller resumes, whether or not its amount was moved: the change set that it
      worked on is gone. */
  lemma NotStartedUndone(ctx: Context, m: Machine, o: Oracle, m1: Machine, p: Oracle)
    requires Inv(ctx, m) && m.work != [] && Begin(ctx, m, o) == Over(m1) && m1.work != []
    ensures m.changes != []
    ensures var b := Begin(ctx, m1, p);
            && b.Ready? && b.machine.changes == m.changes[..|m.changes| - 1]
            && |b.machine.history.log| == |m.history.log| + 1
            && b.machine.history.log[|m.history.log|].told == Failure
  {
    NotStarted(ctx, m, o, m1);
    PopCaller(ctx, m1);
  }

  /** How a run ends with its last machine and the answers that are left. */
  ghost predicate Ends(ctx: Context, m: Machine, answers: seq<Oracle>, r: Result) {
    if m.work == [] then
      m.response.Some? && r == Done(m.response.value, m.trace, m.changes, m.energy, m.history)
    else if answers == [] then r == Unfinished
    else
      match r
      case Failed(e) => Iterates(ctx, m, answers[0], Begin(ctx, m, answers[0]), Stopped(e))
      case Crashed => Iterates(ctx, m, answers[0], Begin(ctx, m, answers[0]), Panicked)
      case _ => false
  }

  lemma HaltEnds(ctx: Context, m: Machine, answers: seq<Oracle>)
    requires Halts(ctx, m, answers)
    requires true == Inv(ctx, m)
    ensures true == Ends(ctx, m, answers, RunFrom(ctx, m, answers))
  {
    if m.work == [] {
      EndOk(ctx, m);
    } else if answers != [] {
      StepIterates(ctx, m, answers[0]);
    }
  }

  /** The machines of an invocation: the first has nothing but the call, each iteration does what is said
      of iterations, and the last one ends it. */
  ghost predicate IsInvocation(ctx: Context, energy: nat, sender: Address, address: ContractId, amount: nat,
                               answers: seq<Oracle>, ms: seq<Machine>, r: Result)
  {
    && 0 < |ms| <= |answers| + 1
    && ms[0] == Machine([Initial(sender, address, amount, 0, 0)], [], None, [Changes(map[], map[])], energy, 1,
                        History(0, 1, map[], {}, []))
    && RunIterates(ctx, ms, answers[..|ms| - 1])
    && Ends(ctx, ms[|ms| - 1], answers[|ms| - 1..], r)
  }

  lemma InvocationIterates(ctx: Context, energy: nat, sender: Address, address: ContractId, amount: nat,
                           answers: seq<Oracle>)
    returns (ms: seq<Machine>)
    requires true == ContextOk(ctx)
    requires Exists(ctx, sender) && energy <= ctx.energyReserved
    ensures true == IsInvocation(ctx, energy, sender, address, amount, answers, ms,
                                 Invocation(ctx, energy, sender, address, amount, answers))
  {
    ms := RunHasMachines(ctx, Start(energy, sender, address, amount), answers);
    StartKeeps(ctx, sender, address, amount, energy);
    EveryStepIterates(ctx, ms, answers[..|ms| - 1]);
    RunInv(ctx, ms, answers[..|ms| - 1], |ms| - 1);
    HaltEnds(ctx, ms[|ms| - 1], answers[|ms| - 1..]);
  }

  /** `invoke_entrypoint`, with the answers of the interpreter as a sequence: the result is as promised,
      and that of a run whose iterations do what is said of iterations. */
  method InvokeEntrypoint(ctx: Context, energy: nat, sender: Address, address: ContractId, amount: nat,
                          answers: seq<Oracle>)
    returns (r: Result, ghost ms: seq<Machine>)
    requires true == ContextOk(ctx)
    requires Exists(ctx, sender) && energy <= ctx.energyReserved
    ensures r == Invocation(ctx, energy, sender, address, amount, answers)
    ensures true == ResultOk(ctx, energy, InvocationPanics(ctx, energy, sender, address, amount, answers), r)
    ensures true == IsInvocation(ctx, energy, sender, address, amount, answers, ms, r)
  {
    var m := Start(energy, sender, address, amount);
    InvocationOk(ctx, energy, sender, address, amount, answers);
    ms := InvocationIterates(ctx, energy, sender, address, amount, answers);
    ghost var start := m;
    var i := 0;
    while m.work != []
      invariant 0 <= i <= |answers|
      invariant RunFrom(ctx, m, answers[i..]) == RunFrom(ctx, start, answers)
      decreases |answers| - i
    {
      if i == |answers| {
        return Unfinished, ms;
      }
      assert answers[i..][0] == answers[i] && answers[i..][1..] == answers[i + 1..];
      match Step(ctx, m, answers[i]) {
        case Running(next) => m := next;
        case Stopped(error) => return Failed(error), ms;
        case Panicked => return Crashed, ms;
      }
      i := i + 1;
    }
    r := Ending(m);
  }
}
