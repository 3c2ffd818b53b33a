/** What a resumed contract may rely on: the modification index tells it whether its state has
    changed, as long as every failed call was undone. */
module InvocationStates {
  import opened Common
  import opened Amounts
  import opened ChangeSets
  import opened InvocationMachine
  import opened InvocationProofs

  /** No call that failed had one inside that succeeded, so all failed calls were undone. */
  ghost predicate AllUndone(h: History) {
    forall i :: 0 <= i < |h.log| ==> h.log[i].told.Success? || h.log[i].nested == 0
  }

  // ---------------------------------------------------------------- change sets and indices

  /** All modification indices are below `n`. */
  ghost predicate Below(ctx: Context, c: Changes, n: nat) {
    forall a :: a in ctx.contracts ==> ModificationIndex(c, a) < n
  }

  /** From `c` to `e`, only states saved from index `n` on are different. */
  ghost predicate Since(ctx: Context, c: Changes, e: Changes, n: nat) {
    forall a :: a in ctx.contracts ==>
      ModificationIndex(e, a) >= n
        || (ModificationIndex(e, a) == ModificationIndex(c, a) && StateOf(ctx, e, a) == StateOf(ctx, c, a))
  }

  lemma SinceTransitive(ctx: Context, c: Changes, d: Changes, e: Changes, n: nat, k: nat)
    requires Since(ctx, c, d, n) && Since(ctx, d, e, k) && n <= k
    ensures Since(ctx, c, e, n)
  {
  }

  // ---------------------------------------------------------------- the work stack

  ghost function Saved(item: Next): Changes
    requires item.Resume? && item.call.saved != []
  {
    item.call.saved[|item.call.saved| - 1]
  }

  /** A caller: the change set of its checkpoint has the state it will go on with. */
  ghost predicate CallerFresh(ctx: Context, item: Next) {
    && item.Resume? && item.response.None? && item.call.saved != [] && item.data.address in ctx.contracts
    && Below(ctx, Saved(item), item.call.nextModIdx)
    && ModificationIndex(Saved(item), item.data.address) == item.data.modIdxBefore
    && StateOf(ctx, Saved(item), item.data.address) == item.data.state
  }

  /** What lies between the call of `item` and a later change set `c` with next index `n`. */
  ghost predicate Later(ctx: Context, item: Next, c: Changes, n: nat)
    requires item.Resume? && item.call.saved != []
  {
    item.call.nextModIdx <= n && Since(ctx, Saved(item), c, item.call.nextModIdx)
  }

  ghost predicate StackFresh(ctx: Context, work: seq<Next>) {
    && (forall i :: 0 <= i < |work| ==> CallerFresh(ctx, work[i]))
    && (forall i, j {:trigger work[i], work[j]} :: 0 <= i < |work| && j == i + 1 < |work| ==>
        Linked(ctx, work[i], work[j]))
  }

  /** A caller and the one it called. */
  ghost predicate Linked(ctx: Context, item: Next, next: Next) {
    && item.Resume? && item.call.saved != [] && next.Resume? && next.call.saved != []
    && Later(ctx, item, Saved(next), next.call.nextModIdx)
    && next.data.nextModIdxCheckpoint == item.call.nextModIdx
  }

  /** The change set `c` on top of the callers, with next index `n`. */
  ghost predicate TopFresh(ctx: Context, work: seq<Next>, c: Changes, n: nat) {
    && StackFresh(ctx, work) && Below(ctx, c, n)
    && (work != [] ==> Later(ctx, work[|work| - 1], c, n))
  }

  /** The next index is the one of the last call. */
  ghost predicate AtCall(work: seq<Next>, n: nat) {
    work != [] ==> work[|work| - 1].Resume? && n == work[|work| - 1].call.nextModIdx
  }

  /** A frame runs with its actual state. */
  ghost predicate RunsFresh(ctx: Context, work: seq<Next>, c: Changes, n: nat, data: InvocationData) {
    && data.address in ctx.contracts && data.state == StateOf(ctx, c, data.address)
    && TopFresh(ctx, work, c, n) && AtCall(work, data.nextModIdxCheckpoint)
  }

  ghost predicate Fresh(ctx: Context, m: Machine)
    requires m.changes != []
  {
    var n := |m.work| - 1;
    if m.work != [] && m.work[n].Initial? then
      TopFresh(ctx, m.work[..n], Current(m), m.nextModIdx) && AtCall(m.work[..n], m.nextModIdx)
    else if m.work != [] && m.work[n].response.Some? then
      RunsFresh(ctx, m.work[..n], Current(m), m.nextModIdx, m.work[n].data)
    else
      && m.response.Some?
      && if m.response.value.Success? then TopFresh(ctx, m.work, Current(m), m.nextModIdx)
         else StackFresh(ctx, m.work) && AtCall(m.work, m.nextModIdx)
  }

  ghost predicate FreshInv(ctx: Context, m: Machine) {
    m.changes != [] && (AllUndone(m.history) ==> Fresh(ctx, m))
  }

  // ---------------------------------------------------------------- changing the change set

  /** Moving balances or a module changes no state. */
  lemma SameStatesFresh(ctx: Context, work: seq<Next>, c: Changes, e: Changes, n: nat)
    requires TopFresh(ctx, work, c, n)
    requires forall a :: a in ctx.contracts ==>
             StateOf(ctx, e, a) == StateOf(ctx, c, a) && ModificationIndex(e, a) == ModificationIndex(c, a)
    ensures TopFresh(ctx, work, e, n)
  {
  }

  /** A state is saved under the next index. */
  lemma SaveFresh(ctx: Context, work: seq<Next>, c: Changes, n: nat, data: InvocationData, state: ContractState)
    requires RunsFresh(ctx, work, c, n, data)
    ensures RunsFresh(ctx, work, SaveState(ctx, c, data.address, state, n), n + 1, data.(state := state))
  {
    var e := SaveState(ctx, c, data.address, state, n);
    forall a | a in ctx.contracts
      ensures a != data.address ==>
              ModificationIndex(e, a) == ModificationIndex(c, a) && StateOf(ctx, e, a) == StateOf(ctx, c, a)
      ensures a == data.address ==> ModificationIndex(e, a) == n && StateOf(ctx, e, a) == state
    {
    }
  }

  /** A call puts its caller on the stack. */
  lemma CallFresh(ctx: Context, work: seq<Next>, c: Changes, n: nat, data: InvocationData, item: Next)
    requires RunsFresh(ctx, work, c, n, data) && data.modIdxBefore == ModificationIndex(c, data.address)
    requires item.Resume? && item.response.None? && item.data == data && item.call.saved != [] && Saved(item) == c
             && item.call.nextModIdx == n
    ensures TopFresh(ctx, work + [item], c, n) && AtCall(work + [item], n)
  {
    var w := work + [item];
    forall i | 0 <= i < |w| ensures CallerFresh(ctx, w[i]) {
      if i < |work| { assert w[i] == work[i]; }
    }
    forall i, j | 0 <= i < |w| && j == i + 1 < |w| ensures Linked(ctx, w[i], w[j]) {
      assert w[i] == work[i];
      if j < |work| { assert w[j] == work[j]; }
    }
  }

  // ---------------------------------------------------------------- starting and resuming

  lemma PopFresh(ctx: Context, work: seq<Next>)
    requires StackFresh(ctx, work) && work != []
    ensures var n := |work| - 1;
            && StackFresh(ctx, work[..n]) && CallerFresh(ctx, work[n])
            && TopFresh(ctx, work[..n], Saved(work[n]), work[n].call.nextModIdx)
            && AtCall(work[..n], work[n].data.nextModIdxCheckpoint)
  {
    var n := |work| - 1;
    var w := work[..n];
    assert forall i :: 0 <= i < n ==> w[i] == work[i];
    assert CallerFresh(ctx, work[n]);
    if n > 0 { assert Linked(ctx, work[n - 1], work[n]); }
  }

  /** After a call that succeeded: an unchanged index means an unchanged state. */
  lemma ReturnSuccessFresh(ctx: Context, work: seq<Next>, c: Changes, n: nat)
    requires TopFresh(ctx, work, c, n) && work != []
    ensures var k := |work| - 1;
            var data := work[k].data;
            && CallerFresh(ctx, work[k]) && TopFresh(ctx, work[..k], c, n)
               && AtCall(work[..k], data.nextModIdxCheckpoint)
            && (ModificationIndex(c, data.address) == data.modIdxBefore ==> data.state == StateOf(ctx, c, data.address))
  {
    var k := |work| - 1;
    PopFresh(ctx, work);
    if k > 0 {
      assert work[..k][k - 1] == work[k - 1] && Linked(ctx, work[k - 1], work[k]);
      SinceTransitive(ctx, Saved(work[k - 1]), Saved(work[k]), c, work[k - 1].call.nextModIdx, work[k].call.nextModIdx);
    }
  }

  /** The frame that is to run has its actual state, if all failed calls were undone. */
  ghost predicate ReadyFresh(ctx: Context, m: Machine, data: InvocationData) {
    && m.changes != [] && data.address in ctx.contracts
    && (AllUndone(m.history) ==> RunsFresh(ctx, m.work, Current(m), m.nextModIdx, data))
  }

  ghost predicate BegunFresh(ctx: Context, b: Begun) {
    match b
    case Ready(m, data) => ReadyFresh(ctx, m, data)
    case Over(m) => FreshInv(ctx, m)
    case Halt(_) => true
  }

  /** The top of the stack at a call: what an entrypoint starts from. */
  ghost predicate EntryFresh(ctx: Context, m: Machine) {
    m.changes != [] && (AllUndone(m.history) ==>
                        TopFresh(ctx, m.work, Current(m), m.nextModIdx) && AtCall(m.work, m.nextModIdx))
  }

  /** Neither the trace, the energy nor a response matters. */
  ghost predicate SameParts(m: Machine, m': Machine) {
    m'.work == m.work && m'.changes == m.changes && m'.nextModIdx == m.nextModIdx && m'.history == m.history
  }

  lemma SamePartsReady(ctx: Context, m: Machine, m': Machine, data: InvocationData)
    requires ReadyFresh(ctx, m, data) && SameParts(m, m')
    ensures true == ReadyFresh(ctx, m', data)
  {
    assert Current(m') == Current(m);
  }

  lemma SamePartsEntry(ctx: Context, m: Machine, m': Machine)
    requires EntryFresh(ctx, m) && SameParts(m, m')
    ensures true == EntryFresh(ctx, m')
  {
    assert Current(m') == Current(m);
  }

  lemma NoTopWaits(ctx: Context, m: Machine)
    requires m.changes != [] && StackFresh(ctx, m.work) && m.response.Some?
    ensures Fresh(ctx, m) <==>
              if m.response.value.Success? then TopFresh(ctx, m.work, Current(m), m.nextModIdx)
              else AtCall(m.work, m.nextModIdx)
  {
    if m.work != [] { assert CallerFresh(ctx, m.work[|m.work| - 1]); }
  }

  lemma FailEarlyFresh(ctx: Context, m: Machine)
    requires EntryFresh(ctx, m)
    ensures true == BegunFresh(ctx, FailEarly(m))
  {
    var m' := m.(response := Some(Failure));
    if AllUndone(m.history) { NoTopWaits(ctx, m'); }
  }

  lemma EnterFresh(ctx: Context, m: Machine, item: Next, o: Oracle)
    requires item.Initial? && EntryFresh(ctx, m)
    ensures true == BegunFresh(ctx, Enter(ctx, m, item, o))
  {
    FailEarlyFresh(ctx, m);
  }

  lemma SameStatesEntry(ctx: Context, m: Machine, c: Changes)
    requires EntryFresh(ctx, m) && SameStates(ctx, Current(m), c)
    ensures true == EntryFresh(ctx, WithCurrent(m, c))
  {
    if AllUndone(m.history) { SameStatesFresh(ctx, m.work, Current(m), c, m.nextModIdx); }
  }

  lemma AfterMoveFresh(ctx: Context, m: Machine, item: Next, o: Oracle, r: TransferResult)
    requires item.Initial? && EntryFresh(ctx, m) && (r.Moved? ==> SameStates(ctx, Current(m), r.changes))
    ensures true == BegunFresh(ctx, AfterMove(ctx, m, item, o, r))
  {
    FailEarlyFresh(ctx, m);
    if r.Moved? {
      SameStatesEntry(ctx, m, r.changes);
      EnterFresh(ctx, WithCurrent(m, r.changes), item, o);
    }
  }

  lemma MoveAmountStates(ctx: Context, m: Machine, sender: Address, address: ContractId, amount: nat)
    requires ContextOk(ctx) && m.changes != [] && Balanced(ctx, Current(m), 0) && Exists(ctx, sender)
    ensures var r := MoveAmount(ctx, m, sender, address, amount); r.Moved? ==> SameStates(ctx, Current(m), r.changes)
  {
    match sender
    case Account(a) => AccountToContract(ctx, Current(m), amount, a, address);
    case Contract(a) => ContractToContract(ctx, Current(m), amount, a, address);
  }

  lemma BeginInitialFresh(ctx: Context, m: Machine, item: Next, o: Oracle)
    requires item.Initial? && EntryFresh(ctx, m)
    requires m.energy >= UPDATE_BASE_COST ==>
               var m1 := m.(energy := m.energy - UPDATE_BASE_COST);
               var r := MoveAmount(ctx, m1, item.sender, item.address, item.amount);
               r.Moved? ==> SameStates(ctx, Current(m1), r.changes)
    ensures true == BegunFresh(ctx, BeginInitial(ctx, m, item, o))
  {
    if m.energy >= UPDATE_BASE_COST {
      var m1 := m.(energy := m.energy - UPDATE_BASE_COST);
      SamePartsEntry(ctx, m, m1);
      StartsByMoving(ctx, m, item, o, m1);
      AfterMoveFresh(ctx, m1, item, o, MoveAmount(ctx, m1, item.sender, item.address, item.amount));
    }
  }

  lemma UndoneBefore(h: History, h': History, r: Return)
    requires h'.log == h.log + [r] && AllUndone(h')
    ensures AllUndone(h) && (r.told.Success? || r.nested == 0)
  {
    assert forall i :: 0 <= i < |h.log| ==> h'.log[i] == h.log[i];
    assert h'.log[|h.log|] == r;
  }

  lemma ResumeSuccessFresh(ctx: Context, m: Machine, m0: Machine, item: Next)
    requires m.work != [] && item == m.work[|m.work| - 1] && m0 == m.(work := m.work[..|m.work| - 1])
    requires m.response.Some? && m.response.value.Success? && FreshInv(ctx, m)
    requires item.Resume? && item.response.None? && item.data.address in ctx.contracts
    ensures true == BegunFresh(ctx, ReturnSuccess(ctx, m0, item))
  {
    var m1 := ReturnSuccess(ctx, m0, item).machine;
    if AllUndone(m1.history) {
      UndoneBefore(m.history, m1.history, m1.history.log[|m.history.log|]);
      ReturnSuccessFresh(ctx, m.work, Current(m), m.nextModIdx);
    }
  }

  /** With no success inside, the change sets after the failure are those at the call. */
  lemma RestoredExactly(ctx: Context, m: Machine)
    requires Settled(ctx, m) && m.work != []
    ensures var item := m.work[|m.work| - 1];
            item.Resume? && (m.history.succeeded == item.call.succeeded ==>
                             m.changes[..|m.changes| - 1] == item.call.saved)
  {
    assert CallerOk(ctx, m, |m.work| - 1);
  }

  lemma ResumeFailureFresh(ctx: Context, m: Machine, m0: Machine, item: Next)
    requires m.work != [] && item == m.work[|m.work| - 1] && m0 == m.(work := m.work[..|m.work| - 1])
    requires m.response.Some? && m.response.value.Failure? && FreshInv(ctx, m)
    requires item.Resume? && item.response.None? && item.data.address in ctx.contracts && |m.changes| > 1
    requires m.history.succeeded == item.call.succeeded ==> m.changes[..|m.changes| - 1] == item.call.saved
    ensures true == BegunFresh(ctx, ReturnFailure(m0, item))
  {
    var m1 := ReturnFailure(m0, item).machine;
    if AllUndone(m1.history) {
      UndoneBefore(m.history, m1.history, m1.history.log[|m.history.log|]);
      PopFresh(ctx, m.work);
    }
  }

  lemma BeginReturnFresh(ctx: Context, m: Machine, m0: Machine, item: Next)
    requires m.work != [] && item == m.work[|m.work| - 1] && m0 == m.(work := m.work[..|m.work| - 1])
    requires Settled(ctx, m) && m.response.Some? && true == FreshInv(ctx, m)
    ensures item.Resume? && true == BegunFresh(ctx, BeginResume(ctx, m0, item))
  {
    assert CallerOk(ctx, m, |m.work| - 1);
    if m.response.value.Success? {
      ResumeSuccessFresh(ctx, m, m0, item);
    } else {
      RestoredExactly(ctx, m);
      ResumeFailureFresh(ctx, m, m0, item);
    }
  }

  lemma BeginCallFresh(ctx: Context, m: Machine, item: Next, o: Oracle)
    requires item.Initial? && TopOk(ctx, m, item) && true == EntryFresh(ctx, m)
    ensures true == BegunFresh(ctx, BeginInitial(ctx, m, item, o))
  {
    if m.energy >= UPDATE_BASE_COST {
      var m1 := m.(energy := m.energy - UPDATE_BASE_COST);
      CurrentBalanced(ctx, m1);
      MoveAmountStates(ctx, m1, item.sender, item.address, item.amount);
    }
    BeginInitialFresh(ctx, m, item, o);
  }

  lemma BeginFresh(ctx: Context, m: Machine, o: Oracle)
    requires true == Inv(ctx, m)
    requires true == FreshInv(ctx, m)
    requires m.work != []
    ensures true == BegunFresh(ctx, Begin(ctx, m, o))
  {
    var n := |m.work| - 1;
    var m0, item := m.(work := m.work[..n]), m.work[n];
    if Settled(ctx, m) && m.response.Some? {
      BeginReturnFresh(ctx, m, m0, item);
    } else if item.Initial? {
      BeginCallFresh(ctx, m0, item, o);
    }
  }

  // ---------------------------------------------------------------- after the interpreter

  ghost predicate OutcomeFresh(ctx: Context, o: Outcome) { o.Running? ==> FreshInv(ctx, o.machine) }

  lemma AnsweredFresh(ctx: Context, m: Machine, data: InvocationData, response: Response)
    requires ReadyFresh(ctx, m, data)
    ensures true == OutcomeFresh(ctx, Answered(m, data, response))
  {
    assert Answered(m, data, response).machine.work[..|m.work|] == m.work;
  }

  lemma SaveIfChangedFresh(ctx: Context, m: Machine, data: InvocationData, newState: Option<ContractState>)
    requires ReadyFresh(ctx, m, data)
    ensures true == ReadyFresh(ctx, SaveIfChanged(ctx, m, data, newState), Latest(data, newState))
  {
    if newState.Some? {
      var c := SaveState(ctx, Current(m), data.address, newState.value, m.nextModIdx);
      assert Current(WithCurrent(m, c)) == c;
      if AllUndone(m.history) { SaveFresh(ctx, m.work, Current(m), m.nextModIdx, data, newState.value); }
    }
  }

  /** The modification index that an interrupted frame remembers is that of its state. */
  lemma RemembersIndex(ctx: Context, m: Machine, data: InvocationData, newState: Option<ContractState>)
    requires m.changes != [] && data.address in ctx.contracts
    ensures ModificationIndex(Current(SaveIfChanged(ctx, m, data, newState)), data.address) ==
            if newState.Some? then m.nextModIdx else ModificationIndex(Current(m), data.address)
  {
  }

  lemma FinishedFresh(ctx: Context, m: Machine, data: InvocationData, ran: Ran)
    requires ReadyFresh(ctx, m, data) && ran.Finished?
    ensures true == OutcomeFresh(ctx, OnFinished(ctx, m, data, ran))
  {
    var m1 := Emit(m.(energy := AfterRun(m.energy, ran.remaining)), Regular(data.frame, Updated));
    SamePartsReady(ctx, m, m1, data);
    SaveIfChangedFresh(ctx, m1, data, ran.newState);
    if AllUndone(m.history) { NoTopWaits(ctx, OnFinished(ctx, m, data, ran).machine); }
  }

  lemma FailedFresh(ctx: Context, m: Machine, data: InvocationData, energy: nat)
    requires ReadyFresh(ctx, m, data)
    ensures true == OutcomeFresh(ctx, OnFailed(m, data, energy))
  {
    if AllUndone(m.history) && OnFailed(m, data, energy).Running? {
      NoTopWaits(ctx, OnFailed(m, data, energy).machine);
    }
  }

  lemma SameStatesReady(ctx: Context, m: Machine, data: InvocationData, c: Changes)
    requires ReadyFresh(ctx, m, data)
    requires forall a :: a in ctx.contracts ==>
             StateOf(ctx, c, a) == StateOf(ctx, Current(m), a)
               && ModificationIndex(c, a) == ModificationIndex(Current(m), a)
    ensures ReadyFresh(ctx, WithCurrent(m, c), data)
  {
    if AllUndone(m.history) { SameStatesFresh(ctx, m.work, Current(m), c, m.nextModIdx); }
  }

  lemma TransferFresh(ctx: Context, m: Machine, data: InvocationData, to: AccountId, amount: nat)
    requires ReadyFresh(ctx, m, data)
    requires var r := TransferContractToAccount(ctx, Current(m), amount, data.address, to);
             r.Moved? ==> SameStates(ctx, Current(m), r.changes)
    ensures true == OutcomeFresh(ctx, OnTransfer(ctx, m, data, to, amount))
  {
    var m1 := Emit(m, Regular(data.frame, Interruption));
    SamePartsReady(ctx, m, m1, data);
    assert Current(m1) == Current(m);
    AfterTransferFresh(ctx, m1, data, TransferContractToAccount(ctx, Current(m), amount, data.address, to));
  }

  lemma AfterTransferFresh(ctx: Context, m: Machine, data: InvocationData, r: TransferResult)
    requires ReadyFresh(ctx, m, data) && (r.Moved? ==> SameStates(ctx, Current(m), r.changes))
    ensures true == OutcomeFresh(ctx, AfterTransfer(ctx, m, data, r))
  {
    NotPaidFresh(ctx, m, data);
    if r.Moved? {
      SameStatesReady(ctx, m, data, r.changes);
      PaidFresh(ctx, WithCurrent(m, r.changes), data, r.balance);
    }
  }

  lemma PaidFresh(ctx: Context, m: Machine, data: InvocationData, balance: nat)
    requires ReadyFresh(ctx, m, data)
    ensures true == OutcomeFresh(ctx, Paid(ctx, m, data, balance))
  {
    if m.energy >= ctx.simpleTransferCost {
      var m1 := Emit(Emit(m, Regular(data.frame, Transferred)), Regular(data.frame, Resumed(true)));
      var m2 := m1.(energy := m1.energy - ctx.simpleTransferCost);
      SamePartsReady(ctx, m, m2, data);
      AnsweredFresh(ctx, m2, data, Success(balance));
    }
  }

  lemma NotPaidFresh(ctx: Context, m: Machine, data: InvocationData)
    requires ReadyFresh(ctx, m, data)
    ensures true == OutcomeFresh(ctx, NotPaid(ctx, m, data))
  {
    if m.energy >= ctx.simpleTransferCost {
      var m1 := Emit(m, Regular(data.frame, Resumed(false)));
      var m2 := m1.(energy := m1.energy - ctx.simpleTransferCost);
      SamePartsReady(ctx, m, m2, data);
      AnsweredFresh(ctx, m2, data, Failure);
    }
  }

  lemma CalledFresh(ctx: Context, m: Machine, data: InvocationData, address: ContractId, amount: nat)
    requires ReadyFresh(ctx, m, data) && data.modIdxBefore == ModificationIndex(Current(m), data.address)
    ensures true == OutcomeFresh(ctx, OnCall(ctx, m, data, address, amount))
  {
    var m1 := Emit(m, Regular(data.frame, Interruption));
    if address in ctx.contracts {
      var item := Resume(data, None, CallRecord(m1.changes, m1.history.succeeded, m1.nextModIdx));
      var m' := OnCall(ctx, m, data, address, amount).machine;
      assert m'.work[..|m'.work| - 1] == m1.work + [item];
      if AllUndone(m.history) { CallFresh(ctx, m.work, Current(m), m.nextModIdx, data, item); }
    } else {
      AnsweredFresh(ctx, Emit(m1, Regular(data.frame, Resumed(false))), data, Failure);
    }
  }

  lemma RefusedFresh(ctx: Context, m: Machine, data: InvocationData)
    requires ReadyFresh(ctx, m, data)
    ensures true == OutcomeFresh(ctx, Answered(Emit(m, Regular(data.frame, Resumed(false))), data, Failure))
  {
    var m1 := Emit(m, Regular(data.frame, Resumed(false)));
    SamePartsReady(ctx, m, m1, data);
    AnsweredFresh(ctx, m1, data, Failure);
  }

  lemma UpgradeFresh(ctx: Context, m: Machine, data: InvocationData, i: Interrupt)
    requires ReadyFresh(ctx, m, data) && i.Upgrade?
    ensures true == OutcomeFresh(ctx, OnUpgrade(ctx, m, data, i))
  {
    var m1 := Emit(m, Regular(data.frame, Interruption));
    if m1.energy >= INITIALIZE_BASE_COST {
      var m2 := m1.(energy := m1.energy - INITIALIZE_BASE_COST);
      SamePartsReady(ctx, m, m2, data);
      UpgradeLookupFresh(ctx, m2, data, i);
    }
  }

  lemma UpgradeLookupFresh(ctx: Context, m: Machine, data: InvocationData, i: Interrupt)
    requires ReadyFresh(ctx, m, data) && i.Upgrade?
    ensures true == OutcomeFresh(ctx, UpgradeLookup(ctx, m, data, i))
  {
    RefusedFresh(ctx, m, data);
    if m.energy >= i.lookupCost {
      var m1 := m.(energy := m.energy - i.lookupCost);
      SamePartsReady(ctx, m, m1, data);
      UpgradeToFresh(ctx, m1, data, i);
    }
  }

  lemma UpgradeToFresh(ctx: Context, m: Machine, data: InvocationData, i: Interrupt)
    requires ReadyFresh(ctx, m, data) && i.Upgrade?
    ensures true == OutcomeFresh(ctx, UpgradeTo(ctx, m, data, i))
  {
    RefusedFresh(ctx, m, data);
    if m.energy >= INITIALIZE_CREATE_COST {
      var c := SaveModule(ctx, Current(m), data.address, i.moduleRef);
      SameStatesReady(ctx, m, data, c);
      var m1 := WithCurrent(m, c).(energy := m.energy - INITIALIZE_CREATE_COST);
      SamePartsReady(ctx, WithCurrent(m, c), m1, data);
      AfterUpgradeFresh(ctx, m1, data);
    }
  }

  lemma AfterUpgradeFresh(ctx: Context, m: Machine, data: InvocationData)
    requires ReadyFresh(ctx, m, data)
    ensures true == OutcomeFresh(ctx, AfterUpgrade(ctx, m, data))
  {
    var m1 := Emit(Emit(m, Regular(data.frame, Upgraded)), Regular(data.frame, Resumed(true)));
    SamePartsReady(ctx, m, m1, data);
    AnsweredFresh(ctx, m1, data, Success(BalanceOf(ctx, m1, data.address)));
  }

  lemma DebuggedFresh(ctx: Context, m: Machine, data: InvocationData, ok: bool)
    requires ReadyFresh(ctx, m, data)
    ensures true == OutcomeFresh(ctx, Debugged(ctx, m, data, ok))
  {
    var m1 := Emit(m, Debug(data.frame));
    SamePartsReady(ctx, m, m1, data);
    AnsweredFresh(ctx, m1, data, if ok then Success(BalanceOf(ctx, m1, data.address)) else Failure);
  }

  lemma QueryFresh(ctx: Context, m: Machine, data: InvocationData, q: Question)
    requires ReadyFresh(ctx, m, data)
    ensures true == OutcomeFresh(ctx, OnQuery(ctx, m, data, q))
  {
    if m.energy >= QuestionCost(ctx, q) {
      var m1 := m.(energy := m.energy - QuestionCost(ctx, q));
      SamePartsReady(ctx, m, m1, data);
      DebuggedFresh(ctx, m1, data, Ask(ctx, Current(m1), q).Some?);
    }
  }

  lemma CheckPayloadFresh(ctx: Context, m: Machine, data: InvocationData, payload: Payload, valid: bool)
    requires ReadyFresh(ctx, m, data)
    ensures true == OutcomeFresh(ctx, CheckPayload(ctx, m, data, payload, valid))
  {
    match payload
    case Malformed => DebuggedFresh(ctx, m, data, false);
    case TooShort =>
    case Signed(signed, signatures) =>
      var cost := VerifyCost(CountSignatures(signatures), |signed|);
      if m.energy >= cost {
        var m1 := m.(energy := m.energy - cost);
        SamePartsReady(ctx, m, m1, data);
        DebuggedFresh(ctx, m1, data, valid);
      }
  }

  lemma CheckSignatureFresh(ctx: Context, m: Machine, data: InvocationData, i: Interrupt)
    requires ReadyFresh(ctx, m, data) && i.CheckSignature?
    ensures true == OutcomeFresh(ctx, OnCheckSignature(ctx, m, data, i))
  {
    if m.energy >= ACCOUNT_KEYS_BASE_COST {
      var m1 := m.(energy := m.energy - ACCOUNT_KEYS_BASE_COST);
      SamePartsReady(ctx, m, m1, data);
      CheckSignatureIs(ctx, m, data, i, m1);
      DebuggedFresh(ctx, m1, data, false);
      CheckPayloadFresh(ctx, m1, data, ReadPayload(i.payload), i.valid);
    }
  }

  lemma SaveIfChangedBalanced(ctx: Context, m: Machine, data: InvocationData, newState: Option<ContractState>)
    requires m.changes != [] && data.address in ctx.contracts && Balanced(ctx, Current(m), 0)
    ensures true == Balanced(ctx, Current(SaveIfChanged(ctx, m, data, newState)), 0)
  {
    if newState.Some? { SavedStateKeepsBalances(ctx, Current(m), data.address, newState.value, m.nextModIdx, 0); }
  }

  lemma InterruptedFresh(ctx: Context, m: Machine, data: InvocationData, ran: Ran)
    requires ReadyFresh(ctx, m, data) && ran.Interrupted? && ContextOk(ctx) && Balanced(ctx, Current(m), 0)
    ensures true == OutcomeFresh(ctx, OnInterrupted(ctx, m, data, ran))
  {
    var m0 := m.(energy := AfterRun(m.energy, ran.remaining));
    SamePartsReady(ctx, m, m0, data);
    assert Current(m0) == Current(m);
    SaveIfChangedFresh(ctx, m0, data, ran.newState);
    SaveIfChangedBalanced(ctx, m0, data, ran.newState);
    RemembersIndex(ctx, m0, data, ran.newState);
    var data1 := Latest(data, ran.newState).(
      modIdxBefore := if ran.newState.Some? then m.nextModIdx else ModificationIndex(Current(m), data.address));
    InterruptFresh(ctx, SaveIfChanged(ctx, m0, data, ran.newState), data1, ran.interrupt);
  }

  lemma InterruptFresh(ctx: Context, m: Machine, data: InvocationData, i: Interrupt)
    requires ReadyFresh(ctx, m, data) && data.modIdxBefore == ModificationIndex(Current(m), data.address)
    requires ContextOk(ctx) && Balanced(ctx, Current(m), 0)
    ensures i.Transfer? ==> OutcomeFresh(ctx, OnTransfer(ctx, m, data, i.to, i.amount))
    ensures i.Call? ==> OutcomeFresh(ctx, OnCall(ctx, m, data, i.address, i.amount))
    ensures i.Upgrade? ==> OutcomeFresh(ctx, OnUpgrade(ctx, m, data, i))
    ensures i.Query? ==> OutcomeFresh(ctx, OnQuery(ctx, m, data, i.question))
    ensures i.CheckSignature? ==> OutcomeFresh(ctx, OnCheckSignature(ctx, m, data, i))
  {
    match i
    case Transfer(to, amount) =>
      ContractToAccount(ctx, Current(m), amount, data.address, to);
      TransferFresh(ctx, m, data, to, amount);
    case Call(address, amount) => CalledFresh(ctx, m, data, address, amount);
    case Upgrade(_, _, _) => UpgradeFresh(ctx, m, data, i);
    case Query(question) => QueryFresh(ctx, m, data, question);
    case CheckSignature(_, _, _) => CheckSignatureFresh(ctx, m, data, i);
  }

  lemma HandleFresh(ctx: Context, m: Machine, data: InvocationData, ran: Ran)
    requires ReadyFresh(ctx, m, data) && ContextOk(ctx) && Balanced(ctx, Current(m), 0)
    ensures true == OutcomeFresh(ctx, Handle(ctx, m, data, ran))
  {
    match ran
    case Finished(_, _) => FinishedFresh(ctx, m, data, ran);
    case Interrupted(_, _, _) => InterruptedFresh(ctx, m, data, ran);
    case Rejected(remaining) => FailedFresh(ctx, m, data, AfterRun(m.energy, remaining));
    case Trapped(remaining) => FailedFresh(ctx, m, data, AfterRun(m.energy, remaining));
    case Broken => FailedFresh(ctx, m, data, 0);
    case RanOut =>
  }

  lemma AfterFresh(ctx: Context, energy: nat, panics: bool, b: Begun, ran: Ran)
    requires BegunOk(ctx, energy, panics, b) && BegunFresh(ctx, b)
    ensures true == OutcomeFresh(ctx, After(ctx, b, ran))
  {
    if b.Ready? {
      CurrentBalanced(ctx, b.machine);
      HandleFresh(ctx, b.machine, b.data, ran);
    }
  }

  lemma StepFresh(ctx: Context, m: Machine, o: Oracle)
    requires Inv(ctx, m) && FreshInv(ctx, m) && m.work != []
    ensures true == OutcomeFresh(ctx, Step(ctx, m, o))
  {
    var n := |m.work| - 1;
    BeginOk(ctx, m, o);
    BeginFresh(ctx, m, o);
    AfterFresh(ctx, m.energy, StartOverpays(ctx, m.(work := m.work[..n]), m.work[n]), Begin(ctx, m, o), o.ran);
  }

  // ---------------------------------------------------------------- whole runs

  lemma StartFresh(ctx: Context, sender: Address, address: ContractId, amount: nat, energy: nat)
    ensures FreshInv(ctx, Start(energy, sender, address, amount))
  {
    var m := Start(energy, sender, address, amount);
    assert m.work[..0] == [];
  }

  /** What every iteration keeps. */
  ghost predicate Kept(ctx: Context, m: Machine) { Inv(ctx, m) && FreshInv(ctx, m) }

  /** What holds of the first machine of a run, and of each machine after one of which it holds,
      holds of all. */
  lemma {:induction false} RunInduction(p: Machine -> bool, ms: seq<Machine>, i: nat)
    requires i < |ms| && p(ms[0])
    requires forall k {:trigger ms[k]} :: 0 <= k < |ms| - 1 && p(ms[k]) ==> p(ms[k + 1])
    ensures p(ms[i])
    decreases i
  {
    if i > 0 {
      RunInduction(p, ms, i - 1);
      assert p(ms[i - 1 + 1]);
    }
  }

  lemma RunKeeps(ctx: Context, ms: seq<Machine>, answers: seq<Oracle>, i: nat)
    requires true == IsRun(ctx, ms, answers)
    requires i < |ms| && true == Kept(ctx, ms[0])
    ensures true == Kept(ctx, ms[i])
  {
    var p := (m: Machine) => Kept(ctx, m);
    forall k | 0 <= k < |ms| - 1 && p(ms[k]) ensures p(ms[k + 1]) { NextIsKept(ctx, ms, answers, k); }
    RunInduction(p, ms, i);
  }

  lemma NextIsKept(ctx: Context, ms: seq<Machine>, answers: seq<Oracle>, i: nat)
    requires true == IsRun(ctx, ms, answers)
    requires i + 1 < |ms| && true == Kept(ctx, ms[i])
    ensures true == Kept(ctx, ms[i + 1])
  {
    StepAt(ctx, ms, answers, i);
    StepIsKept(ctx, ms[i], answers[i], ms[i + 1]);
  }

  lemma StepAt(ctx: Context, ms: seq<Machine>, answers: seq<Oracle>, i: nat)
    requires IsRun(ctx, ms, answers) && i < |answers|
    ensures ms[i].work != [] && Step(ctx, ms[i], answers[i]) == Running(ms[i + 1])
  {
    var o := answers[i];
    assert ms[i].work != [] && Step(ctx, ms[i], o) == Running(ms[i + 1]);
  }

  lemma StepIsKept(ctx: Context, m: Machine, o: Oracle, next: Machine)
    requires true == Kept(ctx, m)
    requires m.work != [] && Step(ctx, m, o) == Running(next)
    ensures true == Kept(ctx, next)
  {
    StepKeeps(ctx, m, o);
    StepFresh(ctx, m, o);
  }

  /** In every run, whatever the interpreter answers: as long as no failed call had a successful
      one inside, every frame that is started or resumed goes on with the state that the change
      set has for its contract, whether or not it is told that it changed. */
  lemma ResumesWithActualState(ctx: Context, energy: nat, sender: Address, address: ContractId, amount: nat,
                               ms: seq<Machine>, answers: seq<Oracle>, i: nat, o: Oracle)
    requires ContextOk(ctx) && Exists(ctx, sender) && energy <= ctx.energyReserved
    requires IsRun(ctx, ms, answers) && ms[0] == Start(energy, sender, address, amount)
    requires i < |ms| && ms[i].work != []
    ensures var b := Begin(ctx, ms[i], o);
            b.Ready? && AllUndone(b.machine.history) ==>
              && b.data.address in ctx.contracts && b.machine.changes != []
              && b.data.state == StateOf(ctx, Current(b.machine), b.data.address)
  {
    StartKeeps(ctx, sender, address, amount, energy);
    StartFresh(ctx, sender, address, amount, energy);
    RunKeeps(ctx, ms, answers, i);
    BeginFresh(ctx, ms[i], o);
  }
}
