/** What every iteration of the invocation machine keeps, for every behaviour of the interpreter. */
module InvocationProofs {
  import opened Common
  import opened Amounts
  import opened ChangeSets
  import opened InvocationMachine

  // Where a postcondition is written `true == P`, it is so that `P` is proved as one fact and
  // not conjunct by conjunct.

  // ---------------------------------------------------------------- frames

  /** Neither the frame nor one that led to it has failed. */
  ghost predicate Clean(h: History, f: nat)
    decreases f
  {
    f !in h.failed && (f in h.parent && h.parent[f] < f ==> Clean(h, h.parent[f]))
  }

  ghost predicate HistoryOk(h: History) {
    && (forall f :: f in h.parent ==> 0 < f < h.frames && h.parent[f] < f)
    && (forall f :: f in h.failed ==> f < h.frames)
    && (forall i :: 0 <= i < |h.log| ==> ReturnOk(h.log[i]))
  }

  /** What is promised of a return: a failed call leaves the change sets of its caller as they
      were exactly when no call inside it had succeeded, and never fewer; the caller of a failed
      call is told that its state did not change. */
  ghost predicate ReturnOk(r: Return) {
    && r.saved != [] && r.nested >= 0 && r.saved <= r.restored
    && (r.told.Failure? ==> !r.toldChanged && (r.restored == r.saved <==> r.nested == 0))
  }

  /** A later failure does not touch earlier frames. */
  lemma {:induction false} CleanAfterFailure(h: History, f: nat, failed: nat)
    requires Clean(h, f) && f < failed
    ensures Clean(h.(failed := h.failed + {failed}), f)
    decreases f
  {
    if f in h.parent && h.parent[f] < f { CleanAfterFailure(h, h.parent[f], failed); }
  }

  /** A new frame does not touch earlier ones, and is as clean as its caller. */
  lemma {:induction false} CleanAfterCall(h: History, f: nat, caller: nat)
    requires Clean(h, f) && f < h.frames
    ensures Clean(h.(frames := h.frames + 1, parent := h.parent[h.frames := caller]), f)
    decreases f
  {
    if f in h.parent && h.parent[f] < f { CleanAfterCall(h, h.parent[f], caller); }
  }

  lemma {:induction false} CleanAfterReturn(h: History, f: nat, succeeded: nat, log: seq<Return>)
    requires Clean(h, f)
    ensures Clean(h.(succeeded := succeeded, log := log), f)
    decreases f
  {
    if f in h.parent && h.parent[f] < f { CleanAfterReturn(h, h.parent[f], succeeded, log); }
  }

  // ---------------------------------------------------------------- the invariant

  ghost predicate AllBalanced(ctx: Context, changes: seq<Changes>) {
    forall i :: 0 <= i < |changes| ==> Balanced(ctx, changes[i], 0)
  }

  /** Every element that was not cut off comes from a clean frame. */
  ghost predicate TraceOk(trace: seq<TraceElement>, h: History) {
    forall p {:trigger trace[p]} :: 0 <= p < |trace| ==>
      trace[p].frame < h.frames && (!trace[p].WithFailures? ==> Clean(h, trace[p].frame))
  }

  /** The frame is clean, and everything before its checkpoint is from earlier frames. */
  ghost predicate FrameOk(trace: seq<TraceElement>, h: History, frame: nat, checkpoint: nat) {
    && frame < h.frames && Clean(h, frame)
    && checkpoint <= |trace|
    && forall p {:trigger trace[p]} :: 0 <= p < checkpoint ==> trace[p].frame < frame
  }

  /** Item `i` of the work stack is a caller that waits for its call. */
  ghost predicate CallerOk(ctx: Context, m: Machine, i: nat)
    requires i < |m.work|
  {
    var item := m.work[i];
    && item.Resume? && item.response.None?
    && item.data.address in ctx.contracts
    && FrameOk(m.trace, m.history, item.data.frame, item.data.traceCheckpoint)
    && item.call.saved <= m.changes
    && |item.call.saved| == 1 + i + item.call.succeeded
    && item.call.succeeded <= m.history.succeeded
  }

  ghost predicate Callers(ctx: Context, m: Machine) {
    && (forall i {:trigger CallerOk(ctx, m, i)} :: 0 <= i < |m.work| ==> CallerOk(ctx, m, i))
    && (forall i, j {:trigger m.work[i], m.work[j]} ::
          0 <= i < j < |m.work| && m.work[i].Resume? && m.work[j].Resume? ==>
          && m.work[i].data.frame < m.work[j].data.frame
          && m.work[i].data.traceCheckpoint <= m.work[j].data.traceCheckpoint)
  }

  /** The part of the invariant that does not look at the work stack. */
  ghost predicate Base(ctx: Context, m: Machine) {
    && ContextOk(ctx)
    && m.energy <= ctx.energyReserved
    && AllBalanced(ctx, m.changes)
    && HistoryOk(m.history)
    && TraceOk(m.trace, m.history)
  }

  /** All items are callers, and there is one change set for each, one for each call that
      succeeded, and one more. */
  ghost predicate Settled(ctx: Context, m: Machine) {
    && Base(ctx, m) && Callers(ctx, m)
    && |m.changes| == 1 + |m.work| + m.history.succeeded
  }

  /** A frame runs, called by the last item. */
  ghost predicate Active(ctx: Context, m: Machine, frame: nat, checkpoint: nat) {
    && Settled(ctx, m)
    && FrameOk(m.trace, m.history, frame, checkpoint)
    && forall i {:trigger m.work[i]} :: 0 <= i < |m.work| && m.work[i].Resume? ==>
         m.work[i].data.frame < frame && m.work[i].data.traceCheckpoint <= checkpoint
  }

  ghost predicate Exists(ctx: Context, a: Address) {
    match a
    case Account(x) => x in ctx.accounts
    case Contract(x) => x in ctx.contracts
  }

  /** The item on top can be popped. */
  ghost predicate TopOk(ctx: Context, m: Machine, item: Next) {
    match item
    case Initial(sender, _, _, checkpoint, frame) => Exists(ctx, sender) && Active(ctx, m, frame, checkpoint)
    case Resume(data, response, _) =>
      response.Some? && data.address in ctx.contracts && Active(ctx, m, data.frame, data.traceCheckpoint)
  }

  /** The invariant of the loop: either a response is there, for the caller on top or as the
      result, or the item on top is to run. */
  ghost predicate Inv(ctx: Context, m: Machine) {
    || (Settled(ctx, m) && m.response.Some?)
    || (m.work != [] && TopOk(ctx, m.(work := m.work[..|m.work| - 1]), m.work[|m.work| - 1]))
  }

  lemma StartKeeps(ctx: Context, sender: Address, address: ContractId, amount: nat, energy: nat)
    requires ContextOk(ctx) && Exists(ctx, sender) && energy <= ctx.energyReserved
    ensures Inv(ctx, Start(energy, sender, address, amount))
  {
    NoChangesBalanced(ctx);
    var m := Start(energy, sender, address, amount);
    assert m.work[..0] == [];
    assert Clean(m.history, 0);
    assert TopOk(ctx, m.(work := []), m.work[0]);
  }

  // ---------------------------------------------------------------- changing the top change set

  lemma CurrentBalanced(ctx: Context, m: Machine)
    requires AllBalanced(ctx, m.changes) && m.changes != []
    ensures Balanced(ctx, Current(m), 0)
  {
  }

  /** Only the last change set is ever edited, and it belongs to no caller. */
  lemma EditKeeps(ctx: Context, m: Machine, c: Changes, energy: nat, nextModIdx: nat)
    requires Settled(ctx, m) && Balanced(ctx, c, 0) && energy <= m.energy
    ensures Settled(ctx, WithCurrent(m, c).(energy := energy, nextModIdx := nextModIdx))
  {
    var m' := WithCurrent(m, c).(energy := energy, nextModIdx := nextModIdx);
    assert AllBalanced(ctx, m'.changes);
    forall i | 0 <= i < |m'.work| ensures CallerOk(ctx, m', i) {
      assert CallerOk(ctx, m, i);
      var saved := m.work[i].call.saved;
      assert saved <= m.changes[..|m.changes| - 1];
    }
  }

  /** Spending energy keeps everything. */
  lemma SpendKeeps(ctx: Context, m: Machine, energy: nat, nextModIdx: nat, response: Option<Response>)
    requires Settled(ctx, m) && energy <= m.energy
    ensures Settled(ctx, m.(energy := energy, nextModIdx := nextModIdx, response := response))
  {
    var m' := m.(energy := energy, nextModIdx := nextModIdx, response := response);
    forall i | 0 <= i < |m'.work| ensures CallerOk(ctx, m', i) {
      assert CallerOk(ctx, m, i);
    }
  }

  /** `EditKeeps` while a frame runs. */
  lemma ActiveAfterEdit(ctx: Context, m: Machine, frame: nat, checkpoint: nat, c: Changes, energy: nat, nextModIdx: nat)
    requires Active(ctx, m, frame, checkpoint) && Balanced(ctx, c, 0) && energy <= m.energy
    ensures true == Active(ctx, WithCurrent(m, c).(energy := energy, nextModIdx := nextModIdx), frame, checkpoint)
  {
    EditKeeps(ctx, m, c, energy, nextModIdx);
  }

  /** A running frame may add to the trace. */
  lemma EmitKeeps(ctx: Context, m: Machine, frame: nat, checkpoint: nat, e: TraceElement)
    requires Active(ctx, m, frame, checkpoint) && e.frame == frame && !e.WithFailures?
    ensures Active(ctx, Emit(m, e), frame, checkpoint)
  {
    var m' := Emit(m, e);
    assert forall p :: 0 <= p < |m.trace| ==> m'.trace[p] == m.trace[p];
    forall i | 0 <= i < |m'.work| ensures CallerOk(ctx, m', i) {
      assert CallerOk(ctx, m, i);
    }
  }

  /** The interpreter cannot leave more energy than it was given. */
  lemma RunOnlySpends(energy: nat, remaining: nat)
    ensures AfterRun(energy, remaining) <= energy
    ensures remaining >= ToInterpreterEnergy(energy) ==> AfterRun(energy, remaining) == energy
    ensures remaining <= ToInterpreterEnergy(energy) ==> ToInterpreterEnergy(AfterRun(energy, remaining)) >= remaining
  {
    var available := energy * 1000;
    var used := if remaining <= available then available - remaining else 0;
    assert used / 1000 <= energy;
  }

  // ---------------------------------------------------------------- starting and resuming

  /** The interpreter may run, a response is there, or energy has run out; it panics exactly if
      `panics` is true. */
  ghost predicate BegunOk(ctx: Context, energy: nat, panics: bool, b: Begun) {
    match b
    case Ready(m, data) =>
      && !panics && data.address in ctx.contracts && Active(ctx, m, data.frame, data.traceCheckpoint)
      && m.energy <= energy
    case Over(m) => !panics && Settled(ctx, m) && m.response.Some? && m.energy <= energy
    case Halt(outcome) => outcome == if panics then Panicked else Stopped(OutOfEnergy)
  }

  /** Starting the item overflows the running delta of its sender. */
  predicate StartOverpays(ctx: Context, m: Machine, item: Next) {
    item.Initial? && m.energy >= UPDATE_BASE_COST && MoveOverpays(ctx, m, item.sender, item.address, item.amount)
  }

  predicate MoveOverpays(ctx: Context, m: Machine, sender: Address, address: ContractId, amount: nat) {
    m.changes != [] && amount > 0 && address in ctx.contracts && Overpays(Current(m), sender, amount)
  }

  lemma MoveAmountOk(ctx: Context, m: Machine, sender: Address, address: ContractId, amount: nat)
    requires ContextOk(ctx) && m.changes != [] && Balanced(ctx, Current(m), 0) && Exists(ctx, sender)
    ensures var r := MoveAmount(ctx, m, sender, address, amount);
            && !r.TransferOverflow?
            && r.Panic? == MoveOverpays(ctx, m, sender, address, amount)
            && (r.Moved? ==> Balanced(ctx, r.changes, 0) && address in ctx.contracts)
  {
    match sender
    case Account(a) => AccountToContract(ctx, Current(m), amount, a, address);
    case Contract(a) => ContractToContract(ctx, Current(m), amount, a, address);
  }

  /** Every contract has a module that exists. */
  lemma ModuleKnown(ctx: Context, c: Changes, a: ContractId)
    requires ContextOk(ctx) && Balanced(ctx, c, 0) && a in ctx.contracts
    ensures ModuleOf(ctx, c, a) in ctx.modules
  {
    assert a in c.contracts ==> ContractFits(ctx, a, c.contracts[a]);
  }

  lemma FailEarlyOk(ctx: Context, m: Machine)
    requires Settled(ctx, m)
    ensures true == BegunOk(ctx, m.energy, false, FailEarly(m))
  {
    SpendKeeps(ctx, m, m.energy, m.nextModIdx, Some(Failure));
  }

  lemma ReadyOk(ctx: Context, m: Machine, data: InvocationData, energy: nat)
    requires Active(ctx, m, data.frame, data.traceCheckpoint) && energy <= m.energy && data.address in ctx.contracts
    ensures true == BegunOk(ctx, m.energy, false, Ready(m.(energy := energy), data))
  {
    ActiveAfterSpend(ctx, m, data.frame, data.traceCheckpoint, energy);
  }

  lemma CurrentModuleKnown(ctx: Context, m: Machine, a: ContractId)
    requires Settled(ctx, m) && a in ctx.contracts
    ensures ModuleOf(ctx, Current(m), a) in ctx.modules
  {
    CurrentBalanced(ctx, m);
    ModuleKnown(ctx, Current(m), a);
  }

  lemma EnterOk(ctx: Context, m: Machine, item: Next, o: Oracle)
    requires item.Initial? && Active(ctx, m, item.frame, item.traceCheckpoint) && item.address in ctx.contracts
    ensures true == BegunOk(ctx, m.energy, false, Enter(ctx, m, item, o))
  {
    CurrentModuleKnown(ctx, m, item.address);
    FailEarlyOk(ctx, m);
    var b := Enter(ctx, m, item, o);
    if b.Ready? { ReadyOk(ctx, m, b.data, m.energy - o.lookupCost); }
  }

  lemma AfterMoveOk(ctx: Context, m: Machine, item: Next, o: Oracle, r: TransferResult)
    requires item.Initial? && Active(ctx, m, item.frame, item.traceCheckpoint)
    requires !r.TransferOverflow? && (r.Moved? ==> Balanced(ctx, r.changes, 0) && item.address in ctx.contracts)
    ensures true == BegunOk(ctx, m.energy, r.Panic?, AfterMove(ctx, m, item, o, r))
  {
    FailEarlyOk(ctx, m);
    if r.Moved? {
      ActiveAfterEdit(ctx, m, item.frame, item.traceCheckpoint, r.changes, m.energy, m.nextModIdx);
      EnterOk(ctx, WithCurrent(m, r.changes), item, o);
    }
  }

  lemma MoveAndEnterOk(ctx: Context, m: Machine, item: Next, o: Oracle, energy: nat)
    requires item.Initial? && Exists(ctx, item.sender) && Active(ctx, m, item.frame, item.traceCheckpoint)
    requires m.energy <= energy
    ensures var r := MoveAmount(ctx, m, item.sender, item.address, item.amount);
            && true == BegunOk(ctx, energy, r.Panic?, AfterMove(ctx, m, item, o, r))
            && r.Panic? == MoveOverpays(ctx, m, item.sender, item.address, item.amount)
  {
    CurrentBalanced(ctx, m);
    MoveAmountOk(ctx, m, item.sender, item.address, item.amount);
    AfterMoveOk(ctx, m, item, o, MoveAmount(ctx, m, item.sender, item.address, item.amount));
  }

  lemma StartsByMoving(ctx: Context, m: Machine, item: Next, o: Oracle, m1: Machine)
    requires item.Initial? && m.energy >= UPDATE_BASE_COST && m.changes != []
    requires m1 == m.(energy := m.energy - UPDATE_BASE_COST)
    ensures BeginInitial(ctx, m, item, o) ==
            AfterMove(ctx, m1, item, o, MoveAmount(ctx, m1, item.sender, item.address, item.amount))
    ensures StartOverpays(ctx, m, item) == MoveOverpays(ctx, m1, item.sender, item.address, item.amount)
  {
  }

  lemma BeginInitialOk(ctx: Context, m: Machine, item: Next, o: Oracle)
    requires item.Initial? && TopOk(ctx, m, item)
    ensures true == BegunOk(ctx, m.energy, StartOverpays(ctx, m, item), BeginInitial(ctx, m, item, o))
  {
    if m.energy >= UPDATE_BASE_COST {
      var m1 := m.(energy := m.energy - UPDATE_BASE_COST);
      ActiveAfterSpend(ctx, m, item.frame, item.traceCheckpoint, m1.energy);
      MoveAndEnterOk(ctx, m1, item, o, m.energy);
      StartsByMoving(ctx, m, item, o, m1);
    }
  }

  /** Popping the last caller of a settled machine. */
  lemma PopCaller(ctx: Context, m: Machine)
    requires Settled(ctx, m) && m.work != []
    ensures var n := |m.work| - 1;
            var m0, item := m.(work := m.work[..n]), m.work[n];
            && CallerOk(ctx, m, n) && Callers(ctx, m0)
            && (forall i :: 0 <= i < n ==> m0.work[i] == m.work[i] && CallerOk(ctx, m, i))
            && (forall i {:trigger m0.work[i]} :: 0 <= i < n ==>
                  m0.work[i].data.frame < item.data.frame
                    && m0.work[i].data.traceCheckpoint <= item.data.traceCheckpoint)
  {
    var n := |m.work| - 1;
    var m0 := m.(work := m.work[..n]);
    assert CallerOk(ctx, m, n);
    forall i | 0 <= i < n ensures CallerOk(ctx, m0, i) && CallerOk(ctx, m, i) { assert CallerOk(ctx, m, i); }
    assert forall i :: 0 <= i < n ==> m0.work[i] == m.work[i];
  }

  /** The trace and the history after a return. */
  lemma ReturnKeepsFrames(m: Machine, m': Machine, frame: nat, r: Return)
    requires HistoryOk(m.history) && TraceOk(m.trace, m.history) && ReturnOk(r)
    requires frame < m.history.frames && Clean(m.history, frame)
    requires m'.trace == m.trace + [Regular(frame, Resumed(r.told.Success?))]
    requires exists s: nat :: m'.history == m.history.(succeeded := s, log := m.history.log + [r])
    ensures HistoryOk(m'.history) && TraceOk(m'.trace, m'.history)
    ensures forall f: nat, cp: nat :: FrameOk(m.trace, m.history, f, cp) ==> FrameOk(m'.trace, m'.history, f, cp)
  {
    var s: nat :| m'.history == m.history.(succeeded := s, log := m.history.log + [r]);
    forall f: nat | Clean(m.history, f) ensures Clean(m'.history, f) {
      CleanAfterReturn(m.history, f, s, m'.history.log);
    }
    forall i | 0 <= i < |m'.history.log| ensures ReturnOk(m'.history.log[i]) {
      if i < |m.history.log| { assert m'.history.log[i] == m.history.log[i]; }
    }
  }

  lemma ReturnSuccessOk(ctx: Context, m: Machine)
    requires Settled(ctx, m) && m.work != []
    ensures var n := |m.work| - 1;
            && m.work[n].Resume? && m.work[n].data.address in ctx.contracts
            && BegunOk(ctx, m.energy, false, ReturnSuccess(ctx, m.(work := m.work[..n]), m.work[n]))
  {
    PopCaller(ctx, m);
    var n := |m.work| - 1;
    var m0, item := m.(work := m.work[..n]), m.work[n];
    var b := ReturnSuccess(ctx, m0, item);
    var m1 := b.machine;
    var r := m1.history.log[|m.history.log|];
    assert m1.history == m0.history.(succeeded := m0.history.succeeded + 1, log := m0.history.log + [r]);
    ReturnKeepsFrames(m0, m1, item.data.frame, r);
    forall i | 0 <= i < n ensures CallerOk(ctx, m1, i) { assert CallerOk(ctx, m, i); }
  }

  lemma ReturnFailureOk(ctx: Context, m: Machine)
    requires Settled(ctx, m) && m.work != []
    ensures var n := |m.work| - 1;
            && m.work[n].Resume?
            && BegunOk(ctx, m.energy, false, ReturnFailure(m.(work := m.work[..n]), m.work[n]))
  {
    PopCaller(ctx, m);
    var n := |m.work| - 1;
    var m0, item := m.(work := m.work[..n]), m.work[n];
    var b := ReturnFailure(m0, item);
    var m1 := b.machine;
    var r := m1.history.log[|m.history.log|];
    assert r.saved <= r.restored by { assert item.call.saved <= m.changes; }
    assert m1.history == m0.history.(succeeded := m0.history.succeeded, log := m0.history.log + [r]);
    ReturnKeepsFrames(m0, m1, item.data.frame, r);
    forall i | 0 <= i < n ensures CallerOk(ctx, m1, i) {
      assert CallerOk(ctx, m, i);
      assert m.work[i].call.saved <= m.changes[..|m.changes| - 1];
    }
  }

  /** Whatever is on top, it can be started or resumed. */
  lemma BeginOk(ctx: Context, m: Machine, o: Oracle)
    requires Inv(ctx, m) && m.work != []
    ensures var n := |m.work| - 1;
            true == BegunOk(ctx, m.energy, StartOverpays(ctx, m.(work := m.work[..n]), m.work[n]), Begin(ctx, m, o))
  {
    var n := |m.work| - 1;
    var m0, item := m.(work := m.work[..n]), m.work[n];
    if Settled(ctx, m) && m.response.Some? {
      PopCaller(ctx, m);
      ReturnSuccessOk(ctx, m);
      ReturnFailureOk(ctx, m);
    } else if item.Initial? {
      BeginInitialOk(ctx, m0, item, o);
    }
  }

  // ---------------------------------------------------------------- after the interpreter

  /** The loop goes on in the invariant with no more energy, or energy has run out; it panics exactly
      if `panics` is true. */
  ghost predicate OutcomeOk(ctx: Context, m: Machine, panics: bool, o: Outcome) {
    match o
    case Running(m') => !panics && Inv(ctx, m') && m'.energy <= m.energy
    case Stopped(e) => !panics && e == OutOfEnergy
    case Panicked => panics
  }

  /** The energy is too large for the interpreter, there is no index for a state to save, or the
      interrupt cannot be served. */
  predicate RunPanics(ctx: Context, m: Machine, data: InvocationData, ran: Ran) {
    || ToInterpreterEnergy(m.energy) > MAX_AMOUNT
    || (Saves(ran) && m.nextModIdx >= MAX_INDEX)
    || InterruptPanics(ctx, m, data.address, ran)
  }

  predicate InterruptPanics(ctx: Context, m: Machine, a: ContractId, ran: Ran) {
    ran.Interrupted? && ServePanics(ctx, m.(energy := AfterRun(m.energy, ran.remaining)), a, ran.interrupt)
  }

  /** An account is to be paid an amount that overflows the running delta of the contract, or the
      data whose signatures are to be checked is shorter than it says. */
  predicate ServePanics(ctx: Context, m: Machine, a: ContractId, i: Interrupt) {
    match i
    case Transfer(to, amount) => m.changes != [] && to in ctx.accounts && Overpays(Current(m), Contract(a), amount)
    case CheckSignature(account, payload, _) =>
      m.energy >= ACCOUNT_KEYS_BASE_COST && account in ctx.accounts && ReadPayload(payload).TooShort?
    case _ => false
  }

  lemma SavedStateBalanced(ctx: Context, m: Machine, a: ContractId, state: ContractState)
    requires AllBalanced(ctx, m.changes) && m.changes != [] && a in ctx.contracts
    ensures true == Balanced(ctx, SaveState(ctx, Current(m), a, state, m.nextModIdx), 0)
  {
    CurrentBalanced(ctx, m);
    SavedStateKeepsBalances(ctx, Current(m), a, state, m.nextModIdx, 0);
  }

  lemma SaveKeeps(ctx: Context, m: Machine, data: InvocationData, newState: Option<ContractState>)
    requires Active(ctx, m, data.frame, data.traceCheckpoint) && data.address in ctx.contracts
    ensures true == Active(ctx, SaveIfChanged(ctx, m, data, newState), data.frame, data.traceCheckpoint)
  {
    if newState.Some? {
      var c := SaveState(ctx, Current(m), data.address, newState.value, m.nextModIdx);
      assert SaveIfChanged(ctx, m, data, newState) ==
             WithCurrent(m, c).(energy := m.energy, nextModIdx := m.nextModIdx + 1);
      SavedStateBalanced(ctx, m, data.address, newState.value);
      ActiveAfterEdit(ctx, m, data.frame, data.traceCheckpoint, c, m.energy, m.nextModIdx + 1);
    }
  }

  lemma FinishedOk(ctx: Context, m: Machine, data: InvocationData, ran: Ran)
    requires Active(ctx, m, data.frame, data.traceCheckpoint) && data.address in ctx.contracts && ran.Finished?
    ensures true == OutcomeOk(ctx, m, false, OnFinished(ctx, m, data, ran))
  {
    RunOnlySpends(m.energy, ran.remaining);
    var m0 := m.(energy := AfterRun(m.energy, ran.remaining));
    SpendKeeps(ctx, m, m0.energy, m.nextModIdx, m.response);
    EmitKeeps(ctx, m0, data.frame, data.traceCheckpoint, Regular(data.frame, Updated));
    var m1 := Emit(m0, Regular(data.frame, Updated));
    SaveKeeps(ctx, m1, data, ran.newState);
    var m2 := SaveIfChanged(ctx, m1, data, ran.newState);
    SpendKeeps(ctx, m2, m2.energy, m2.nextModIdx, Some(Success(BalanceOf(ctx, m2, data.address))));
  }

  /** Cutting the trace of a failed frame off leaves nothing of it or of a frame it led to. */
  lemma FailedFrames(m: Machine, frame: nat, checkpoint: nat, elements: seq<TraceElement>)
    requires HistoryOk(m.history) && TraceOk(m.trace, m.history) && FrameOk(m.trace, m.history, frame, checkpoint)
    ensures var h := m.history.(failed := m.history.failed + {frame});
            var trace := m.trace[..checkpoint] + [WithFailures(frame, elements)];
            && HistoryOk(h) && TraceOk(trace, h)
            && forall f: nat, cp: nat :: FrameOk(m.trace, m.history, f, cp) && f < frame && cp <= checkpoint ==>
               FrameOk(trace, h, f, cp)
  {
    var h := m.history.(failed := m.history.failed + {frame});
    var trace := m.trace[..checkpoint] + [WithFailures(frame, elements)];
    forall f: nat | Clean(m.history, f) && f < frame ensures Clean(h, f) { CleanAfterFailure(m.history, f, frame); }
    forall p | 0 <= p < |trace|
      ensures trace[p].frame < h.frames && (!trace[p].WithFailures? ==> Clean(h, trace[p].frame))
    {
      if p < checkpoint { assert trace[p] == m.trace[p]; }
    }
  }

  lemma FailedOk(ctx: Context, m: Machine, data: InvocationData, energy: nat)
    requires Active(ctx, m, data.frame, data.traceCheckpoint) && energy <= m.energy
    ensures true == OutcomeOk(ctx, m, false, OnFailed(m, data, energy))
  {
    FailedFrames(m, data.frame, data.traceCheckpoint, m.trace[data.traceCheckpoint..]);
    var m' := OnFailed(m, data, energy).machine;
    forall i | 0 <= i < |m'.work| ensures CallerOk(ctx, m', i) {
      assert CallerOk(ctx, m, i);
    }
  }

  /** A response to an interrupt that is handled at once. */
  lemma AnsweredOk(ctx: Context, before: Machine, m: Machine, data: InvocationData, response: Response)
    requires Active(ctx, m, data.frame, data.traceCheckpoint) && data.address in ctx.contracts
    requires m.energy <= before.energy
    ensures true == OutcomeOk(ctx, before, false, Answered(m, data, response))
  {
    var m' := Answered(m, data, response).machine;
    assert m'.work[..|m.work|] == m.work;
    assert m'.(work := m.work) == m;
  }

  lemma ActiveAfterSpend(ctx: Context, m: Machine, frame: nat, checkpoint: nat, energy: nat)
    requires Active(ctx, m, frame, checkpoint) && energy <= m.energy
    ensures true == Active(ctx, m.(energy := energy), frame, checkpoint)
  {
    SpendKeeps(ctx, m, energy, m.nextModIdx, m.response);
  }

  lemma PaidIs(ctx: Context, m: Machine, data: InvocationData, balance: nat, m3: Machine)
    requires m.energy >= ctx.simpleTransferCost
    requires m3 == Emit(Emit(m, Regular(data.frame, Transferred)), Regular(data.frame, Resumed(true)))
                     .(energy := m.energy - ctx.simpleTransferCost)
    ensures Paid(ctx, m, data, balance) == Answered(m3, data, Success(balance))
  {
  }

  /** A transfer to an account that was carried out. */
  lemma PaidOk(ctx: Context, m: Machine, data: InvocationData, balance: nat)
    requires Active(ctx, m, data.frame, data.traceCheckpoint) && data.address in ctx.contracts
    ensures true == OutcomeOk(ctx, m, false, Paid(ctx, m, data, balance))
  {
    if m.energy >= ctx.simpleTransferCost {
      var f, cp, left := data.frame, data.traceCheckpoint, m.energy - ctx.simpleTransferCost;
      EmitKeeps(ctx, m, f, cp, Regular(f, Transferred));
      var m1 := Emit(m, Regular(f, Transferred));
      EmitKeeps(ctx, m1, f, cp, Regular(f, Resumed(true)));
      var m2 := Emit(m1, Regular(f, Resumed(true)));
      ActiveAfterSpend(ctx, m2, f, cp, left);
      PaidIs(ctx, m, data, balance, m2.(energy := left));
      AnsweredOk(ctx, m, m2.(energy := left), data, Success(balance));
    }
  }

  lemma NotPaidOk(ctx: Context, m: Machine, data: InvocationData)
    requires Active(ctx, m, data.frame, data.traceCheckpoint) && data.address in ctx.contracts
    ensures true == OutcomeOk(ctx, m, false, NotPaid(ctx, m, data))
  {
    if m.energy >= ctx.simpleTransferCost {
      var left := m.energy - ctx.simpleTransferCost;
      ActiveAfterSpend(ctx, m, data.frame, data.traceCheckpoint, left);
      RefusedOk(ctx, m, m.(energy := left), data);
    }
  }

  lemma AfterTransferOk(ctx: Context, m: Machine, data: InvocationData, r: TransferResult)
    requires Active(ctx, m, data.frame, data.traceCheckpoint) && data.address in ctx.contracts
    requires !r.TransferOverflow? && (r.Moved? ==> Balanced(ctx, r.changes, 0))
    ensures true == OutcomeOk(ctx, m, r.Panic?, AfterTransfer(ctx, m, data, r))
  {
    if r.Moved? {
      ActiveAfterEdit(ctx, m, data.frame, data.traceCheckpoint, r.changes, m.energy, m.nextModIdx);
      PaidOk(ctx, WithCurrent(m, r.changes), data, r.balance);
    } else if !r.Panic? {
      NotPaidOk(ctx, m, data);
    }
  }

  lemma TransferIs(ctx: Context, m: Machine, data: InvocationData, to: AccountId, amount: nat, m1: Machine)
    requires m.changes != [] && m1 == Emit(m, Regular(data.frame, Interruption))
    ensures m1.changes != [] && m1.energy == m.energy
    ensures OnTransfer(ctx, m, data, to, amount) ==
            AfterTransfer(ctx, m1, data, TransferContractToAccount(ctx, Current(m1), amount, data.address, to))
    ensures ServePanics(ctx, m, data.address, Transfer(to, amount)) ==
            (to in ctx.accounts && Overpays(Current(m1), Contract(data.address), amount))
  {
  }

  lemma TransferOutcome(ctx: Context, m: Machine, data: InvocationData, to: AccountId, amount: nat)
    requires Active(ctx, m, data.frame, data.traceCheckpoint) && data.address in ctx.contracts
    ensures true == OutcomeOk(ctx, m, ServePanics(ctx, m, data.address, Transfer(to, amount)),
                              OnTransfer(ctx, m, data, to, amount))
  {
    EmitKeeps(ctx, m, data.frame, data.traceCheckpoint, Regular(data.frame, Interruption));
    var m1 := Emit(m, Regular(data.frame, Interruption));
    TransferIs(ctx, m, data, to, amount, m1);
    CurrentBalanced(ctx, m1);
    var r := TransferContractToAccount(ctx, Current(m1), amount, data.address, to);
    ContractToAccount(ctx, Current(m1), amount, data.address, to);
    AfterTransferOk(ctx, m1, data, r);
    OutcomeOkMore(ctx, m1, m, r.Panic?, AfterTransfer(ctx, m1, data, r));
  }

  /** A new frame leaves the trace and the earlier frames as they are. */
  lemma CallFrames(m: Machine, caller: nat, h: History)
    requires HistoryOk(m.history) && TraceOk(m.trace, m.history) && caller < m.history.frames
             && Clean(m.history, caller)
    requires h == m.history.(frames := m.history.frames + 1, parent := m.history.parent[m.history.frames := caller])
    ensures HistoryOk(h) && TraceOk(m.trace, h) && FrameOk(m.trace, h, m.history.frames, |m.trace|)
    ensures forall f: nat, cp: nat :: FrameOk(m.trace, m.history, f, cp) ==> FrameOk(m.trace, h, f, cp)
  {
    forall f: nat | Clean(m.history, f) && f < m.history.frames ensures Clean(h, f) {
      CleanAfterCall(m.history, f, caller);
    }
    assert Clean(h, m.history.frames);
  }

  /** The caller and its checkpoint are added to the callers. */
  lemma CallCallers(ctx: Context, m: Machine, m': Machine, item: Next)
    requires Callers(ctx, m) && item.Resume? && m'.work == m.work + [item] && m'.trace == m.trace
    requires m.changes <= m'.changes && m'.history.succeeded == m.history.succeeded
    requires forall f: nat, cp: nat :: FrameOk(m.trace, m.history, f, cp) ==> FrameOk(m.trace, m'.history, f, cp)
    requires CallerOk(ctx, m', |m.work|)
    requires forall i {:trigger m.work[i]} :: 0 <= i < |m.work| && m.work[i].Resume? ==>
               m.work[i].data.frame < item.data.frame && m.work[i].data.traceCheckpoint <= item.data.traceCheckpoint
    ensures true == Callers(ctx, m')
  {
    forall i | 0 <= i < |m'.work| ensures CallerOk(ctx, m', i) {
      if i < |m.work| {
        assert CallerOk(ctx, m, i);
        assert m'.work[i] == m.work[i];
      }
    }
  }

  /** A call: a checkpoint of the change sets, and two items more. */
  lemma CallKeeps(ctx: Context, m: Machine, data: InvocationData, address: ContractId, amount: nat)
    requires Active(ctx, m, data.frame, data.traceCheckpoint) && data.address in ctx.contracts
             && address in ctx.contracts
    ensures var h := m.history.(frames := m.history.frames + 1,
                                parent := m.history.parent[m.history.frames := data.frame]);
            var caller := Resume(data, None, CallRecord(m.changes, m.history.succeeded, m.nextModIdx));
            var m' := m.(changes := m.changes + [Current(m)], work := m.work + [caller], history := h);
            true == TopOk(ctx, m', Initial(Contract(data.address), address, amount, |m.trace|, m.history.frames))
  {
    var h := m.history.(frames := m.history.frames + 1, parent := m.history.parent[m.history.frames := data.frame]);
    var caller := Resume(data, None, CallRecord(m.changes, m.history.succeeded, m.nextModIdx));
    var m' := m.(changes := m.changes + [Current(m)], work := m.work + [caller], history := h);
    CallFrames(m, data.frame, h);
    CurrentBalanced(ctx, m);
    CallCallers(ctx, m, m', m'.work[|m.work|]);
  }

  lemma TopIsInv(ctx: Context, m: Machine, below: seq<Next>, item: Next)
    requires true == TopOk(ctx, m.(work := below), item)
    requires m.work == below + [item]
    ensures true == Inv(ctx, m)
  {
    assert m.work[..|m.work| - 1] == below;
  }

  lemma CallIs(ctx: Context, m: Machine, data: InvocationData, address: ContractId, amount: nat, m1: Machine,
               below: seq<Next>, m': Machine)
    requires m.changes != [] && m1 == Emit(m, Regular(data.frame, Interruption)) && address in ctx.contracts
    requires below == m1.work + [Resume(data, None, CallRecord(m1.changes, m1.history.succeeded, m1.nextModIdx))]
    requires OnCall(ctx, m, data, address, amount) == Running(m')
    ensures m'.energy == m.energy
    ensures m'.work == below + [Initial(Contract(data.address), address, amount, |m1.trace|, m1.history.frames)]
    ensures m'.(work := below) ==
            m1.(changes := m1.changes + [Current(m1)], work := below,
                history := m1.history.(frames := m1.history.frames + 1,
                                       parent := m1.history.parent[m1.history.frames := data.frame]))
  {
  }

  lemma CallOutcome(ctx: Context, m: Machine, data: InvocationData, address: ContractId, amount: nat)
    requires Active(ctx, m, data.frame, data.traceCheckpoint) && data.address in ctx.contracts
    ensures true == OutcomeOk(ctx, m, false, OnCall(ctx, m, data, address, amount))
  {
    var f, cp := data.frame, data.traceCheckpoint;
    EmitKeeps(ctx, m, f, cp, Regular(f, Interruption));
    var m1 := Emit(m, Regular(f, Interruption));
    if address in ctx.contracts {
      var m' := OnCall(ctx, m, data, address, amount).machine;
      var below := m1.work + [Resume(data, None, CallRecord(m1.changes, m1.history.succeeded, m1.nextModIdx))];
      CallKeeps(ctx, m1, data, address, amount);
      CallIs(ctx, m, data, address, amount, m1, below, m');
      TopIsInv(ctx, m', below, Initial(Contract(data.address), address, amount, |m1.trace|, m1.history.frames));
    } else {
      EmitKeeps(ctx, m1, f, cp, Regular(f, Resumed(false)));
      AnsweredOk(ctx, m, Emit(m1, Regular(f, Resumed(false))), data, Failure);
    }
  }

  lemma UpgradeIs(ctx: Context, m: Machine, data: InvocationData, i: Interrupt, m2: Machine)
    requires i.Upgrade? && m.changes != [] && data.address in ctx.contracts && m.energy >= INITIALIZE_BASE_COST
    requires m2 == Emit(m, Regular(data.frame, Interruption)).(energy := m.energy - INITIALIZE_BASE_COST)
    ensures OnUpgrade(ctx, m, data, i) == UpgradeLookup(ctx, m2, data, i)
  {
  }

  lemma UpgradeOutcome(ctx: Context, m: Machine, data: InvocationData, i: Interrupt)
    requires i.Upgrade? && Active(ctx, m, data.frame, data.traceCheckpoint) && data.address in ctx.contracts
    ensures true == OutcomeOk(ctx, m, false, OnUpgrade(ctx, m, data, i))
  {
    var f, cp := data.frame, data.traceCheckpoint;
    EmitKeeps(ctx, m, f, cp, Regular(f, Interruption));
    var m1 := Emit(m, Regular(f, Interruption));
    if m1.energy >= INITIALIZE_BASE_COST {
      var m2 := m1.(energy := m1.energy - INITIALIZE_BASE_COST);
      ActiveAfterSpend(ctx, m1, f, cp, m2.energy);
      UpgradeIs(ctx, m, data, i, m2);
      UpgradeLookupOk(ctx, m, m2, data, i);
    }
  }

  lemma UpgradeLookupIs(ctx: Context, m: Machine, data: InvocationData, i: Interrupt, m1: Machine)
    requires i.Upgrade? && m.changes != [] && data.address in ctx.contracts
    requires i.moduleRef in ctx.modules && m.energy >= i.lookupCost && m1 == m.(energy := m.energy - i.lookupCost)
    ensures UpgradeLookup(ctx, m, data, i) == UpgradeTo(ctx, m1, data, i)
  {
  }

  lemma UpgradeLookupOk(ctx: Context, before: Machine, m: Machine, data: InvocationData, i: Interrupt)
    requires i.Upgrade? && Active(ctx, m, data.frame, data.traceCheckpoint) && data.address in ctx.contracts
    requires m.energy <= before.energy
    ensures true == OutcomeOk(ctx, before, false, UpgradeLookup(ctx, m, data, i))
  {
    if i.moduleRef !in ctx.modules {
      RefusedOk(ctx, before, m, data);
    } else if m.energy >= i.lookupCost {
      var m1 := m.(energy := m.energy - i.lookupCost);
      ActiveAfterSpend(ctx, m, data.frame, data.traceCheckpoint, m1.energy);
      UpgradeLookupIs(ctx, m, data, i, m1);
      UpgradeToOk(ctx, before, m1, data, i);
    }
  }

  lemma UpgradeToOk(ctx: Context, before: Machine, m: Machine, data: InvocationData, i: Interrupt)
    requires Active(ctx, m, data.frame, data.traceCheckpoint) && data.address in ctx.contracts
    requires i.Upgrade? && i.moduleRef in ctx.modules
    requires m.energy <= before.energy
    ensures true == OutcomeOk(ctx, before, false, UpgradeTo(ctx, m, data, i))
  {
    if !i.exported {
      RefusedOk(ctx, before, m, data);
    } else if m.energy >= INITIALIZE_CREATE_COST {
      UpgradeSaved(ctx, before, m, data, i);
    }
  }

  lemma UpgradeToIs(ctx: Context, m: Machine, data: InvocationData, i: Interrupt, m1: Machine)
    requires i.Upgrade? && i.exported && m.energy >= INITIALIZE_CREATE_COST
    requires m.changes != [] && data.address in ctx.contracts
    requires m1 == WithCurrent(m, SaveModule(ctx, Current(m), data.address, i.moduleRef))
                     .(energy := m.energy - INITIALIZE_CREATE_COST)
    ensures m1.changes != [] && UpgradeTo(ctx, m, data, i) == AfterUpgrade(ctx, m1, data)
  {
  }

  /** The new module is saved and paid for. */
  lemma UpgradeSaved(ctx: Context, before: Machine, m: Machine, data: InvocationData, i: Interrupt)
    requires Active(ctx, m, data.frame, data.traceCheckpoint) && data.address in ctx.contracts
    requires i.Upgrade? && i.moduleRef in ctx.modules && i.exported
    requires INITIALIZE_CREATE_COST <= m.energy <= before.energy
    ensures true == OutcomeOk(ctx, before, false, UpgradeTo(ctx, m, data, i))
  {
    var left := m.energy - INITIALIZE_CREATE_COST;
    SaveModuleKeeps(ctx, m, data, i.moduleRef, left);
    var m1 := WithCurrent(m, SaveModule(ctx, Current(m), data.address, i.moduleRef)).(energy := left);
    UpgradeToIs(ctx, m, data, i, m1);
    AfterUpgradeOk(ctx, m1, data);
    OutcomeOkMore(ctx, m1, before, false, AfterUpgrade(ctx, m1, data));
  }

  lemma RefusedOk(ctx: Context, before: Machine, m: Machine, data: InvocationData)
    requires Active(ctx, m, data.frame, data.traceCheckpoint) && data.address in ctx.contracts
    requires m.energy <= before.energy
    ensures true == OutcomeOk(ctx, before, false, Answered(Emit(m, Regular(data.frame, Resumed(false))), data, Failure))
  {
    EmitKeeps(ctx, m, data.frame, data.traceCheckpoint, Regular(data.frame, Resumed(false)));
    AnsweredOk(ctx, before, Emit(m, Regular(data.frame, Resumed(false))), data, Failure);
  }

  lemma AfterUpgradeOk(ctx: Context, m: Machine, data: InvocationData)
    requires Active(ctx, m, data.frame, data.traceCheckpoint) && data.address in ctx.contracts
    ensures true == OutcomeOk(ctx, m, false, AfterUpgrade(ctx, m, data))
  {
    var f, cp := data.frame, data.traceCheckpoint;
    EmitKeeps(ctx, m, f, cp, Regular(f, Upgraded));
    EmitKeeps(ctx, Emit(m, Regular(f, Upgraded)), f, cp, Regular(f, Resumed(true)));
    var m1 := Emit(Emit(m, Regular(f, Upgraded)), Regular(f, Resumed(true)));
    AnsweredOk(ctx, m, m1, data, Success(BalanceOf(ctx, m1, data.address)));
  }

  lemma SaveModuleKeeps(ctx: Context, m: Machine, data: InvocationData, moduleRef: ModuleRef, energy: nat)
    requires Active(ctx, m, data.frame, data.traceCheckpoint) && data.address in ctx.contracts
    requires moduleRef in ctx.modules && energy <= m.energy
    ensures var c := SaveModule(ctx, Current(m), data.address, moduleRef);
            true == Active(ctx, WithCurrent(m, c).(energy := energy), data.frame, data.traceCheckpoint)
  {
    CurrentBalanced(ctx, m);
    SavedModuleKeepsBalances(ctx, Current(m), data.address, moduleRef, 0);
    ActiveAfterEdit(ctx, m, data.frame, data.traceCheckpoint,
                    SaveModule(ctx, Current(m), data.address, moduleRef), energy, m.nextModIdx);
  }

  lemma DebuggedOk(ctx: Context, before: Machine, m: Machine, data: InvocationData, ok: bool)
    requires Active(ctx, m, data.frame, data.traceCheckpoint) && data.address in ctx.contracts
    requires m.energy <= before.energy
    ensures m.changes != [] && true == OutcomeOk(ctx, before, false, Debugged(ctx, m, data, ok))
  {
    EmitKeeps(ctx, m, data.frame, data.traceCheckpoint, Debug(data.frame));
    var m1 := Emit(m, Debug(data.frame));
    AnsweredOk(ctx, before, m1, data, if ok then Success(BalanceOf(ctx, m1, data.address)) else Failure);
  }

  lemma QueryIs(ctx: Context, m: Machine, data: InvocationData, q: Question, m1: Machine)
    requires m.changes != [] && data.address in ctx.contracts && m.energy >= QuestionCost(ctx, q)
    requires m1 == m.(energy := m.energy - QuestionCost(ctx, q))
    ensures OnQuery(ctx, m, data, q) == Debugged(ctx, m1, data, Ask(ctx, Current(m), q).Some?)
  {
  }

  lemma QueryOutcome(ctx: Context, m: Machine, data: InvocationData, q: Question)
    requires Active(ctx, m, data.frame, data.traceCheckpoint) && data.address in ctx.contracts
    ensures true == OutcomeOk(ctx, m, false, OnQuery(ctx, m, data, q))
  {
    if m.energy >= QuestionCost(ctx, q) {
      var m1 := m.(energy := m.energy - QuestionCost(ctx, q));
      ActiveAfterSpend(ctx, m, data.frame, data.traceCheckpoint, m1.energy);
      DebuggedOk(ctx, m, m1, data, Ask(ctx, Current(m), q).Some?);
      QueryIs(ctx, m, data, q, m1);
    }
  }

  lemma CheckPayloadOk(ctx: Context, before: Machine, m: Machine, data: InvocationData, payload: Payload, valid: bool)
    requires Active(ctx, m, data.frame, data.traceCheckpoint) && data.address in ctx.contracts
    requires m.energy <= before.energy
    ensures m.changes != []
    ensures true == OutcomeOk(ctx, before, payload.TooShort?, CheckPayload(ctx, m, data, payload, valid))
  {
    match payload
    case Malformed => DebuggedOk(ctx, before, m, data, false);
    case TooShort =>
    case Signed(signed, signatures) =>
      var cost := VerifyCost(CountSignatures(signatures), |signed|);
      if m.energy >= cost {
        ActiveAfterSpend(ctx, m, data.frame, data.traceCheckpoint, m.energy - cost);
        DebuggedOk(ctx, before, m.(energy := m.energy - cost), data, valid);
      }
  }

  lemma CheckSignatureIs(ctx: Context, m: Machine, data: InvocationData, i: Interrupt, m1: Machine)
    requires i.CheckSignature? && m.changes != [] && data.address in ctx.contracts
    requires m.energy >= ACCOUNT_KEYS_BASE_COST && m1 == m.(energy := m.energy - ACCOUNT_KEYS_BASE_COST)
    ensures OnCheckSignature(ctx, m, data, i) ==
            if i.account !in ctx.accounts then Debugged(ctx, m1, data, false)
            else CheckPayload(ctx, m1, data, ReadPayload(i.payload), i.valid)
    ensures ServePanics(ctx, m, data.address, i) == (i.account in ctx.accounts && ReadPayload(i.payload).TooShort?)
  {
  }

  lemma CheckSignatureOutcome(ctx: Context, m: Machine, data: InvocationData, i: Interrupt)
    requires i.CheckSignature? && Active(ctx, m, data.frame, data.traceCheckpoint) && data.address in ctx.contracts
    ensures true == OutcomeOk(ctx, m, ServePanics(ctx, m, data.address, i), OnCheckSignature(ctx, m, data, i))
  {
    if m.energy >= ACCOUNT_KEYS_BASE_COST {
      var m1 := m.(energy := m.energy - ACCOUNT_KEYS_BASE_COST);
      ActiveAfterSpend(ctx, m, data.frame, data.traceCheckpoint, m1.energy);
      CheckSignatureIs(ctx, m, data, i, m1);
      if i.account !in ctx.accounts {
        DebuggedOk(ctx, m, m1, data, false);
      } else {
        CheckPayloadOk(ctx, m, m1, data, ReadPayload(i.payload), i.valid);
      }
    }
  }

  /** Saving a state does not change what has been paid. */
  lemma SaveKeepsDelta(ctx: Context, m: Machine, data: InvocationData, newState: Option<ContractState>, i: Interrupt)
    requires m.changes != [] && data.address in ctx.contracts
    ensures ServePanics(ctx, SaveIfChanged(ctx, m, data, newState), data.address, i) ==
            ServePanics(ctx, m, data.address, i)
  {
  }

  lemma ServeOk(ctx: Context, m: Machine, data: InvocationData, i: Interrupt)
    requires Active(ctx, m, data.frame, data.traceCheckpoint) && data.address in ctx.contracts
    ensures true == OutcomeOk(ctx, m, ServePanics(ctx, m, data.address, i), Serve(ctx, m, data, i))
  {
    match i
    case Transfer(to, amount) => TransferOutcome(ctx, m, data, to, amount);
    case Call(address, amount) => CallOutcome(ctx, m, data, address, amount);
    case Upgrade(_, _, _) => UpgradeOutcome(ctx, m, data, i);
    case Query(question) => QueryOutcome(ctx, m, data, question);
    case CheckSignature(_, _, _) => CheckSignatureOutcome(ctx, m, data, i);
  }

  /** The state of an interrupted frame is saved. */
  lemma SavedOk(ctx: Context, m: Machine, data: InvocationData, ran: Ran) returns (m1: Machine)
    requires ran.Interrupted? && Active(ctx, m, data.frame, data.traceCheckpoint) && data.address in ctx.contracts
    ensures m.changes != []
    ensures m1 == SaveIfChanged(ctx, m.(energy := AfterRun(m.energy, ran.remaining)), data, ran.newState)
    ensures true == Active(ctx, m1, data.frame, data.traceCheckpoint)
    ensures m1.energy <= m.energy
    ensures InterruptPanics(ctx, m, data.address, ran) == ServePanics(ctx, m1, data.address, ran.interrupt)
  {
    RunOnlySpends(m.energy, ran.remaining);
    var m0 := m.(energy := AfterRun(m.energy, ran.remaining));
    ActiveAfterSpend(ctx, m, data.frame, data.traceCheckpoint, m0.energy);
    SaveKeeps(ctx, m0, data, ran.newState);
    SaveKeepsDelta(ctx, m0, data, ran.newState, ran.interrupt);
    m1 := SaveIfChanged(ctx, m0, data, ran.newState);
  }

  lemma InterruptedOk(ctx: Context, m: Machine, data: InvocationData, ran: Ran)
    requires ran.Interrupted? && Active(ctx, m, data.frame, data.traceCheckpoint) && data.address in ctx.contracts
    ensures true == OutcomeOk(ctx, m, InterruptPanics(ctx, m, data.address, ran), OnInterrupted(ctx, m, data, ran))
  {
    var m1 := SavedOk(ctx, m, data, ran);
    var data1 := Latest(data, ran.newState).(
      modIdxBefore := if ran.newState.Some? then m.nextModIdx else ModificationIndex(Current(m), data.address));
    ServeOk(ctx, m1, data1, ran.interrupt);
    OutcomeOkMore(ctx, m1, m, InterruptPanics(ctx, m, data.address, ran), Serve(ctx, m1, data1, ran.interrupt));
  }

  lemma OutcomeOkMore(ctx: Context, m: Machine, before: Machine, panics: bool, o: Outcome)
    requires OutcomeOk(ctx, m, panics, o) && m.energy <= before.energy
    ensures true == OutcomeOk(ctx, before, panics, o)
  {
  }

  lemma FailedRunOk(ctx: Context, m: Machine, data: InvocationData, remaining: nat)
    requires Active(ctx, m, data.frame, data.traceCheckpoint)
    ensures true == OutcomeOk(ctx, m, false, OnFailed(m, data, AfterRun(m.energy, remaining)))
  {
    RunOnlySpends(m.energy, remaining);
    FailedOk(ctx, m, data, AfterRun(m.energy, remaining));
  }

  lemma HandleRanOk(ctx: Context, m: Machine, data: InvocationData, ran: Ran)
    requires true == Active(ctx, m, data.frame, data.traceCheckpoint)
    requires data.address in ctx.contracts && m.changes != []
    ensures true == OutcomeOk(ctx, m, InterruptPanics(ctx, m, data.address, ran), HandleRan(ctx, m, data, ran))
  {
    match ran
    case Finished(_, _) => FinishedOk(ctx, m, data, ran);
    case Interrupted(_, _, _) => InterruptedOk(ctx, m, data, ran);
    case Rejected(remaining) => FailedRunOk(ctx, m, data, remaining);
    case Trapped(remaining) => FailedRunOk(ctx, m, data, remaining);
    case Broken => FailedOk(ctx, m, data, 0);
    case RanOut =>
  }

  lemma HandleIs(ctx: Context, m: Machine, data: InvocationData, ran: Ran)
    requires data.address in ctx.contracts && m.changes != []
    ensures if ToInterpreterEnergy(m.energy) > MAX_AMOUNT || (Saves(ran) && m.nextModIdx >= MAX_INDEX) then
              Handle(ctx, m, data, ran) == Panicked && RunPanics(ctx, m, data, ran)
            else
              && Handle(ctx, m, data, ran) == HandleRan(ctx, m, data, ran)
              && RunPanics(ctx, m, data, ran) == InterruptPanics(ctx, m, data.address, ran)
  {
  }

  lemma HandleOk(ctx: Context, m: Machine, data: InvocationData, ran: Ran)
    requires true == Active(ctx, m, data.frame, data.traceCheckpoint)
    requires data.address in ctx.contracts && m.changes != []
    ensures true == OutcomeOk(ctx, m, RunPanics(ctx, m, data, ran), Handle(ctx, m, data, ran))
  {
    HandleIs(ctx, m, data, ran);
    HandleRanOk(ctx, m, data, ran);
  }

  lemma AfterOk(ctx: Context, before: Machine, panics: bool, b: Begun, ran: Ran)
    requires BegunOk(ctx, before.energy, panics, b)
    ensures true == OutcomeOk(ctx, before, panics || (b.Ready? && RunPanics(ctx, b.machine, b.data, ran)),
                              After(ctx, b, ran))
  {
    if b.Ready? {
      HandleOk(ctx, b.machine, b.data, ran);
      OutcomeOkMore(ctx, b.machine, before, RunPanics(ctx, b.machine, b.data, ran),
                    Handle(ctx, b.machine, b.data, ran));
    }
  }

  /** The iteration pays for a call what overflows the running delta of the caller, or panics when the
      interpreter is run or served. */
  predicate StepPanics(ctx: Context, m: Machine, o: Oracle)
    requires m.work != []
  {
    var n := |m.work| - 1;
    var b := Begin(ctx, m, o);
    StartOverpays(ctx, m.(work := m.work[..n]), m.work[n]) || (b.Ready? && RunPanics(ctx, b.machine, b.data, o.ran))
  }

  /** Every iteration keeps the invariant, and panics exactly in these cases, whatever the interpreter
      answers. */
  lemma StepKeeps(ctx: Context, m: Machine, o: Oracle)
    requires Inv(ctx, m) && m.work != []
    ensures true == OutcomeOk(ctx, m, StepPanics(ctx, m, o), Step(ctx, m, o))
  {
    var n := |m.work| - 1;
    BeginOk(ctx, m, o);
    AfterOk(ctx, m, StartOverpays(ctx, m.(work := m.work[..n]), m.work[n]), Begin(ctx, m, o), o.ran);
  }

  // ---------------------------------------------------------------- whole runs

  /** Some iteration of the run panics. */
  predicate PanicsInRun(ctx: Context, m: Machine, answers: seq<Oracle>)
    decreases |answers|
  {
    && m.work != [] && answers != []
    && (|| StepPanics(ctx, m, answers[0])
        || (Step(ctx, m, answers[0]).Running? && PanicsInRun(ctx, Step(ctx, m, answers[0]).machine, answers[1..])))
  }

  predicate InvocationPanics(ctx: Context, energy: nat, sender: Address, address: ContractId, amount: nat,
                             answers: seq<Oracle>)
  {
    PanicsInRun(ctx, Start(energy, sender, address, amount), answers)
  }

  /** What is promised of how an invocation ends: a panic exactly if `panics` is true; only energy
      can run out; one change set for each call that succeeded and one more, each with deltas that
      sum to zero and balances that are not negative; a trace whose elements are from frames that
      did not fail, nor did any that led to them; and every return as promised. */
  ghost predicate ResultOk(ctx: Context, energy: nat, panics: bool, r: Result) {
    match r
    case Crashed => panics
    case Unfinished => !panics
    case Failed(error) => !panics && error == OutOfEnergy
    case Done(_, trace, changes, left, h) =>
      && !panics && left <= energy
      && |changes| == 1 + h.succeeded && AllBalanced(ctx, changes)
      && (forall p :: 0 <= p < |trace| && !trace[p].WithFailures? ==> Clean(h, trace[p].frame))
      && (forall i :: 0 <= i < |h.log| ==> ReturnOk(h.log[i]))
  }

  /** Once the work stack is empty, the response is there. */
  lemma EndOk(ctx: Context, m: Machine)
    requires Inv(ctx, m) && m.work == []
    ensures true == ResultOk(ctx, m.energy, false, Ending(m))
  {
  }

  lemma ResultOkMore(ctx: Context, energy: nat, more: nat, panics: bool, r: Result)
    requires ResultOk(ctx, energy, panics, r) && energy <= more
    ensures true == ResultOk(ctx, more, panics, r)
  {
  }

  /** Every run ends as promised, whatever the interpreter answers, and panics exactly if one of its
      iterations does. */
  lemma {:induction false} RunOk(ctx: Context, m: Machine, answers: seq<Oracle>)
    requires true == Inv(ctx, m)
    ensures true == ResultOk(ctx, m.energy, PanicsInRun(ctx, m, answers), RunFrom(ctx, m, answers))
    decreases |answers|
  {
    if m.work == [] {
      EndOk(ctx, m);
    } else if answers != [] {
      StepKeeps(ctx, m, answers[0]);
      var o := Step(ctx, m, answers[0]);
      if o.Running? {
        RunOk(ctx, o.machine, answers[1..]);
        ResultOkMore(ctx, o.machine.energy, m.energy, PanicsInRun(ctx, o.machine, answers[1..]),
                     RunFrom(ctx, o.machine, answers[1..]));
      }
    }
  }

  lemma InvocationOk(ctx: Context, energy: nat, sender: Address, address: ContractId, amount: nat, answers: seq<Oracle>)
    requires true == ContextOk(ctx)
    requires Exists(ctx, sender) && energy <= ctx.energyReserved
    ensures true == ResultOk(ctx, energy, InvocationPanics(ctx, energy, sender, address, amount, answers),
                             Invocation(ctx, energy, sender, address, amount, answers))
  {
    StartKeeps(ctx, sender, address, amount, energy);
    RunOk(ctx, Start(energy, sender, address, amount), answers);
  }
}
