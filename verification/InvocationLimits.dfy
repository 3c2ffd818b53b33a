/** When an invocation does not panic: the numbers that a caller and the contracts choose fit their
    widths. And inputs for which it does. */
module InvocationLimits {
  import opened Common
  import opened Amounts
  import opened ChangeSets
  import opened InvocationMachine
  import opened InvocationProofs
  import opened Codecs
  import AccountSignatures

  /** The answer asks for no amount that, together with all that can be spent, exceeds 64 bits, and
      sends no data that is shorter than it says. */
  ghost predicate AnswerFits(ctx: Context, o: Oracle) {
    o.ran.Interrupted? ==>
      match o.ran.interrupt
      case Transfer(_, amount) => AmountFits(ctx, amount)
      case Call(_, amount) => AmountFits(ctx, amount)
      case CheckSignature(_, payload, _) => !ReadPayload(payload).TooShort?
      case _ => true
  }

  ghost predicate AnswersFit(ctx: Context, answers: seq<Oracle>) {
    forall i :: 0 <= i < |answers| ==> AnswerFits(ctx, answers[i])
  }

  // ---------------------------------------------------------------- what the machine keeps

  /** A call that is to start does not overpay. */
  ghost predicate CallFits(m: Machine) {
    var n := |m.work| - 1;
    m.work != [] && m.changes != [] && m.work[n].Initial? ==> !Overpays(Current(m), m.work[n].sender, m.work[n].amount)
  }

  /** No modification index, of now or to go back to, is above `n`. */
  ghost predicate IndicesFit(m: Machine, n: nat) {
    && m.nextModIdx <= n
    && forall i {:trigger m.work[i]} :: 0 <= i < |m.work| && m.work[i].Resume? ==>
       m.work[i].data.nextModIdxCheckpoint <= n
  }

  ghost predicate OutcomeFits(o: Outcome, n: nat) { o.Running? ==> CallFits(o.machine) && IndicesFit(o.machine, n) }

  ghost predicate BegunFits(b: Begun, n: nat) {
    match b
    case Ready(m, data) => IndicesFit(m, n) && data.nextModIdxCheckpoint <= n
    case Over(m) => IndicesFit(m, n)
    case Halt(_) => true
  }

  lemma EnterFits(ctx: Context, m: Machine, item: Next, o: Oracle, n: nat)
    requires item.Initial? && m.changes != [] && IndicesFit(m, n)
    ensures true == BegunFits(Enter(ctx, m, item, o), n)
  {
  }

  lemma AfterMoveFits(ctx: Context, m: Machine, item: Next, o: Oracle, r: TransferResult, n: nat)
    requires item.Initial? && m.changes != [] && IndicesFit(m, n)
    ensures true == BegunFits(AfterMove(ctx, m, item, o, r), n)
  {
    if r.Moved? { EnterFits(ctx, WithCurrent(m, r.changes), item, o, n); }
  }

  lemma BeginInitialFits(ctx: Context, m: Machine, item: Next, o: Oracle, n: nat)
    requires item.Initial? && IndicesFit(m, n)
    ensures true == BegunFits(BeginInitial(ctx, m, item, o), n)
  {
    if m.energy >= UPDATE_BASE_COST && m.changes != [] {
      var m1 := m.(energy := m.energy - UPDATE_BASE_COST);
      StartsByMoving(ctx, m, item, o, m1);
      AfterMoveFits(ctx, m1, item, o, MoveAmount(ctx, m1, item.sender, item.address, item.amount), n);
    }
  }

  lemma BeginResumeFits(ctx: Context, m: Machine, item: Next, n: nat)
    requires item.Resume? && IndicesFit(m, n) && item.data.nextModIdxCheckpoint <= n
    ensures true == BegunFits(BeginResume(ctx, m, item), n)
  {
  }

  lemma BeginFits(ctx: Context, m: Machine, o: Oracle, n: nat)
    requires m.work != [] && IndicesFit(m, n)
    ensures true == BegunFits(Begin(ctx, m, o), n)
  {
    var item := m.work[|m.work| - 1];
    var m0 := m.(work := m.work[..|m.work| - 1]);
    assert IndicesFit(m0, n);
    if item.Initial? { BeginInitialFits(ctx, m0, item, o, n); } else { BeginResumeFits(ctx, m0, item, n); }
  }

  // ---------------------------------------------------------------- after the interpreter

  lemma AnsweredFits(m: Machine, data: InvocationData, response: Response, n: nat)
    requires IndicesFit(m, n) && data.nextModIdxCheckpoint <= n
    ensures true == OutcomeFits(Answered(m, data, response), n)
  {
  }

  lemma DebuggedFits(ctx: Context, m: Machine, data: InvocationData, ok: bool, n: nat)
    requires m.changes != [] && data.address in ctx.contracts && IndicesFit(m, n) && data.nextModIdxCheckpoint <= n
    ensures true == OutcomeFits(Debugged(ctx, m, data, ok), n)
  {
    var m1 := Emit(m, Debug(data.frame));
    AnsweredFits(m1, data, if ok then Success(BalanceOf(ctx, m1, data.address)) else Failure, n);
  }

  lemma QueryFits(ctx: Context, m: Machine, data: InvocationData, q: Question, n: nat)
    requires m.changes != [] && data.address in ctx.contracts && IndicesFit(m, n) && data.nextModIdxCheckpoint <= n
    ensures true == OutcomeFits(OnQuery(ctx, m, data, q), n)
  {
    if m.energy >= QuestionCost(ctx, q) {
      var m1 := m.(energy := m.energy - QuestionCost(ctx, q));
      DebuggedFits(ctx, m1, data, Ask(ctx, Current(m1), q).Some?, n);
    }
  }

  lemma CheckPayloadFits(ctx: Context, m: Machine, data: InvocationData, payload: Payload, valid: bool, n: nat)
    requires m.changes != [] && data.address in ctx.contracts && IndicesFit(m, n) && data.nextModIdxCheckpoint <= n
    ensures true == OutcomeFits(CheckPayload(ctx, m, data, payload, valid), n)
  {
    match payload
    case Malformed => DebuggedFits(ctx, m, data, false, n);
    case TooShort =>
    case Signed(signed, signatures) =>
      var cost := VerifyCost(CountSignatures(signatures), |signed|);
      if m.energy >= cost { DebuggedFits(ctx, m.(energy := m.energy - cost), data, valid, n); }
  }

  lemma CheckSignatureFits(ctx: Context, m: Machine, data: InvocationData, i: Interrupt, n: nat)
    requires i.CheckSignature? && m.changes != [] && data.address in ctx.contracts
    requires IndicesFit(m, n) && data.nextModIdxCheckpoint <= n
    ensures true == OutcomeFits(OnCheckSignature(ctx, m, data, i), n)
  {
    if m.energy >= ACCOUNT_KEYS_BASE_COST {
      var m1 := m.(energy := m.energy - ACCOUNT_KEYS_BASE_COST);
      CheckSignatureIs(ctx, m, data, i, m1);
      DebuggedFits(ctx, m1, data, false, n);
      CheckPayloadFits(ctx, m1, data, ReadPayload(i.payload), i.valid, n);
    }
  }

  lemma RefusedFits(m: Machine, data: InvocationData, n: nat)
    requires IndicesFit(m, n) && data.nextModIdxCheckpoint <= n
    ensures true == OutcomeFits(Answered(Emit(m, Regular(data.frame, Resumed(false))), data, Failure), n)
  {
    AnsweredFits(Emit(m, Regular(data.frame, Resumed(false))), data, Failure, n);
  }

  lemma UpgradeFits(ctx: Context, m: Machine, data: InvocationData, i: Interrupt, n: nat)
    requires i.Upgrade? && m.changes != [] && data.address in ctx.contracts
    requires IndicesFit(m, n) && data.nextModIdxCheckpoint <= n
    ensures true == OutcomeFits(OnUpgrade(ctx, m, data, i), n)
  {
    var m1 := Emit(m, Regular(data.frame, Interruption));
    if m1.energy >= INITIALIZE_BASE_COST {
      var m2 := m1.(energy := m1.energy - INITIALIZE_BASE_COST);
      UpgradeIs(ctx, m, data, i, m2);
      UpgradeLookupFits(ctx, m2, data, i, n);
    }
  }

  lemma UpgradeLookupFits(ctx: Context, m: Machine, data: InvocationData, i: Interrupt, n: nat)
    requires i.Upgrade? && m.changes != [] && data.address in ctx.contracts
    requires IndicesFit(m, n) && data.nextModIdxCheckpoint <= n
    ensures true == OutcomeFits(UpgradeLookup(ctx, m, data, i), n)
  {
    if i.moduleRef !in ctx.modules {
      RefusedFits(m, data, n);
    } else if m.energy >= i.lookupCost {
      var m1 := m.(energy := m.energy - i.lookupCost);
      UpgradeLookupIs(ctx, m, data, i, m1);
      UpgradeToFits(ctx, m1, data, i, n);
    }
  }

  lemma UpgradeToFits(ctx: Context, m: Machine, data: InvocationData, i: Interrupt, n: nat)
    requires i.Upgrade? && m.changes != [] && data.address in ctx.contracts
    requires IndicesFit(m, n) && data.nextModIdxCheckpoint <= n
    ensures true == OutcomeFits(UpgradeTo(ctx, m, data, i), n)
  {
    if !i.exported {
      RefusedFits(m, data, n);
    } else if m.energy >= INITIALIZE_CREATE_COST {
      var m1 := WithCurrent(m, SaveModule(ctx, Current(m), data.address, i.moduleRef))
                  .(energy := m.energy - INITIALIZE_CREATE_COST);
      UpgradeToIs(ctx, m, data, i, m1);
      var m2 := Emit(Emit(m1, Regular(data.frame, Upgraded)), Regular(data.frame, Resumed(true)));
      AnsweredFits(m2, data, Success(BalanceOf(ctx, m2, data.address)), n);
    }
  }

  lemma TransferFits(ctx: Context, m: Machine, data: InvocationData, to: AccountId, amount: nat, n: nat)
    requires m.changes != [] && IndicesFit(m, n) && data.nextModIdxCheckpoint <= n
    ensures true == OutcomeFits(OnTransfer(ctx, m, data, to, amount), n)
  {
    var m1 := Emit(m, Regular(data.frame, Interruption));
    TransferIs(ctx, m, data, to, amount, m1);
    var r := TransferContractToAccount(ctx, Current(m1), amount, data.address, to);
    AfterTransferFits(ctx, m1, data, r, n);
  }

  lemma AfterTransferFits(ctx: Context, m: Machine, data: InvocationData, r: TransferResult, n: nat)
    requires m.changes != [] && IndicesFit(m, n) && data.nextModIdxCheckpoint <= n
    ensures true == OutcomeFits(AfterTransfer(ctx, m, data, r), n)
  {
    NotPaidFits(ctx, m, data, n);
    if r.Moved? { PaidFits(ctx, WithCurrent(m, r.changes), data, r.balance, n); }
  }

  lemma PaidFits(ctx: Context, m: Machine, data: InvocationData, balance: nat, n: nat)
    requires IndicesFit(m, n) && data.nextModIdxCheckpoint <= n
    ensures true == OutcomeFits(Paid(ctx, m, data, balance), n)
  {
    if m.energy >= ctx.simpleTransferCost {
      var m3 := Emit(Emit(m, Regular(data.frame, Transferred)), Regular(data.frame, Resumed(true)))
                  .(energy := m.energy - ctx.simpleTransferCost);
      PaidIs(ctx, m, data, balance, m3);
      AnsweredFits(m3, data, Success(balance), n);
    }
  }

  lemma NotPaidFits(ctx: Context, m: Machine, data: InvocationData, n: nat)
    requires IndicesFit(m, n) && data.nextModIdxCheckpoint <= n
    ensures true == OutcomeFits(NotPaid(ctx, m, data), n)
  {
    if m.energy >= ctx.simpleTransferCost {
      RefusedFits(m.(energy := m.energy - ctx.simpleTransferCost), data, n);
    }
  }

  lemma CalledFits(ctx: Context, m: Machine, data: InvocationData, address: ContractId, amount: nat, n: nat)
    requires m.changes != [] && !Overpays(Current(m), Contract(data.address), amount)
    requires IndicesFit(m, n) && data.nextModIdxCheckpoint <= n
    ensures true == OutcomeFits(OnCall(ctx, m, data, address, amount), n)
  {
    var m1 := Emit(m, Regular(data.frame, Interruption));
    if address in ctx.contracts {
      var m' := OnCall(ctx, m, data, address, amount).machine;
      var below := m1.work + [Resume(data, None, CallRecord(m1.changes, m1.history.succeeded, m1.nextModIdx))];
      CallIs(ctx, m, data, address, amount, m1, below, m');
      assert Current(m') == Current(m);
    } else {
      RefusedFits(m1, data, n);
    }
  }

  lemma ServeFits(ctx: Context, m: Machine, data: InvocationData, i: Interrupt, n: nat)
    requires m.changes != [] && data.address in ctx.contracts
    requires i.Call? ==> !Overpays(Current(m), Contract(data.address), i.amount)
    requires IndicesFit(m, n) && data.nextModIdxCheckpoint <= n
    ensures true == OutcomeFits(Serve(ctx, m, data, i), n)
  {
    match i
    case Transfer(to, amount) => TransferFits(ctx, m, data, to, amount, n);
    case Call(address, amount) => CalledFits(ctx, m, data, address, amount, n);
    case Upgrade(_, _, _) => UpgradeFits(ctx, m, data, i, n);
    case Query(question) => QueryFits(ctx, m, data, question, n);
    case CheckSignature(_, _, _) => CheckSignatureFits(ctx, m, data, i, n);
  }

  /** A call of an interrupt overpays after the state was saved only if it did before. */
  lemma SaveKeepsPaid(ctx: Context, m: Machine, data: InvocationData, newState: Option<ContractState>, amount: nat)
    requires m.changes != [] && data.address in ctx.contracts
    ensures Overpays(Current(SaveIfChanged(ctx, m, data, newState)), Contract(data.address), amount) ==
            Overpays(Current(m), Contract(data.address), amount)
  {
  }

  lemma InterruptedFits(ctx: Context, m: Machine, data: InvocationData, ran: Ran, n: nat)
    requires ran.Interrupted? && m.changes != [] && data.address in ctx.contracts
    requires ran.interrupt.Call? ==> !Overpays(Current(m), Contract(data.address), ran.interrupt.amount)
    requires IndicesFit(m, n) && data.nextModIdxCheckpoint <= n
    ensures true == OutcomeFits(OnInterrupted(ctx, m, data, ran), n + 1)
  {
    var m0 := m.(energy := AfterRun(m.energy, ran.remaining));
    var m1 := SaveIfChanged(ctx, m0, data, ran.newState);
    assert IndicesFit(m1, n + 1);
    if ran.interrupt.Call? { SaveKeepsPaid(ctx, m0, data, ran.newState, ran.interrupt.amount); }
    var data1 := Latest(data, ran.newState).(
      modIdxBefore := if ran.newState.Some? then m.nextModIdx else ModificationIndex(Current(m), data.address));
    ServeFits(ctx, m1, data1, ran.interrupt, n + 1);
  }

  /** Below a frame that runs there are only callers. */
  ghost predicate OnlyCallers(m: Machine) { m.work != [] ==> m.work[|m.work| - 1].Resume? }

  lemma OthersFit(ctx: Context, m: Machine, data: InvocationData, ran: Ran, n: nat)
    requires !ran.Interrupted? && m.changes != [] && data.address in ctx.contracts
    requires OnlyCallers(m) && IndicesFit(m, n) && data.nextModIdxCheckpoint <= n
    ensures true == OutcomeFits(HandleRan(ctx, m, data, ran), n + 1)
  {
  }

  lemma HandleFits(ctx: Context, m: Machine, data: InvocationData, ran: Ran, n: nat)
    requires m.changes != [] && data.address in ctx.contracts && OnlyCallers(m)
    requires ran.Interrupted? && ran.interrupt.Call? ==>
               !Overpays(Current(m), Contract(data.address), ran.interrupt.amount)
    requires IndicesFit(m, n) && data.nextModIdxCheckpoint <= n
    ensures true == OutcomeFits(Handle(ctx, m, data, ran), n + 1)
  {
    HandleIs(ctx, m, data, ran);
    if ran.Interrupted? { InterruptedFits(ctx, m, data, ran, n); } else { OthersFit(ctx, m, data, ran, n); }
  }

  // ---------------------------------------------------------------- one iteration

  lemma CallersFit(ctx: Context, m: Machine)
    requires Callers(ctx, m)
    ensures OnlyCallers(m)
  {
    if m.work != [] { assert CallerOk(ctx, m, |m.work| - 1); }
  }

  lemma ActiveParts(ctx: Context, m: Machine, frame: nat, checkpoint: nat)
    requires Active(ctx, m, frame, checkpoint)
    ensures true == ContextOk(ctx)
    ensures m.changes != [] && true == Balanced(ctx, Current(m), 0)
    ensures OnlyCallers(m)
  {
    CurrentBalanced(ctx, m);
    CallersFit(ctx, m);
  }

  /** An amount that fits can be paid, whatever the energy. */
  lemma AmountServable(ctx: Context, m: Machine, m1: Machine, a: ContractId, amount: nat)
    requires true == ContextOk(ctx)
    requires m.changes != [] && true == Balanced(ctx, Current(m), 0)
    requires m1.changes == m.changes && AmountFits(ctx, amount)
    ensures !Overpays(Current(m), Contract(a), amount)
    ensures !Overpays(Current(m1), Contract(a), amount)
  {
    FittingAmounts(ctx, Current(m), Contract(a), amount);
  }

  /** An interrupt can be served if its amount can be paid and its data is long enough. */
  lemma Servable(ctx: Context, m: Machine, a: ContractId, i: Interrupt)
    requires i.Transfer? ==> m.changes != [] && !Overpays(Current(m), Contract(a), i.amount)
    requires i.CheckSignature? ==> !ReadPayload(i.payload).TooShort?
    ensures !ServePanics(ctx, m, a, i)
  {
  }

  lemma InterruptServable(ctx: Context, m: Machine, m1: Machine, a: ContractId, i: Interrupt)
    requires true == ContextOk(ctx)
    requires m.changes != [] && true == Balanced(ctx, Current(m), 0)
    requires m1.changes == m.changes
    requires (i.Transfer? || i.Call? ==> AmountFits(ctx, i.amount))
    requires (i.CheckSignature? ==> !ReadPayload(i.payload).TooShort?)
    ensures !ServePanics(ctx, m1, a, i)
    ensures i.Call? ==> !Overpays(Current(m), Contract(a), i.amount)
  {
    match i {
      case Transfer(_, amount) => AmountServable(ctx, m, m1, a, amount);
      case Call(_, amount) => AmountServable(ctx, m, m1, a, amount);
      case _ =>
    }
    Servable(ctx, m1, a, i);
  }

  lemma RanServable(ctx: Context, m: Machine, a: ContractId, ran: Ran, m1: Machine)
    requires ran.Interrupted? && m1 == m.(energy := AfterRun(m.energy, ran.remaining))
    requires !ServePanics(ctx, m1, a, ran.interrupt)
    ensures !InterruptPanics(ctx, m, a, ran)
  {
  }

  lemma RunFits(ctx: Context, m: Machine, data: InvocationData, o: Oracle, n: nat)
    requires true == ContextOk(ctx)
    requires m.changes != [] && true == Balanced(ctx, Current(m), 0)
    requires AnswerFits(ctx, o) && ToInterpreterEnergy(m.energy) <= MAX_AMOUNT && m.nextModIdx <= n < MAX_INDEX
    ensures !RunPanics(ctx, m, data, o.ran)
    ensures o.ran.Interrupted? && o.ran.interrupt.Call? ==>
              !Overpays(Current(m), Contract(data.address), o.ran.interrupt.amount)
  {
    if o.ran.Interrupted? {
      var m1 := m.(energy := AfterRun(m.energy, o.ran.remaining));
      InterruptServable(ctx, m, m1, data.address, o.ran.interrupt);
      RanServable(ctx, m, data.address, o.ran, m1);
    }
  }

  lemma ReadyFits(ctx: Context, m: Machine, data: InvocationData, o: Oracle, n: nat)
    requires true == Active(ctx, m, data.frame, data.traceCheckpoint)
    requires data.address in ctx.contracts && true == AnswerFits(ctx, o)
    requires ToInterpreterEnergy(m.energy) <= MAX_AMOUNT && n < MAX_INDEX
    requires IndicesFit(m, n) && data.nextModIdxCheckpoint <= n
    ensures !RunPanics(ctx, m, data, o.ran)
    ensures true == OutcomeFits(Handle(ctx, m, data, o.ran), n + 1)
  {
    ActiveParts(ctx, m, data.frame, data.traceCheckpoint);
    RunFits(ctx, m, data, o, n);
    HandleFits(ctx, m, data, o.ran, n);
  }

  lemma AfterFits(ctx: Context, energy: nat, panics: bool, b: Begun, o: Oracle, n: nat)
    requires BegunOk(ctx, energy, panics, b) && BegunFits(b, n) && AnswerFits(ctx, o)
    requires ToInterpreterEnergy(energy) <= MAX_AMOUNT && n < MAX_INDEX
    ensures b.Ready? ==> !RunPanics(ctx, b.machine, b.data, o.ran)
    ensures true == OutcomeFits(After(ctx, b, o.ran), n + 1)
  {
    match b
    case Ready(m, data) => ReadyFits(ctx, m, data, o, n);
    case Over(m) => CallersFit(ctx, m);
    case Halt(_) =>
  }

  lemma CallStarts(ctx: Context, m: Machine)
    requires m.work != [] && CallFits(m)
    ensures !StartOverpays(ctx, m.(work := m.work[..|m.work| - 1]), m.work[|m.work| - 1])
  {
  }

  /** With answers that fit, enough indices and little enough energy, no iteration panics. */
  lemma StepFits(ctx: Context, m: Machine, o: Oracle, n: nat)
    requires true == Inv(ctx, m)
    requires m.work != [] && true == CallFits(m)
    requires true == AnswerFits(ctx, o)
    requires ToInterpreterEnergy(m.energy) <= MAX_AMOUNT && IndicesFit(m, n) && n < MAX_INDEX
    ensures !StepPanics(ctx, m, o)
    ensures true == OutcomeFits(Step(ctx, m, o), n + 1)
  {
    var k := |m.work| - 1;
    BeginOk(ctx, m, o);
    BeginFits(ctx, m, o, n);
    CallStarts(ctx, m);
    AfterFits(ctx, m.energy, StartOverpays(ctx, m.(work := m.work[..k]), m.work[k]), Begin(ctx, m, o), o, n);
  }

  // ---------------------------------------------------------------- whole runs

  /** With answers that fit, enough indices and little enough energy, no run panics. */
  lemma {:induction false} RunDoesNotPanic(ctx: Context, m: Machine, answers: seq<Oracle>, n: nat)
    requires true == Inv(ctx, m)
    requires true == CallFits(m)
    requires ToInterpreterEnergy(m.energy) <= MAX_AMOUNT && IndicesFit(m, n) && n + |answers| <= MAX_INDEX
    requires AnswersFit(ctx, answers)
    ensures !PanicsInRun(ctx, m, answers)
    decreases |answers|
  {
    if m.work != [] && answers != [] {
      StepKeeps(ctx, m, answers[0]);
      StepFits(ctx, m, answers[0], n);
      var o := Step(ctx, m, answers[0]);
      if o.Running? { RunDoesNotPanic(ctx, o.machine, answers[1..], n + 1); }
    }
  }

  /** What rules a panic out: the energy, counted as the interpreter does, fits 64 bits, the answers
      fit, and there are fewer of them than modification indices. */
  ghost predicate InvocationFits(ctx: Context, energy: nat, answers: seq<Oracle>) {
    ToInterpreterEnergy(energy) <= MAX_AMOUNT && AnswersFit(ctx, answers) && 1 + |answers| <= MAX_INDEX
  }

  lemma DoesNotPanic(ctx: Context, energy: nat, sender: Address, address: ContractId, amount: nat, answers: seq<Oracle>)
    requires true == ContextOk(ctx)
    requires Exists(ctx, sender) && energy <= ctx.energyReserved && InvocationFits(ctx, energy, answers)
    ensures !InvocationPanics(ctx, energy, sender, address, amount, answers)
    ensures !Invocation(ctx, energy, sender, address, amount, answers).Crashed?
  {
    StartKeeps(ctx, sender, address, amount, energy);
    RunDoesNotPanic(ctx, Start(energy, sender, address, amount), answers, 1);
    InvocationOk(ctx, energy, sender, address, amount, answers);
  }

  // ---------------------------------------------------------------- data with signatures

  lemma Pieces(a: bytes, b: bytes, c: bytes)
    ensures (a + b + c)[..|a|] == a && (a + b + c)[|a|..|a| + |b|] == b && (a + b + c)[|a| + |b|..] == c
  {
  }

  /** Data with its length and signatures that fit are read back, whatever follows. */
  lemma PayloadReadsBack(data: bytes, signatures: AccountSignatures.Signatures, tail: bytes)
    requires |data| < Pow256(4) && AccountSignatures.Fits(signatures)
    ensures ReadPayload(LeBytes(|data|, 4) + data + (AccountSignatures.Serial(signatures) + tail)) ==
            Signed(data, signatures)
  {
    var rest := AccountSignatures.Serial(signatures) + tail;
    var payload := LeBytes(|data|, 4) + data + rest;
    LeRoundTrip(|data|, 4);
    Pieces(LeBytes(|data|, 4), data, rest);
    AccountSignatures.RoundTrip(signatures, tail);
  }

  /** Whatever a length says, data that is shorter is not refused but panics. */
  lemma ShortData(length: nat, data: bytes)
    requires |data| < length < Pow256(4)
    ensures ReadPayload(LeBytes(length, 4) + data) == TooShort
  {
    LeRoundTrip(length, 4);
    assert (LeBytes(length, 4) + data)[..4] == LeBytes(length, 4);
  }

  ghost predicate IsSigned(payload: bytes, data: bytes, signatures: AccountSignatures.Signatures, tail: bytes) {
    && |data| < Pow256(4) && AccountSignatures.Fits(signatures)
    && payload == LeBytes(|data|, 4) + data + (AccountSignatures.Serial(signatures) + tail)
  }

  ghost predicate IsShort(payload: bytes, length: nat, data: bytes) {
    |data| < length < Pow256(4) && payload == LeBytes(length, 4) + data
  }

  /** What is read of a payload: data and signatures exactly if it is made of them and anything behind them,
      and it is too short exactly if it has less data than it says. */
  lemma PayloadExactly(payload: bytes, data: bytes, signatures: AccountSignatures.Signatures)
    ensures ReadPayload(payload) == Signed(data, signatures)
       <==> exists tail :: IsSigned(payload, data, signatures, tail)
    ensures ReadPayload(payload) == TooShort <==> exists length: nat, short :: IsShort(payload, length, short)
  {
    if ReadPayload(payload) == Signed(data, signatures) { SignedIs(payload, data, signatures); }
    if tail :| IsSigned(payload, data, signatures, tail) { PayloadReadsBack(data, signatures, tail); }
    if ReadPayload(payload) == TooShort {
      LeCanonical(payload[..4]);
      assert payload == payload[..4] + payload[4..];
      assert IsShort(payload, FromLe(payload[..4]), payload[4..]);
    }
    if length: nat, short :| IsShort(payload, length, short) { ShortData(length, short); }
  }

  lemma SignedIs(payload: bytes, data: bytes, signatures: AccountSignatures.Signatures)
    requires ReadPayload(payload) == Signed(data, signatures)
    ensures exists tail :: IsSigned(payload, data, signatures, tail)
  {
    var end := 4 + FromLe(payload[..4]);
    LeCanonical(payload[..4]);
    var tail := AccountSignatures.Deserial(payload[end..]).value.1;
    AccountSignatures.AcceptsExactly(payload[end..], signatures, tail);
    assert payload == payload[..4] + payload[4..end] + payload[end..];
    assert IsSigned(payload, data, signatures, tail);
  }
}
