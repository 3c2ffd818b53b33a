/** The loop of `invoke_entrypoint` as a machine over a work stack, a stack of change sets and a
    trace. The Wasm interpreter is an oracle: every iteration is given what it answers. */
module InvocationMachine {
  import opened Common
  import opened Amounts
  import opened ChangeSets
  import AccountSignatures
  import Codecs

  const UPDATE_BASE_COST: nat := 300
  const INITIALIZE_BASE_COST: nat := 300
  const INITIALIZE_CREATE_COST: nat := 200
  const ACCOUNT_KEYS_BASE_COST: nat := 200

  /** The largest modification index: they have 32 bits. */
  const MAX_INDEX: nat := 0xFFFF_FFFF

  // ---------------------------------------------------------------- the oracle

  datatype Interrupt =
    | Transfer(to: AccountId, amount: nat)
    | Call(address: ContractId, amount: nat)
    | Upgrade(moduleRef: ModuleRef, lookupCost: nat, exported: bool)
    | Query(question: Question)
    | CheckSignature(account: AccountId, payload: seq<byte>, valid: bool)

  /** What a run of the interpreter returns. `remaining` is in interpreter energy, and is not
      trusted. `Broken` is the interpreter failing itself. */
  datatype Ran =
    | Finished(newState: Option<ContractState>, remaining: nat)
    | Interrupted(newState: Option<ContractState>, remaining: nat, interrupt: Interrupt)
    | Rejected(remaining: nat)
    | Trapped(remaining: nat)
    | Broken
    | RanOut

  /** The answers for one iteration: of the module lookup, when an entrypoint is started, and of
      the interpreter. */
  datatype Oracle = Oracle(hasEntrypoint: bool, lookupCost: nat, ran: Ran)

  // ---------------------------------------------------------------- the machine

  datatype Response = Success(newBalance: nat) | Failure

  datatype Event = Updated | Interruption | Resumed(success: bool) | Transferred | Upgraded

  /** An element of the trace, with the frame that emitted it. */
  datatype TraceElement =
    | Regular(frame: nat, event: Event)
    | Debug(frame: nat)
    | WithFailures(frame: nat, elements: seq<TraceElement>)

  /** What is kept of an entrypoint while it runs. `frame` numbers the calls of the run. */
  datatype InvocationData = InvocationData(
    sender: Address,
    address: ContractId,
    amount: nat,
    state: ContractState,
    traceCheckpoint: nat,
    nextModIdxCheckpoint: nat,
    modIdxBefore: nat,
    frame: nat)

  /** The state of a call when it was made: the stack of change sets before its checkpoint, how
      many calls had succeeded, and the next modification index. It is recorded for the proofs. */
  datatype CallRecord = CallRecord(saved: seq<Changes>, succeeded: nat, nextModIdx: nat)

  datatype Next =
    | Initial(sender: Address, address: ContractId, amount: nat, traceCheckpoint: nat, frame: nat)
    | Resume(data: InvocationData, response: Option<Response>, call: CallRecord)

  /** What a caller met when a call returned: what it was told, and the change sets. */
  datatype Return = Return(told: Response, toldChanged: bool, saved: seq<Changes>, restored: seq<Changes>, nested: int)

  /** What is recorded about a run and does not influence it: how many calls succeeded, how many
      frames there are, which frame made each, which failed, and every return. */
  datatype History = History(succeeded: nat, frames: nat, parent: map<nat, nat>, failed: set<nat>, log: seq<Return>)

  datatype Machine = Machine(
    work: seq<Next>,
    trace: seq<TraceElement>,
    response: Option<Response>,
    changes: seq<Changes>,
    energy: nat,
    nextModIdx: nat,
    history: History)

  /** `left` is the energy that was left when the balance overflowed. */
  datatype Error = OutOfEnergy | BalanceOverflow(left: nat)

  /** `Panicked` stands for an `expect` that fires, an index out of range, or a number that exceeds
      its width in a build with overflow checks. */
  datatype Outcome = Running(machine: Machine) | Stopped(error: Error) | Panicked

  /** The machine at the start of an invocation. */
  function Start(energy: nat, sender: Address, address: ContractId, amount: nat): Machine {
    Machine([Initial(sender, address, amount, 0, 0)], [], None, [NO_CHANGES], energy, 1, History(0, 1, map[], {}, []))
  }

  // ---------------------------------------------------------------- energy

  function ToInterpreterEnergy(energy: nat): nat { energy * 1000 }

  function FromInterpreterEnergy(energy: nat): nat { energy / 1000 }

  /** The energy left by a run, however much the interpreter says remains. */
  function AfterRun(energy: nat, remaining: nat): nat {
    var available := ToInterpreterEnergy(energy);
    var used := FromInterpreterEnergy(if remaining <= available then available - remaining else 0);
    if used <= energy then FromInterpreterEnergy(ToInterpreterEnergy(energy - used)) else 0
  }

  // ---------------------------------------------------------------- small parts

  function Current(m: Machine): Changes
    requires m.changes != []
  {
    m.changes[|m.changes| - 1]
  }

  function WithCurrent(m: Machine, c: Changes): Machine
    requires m.changes != []
  {
    m.(changes := m.changes[..|m.changes| - 1] + [c])
  }

  function Emit(m: Machine, e: TraceElement): Machine { m.(trace := m.trace + [e]) }

  function BalanceOf(ctx: Context, m: Machine, a: ContractId): nat
    requires m.changes != [] && a in ctx.contracts
  {
    var b := ContractBalance(ctx, Current(m), a);
    if b >= 0 then b else 0
  }

  // ---------------------------------------------------------------- starting and resuming

  /** Before the interpreter runs: it is to run for `data`, or the call is over, or all is. */
  datatype Begun = Ready(machine: Machine, data: InvocationData) | Over(machine: Machine) | Halt(outcome: Outcome)

  function FailEarly(m: Machine): Begun { Over(m.(response := Some(Failure))) }

  /** Moves the amount, if any, from the sender to the called contract. */
  function MoveAmount(ctx: Context, m: Machine, sender: Address, address: ContractId, amount: nat): TransferResult
    requires m.changes != []
  {
    if amount > 0 then
      match sender
      case Account(a) => TransferAccountToContract(ctx, Current(m), amount, a, address)
      case Contract(a) => TransferContractToContract(ctx, Current(m), amount, a, address)
    else if address in ctx.contracts then
      Moved(Current(m), BalanceOf(ctx, m, address))
    else
      ToMissing
  }

  /** `invoke_entrypoint_initial`, up to the run of the interpreter. */
  function BeginInitial(ctx: Context, m: Machine, item: Next, o: Oracle): Begun
    requires item.Initial?
  {
    if m.energy < UPDATE_BASE_COST then Halt(Stopped(OutOfEnergy))
    else if m.changes == [] then Halt(Panicked)
    else
      var m1 := m.(energy := m.energy - UPDATE_BASE_COST);
      AfterMove(ctx, m1, item, o, MoveAmount(ctx, m1, item.sender, item.address, item.amount))
  }

  /** What the transfer of the amount leads to. */
  function AfterMove(ctx: Context, m: Machine, item: Next, o: Oracle, r: TransferResult): Begun
    requires item.Initial? && m.changes != []
  {
    match r
    case ToMissing => FailEarly(m)
    case InsufficientAmount => FailEarly(m)
    case TransferOverflow => Halt(Stopped(BalanceOverflow(m.energy)))
    case Panic => Halt(Panicked)
    case Moved(c, _) => Enter(ctx, WithCurrent(m, c), item, o)
  }

  /** The amount is moved: looks up the module and the entrypoint. */
  function Enter(ctx: Context, m: Machine, item: Next, o: Oracle): Begun
    requires item.Initial? && m.changes != []
  {
    if item.address !in ctx.contracts || ModuleOf(ctx, Current(m), item.address) !in ctx.modules then Halt(Panicked)
    else if !o.hasEntrypoint then FailEarly(m)
    else if m.energy < o.lookupCost || ctx.invoker !in ctx.accounts then
      Halt(if m.energy < o.lookupCost then Stopped(OutOfEnergy) else Panicked)
    else
      Ready(m.(energy := m.energy - o.lookupCost),
            InvocationData(item.sender, item.address, item.amount, StateOf(ctx, Current(m), item.address),
                           item.traceCheckpoint, m.nextModIdx, m.nextModIdx, item.frame))
  }

  /** Resuming: with the response of a handled interrupt, or after a call. */
  function BeginResume(ctx: Context, m: Machine, item: Next): Begun
    requires item.Resume?
  {
    if item.response.Some? then Ready(m, item.data)
    else if m.response.None? || m.changes == [] || item.data.address !in ctx.contracts then Halt(Panicked)
    else if m.response.value.Success? then ReturnSuccess(ctx, m, item)
    else ReturnFailure(m, item)
  }

  /** The call succeeded: its changes stay, and so does the checkpoint below them. */
  function ReturnSuccess(ctx: Context, m: Machine, item: Next): Begun
    requires item.Resume? && m.changes != [] && item.data.address in ctx.contracts
  {
    var data := item.data;
    var changed := ModificationIndex(Current(m), data.address) != data.modIdxBefore;
    var data' := if changed then data.(state := StateOf(ctx, Current(m), data.address)) else data;
    var told := Success(BalanceOf(ctx, m, data.address));
    var ret := Return(told, changed, item.call.saved, m.changes, m.history.succeeded - item.call.succeeded);
    Ready(Emit(m.(response := None,
                  history := m.history.(succeeded := m.history.succeeded + 1, log := m.history.log + [ret])),
               Regular(data.frame, Resumed(true))), data')
  }

  /** The call failed: one change set is popped, and the caller is told that nothing changed. */
  function ReturnFailure(m: Machine, item: Next): Begun
    requires item.Resume? && m.changes != []
  {
    var restored := m.changes[..|m.changes| - 1];
    var ret := Return(Failure, false, item.call.saved, restored, m.history.succeeded - item.call.succeeded);
    Ready(Emit(m.(response := None, changes := restored,
                  history := m.history.(log := m.history.log + [ret])),
               Regular(item.data.frame, Resumed(false))), item.data)
  }

  // ---------------------------------------------------------------- after the interpreter

  /** Saves a state the interpreter reports as changed, under the next modification index. */
  function SaveIfChanged(ctx: Context, m: Machine, data: InvocationData, newState: Option<ContractState>): Machine
    requires m.changes != [] && data.address in ctx.contracts
  {
    if newState.None? then m
    else
      var c := SaveState(ctx, Current(m), data.address, newState.value, m.nextModIdx);
      WithCurrent(m, c).(nextModIdx := m.nextModIdx + 1)
  }

  function Latest(data: InvocationData, newState: Option<ContractState>): InvocationData {
    if newState.Some? then data.(state := newState.value) else data
  }

  function OnFinished(ctx: Context, m: Machine, data: InvocationData, ran: Ran): Outcome
    requires ran.Finished? && m.changes != [] && data.address in ctx.contracts
  {
    var m1 := Emit(m.(energy := AfterRun(m.energy, ran.remaining)), Regular(data.frame, Updated));
    var m2 := SaveIfChanged(ctx, m1, data, ran.newState);
    Running(m2.(response := Some(Success(BalanceOf(ctx, m2, data.address)))))
  }

  /** Truncates the trace to the frame's checkpoint and puts what was cut off into a failure. */
  function OnFailed(m: Machine, data: InvocationData, energy: nat): Outcome {
    if data.traceCheckpoint > |m.trace| then Panicked
    else
      Running(m.(energy := energy,
                 trace := m.trace[..data.traceCheckpoint] + [WithFailures(data.frame, m.trace[data.traceCheckpoint..])],
                 nextModIdx := data.nextModIdxCheckpoint,
                 response := Some(Failure),
                 history := m.history.(failed := m.history.failed + {data.frame})))
  }

  const NO_CALL: CallRecord := CallRecord([], 0, 0)

  /** Goes on with a response to an interrupt that is handled at once. */
  function Answered(m: Machine, data: InvocationData, response: Response): Outcome {
    Running(m.(work := m.work + [Resume(data, Some(response), NO_CALL)]))
  }

  function OnTransfer(ctx: Context, m: Machine, data: InvocationData, to: AccountId, amount: nat): Outcome
    requires m.changes != []
  {
    var m1 := Emit(m, Regular(data.frame, Interruption));
    AfterTransfer(ctx, m1, data, TransferContractToAccount(ctx, Current(m1), amount, data.address, to))
  }

  /** What the transfer to an account leads to. */
  function AfterTransfer(ctx: Context, m: Machine, data: InvocationData, r: TransferResult): Outcome
    requires m.changes != []
  {
    match r
    case TransferOverflow => Stopped(BalanceOverflow(m.energy))
    case Panic => Panicked
    case Moved(c, balance) => Paid(ctx, WithCurrent(m, c), data, balance)
    case _ => NotPaid(ctx, m, data)
  }

  function Paid(ctx: Context, m: Machine, data: InvocationData, balance: nat): Outcome {
    var m1 := Emit(Emit(m, Regular(data.frame, Transferred)), Regular(data.frame, Resumed(true)));
    if m1.energy < ctx.simpleTransferCost then Stopped(OutOfEnergy)
    else Answered(m1.(energy := m1.energy - ctx.simpleTransferCost), data, Success(balance))
  }

  function NotPaid(ctx: Context, m: Machine, data: InvocationData): Outcome {
    var m1 := Emit(m, Regular(data.frame, Resumed(false)));
    if m1.energy < ctx.simpleTransferCost then Stopped(OutOfEnergy)
    else Answered(m1.(energy := m1.energy - ctx.simpleTransferCost), data, Failure)
  }

  function OnCall(ctx: Context, m: Machine, data: InvocationData, address: ContractId, amount: nat): Outcome
    requires m.changes != []
  {
    var m1 := Emit(m, Regular(data.frame, Interruption));
    if address !in ctx.contracts then
      Answered(Emit(m1, Regular(data.frame, Resumed(false))), data, Failure)
    else
      var frame := m1.history.frames;
      Running(m1.(changes := m1.changes + [Current(m1)],
                  work := m1.work + [Resume(data, None, CallRecord(m1.changes, m1.history.succeeded, m1.nextModIdx)),
                                     Initial(Contract(data.address), address, amount, |m1.trace|, frame)],
                  history := m1.history.(frames := frame + 1, parent := m1.history.parent[frame := data.frame])))
  }

  function OnUpgrade(ctx: Context, m: Machine, data: InvocationData, i: Interrupt): Outcome
    requires i.Upgrade? && m.changes != [] && data.address in ctx.contracts
  {
    var m1 := Emit(m, Regular(data.frame, Interruption));
    if m1.energy < INITIALIZE_BASE_COST then Stopped(OutOfEnergy)
    else
      UpgradeLookup(ctx, m1.(energy := m1.energy - INITIALIZE_BASE_COST), data, i)
  }

  /** Looks up the new module. */
  function UpgradeLookup(ctx: Context, m: Machine, data: InvocationData, i: Interrupt): Outcome
    requires i.Upgrade? && m.changes != [] && data.address in ctx.contracts
  {
    if i.moduleRef !in ctx.modules then Answered(Emit(m, Regular(data.frame, Resumed(false))), data, Failure)
    else if m.energy < i.lookupCost then Stopped(OutOfEnergy)
    else
      UpgradeTo(ctx, m.(energy := m.energy - i.lookupCost), data, i)
  }

  /** The module is there: it must have the contract. */
  function UpgradeTo(ctx: Context, m: Machine, data: InvocationData, i: Interrupt): Outcome
    requires i.Upgrade? && m.changes != [] && data.address in ctx.contracts
  {
    if !i.exported then Answered(Emit(m, Regular(data.frame, Resumed(false))), data, Failure)
    else if m.energy < INITIALIZE_CREATE_COST then Stopped(OutOfEnergy)
    else
      var c := SaveModule(ctx, Current(m), data.address, i.moduleRef);
      AfterUpgrade(ctx, WithCurrent(m, c).(energy := m.energy - INITIALIZE_CREATE_COST), data)
  }

  /** The new module is saved. */
  function AfterUpgrade(ctx: Context, m: Machine, data: InvocationData): Outcome
    requires m.changes != [] && data.address in ctx.contracts
  {
    var m1 := Emit(Emit(m, Regular(data.frame, Upgraded)), Regular(data.frame, Resumed(true)));
    Answered(m1, data, Success(BalanceOf(ctx, m1, data.address)))
  }

  function OnQuery(ctx: Context, m: Machine, data: InvocationData, q: Question): Outcome
    requires m.changes != [] && data.address in ctx.contracts
  {
    if m.energy < QuestionCost(ctx, q) then Stopped(OutOfEnergy)
    else
      var m1 := m.(energy := m.energy - QuestionCost(ctx, q));
      Debugged(ctx, m1, data, Ask(ctx, Current(m1), q).Some?)
  }

  /** Goes on after a query, with nothing but the debug trace of the contract added. */
  function Debugged(ctx: Context, m: Machine, data: InvocationData, ok: bool): Outcome
    requires m.changes != [] && data.address in ctx.contracts
  {
    var m1 := Emit(m, Debug(data.frame));
    Answered(m1, data, if ok then Success(BalanceOf(ctx, m1, data.address)) else Failure)
  }

  /** What a contract sends to have signatures checked. */
  datatype Payload = Malformed | TooShort | Signed(data: seq<byte>, signatures: AccountSignatures.Signatures)

  /** The length of the data in four bytes, the data, and the signatures; what follows is ignored.
      The data is cut out before it is known to be there. */
  function ReadPayload(payload: seq<byte>): Payload {
    if |payload| < 4 then Malformed
    else if 4 + Codecs.FromLe(payload[..4]) > |payload| then TooShort
    else
      var end := 4 + Codecs.FromLe(payload[..4]);
      match AccountSignatures.Deserial(payload[end..])
      case None => Malformed
      case Some(r) => Signed(payload[4..end], r.0)
  }

  function CountSignatures(signatures: AccountSignatures.Signatures): nat {
    if signatures == [] then 0 else |signatures[0].1| + CountSignatures(signatures[1..])
  }

  function VerifyCost(signatures: nat, length: nat): nat { signatures * (100 + length / 10) }

  function OnCheckSignature(ctx: Context, m: Machine, data: InvocationData, i: Interrupt): Outcome
    requires i.CheckSignature? && m.changes != [] && data.address in ctx.contracts
  {
    if m.energy < ACCOUNT_KEYS_BASE_COST then Stopped(OutOfEnergy)
    else
      var m1 := m.(energy := m.energy - ACCOUNT_KEYS_BASE_COST);
      if i.account !in ctx.accounts then Debugged(ctx, m1, data, false)
      else CheckPayload(ctx, m1, data, ReadPayload(i.payload), i.valid)
  }

  /** Whether the signatures are those of the account is `valid`. */
  function CheckPayload(ctx: Context, m: Machine, data: InvocationData, payload: Payload, valid: bool): Outcome
    requires m.changes != [] && data.address in ctx.contracts
  {
    match payload
    case Malformed => Debugged(ctx, m, data, false)
    case TooShort => Panicked
    case Signed(signed, signatures) =>
      var cost := VerifyCost(CountSignatures(signatures), |signed|);
      if m.energy < cost then Stopped(OutOfEnergy) else Debugged(ctx, m.(energy := m.energy - cost), data, valid)
  }

  function OnInterrupted(ctx: Context, m: Machine, data: InvocationData, ran: Ran): Outcome
    requires ran.Interrupted? && m.changes != [] && data.address in ctx.contracts
  {
    var m1 := SaveIfChanged(ctx, m.(energy := AfterRun(m.energy, ran.remaining)), data, ran.newState);
    var data1 := Latest(data, ran.newState).(
      modIdxBefore := if ran.newState.Some? then m.nextModIdx else ModificationIndex(Current(m), data.address));
    Serve(ctx, m1, data1, ran.interrupt)
  }

  /** What an interrupt leads to. */
  function Serve(ctx: Context, m: Machine, data: InvocationData, i: Interrupt): Outcome
    requires m.changes != [] && data.address in ctx.contracts
  {
    match i
    case Transfer(to, amount) => OnTransfer(ctx, m, data, to, amount)
    case Call(address, amount) => OnCall(ctx, m, data, address, amount)
    case Upgrade(_, _, _) => OnUpgrade(ctx, m, data, i)
    case Query(question) => OnQuery(ctx, m, data, question)
    case CheckSignature(_, _, _) => OnCheckSignature(ctx, m, data, i)
  }

  /** The run saves a state, under a new modification index. */
  predicate Saves(ran: Ran) { (ran.Finished? || ran.Interrupted?) && ran.newState.Some? }

  /** What the run of the interpreter leads to. The energy is converted before the run, and the next
      index is computed when a state is saved. */
  function Handle(ctx: Context, m: Machine, data: InvocationData, ran: Ran): Outcome {
    if m.changes == [] || data.address !in ctx.contracts then Panicked
    else if ToInterpreterEnergy(m.energy) > MAX_AMOUNT then Panicked
    else if Saves(ran) && m.nextModIdx >= MAX_INDEX then Panicked
    else HandleRan(ctx, m, data, ran)
  }

  function HandleRan(ctx: Context, m: Machine, data: InvocationData, ran: Ran): Outcome
    requires m.changes != [] && data.address in ctx.contracts
  {
    match ran
    case Finished(_, _) => OnFinished(ctx, m, data, ran)
    case Interrupted(_, _, _) => OnInterrupted(ctx, m, data, ran)
    case Rejected(remaining) => OnFailed(m, data, AfterRun(m.energy, remaining))
    case Trapped(remaining) => OnFailed(m, data, AfterRun(m.energy, remaining))
    case Broken => OnFailed(m, data, 0)
    case RanOut => Stopped(OutOfEnergy)
  }

  /** Pops the item on top and starts or resumes it. */
  function Begin(ctx: Context, m: Machine, o: Oracle): Begun
    requires m.work != []
  {
    var item := m.work[|m.work| - 1];
    var m0 := m.(work := m.work[..|m.work| - 1]);
    if item.Initial? then BeginInitial(ctx, m0, item, o) else BeginResume(ctx, m0, item)
  }

  /** One iteration of the loop: pop, start or resume, run, handle. */
  function Step(ctx: Context, m: Machine, o: Oracle): Outcome
    requires m.work != []
  {
    After(ctx, Begin(ctx, m, o), o.ran)
  }

  /** What starting or resuming leads to. */
  function After(ctx: Context, b: Begun, ran: Ran): Outcome {
    match b
    case Halt(outcome) => outcome
    case Over(m) => Running(m)
    case Ready(m, data) => Handle(ctx, m, data, ran)
  }

  // ---------------------------------------------------------------- whole runs

  /** How an invocation ends. `Unfinished` only says that more answers are needed, and `Crashed`
      stands for a panic. */
  datatype Result =
    | Done(response: Response, trace: seq<TraceElement>, changes: seq<Changes>, energy: nat, history: History)
    | Failed(error: Error)
    | Unfinished
    | Crashed

  /** What is returned when no work is left. */
  function Ending(m: Machine): Result {
    if m.response.None? then Crashed else Done(m.response.value, m.trace, m.changes, m.energy, m.history)
  }

  /** Iterating from `m` on, with one answer of the interpreter for each iteration. */
  function RunFrom(ctx: Context, m: Machine, answers: seq<Oracle>): Result
    decreases |answers|
  {
    if m.work == [] then Ending(m)
    else if answers == [] then Unfinished
    else
      match Step(ctx, m, answers[0])
      case Running(next) => RunFrom(ctx, next, answers[1..])
      case Stopped(error) => Failed(error)
      case Panicked => Crashed
  }

  function Invocation(ctx: Context, energy: nat, sender: Address, address: ContractId, amount: nat,
                      answers: seq<Oracle>): Result {
    RunFrom(ctx, Start(energy, sender, address, amount), answers)
  }

  /** The machines of a run, one for each number of iterations. */
  ghost predicate IsRun(ctx: Context, ms: seq<Machine>, answers: seq<Oracle>) {
    && |ms| == |answers| + 1
    && forall i {:trigger answers[i]} :: 0 <= i < |answers| ==>
         ms[i].work != [] && Step(ctx, ms[i], answers[i]) == Running(ms[i + 1])
  }

  /** No iteration goes on from here: no work or no answer is left, or the iteration stops. */
  predicate Halts(ctx: Context, m: Machine, answers: seq<Oracle>) {
    m.work == [] || answers == [] || !Step(ctx, m, answers[0]).Running?
  }

  /** Every run has a machine for each of its iterations, and ends as it does from the last one. */
  lemma {:induction false} RunHasMachines(ctx: Context, m: Machine, answers: seq<Oracle>) returns (ms: seq<Machine>)
    ensures 0 < |ms| <= |answers| + 1 && IsRun(ctx, ms, answers[..|ms| - 1]) && ms[0] == m
    ensures Halts(ctx, ms[|ms| - 1], answers[|ms| - 1..])
    ensures RunFrom(ctx, m, answers) == RunFrom(ctx, ms[|ms| - 1], answers[|ms| - 1..])
    decreases |answers|
  {
    if Halts(ctx, m, answers) {
      ms := [m];
      assert answers[0..] == answers;
    } else {
      var next := Step(ctx, m, answers[0]).machine;
      var more := RunHasMachines(ctx, next, answers[1..]);
      ms := [m] + more;
      FirstStep(ctx, m, more, answers, answers[..|ms| - 1]);
      assert answers[1..][|more| - 1..] == answers[|ms| - 1..];
    }
  }

  lemma FirstStep(ctx: Context, m: Machine, more: seq<Machine>, answers: seq<Oracle>, used: seq<Oracle>)
    requires m.work != [] && answers != [] && |more| > 0 && Step(ctx, m, answers[0]) == Running(more[0])
    requires |more| <= |answers| && IsRun(ctx, more, answers[1..][..|more| - 1]) && used == answers[..|more|]
    ensures IsRun(ctx, [m] + more, used)
  {
    var ms, rest := [m] + more, answers[1..][..|more| - 1];
    forall i | 0 <= i < |used| ensures ms[i].work != [] && Step(ctx, ms[i], used[i]) == Running(ms[i + 1]) {
      if i > 0 { assert used[i] == rest[i - 1] && ms[i] == more[i - 1]; }
    }
  }
}
