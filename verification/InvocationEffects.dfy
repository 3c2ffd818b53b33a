/** What each iteration does, said without the functions that do it: who paid whom, which state and
    which module were saved, how much energy is left, and what the contract is told. */
module InvocationEffects {
  import opened Common
  import opened Amounts
  import opened ChangeSets
  import opened InvocationMachine
  import opened InvocationProofs
  import AccountSignatures

  // ---------------------------------------------------------------- change sets

  datatype Payment = NoPayment | Payment(from: Address, to: Address, amount: nat)

  /** What a payment is to one address, which may pay itself. */
  ghost function Gain(p: Payment, who: Address): int {
    if p.NoPayment? then 0 else (if who == p.to then p.amount else 0) - (if who == p.from then p.amount else 0)
  }

  /** What is saved for one contract; a state is saved under an index. */
  datatype Saved = Saved(state: Option<ContractState>, index: nat, moduleRef: Option<ModuleRef>)

  const NOTHING: Saved := Saved(None, 0, None)

  /** From `c` to `e`, the payment was made, `s` was saved for contract `a`, and nothing else
      changed. */
  ghost predicate Became(ctx: Context, c: Changes, e: Changes, p: Payment, a: ContractId, s: Saved) {
    && (forall x :: x in ctx.contracts ==>
          && ContractBalance(ctx, e, x) == ContractBalance(ctx, c, x) + Gain(p, Contract(x))
          && StateOf(ctx, e, x) == (if x == a && s.state.Some? then s.state.value else StateOf(ctx, c, x))
          && ModificationIndex(e, x) == (if x == a && s.state.Some? then s.index else ModificationIndex(c, x))
          && ModuleOf(ctx, e, x) == (if x == a && s.moduleRef.Some? then s.moduleRef.value else ModuleOf(ctx, c, x)))
    && (forall x :: x in ctx.accounts ==>
          AccountBalance(ctx, e, x) == AccountBalance(ctx, c, x) + Gain(p, Account(x)))
  }

  /** The same of the last change set of a machine; the ones below stay. */
  ghost predicate Edited(ctx: Context, m: Machine, m': Machine, p: Payment, a: ContractId, s: Saved) {
    && m.changes != [] && |m'.changes| == |m.changes|
    && m'.changes[..|m.changes| - 1] == m.changes[..|m.changes| - 1]
    && Became(ctx, Current(m), Current(m'), p, a, s)
  }

  /** What an address can spend. */
  ghost function Funds(ctx: Context, c: Changes, who: Address): int
    requires Exists(ctx, who)
  {
    match who
    case Account(a) => AccountBalance(ctx, c, a)
    case Contract(a) => ContractBalance(ctx, c, a)
  }

  lemma Unedited(ctx: Context, m: Machine, m': Machine, a: ContractId)
    requires m.changes != [] && m'.changes == m.changes
    ensures true == Edited(ctx, m, m', NoPayment, a, NOTHING)
  {
  }

  /** A state is saved first, then a payment is made or a module saved. */
  lemma EditedTwice(ctx: Context, m: Machine, m1: Machine, m': Machine, p: Payment, a: ContractId, s: Saved, t: Saved)
    requires Edited(ctx, m, m1, NoPayment, a, s) && Edited(ctx, m1, m', p, a, t)
    requires s.moduleRef.None? && t.state.None?
    ensures true == Edited(ctx, m, m', p, a, s.(moduleRef := t.moduleRef))
  {
  }

  // ---------------------------------------------------------------- energy

  /** A run that has `energy` and says that `remaining` interpreter energy remains leaves the least
      energy that covers what remains, which is at most what there was. */
  ghost predicate Left(energy: nat, remaining: nat, left: nat) {
    var r := if remaining <= 1000 * energy then remaining else 1000 * energy;
    r <= 1000 * left < r + 1000
  }

  /** There is only one such energy. */
  lemma LeftIsOne(energy: nat, remaining: nat, left: nat, other: nat)
    requires Left(energy, remaining, left) && Left(energy, remaining, other)
    ensures left == other
  {
  }

  /** The energy after a run is that one. */
  lemma RunLeaves(energy: nat, remaining: nat)
    ensures Left(energy, remaining, AfterRun(energy, remaining))
  {
    var available := 1000 * energy;
    var used := if remaining <= available then available - remaining else 0;
    assert used / 1000 <= energy;
  }

  /** What serving an interrupt costs. */
  ghost function Cost(ctx: Context, i: Interrupt): nat {
    match i
    case Transfer(_, _) => ctx.simpleTransferCost
    case Call(_, _) => 0
    case Upgrade(moduleRef, lookupCost, exported) =>
      if moduleRef !in ctx.modules then 300 else if !exported then 300 + lookupCost else 500 + lookupCost
    case Query(AskRates) => 100
    case Query(AskKeys(a, numKeys)) => if a in ctx.accounts then 200 + 3 * numKeys else 200
    case Query(_) => 200
    case CheckSignature(a, payload, _) => 200 + if a in ctx.accounts then PayloadCost(ReadPayload(payload)) else 0
  }

  /** For each signature 100, and one more for every ten bytes of the data. */
  ghost function PayloadCost(p: Payload): nat {
    if p.Signed? then CountSignatures(p.signatures) * (100 + |p.data| / 10) else 0
  }

  /** All signatures are counted: those of one credential, and those of two lists together. */
  lemma {:induction false} SignaturesCounted(k: byte, inner: AccountSignatures.Inner, s: AccountSignatures.Signatures,
                                             t: AccountSignatures.Signatures)
    ensures CountSignatures([]) == 0 && CountSignatures([(k, inner)]) == |inner|
    ensures CountSignatures(s + t) == CountSignatures(s) + CountSignatures(t)
    decreases |s|
  {
    if s == [] {
      assert s + t == t;
    } else {
      SignaturesCounted(k, inner, s[1..], t);
      assert (s + t)[1..] == s[1..] + t;
    }
  }

  // ---------------------------------------------------------------- interrupts

  /** Whether a question has an answer. A contract of which something changed is not found by its
      module, unless it was upgraded. */
  ghost predicate HasAnswer(ctx: Context, c: Changes, q: Question) {
    match q
    case AskAccount(a) => a in ctx.accounts
    case AskContract(a) => a in ctx.contracts
    case AskRates => true
    case AskKeys(a, _) => a in ctx.accounts
    case AskModule(a) => a in ctx.contracts && (a in c.contracts ==> c.contracts[a].moduleRef.Some?)
    case AskName(a) => a in ctx.contracts
  }

  /** Whether contract `a` is told that the interrupt succeeded; `c` is the change set after it. */
  ghost predicate Succeeds(ctx: Context, c: Changes, funds: int, i: Interrupt) {
    match i
    case Transfer(to, amount) => to in ctx.accounts && amount <= funds
    case Call(_, _) => false
    case Upgrade(moduleRef, _, exported) => moduleRef in ctx.modules && exported
    case Query(q) => HasAnswer(ctx, c, q)
    case CheckSignature(a, payload, valid) => a in ctx.accounts && ReadPayload(payload).Signed? && valid
  }

  ghost function PaymentOf(a: ContractId, i: Interrupt, ok: bool): Payment {
    if ok && i.Transfer? then Payment(Contract(a), Account(i.to), i.amount) else NoPayment
  }

  ghost function ModuleOfUpgrade(i: Interrupt, ok: bool): Option<ModuleRef> {
    if ok && i.Upgrade? then Some(i.moduleRef) else None
  }

  ghost function EventsOf(frame: nat, i: Interrupt, ok: bool): seq<TraceElement> {
    if i.Query? || i.CheckSignature? then [Debug(frame)]
    else
      [Regular(frame, Interruption)] +
      (if ok && i.Transfer? then [Regular(frame, Transferred)]
       else if ok && i.Upgrade? then [Regular(frame, Upgraded)] else []) +
      [Regular(frame, Resumed(ok))]
  }

  /** The interrupt is served at once: the frame goes on with `told`, the balance of its contract if
      it succeeded. */
  ghost predicate Answers(ctx: Context, m: Machine, data: InvocationData, s: Saved, i: Interrupt, m': Machine)
    requires m.changes != [] && data.address in ctx.contracts
  {
    && m'.changes != []
    && var ok := Succeeds(ctx, Current(m'), ContractBalance(ctx, Current(m), data.address), i);
       var balance := ContractBalance(ctx, Current(m'), data.address);
       && balance >= 0
       && Edited(ctx, m, m', PaymentOf(data.address, i, ok), data.address, s.(moduleRef := ModuleOfUpgrade(i, ok)))
       && m'.trace == m.trace + EventsOf(data.frame, i, ok)
       && m'.work == m.work + [Resume(DataAfter(data, s, Current(m')),
                                      Some(if ok then Success(balance) else Failure), NO_CALL)]
       && m'.history == m.history
  }

  /** The frame remembers the state it saved, and the index its contract has. */
  ghost function DataAfter(data: InvocationData, s: Saved, c: Changes): InvocationData {
    data.(state := if s.state.Some? then s.state.value else data.state,
          modIdxBefore := ModificationIndex(c, data.address))
  }

  /** A call of a contract that exists: the caller waits below it, with a copy of the change set. */
  ghost predicate Calls(ctx: Context, m: Machine, data: InvocationData, s: Saved, i: Interrupt, m': Machine)
    requires i.Call?
  {
    && |m'.changes| == |m.changes| + 1 && m.changes != []
    && var below := m'.changes[..|m.changes|];
       && below[|m.changes| - 1] == Current(m')
       && Edited(ctx, m, m.(changes := below), NoPayment, data.address, s)
       && m'.trace == m.trace + [Regular(data.frame, Interruption)]
       && m'.work == m.work + [Resume(DataAfter(data, s, Current(m')), None,
                                      CallRecord(below, m.history.succeeded, m'.nextModIdx)),
                               Initial(Contract(data.address), i.address, i.amount, |m'.trace|, m.history.frames)]
       && m'.history == m.history.(frames := m.history.frames + 1,
                                   parent := m.history.parent[m.history.frames := data.frame])
  }

  ghost predicate Interrupts(ctx: Context, m: Machine, data: InvocationData, s: Saved, i: Interrupt, m': Machine)
    requires m.changes != [] && data.address in ctx.contracts
  {
    if i.Call? && i.address in ctx.contracts then Calls(ctx, m, data, s, i, m') else Answers(ctx, m, data, s, i, m')
  }

  // ---------------------------------------------------------------- runs of the interpreter

  ghost function SavedBy(m: Machine, ran: Ran): Saved
    requires ran.Finished? || ran.Interrupted?
  {
    Saved(ran.newState, m.nextModIdx, None)
  }

  ghost function NextIndex(m: Machine, ran: Ran): nat
    requires ran.Finished? || ran.Interrupted?
  {
    if ran.newState.Some? then m.nextModIdx + 1 else m.nextModIdx
  }

  /** The frame is over: its state is saved, and its contract's balance is the response. */
  ghost predicate Finishes(ctx: Context, m: Machine, data: InvocationData, ran: Ran, m': Machine)
    requires ran.Finished? && data.address in ctx.contracts
  {
    && m'.changes != [] && ContractBalance(ctx, Current(m'), data.address) >= 0
    && Edited(ctx, m, m', NoPayment, data.address, SavedBy(m, ran))
    && m' == m.(changes := m'.changes, energy := m'.energy, nextModIdx := NextIndex(m, ran),
                trace := m.trace + [Regular(data.frame, Updated)],
                response := Some(Success(ContractBalance(ctx, Current(m'), data.address))))
  }

  /** The frame failed: its trace becomes one element, and change sets and callers stay. */
  ghost predicate Fails(m: Machine, data: InvocationData, m': Machine) {
    && data.traceCheckpoint <= |m.trace|
    && m' == m.(energy := m'.energy, nextModIdx := data.nextModIdxCheckpoint, response := Some(Failure),
                trace := m.trace[..data.traceCheckpoint]
                           + [WithFailures(data.frame, m.trace[data.traceCheckpoint..])],
                history := m.history.(failed := m.history.failed + {data.frame}))
  }

  /** The energy that a run leaves does not cover the interrupt. */
  ghost predicate Exhausts(ctx: Context, m: Machine, ran: Ran) {
    ran.RanOut? || (ran.Interrupted? &&
                    exists left: nat :: Left(m.energy, ran.remaining, left) && left < Cost(ctx, ran.interrupt))
  }

  /** What a run of the interpreter leads to. */
  ghost predicate RunDoes(ctx: Context, m: Machine, data: InvocationData, ran: Ran, o: Outcome)
    requires m.changes != [] && data.address in ctx.contracts
  {
    match o
    case Panicked => RunPanics(ctx, m, data, ran)
    case Stopped(e) => e == OutOfEnergy && Exhausts(ctx, m, ran)
    case Running(m') => RunLeads(ctx, m, data, ran, m')
  }

  ghost predicate RunLeads(ctx: Context, m: Machine, data: InvocationData, ran: Ran, m': Machine)
    requires m.changes != [] && data.address in ctx.contracts
  {
    match ran
    case Finished(_, remaining) => Left(m.energy, remaining, m'.energy) && Finishes(ctx, m, data, ran, m')
    case Interrupted(_, remaining, i) =>
      && Left(m.energy, remaining, m'.energy + Cost(ctx, i)) && m'.nextModIdx == NextIndex(m, ran)
      && m'.response == m.response && Interrupts(ctx, m, data, SavedBy(m, ran), i, m')
    case Rejected(remaining) => Left(m.energy, remaining, m'.energy) && Fails(m, data, m')
    case Trapped(remaining) => Left(m.energy, remaining, m'.energy) && Fails(m, data, m')
    case Broken => m'.energy == 0 && Fails(m, data, m')
    case RanOut => false
  }

  // ---------------------------------------------------------------- starting and resuming

  /** Starting a call moves its amount from the sender to the called contract, if both are there and
      so is the amount; nothing is moved otherwise. A missing entrypoint is noticed afterwards. */
  ghost predicate Starts(ctx: Context, m: Machine, item: Next, o: Oracle, b: Begun)
    requires item.Initial? && m.changes != [] && Exists(ctx, item.sender)
  {
    var movable := item.address in ctx.contracts && item.amount <= Funds(ctx, Current(m), item.sender);
    var payment := Payment(item.sender, Contract(item.address), item.amount);
    match b
    case Ready(m', data) =>
      && movable && o.hasEntrypoint && m.energy >= 300 + o.lookupCost
      && Edited(ctx, m, m', payment, item.address, NOTHING)
      && m' == m.(changes := m'.changes, energy := m.energy - 300 - o.lookupCost)
      && data == InvocationData(item.sender, item.address, item.amount, StateOf(ctx, Current(m), item.address),
                                item.traceCheckpoint, m.nextModIdx, m.nextModIdx, item.frame)
    case Over(m') =>
      && !(movable && o.hasEntrypoint) && m.energy >= 300
      && Edited(ctx, m, m', if movable then payment else NoPayment, item.address, NOTHING)
      && m' == m.(changes := m'.changes, energy := m.energy - 300, response := Some(Failure))
    case Halt(Panicked) => StartOverpays(ctx, m, item)
    case Halt(o') =>
      o' == Stopped(OutOfEnergy) && (m.energy < 300 || (movable && o.hasEntrypoint && m.energy < 300 + o.lookupCost))
  }

  /** Returning from a call: the caller is told its balance, or a failure, and gets its state anew if
      the modification index of its contract is another one. */
  ghost predicate Returns(ctx: Context, m: Machine, item: Next, b: Begun)
    requires item.Resume? && m.changes != [] && m.response.Some? && item.data.address in ctx.contracts
  {
    var ok, a := m.response.value.Success?, item.data.address;
    && b.Ready?
    && var m' := b.machine;
       && m'.changes == (if ok then m.changes else m.changes[..|m.changes| - 1])
       && m'.work == m.work && m'.energy == m.energy && m'.nextModIdx == m.nextModIdx && m'.response.None?
       && m'.trace == m.trace + [Regular(item.data.frame, Resumed(ok))]
       && m'.history == m.history.(succeeded := m'.history.succeeded, log := m'.history.log)
       && m'.history.succeeded == m.history.succeeded + (if ok then 1 else 0)
       && |m'.history.log| == |m.history.log| + 1 && m.history.log <= m'.history.log
       && var r := m'.history.log[|m.history.log|];
          var changed := ok && ModificationIndex(Current(m), a) != item.data.modIdxBefore;
          && r.toldChanged == changed && r.told.Success? == ok
          && (ok ==> r.told.newBalance == ContractBalance(ctx, Current(m), a))
          && r.saved == item.call.saved && r.restored == m'.changes
          && b.data == item.data.(state := if changed then StateOf(ctx, Current(m), a) else item.data.state)
  }

  /** One iteration from a machine in the invariant. */
  ghost predicate Iterates(ctx: Context, m: Machine, o: Oracle, b: Begun, out: Outcome)
    requires m.work != []
  {
    var n := |m.work| - 1;
    var m0, item := m.(work := m.work[..n]), m.work[n];
    && m.changes != []
    && (match item
        case Initial(sender, _, _, _, _) => Exists(ctx, sender) && Starts(ctx, m0, item, o, b)
        case Resume(data, Some(_), _) => b == Ready(m0, data)
        case Resume(data, None, _) =>
          m.response.Some? && data.address in ctx.contracts && Returns(ctx, m0, item, b))
    && (match b
        case Ready(m1, data) =>
          m1.changes != [] && data.address in ctx.contracts && RunDoes(ctx, m1, data, o.ran, out)
        case Over(m1) => out == Running(m1)
        case Halt(h) => out == h)
  }
}
