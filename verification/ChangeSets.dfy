/** The changes of one invocation: balance deltas, states and modules that are not yet
    persisted, and the transfers that edit them. */
module ChangeSets {
  import opened Common
  import opened Amounts
  import opened Sums

  type AccountId = int
  type ContractId = int
  type ModuleRef = int
  type ContractState = int

  datatype Address = Account(account: AccountId) | Contract(contract: ContractId)

  /** An account: what can be spent is at most the total. */
  datatype ChainAccount = ChainAccount(total: nat, available: nat)

  datatype ChainContract = ChainContract(balance: nat, moduleRef: ModuleRef, state: ContractState)

  /** What an invocation reads of the chain, and what was reserved for its energy. */
  datatype Context = Context(
    accounts: map<AccountId, ChainAccount>,
    contracts: map<ContractId, ChainContract>,
    modules: set<ModuleRef>,
    invoker: AccountId,
    reserved: nat,
    energyReserved: nat,
    simpleTransferCost: nat)

  datatype ContractChanges = ContractChanges(
    modificationIndex: nat,
    delta: AmountDelta,
    original: nat,
    state: Option<ContractState>,
    moduleRef: Option<ModuleRef>)

  datatype AccountChanges = AccountChanges(original: nat, delta: AmountDelta)

  datatype Changes = Changes(contracts: map<ContractId, ContractChanges>, accounts: map<AccountId, AccountChanges>)

  const NO_CHANGES: Changes := Changes(map[], map[])

  /** What the callers of an invocation guarantee: the invoker exists and can pay, modules are
      deployed, and no amount in circulation exceeds 64 bits. */
  ghost predicate ContextOk(ctx: Context) {
    && (forall a :: a in ctx.accounts ==> ctx.accounts[a].available <= ctx.accounts[a].total)
    && ctx.invoker in ctx.accounts && ctx.reserved <= ctx.accounts[ctx.invoker].available
    && (forall a :: a in ctx.contracts ==> ctx.contracts[a].moduleRef in ctx.modules)
    && Supply(ctx) <= MAX_AMOUNT
  }

  /** The balance an account starts with: the reserved amount is not its to spend. */
  function OriginalBalance(ctx: Context, a: AccountId): int
    requires a in ctx.accounts
  {
    ctx.accounts[a].available - (if a == ctx.invoker then ctx.reserved else 0)
  }

  ghost function ContractBalances(ctx: Context): map<ContractId, int> {
    map a | a in ctx.contracts :: ctx.contracts[a].balance
  }

  ghost function AccountBalances(ctx: Context): map<AccountId, int> {
    map a | a in ctx.accounts :: OriginalBalance(ctx, a)
  }

  /** All that can be spent during the invocation. */
  ghost function Supply(ctx: Context): int {
    Sum(ContractBalances(ctx)) + Sum(AccountBalances(ctx))
  }

  ghost function ContractDeltas(ctx: Context, c: Changes): map<ContractId, int> {
    map a | a in ctx.contracts :: if a in c.contracts then c.contracts[a].delta.Value() else 0
  }

  ghost function AccountDeltas(ctx: Context, c: Changes): map<AccountId, int> {
    map a | a in ctx.accounts :: if a in c.accounts then c.accounts[a].delta.Value() else 0
  }

  /** The signed sum of all deltas. */
  ghost function DeltaSum(ctx: Context, c: Changes): int {
    Sum(ContractDeltas(ctx, c)) + Sum(AccountDeltas(ctx, c))
  }

  ghost predicate ContractFits(ctx: Context, a: ContractId, e: ContractChanges) {
    && a in ctx.contracts && e.original == ctx.contracts[a].balance
    && 0 <= e.original + e.delta.Value()
    && (e.moduleRef.Some? ==> e.moduleRef.value in ctx.modules)
  }

  ghost predicate AccountFits(ctx: Context, a: AccountId, e: AccountChanges) {
    && a in ctx.accounts && e.original == OriginalBalance(ctx, a)
    && 0 <= e.original + e.delta.Value()
  }

  /** The changes fit the chain, no balance is negative, and the deltas sum to `d`. */
  ghost predicate Balanced(ctx: Context, c: Changes, d: int) {
    && (forall a :: a in c.contracts ==> ContractFits(ctx, a, c.contracts[a]))
    && (forall a :: a in c.accounts ==> AccountFits(ctx, a, c.accounts[a]))
    && DeltaSum(ctx, c) == d
  }

  /** The current balance of a contract. */
  function ContractBalance(ctx: Context, c: Changes, a: ContractId): int
    requires a in ctx.contracts
  {
    if a in c.contracts then c.contracts[a].original + c.contracts[a].delta.Value() else ctx.contracts[a].balance
  }

  function AccountBalance(ctx: Context, c: Changes, a: AccountId): int
    requires a in ctx.accounts
  {
    if a in c.accounts then c.accounts[a].original + c.accounts[a].delta.Value() else OriginalBalance(ctx, a)
  }

  /** The state of a contract: the modified one, or the persisted one. */
  function StateOf(ctx: Context, c: Changes, a: ContractId): ContractState
    requires a in ctx.contracts
  {
    if a in c.contracts && c.contracts[a].state.Some? then c.contracts[a].state.value else ctx.contracts[a].state
  }

  function ModuleOf(ctx: Context, c: Changes, a: ContractId): ModuleRef
    requires a in ctx.contracts
  {
    if a in c.contracts && c.contracts[a].moduleRef.Some? then c.contracts[a].moduleRef.value
    else ctx.contracts[a].moduleRef
  }

  function ModificationIndex(c: Changes, a: ContractId): nat {
    if a in c.contracts then c.contracts[a].modificationIndex else 0
  }

  /** `c` and `e` differ at most in balances. */
  ghost predicate SameStates(ctx: Context, c: Changes, e: Changes) {
    forall a :: a in ctx.contracts ==>
      && StateOf(ctx, e, a) == StateOf(ctx, c, a) && ModuleOf(ctx, e, a) == ModuleOf(ctx, c, a)
      && ModificationIndex(e, a) == ModificationIndex(c, a)
  }

  /** From `c` to `e`, contract `from` paid `out` and contract `to` received `in_`. */
  ghost predicate ContractsMoved(ctx: Context, c: Changes, e: Changes, from: ContractId, out: nat, to: ContractId,
                                 in_: nat) {
    forall a :: a in ctx.contracts ==>
      ContractBalance(ctx, e, a) ==
        ContractBalance(ctx, c, a) - (if a == from then out else 0) + (if a == to then in_ else 0)
  }

  /** From `c` to `e`, account `of` gained `gain`, which may be negative. */
  ghost predicate AccountsMoved(ctx: Context, c: Changes, e: Changes, of: AccountId, gain: int) {
    forall a :: a in ctx.accounts ==>
      AccountBalance(ctx, e, a) == AccountBalance(ctx, c, a) + (if a == of then gain else 0)
  }

  lemma NoChangesBalanced(ctx: Context)
    ensures Balanced(ctx, NO_CHANGES, 0)
  {
    SumZero(ContractDeltas(ctx, NO_CHANGES));
    SumZero(AccountDeltas(ctx, NO_CHANGES));
  }

  /** No balance exceeds the supply and what the deltas add to it. */
  lemma BalanceBound(ctx: Context, c: Changes, d: int)
    requires ContextOk(ctx) && Balanced(ctx, c, d)
    ensures forall a :: a in ctx.contracts ==> 0 <= ContractBalance(ctx, c, a) <= Supply(ctx) + d
    ensures forall a :: a in ctx.accounts ==> 0 <= AccountBalance(ctx, c, a) <= Supply(ctx) + d
  {
    var bc := map a | a in ctx.contracts :: ContractBalance(ctx, c, a);
    var ba := map a | a in ctx.accounts :: AccountBalance(ctx, c, a);
    forall a | a in ctx.contracts ensures bc[a] == ContractBalances(ctx)[a] + ContractDeltas(ctx, c)[a] && bc[a] >= 0 {
      assert a in c.contracts ==> ContractFits(ctx, a, c.contracts[a]);
    }
    forall a | a in ctx.accounts ensures ba[a] == AccountBalances(ctx)[a] + AccountDeltas(ctx, c)[a] && ba[a] >= 0 {
      assert a in c.accounts ==> AccountFits(ctx, a, c.accounts[a]);
      OriginalNotNegative(ctx, a);
    }
    SumPlus(ContractBalances(ctx), ContractDeltas(ctx, c), bc);
    SumPlus(AccountBalances(ctx), AccountDeltas(ctx, c), ba);
    SumBounds(bc);
    SumBounds(ba);
    forall a | a in ctx.contracts ensures 0 <= ContractBalance(ctx, c, a) <= Supply(ctx) + d { assert a in bc; }
    forall a | a in ctx.accounts ensures 0 <= AccountBalance(ctx, c, a) <= Supply(ctx) + d { assert a in ba; }
  }

  // ---------------------------------------------------------------- one balance

  /** `DeltaOverflow` stands for the panic when the running delta exceeds 64 bits. */
  datatype ChangeResult = Changed(changes: Changes, balance: nat) | Overflowing | TooLittle | DeltaOverflow

  function NewContractChanges(original: nat): ContractChanges {
    ContractChanges(0, Positive(0), original, None, None)
  }

  /** The running delta of a contract or an account, with one more delta. */
  function ContractDelta(c: Changes, a: ContractId, delta: AmountDelta): AmountDelta {
    if a in c.contracts then c.contracts[a].delta.AddDelta(delta) else delta
  }

  function AccountDelta(c: Changes, a: AccountId, delta: AmountDelta): AmountDelta {
    if a in c.accounts then c.accounts[a].delta.AddDelta(delta) else delta
  }

  predicate ContractOverflows(c: Changes, a: ContractId, delta: AmountDelta) {
    a in c.contracts && c.contracts[a].delta.Overflows(delta)
  }

  predicate AccountOverflows(c: Changes, a: AccountId, delta: AmountDelta) {
    a in c.accounts && c.accounts[a].delta.Overflows(delta)
  }

  function ChangeContractBalance(ctx: Context, c: Changes, a: ContractId, delta: AmountDelta): ChangeResult
    requires a in ctx.contracts
  {
    var entry := if a in c.contracts then c.contracts[a] else NewContractChanges(ctx.contracts[a].balance);
    var newDelta := ContractDelta(c, a, delta);
    if ContractOverflows(c, a, delta) then DeltaOverflow
    else
      match newDelta.ApplyToBalance(entry.original)
      case Balance(b) => Changed(c.(contracts := c.contracts[a := entry.(delta := newDelta)]), b)
      case Overflow => Overflowing
      case Insufficient => TooLittle
  }

  function ChangeAccountBalance(ctx: Context, c: Changes, a: AccountId, delta: AmountDelta): ChangeResult
    requires a in ctx.accounts && OriginalBalance(ctx, a) >= 0
  {
    var entry := if a in c.accounts then c.accounts[a] else AccountChanges(OriginalBalance(ctx, a), Positive(0));
    var newDelta := AccountDelta(c, a, delta);
    if AccountOverflows(c, a, delta) then DeltaOverflow
    else
      match newDelta.ApplyToBalance(entry.original)
      case Balance(b) => Changed(c.(accounts := c.accounts[a := entry.(delta := newDelta)]), b)
      case Overflow => Overflowing
      case Insufficient => TooLittle
  }

  lemma ContractDeltaMoves(ctx: Context, c: Changes, a: ContractId, e: ContractChanges)
    requires a in ctx.contracts
    ensures DeltaSum(ctx, c.(contracts := c.contracts[a := e])) ==
            DeltaSum(ctx, c) + e.delta.Value() - (if a in c.contracts then c.contracts[a].delta.Value() else 0)
  {
    var c' := c.(contracts := c.contracts[a := e]);
    var before, after := ContractDeltas(ctx, c), ContractDeltas(ctx, c');
    SumUpdate(before, a, e.delta.Value());
    assert after == before[a := e.delta.Value()];
    assert AccountDeltas(ctx, c') == AccountDeltas(ctx, c);
  }

  lemma AccountDeltaMoves(ctx: Context, c: Changes, a: AccountId, e: AccountChanges)
    requires a in ctx.accounts
    ensures DeltaSum(ctx, c.(accounts := c.accounts[a := e])) ==
            DeltaSum(ctx, c) + e.delta.Value() - (if a in c.accounts then c.accounts[a].delta.Value() else 0)
  {
    var c' := c.(accounts := c.accounts[a := e]);
    var before, after := AccountDeltas(ctx, c), AccountDeltas(ctx, c');
    SumUpdate(before, a, e.delta.Value());
    assert after == before[a := e.delta.Value()];
    assert ContractDeltas(ctx, c') == ContractDeltas(ctx, c);
  }

  lemma ContractEdit(ctx: Context, c: Changes, a: ContractId, e: ContractChanges, d: int)
    requires Balanced(ctx, c, d) && ContractFits(ctx, a, e)
    ensures true == Balanced(ctx, c.(contracts := c.contracts[a := e]),
                             d + e.delta.Value() - (if a in c.contracts then c.contracts[a].delta.Value() else 0))
  {
    ContractDeltaMoves(ctx, c, a, e);
    var c' := c.(contracts := c.contracts[a := e]);
    forall x | x in c'.contracts ensures ContractFits(ctx, x, c'.contracts[x]) {
      if x != a { assert ContractFits(ctx, x, c.contracts[x]); }
    }
  }

  /** A changed contract balance moves the sum of the deltas by the delta, and nothing else. It
      fails exactly when the balance would be negative or, added to, would not fit, and panics
      exactly when the running delta overflows. */
  lemma ContractChange(ctx: Context, c: Changes, a: ContractId, delta: AmountDelta, d: int)
    requires Balanced(ctx, c, d) && a in ctx.contracts && ctx.contracts[a].balance <= MAX_AMOUNT
    ensures var r := ChangeContractBalance(ctx, c, a, delta);
            var b := ContractBalance(ctx, c, a) + delta.Value();
            && (r.DeltaOverflow? <==> ContractOverflows(c, a, delta))
            && (r.TooLittle? <==> b < 0 && !ContractOverflows(c, a, delta))
            && (b >= 0 && b <= MAX_AMOUNT ==> r.Changed?)
            && (r.Changed? ==>
                  && Balanced(ctx, r.changes, d + delta.Value()) && r.balance == b
                  && SameStates(ctx, c, r.changes)
                  && (forall x :: x in ctx.contracts ==>
                        ContractBalance(ctx, r.changes, x) ==
                          ContractBalance(ctx, c, x) + (if x == a then delta.Value() else 0))
                  && r.changes.accounts == c.accounts)
  {
    var r := ChangeContractBalance(ctx, c, a, delta);
    assert a in c.contracts ==> ContractFits(ctx, a, c.contracts[a]);
    if r.Changed? { ContractEdit(ctx, c, a, r.changes.contracts[a], d); }
  }

  lemma OriginalNotNegative(ctx: Context, a: AccountId)
    requires ContextOk(ctx) && a in ctx.accounts
    ensures OriginalBalance(ctx, a) >= 0
  {
  }

  /** What there is to begin with fits 64 bits. */
  lemma OriginalsFit(ctx: Context)
    requires ContextOk(ctx)
    ensures forall a :: a in ctx.contracts ==> ctx.contracts[a].balance <= Supply(ctx) <= MAX_AMOUNT
    ensures forall a :: a in ctx.accounts ==> 0 <= OriginalBalance(ctx, a) <= Supply(ctx) <= MAX_AMOUNT
  {
    NoChangesBalanced(ctx);
    BalanceBound(ctx, NO_CHANGES, 0);
    forall a | a in ctx.contracts ensures ctx.contracts[a].balance <= Supply(ctx) {
      assert ContractBalance(ctx, NO_CHANGES, a) == ctx.contracts[a].balance;
    }
    forall a | a in ctx.accounts ensures 0 <= OriginalBalance(ctx, a) <= Supply(ctx) {
      assert AccountBalance(ctx, NO_CHANGES, a) == OriginalBalance(ctx, a);
    }
  }

  lemma AccountChange(ctx: Context, c: Changes, a: AccountId, delta: AmountDelta, d: int)
    requires Balanced(ctx, c, d) && a in ctx.accounts && 0 <= OriginalBalance(ctx, a) <= MAX_AMOUNT
    ensures var r := ChangeAccountBalance(ctx, c, a, delta);
            var b := AccountBalance(ctx, c, a) + delta.Value();
            && (r.DeltaOverflow? <==> AccountOverflows(c, a, delta))
            && (r.TooLittle? <==> b < 0 && !AccountOverflows(c, a, delta))
            && (b >= 0 && b <= MAX_AMOUNT ==> r.Changed?)
            && (r.Changed? ==>
                  && Balanced(ctx, r.changes, d + delta.Value()) && r.balance == b
                  && AccountsMoved(ctx, c, r.changes, a, delta.Value())
                  && r.changes.contracts == c.contracts)
  {
    var r := ChangeAccountBalance(ctx, c, a, delta);
    assert a in c.accounts ==> AccountFits(ctx, a, c.accounts[a]);
    if r.Changed? {
      AccountDeltaMoves(ctx, c, a, r.changes.accounts[a]);
      forall x | x in r.changes.accounts ensures AccountFits(ctx, x, r.changes.accounts[x]) {
        if x != a { assert AccountFits(ctx, x, c.accounts[x]); }
      }
    }
  }

  /** Paying `amount` overflows the running delta of the one who pays. */
  predicate Overpays(c: Changes, sender: Address, amount: nat) {
    match sender
    case Account(a) => AccountOverflows(c, a, Negative(amount))
    case Contract(a) => ContractOverflows(c, a, Negative(amount))
  }

  /** The amount and all that can be spent fit 64 bits together. */
  ghost predicate AmountFits(ctx: Context, amount: nat) { amount + Supply(ctx) <= MAX_AMOUNT }

  /** Such amounts never overflow a delta: nobody has paid more than there is. */
  lemma FittingAmounts(ctx: Context, c: Changes, sender: Address, amount: nat)
    requires ContextOk(ctx) && Balanced(ctx, c, 0) && AmountFits(ctx, amount)
    ensures !Overpays(c, sender, amount)
  {
    OriginalsFit(ctx);
    match sender
    case Account(a) => assert a in c.accounts ==> AccountFits(ctx, a, c.accounts[a]);
    case Contract(a) => assert a in c.contracts ==> ContractFits(ctx, a, c.contracts[a]);
  }

  /** The largest amount overflows it as soon as anything was paid. */
  lemma LargestAmount(c: Changes, a: ContractId)
    requires a in c.contracts && c.contracts[a].delta.Value() < 0
    ensures Overpays(c, Contract(a), MAX_AMOUNT)
  {
  }

  // ---------------------------------------------------------------- transfers

  /** `Panic` stands for an `expect` that fires, or for the overflow of a running delta. */
  datatype TransferResult =
    | Moved(changes: Changes, balance: nat)
    | ToMissing
    | TransferOverflow
    | InsufficientAmount
    | Panic

  /** From a contract to an account; the new balance of the contract. */
  function TransferContractToAccount(ctx: Context, c: Changes, amount: nat, from: ContractId,
                                     to: AccountId): TransferResult {
    if to !in ctx.accounts then ToMissing
    else if from !in ctx.contracts || OriginalBalance(ctx, to) < 0 then Panic
    else
      match ChangeContractBalance(ctx, c, from, Negative(amount))
      case Overflowing => TransferOverflow
      case TooLittle => InsufficientAmount
      case DeltaOverflow => Panic
      case Changed(c', balance) =>
        match ChangeAccountBalance(ctx, c', to, Positive(amount))
        case Changed(c'', _) => Moved(c'', balance)
        case _ => Panic
  }

  /** From a contract to a contract; the new balance of the receiver. */
  function TransferContractToContract(ctx: Context, c: Changes, amount: nat, from: ContractId,
                                      to: ContractId): TransferResult {
    if to !in ctx.contracts then ToMissing
    else if from !in ctx.contracts then Panic
    else
      ReceiveContract(ctx, ChangeContractBalance(ctx, c, from, Negative(amount)), amount, to)
  }

  /** The second half of a transfer to a contract, after the sender has paid. */
  function ReceiveContract(ctx: Context, paid: ChangeResult, amount: nat, to: ContractId): TransferResult
    requires to in ctx.contracts
  {
    match paid
    case Overflowing => TransferOverflow
    case TooLittle => InsufficientAmount
    case DeltaOverflow => Panic
    case Changed(c, _) =>
      match ChangeContractBalance(ctx, c, to, Positive(amount))
      case Changed(c', balance) => Moved(c', balance)
      case Overflowing => TransferOverflow
      case TooLittle => InsufficientAmount
      case DeltaOverflow => Panic
  }

  /** From an account to a contract; the new balance of the receiver. */
  function TransferAccountToContract(ctx: Context, c: Changes, amount: nat, from: AccountId,
                                     to: ContractId): TransferResult {
    if to !in ctx.contracts then ToMissing
    else if from !in ctx.accounts || OriginalBalance(ctx, from) < 0 then Panic
    else
      ReceiveContract(ctx, ChangeAccountBalance(ctx, c, from, Negative(amount)), amount, to)
  }

  /** What a transfer promises: it goes through exactly when the sender has the amount and the
      receiver exists, keeps the deltas balanced, and panics exactly when paying overflows the
      running delta of the sender. */
  ghost predicate TransferOk(ctx: Context, r: TransferResult, exists_: bool, funds: bool, overpays: bool) {
    && (r.ToMissing? <==> !exists_)
    && (r.Panic? <==> exists_ && overpays)
    && (r.InsufficientAmount? <==> exists_ && !funds && !overpays)
    && (r.Moved? <==> exists_ && funds)
    && (r.Moved? ==> Balanced(ctx, r.changes, 0))
  }

  /** The receiving half of a transfer to an account. */
  lemma ReceivedByAccount(ctx: Context, c: Changes, amount: nat, to: AccountId)
    requires ContextOk(ctx) && Balanced(ctx, c, -(amount as int)) && to in ctx.accounts
    ensures var r := ChangeAccountBalance(ctx, c, to, Positive(amount));
            && OriginalBalance(ctx, to) >= 0
            && r.Changed? && Balanced(ctx, r.changes, 0) && AccountsMoved(ctx, c, r.changes, to, amount)
            && r.changes.contracts == c.contracts
  {
    OriginalsFit(ctx);
    AccountChange(ctx, c, to, Positive(amount), -(amount as int));
    BalanceBound(ctx, c, -(amount as int));
  }

  /** The receiving half of a transfer to a contract. */
  lemma ReceivedByContract(ctx: Context, paid: ChangeResult, amount: nat, to: ContractId)
    requires ContextOk(ctx) && paid.Changed? && Balanced(ctx, paid.changes, -(amount as int)) && to in ctx.contracts
    ensures var c, r := paid.changes, ReceiveContract(ctx, paid, amount, to);
            && r.Moved? && Balanced(ctx, r.changes, 0) && SameStates(ctx, c, r.changes)
            && r.balance == ContractBalance(ctx, r.changes, to)
            && ContractsMoved(ctx, c, r.changes, to, 0, to, amount)
            && r.changes.accounts == c.accounts
  {
    OriginalsFit(ctx);
    ContractChange(ctx, paid.changes, to, Positive(amount), -(amount as int));
    BalanceBound(ctx, paid.changes, -(amount as int));
  }

  /** A contract pays, then an account receives. */
  lemma PaidOut(ctx: Context, c: Changes, paid: Changes, e: Changes, from: ContractId, to: AccountId, amount: nat)
    requires SameStates(ctx, c, paid) && paid.accounts == c.accounts && e.contracts == paid.contracts
    requires forall x :: x in ctx.contracts ==>
               ContractBalance(ctx, paid, x) == ContractBalance(ctx, c, x) + (if x == from then -(amount as int) else 0)
    requires AccountsMoved(ctx, paid, e, to, amount)
    ensures ContractsMoved(ctx, c, e, from, amount, from, 0) && AccountsMoved(ctx, c, e, to, amount)
            && SameStates(ctx, c, e)
    ensures from in ctx.contracts ==> ContractBalance(ctx, e, from) == ContractBalance(ctx, paid, from)
  {
  }

  lemma ContractToAccount(ctx: Context, c: Changes, amount: nat, from: ContractId, to: AccountId)
    requires ContextOk(ctx) && Balanced(ctx, c, 0) && from in ctx.contracts
    ensures var r := TransferContractToAccount(ctx, c, amount, from, to);
            && TransferOk(ctx, r, to in ctx.accounts, amount <= ContractBalance(ctx, c, from),
                          Overpays(c, Contract(from), amount))
            && (r.Moved? ==>
                  && ContractsMoved(ctx, c, r.changes, from, amount, from, 0)
                     && AccountsMoved(ctx, c, r.changes, to, amount)
                  && SameStates(ctx, c, r.changes) && r.balance == ContractBalance(ctx, r.changes, from))
  {
    if to in ctx.accounts {
      OriginalsFit(ctx);
      ContractChange(ctx, c, from, Negative(amount), 0);
      BalanceBound(ctx, c, 0);
      OriginalNotNegative(ctx, to);
      var r := ChangeContractBalance(ctx, c, from, Negative(amount));
      if r.Changed? {
        ReceivedByAccount(ctx, r.changes, amount, to);
        PaidOut(ctx, c, r.changes, ChangeAccountBalance(ctx, r.changes, to, Positive(amount)).changes, from, to,
                amount);
      }
    }
  }

  lemma ContractToContract(ctx: Context, c: Changes, amount: nat, from: ContractId, to: ContractId)
    requires ContextOk(ctx) && Balanced(ctx, c, 0) && from in ctx.contracts
    ensures var r := TransferContractToContract(ctx, c, amount, from, to);
            && TransferOk(ctx, r, to in ctx.contracts, amount <= ContractBalance(ctx, c, from),
                          Overpays(c, Contract(from), amount))
            && (r.Moved? ==>
                  && ContractsMoved(ctx, c, r.changes, from, amount, to, amount) && r.changes.accounts == c.accounts
                  && SameStates(ctx, c, r.changes) && r.balance == ContractBalance(ctx, r.changes, to))
  {
    if to in ctx.contracts {
      OriginalsFit(ctx);
      ContractChange(ctx, c, from, Negative(amount), 0);
      BalanceBound(ctx, c, 0);
      var r := ChangeContractBalance(ctx, c, from, Negative(amount));
      if r.Changed? { ReceivedByContract(ctx, r, amount, to); }
    }
  }

  /** An account pays, then a contract receives. */
  lemma BothHalves(ctx: Context, c: Changes, paid: Changes, e: Changes, from: AccountId, to: ContractId, amount: nat)
    requires AccountsMoved(ctx, c, paid, from, -(amount as int)) && paid.contracts == c.contracts
    requires ContractsMoved(ctx, paid, e, to, 0, to, amount) && SameStates(ctx, paid, e) && e.accounts == paid.accounts
    ensures ContractsMoved(ctx, c, e, to, 0, to, amount) && AccountsMoved(ctx, c, e, from, -(amount as int))
            && SameStates(ctx, c, e)
  {
  }

  lemma AccountToContract(ctx: Context, c: Changes, amount: nat, from: AccountId, to: ContractId)
    requires ContextOk(ctx) && Balanced(ctx, c, 0) && from in ctx.accounts
    ensures var r := TransferAccountToContract(ctx, c, amount, from, to);
            && TransferOk(ctx, r, to in ctx.contracts, amount <= AccountBalance(ctx, c, from),
                          Overpays(c, Account(from), amount))
            && (r.Moved? ==>
                  && ContractsMoved(ctx, c, r.changes, to, 0, to, amount)
                     && AccountsMoved(ctx, c, r.changes, from, -(amount as int))
                  && SameStates(ctx, c, r.changes) && r.balance == ContractBalance(ctx, r.changes, to))
  {
    OriginalsFit(ctx);
    AccountChange(ctx, c, from, Negative(amount), 0);
    if to in ctx.contracts {
      BalanceBound(ctx, c, 0);
      var r := ChangeAccountBalance(ctx, c, from, Negative(amount));
      if r.Changed? {
        ReceivedByContract(ctx, r, amount, to);
        BothHalves(ctx, c, r.changes, ReceiveContract(ctx, r, amount, to).changes, from, to, amount);
      }
    }
  }

  // ---------------------------------------------------------------- states and modules

  function SaveState(ctx: Context, c: Changes, a: ContractId, state: ContractState, index: nat): Changes
    requires a in ctx.contracts
  {
    var entry := if a in c.contracts then c.contracts[a] else NewContractChanges(ctx.contracts[a].balance);
    c.(contracts := c.contracts[a := entry.(state := Some(state), modificationIndex := index)])
  }

  function SaveModule(ctx: Context, c: Changes, a: ContractId, moduleRef: ModuleRef): Changes
    requires a in ctx.contracts
  {
    var entry := if a in c.contracts then c.contracts[a] else NewContractChanges(ctx.contracts[a].balance);
    c.(contracts := c.contracts[a := entry.(moduleRef := Some(moduleRef))])
  }

  /** Saving a state moves no balance. */
  lemma SavedStateKeepsBalances(ctx: Context, c: Changes, a: ContractId, state: ContractState, index: nat, d: int)
    requires Balanced(ctx, c, d) && a in ctx.contracts
    ensures true == Balanced(ctx, SaveState(ctx, c, a, state, index), d)
  {
    assert a in c.contracts ==> ContractFits(ctx, a, c.contracts[a]);
    ContractDeltaMoves(ctx, c, a, SaveState(ctx, c, a, state, index).contracts[a]);
  }

  /** Saving a module moves no balance. */
  lemma SavedModuleKeepsBalances(ctx: Context, c: Changes, a: ContractId, moduleRef: ModuleRef, d: int)
    requires Balanced(ctx, c, d) && a in ctx.contracts && moduleRef in ctx.modules
    ensures true == Balanced(ctx, SaveModule(ctx, c, a, moduleRef), d)
  {
    assert a in c.contracts ==> ContractFits(ctx, a, c.contracts[a]);
    ContractDeltaMoves(ctx, c, a, SaveModule(ctx, c, a, moduleRef).contracts[a]);
  }

  // ---------------------------------------------------------------- queries

  /** What a contract can ask for. `numKeys` is the number of keys of the account. */
  datatype Question =
    | AskAccount(account: AccountId)
    | AskContract(contract: ContractId)
    | AskRates
    | AskKeys(account: AccountId, numKeys: nat)
    | AskModule(contract: ContractId)
    | AskName(contract: ContractId)

  datatype Reply = TotalIs(amount: int) | BalanceIs(amount: int) | ModuleIs(moduleRef: ModuleRef) | Known

  function QuestionCost(ctx: Context, q: Question): nat {
    match q
    case AskRates => 100
    case AskKeys(a, numKeys) => if a in ctx.accounts then 200 + numKeys * 3 else 200
    case _ => 200
  }

  /** The reply to a question, if what it asks about is found. */
  function Ask(ctx: Context, c: Changes, q: Question): Option<Reply> {
    match q
    case AskAccount(a) =>
      if a !in ctx.accounts then None
      else if a in c.accounts then Some(TotalIs(c.accounts[a].original + c.accounts[a].delta.Value()))
      else Some(TotalIs(ctx.accounts[a].total - (if a == ctx.invoker then ctx.reserved else 0)))
    case AskContract(a) => if a in ctx.contracts then Some(BalanceIs(ContractBalance(ctx, c, a))) else None
    case AskRates => Some(Known)
    case AskKeys(a, _) => if a in ctx.accounts then Some(Known) else None
    case AskModule(a) =>
      if a in c.contracts then
        match c.contracts[a].moduleRef
        case None => None
        case Some(r) => Some(ModuleIs(r))
      else if a in ctx.contracts then Some(ModuleIs(ctx.contracts[a].moduleRef)) else None
    case AskName(a) => if a in ctx.contracts then Some(Known) else None
  }

  /** A contract is told of every contract what it had and all it has gained since, and of no other. */
  lemma BalanceReported(ctx: Context, c: Changes, a: ContractId, d: int)
    requires Balanced(ctx, c, d)
    ensures Ask(ctx, c, AskContract(a)) ==
            if a in ctx.contracts then Some(BalanceIs(ctx.contracts[a].balance + ContractDeltas(ctx, c)[a])) else None
  {
    assert a in c.contracts ==> ContractFits(ctx, a, c.contracts[a]);
  }

  /** What an account has in all, staked or locked amounts included. */
  function TotalOf(ctx: Context, c: Changes, a: AccountId): int
    requires a in ctx.accounts
  {
    ctx.accounts[a].total - (if a == ctx.invoker then ctx.reserved else 0)
    + (if a in c.accounts then c.accounts[a].delta.Value() else 0)
  }

  /** The total of an account is reported exactly if its balance did not change, or nothing of it is
      staked or locked: otherwise only what can be spent is reported. */
  lemma TotalReported(ctx: Context, c: Changes, a: AccountId, d: int)
    requires Balanced(ctx, c, d) && a in ctx.accounts
    ensures Ask(ctx, c, AskAccount(a)) == Some(TotalIs(TotalOf(ctx, c, a))) <==>
            a !in c.accounts || ctx.accounts[a].total == ctx.accounts[a].available
  {
    assert a in c.accounts ==> AccountFits(ctx, a, c.accounts[a]);
  }

  /** The module of a contract is reported exactly if nothing of it changed, or it was upgraded:
      otherwise the contract is said not to exist. */
  lemma ModuleReported(ctx: Context, c: Changes, a: ContractId)
    requires a in ctx.contracts
    ensures Ask(ctx, c, AskModule(a)) == Some(ModuleIs(ModuleOf(ctx, c, a))) <==>
            a !in c.contracts || c.contracts[a].moduleRef.Some?
    ensures Ask(ctx, c, AskModule(a)).None? <==> a in c.contracts && c.contracts[a].moduleRef.None?
  {
  }

  /** After a contract saved its state for the first time, it is said not to exist. */
  lemma SavedStateHidesModule(ctx: Context, a: ContractId, state: ContractState, index: nat)
    requires a in ctx.contracts
    ensures Ask(ctx, SaveState(ctx, NO_CHANGES, a, state, index), AskModule(a)) == None
    ensures Ask(ctx, NO_CHANGES, AskModule(a)) == Some(ModuleIs(ctx.contracts[a].moduleRef))
  {
  }

  /** An account with 90 of 100 staked that receives 5 is said to have 15 in all. */
  lemma StakeNotReported()
    ensures var ctx := Context(map[0 := ChainAccount(9, 9), 1 := ChainAccount(100, 10)], map[], {}, 0, 0, 0, 0);
            var c := Changes(map[], map[1 := AccountChanges(10, Positive(5))]);
            Ask(ctx, c, AskAccount(1)) == Some(TotalIs(15)) && TotalOf(ctx, c, 1) == 105
  {
  }
}
