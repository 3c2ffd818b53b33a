/** `Chain::contract_update`: runs an invocation, persists its changes and charges its fee. */
module ChainUpdate {
  import opened Common
  import opened Amounts
  import opened Sums
  import opened ChangeSets
  import opened InvocationMachine
  import opened InvocationProofs
  import opened InvocationLimits
  import opened InvocationSteps

  datatype ErrorKind =
    | SenderDoesNotExist
    | InvokerDoesNotExist
    | InsufficientFunds
    | ContractDoesNotExist
    | ParameterTooLarge
    | AmountTooLarge
    | OutOfEnergyError
    | BalanceOverflowError
    | ExecutionError

  datatype UpdateResult =
    | Ok(energyUsed: nat, fee: nat)
    | Err(kind: ErrorKind, energyUsed: nat, fee: nat)
    | MoreAnswersNeeded
    | Panics

  /** A contract with the changes of an invocation. */
  function PersistedContract(k: ChainContract, e: ContractChanges): ChainContract {
    ChainContract(
      if e.delta.IsZero() || e.original + e.delta.Value() < 0 then k.balance else e.original + e.delta.Value(),
      if e.moduleRef.Some? then e.moduleRef.value else k.moduleRef,
      if e.state.Some? then e.state.value else k.state)
  }

  /** An account with the changes of an invocation; what is staked or locked stays so. */
  function PersistedAccount(k: ChainAccount, e: AccountChanges): ChainAccount {
    if k.total + e.delta.Value() < 0 || k.available + e.delta.Value() < 0 then k
    else ChainAccount(k.total + e.delta.Value(), k.available + e.delta.Value())
  }

  ghost function PersistedContracts(ks: map<ContractId, ChainContract>, c: Changes): map<ContractId, ChainContract> {
    map a | a in ks :: if a in c.contracts then PersistedContract(ks[a], c.contracts[a]) else ks[a]
  }

  ghost function PersistedAccounts(ks: map<AccountId, ChainAccount>, c: Changes): map<AccountId, ChainAccount> {
    map a | a in ks :: if a in c.accounts then PersistedAccount(ks[a], c.accounts[a]) else ks[a]
  }

  ghost function Totals(ks: map<AccountId, ChainAccount>): map<AccountId, int> { map a | a in ks :: ks[a].total }

  ghost function Balances(ks: map<ContractId, ChainContract>): map<ContractId, int> { map a | a in ks :: ks[a].balance }

  /** All CCD on the chain. */
  ghost function TotalCcd(accounts: map<AccountId, ChainAccount>, contracts: map<ContractId, ChainContract>): int {
    Sum(Totals(accounts)) + Sum(Balances(contracts))
  }

  ghost predicate AccountsOk(accounts: map<AccountId, ChainAccount>) {
    forall a :: a in accounts ==> accounts[a].available <= accounts[a].total
  }

  ghost predicate ModulesKnown(contracts: map<ContractId, ChainContract>, modules: set<ModuleRef>) {
    forall a :: a in contracts ==> contracts[a].moduleRef in modules
  }

  /** What an invocation may spend is part of what there is. */
  lemma SupplyWithinTotal(ctx: Context)
    requires AccountsOk(ctx.accounts)
    ensures Supply(ctx) <= TotalCcd(ctx.accounts, ctx.contracts)
  {
    assert ContractBalances(ctx) == Balances(ctx.contracts);
    SumGrows(AccountBalances(ctx), Totals(ctx.accounts));
  }

  lemma PersistedContractsFit(ctx: Context, c: Changes, d: int)
    requires ContextOk(ctx) && Balanced(ctx, c, d)
    ensures var contracts := PersistedContracts(ctx.contracts, c);
            && Sum(Balances(contracts)) == Sum(Balances(ctx.contracts)) + Sum(ContractDeltas(ctx, c))
            && true == ModulesKnown(contracts, ctx.modules)
  {
    var contracts := PersistedContracts(ctx.contracts, c);
    forall a | a in contracts
      ensures contracts[a].balance == ctx.contracts[a].balance + ContractDeltas(ctx, c)[a]
              && contracts[a].moduleRef in ctx.modules
    {
      assert a in c.contracts ==> ContractFits(ctx, a, c.contracts[a]);
    }
    SumPlus(Balances(ctx.contracts), ContractDeltas(ctx, c), Balances(contracts));
  }

  lemma PersistedAccountFits(ctx: Context, c: Changes, d: int, a: AccountId)
    requires ContextOk(ctx) && Balanced(ctx, c, d) && a in ctx.accounts
    ensures var k := PersistedAccounts(ctx.accounts, c)[a];
            && k.total == ctx.accounts[a].total + AccountDeltas(ctx, c)[a]
            && k.available <= k.total && (a == ctx.invoker ==> k.available >= ctx.reserved)
  {
    assert a in c.accounts ==> AccountFits(ctx, a, c.accounts[a]);
    OriginalNotNegative(ctx, a);
  }

  lemma PersistedAccountsFit(ctx: Context, c: Changes, d: int)
    requires ContextOk(ctx) && Balanced(ctx, c, d)
    ensures var accounts := PersistedAccounts(ctx.accounts, c);
            && Sum(Totals(accounts)) == Sum(Totals(ctx.accounts)) + Sum(AccountDeltas(ctx, c))
            && true == AccountsOk(accounts)
            && ctx.invoker in accounts && accounts[ctx.invoker].available >= ctx.reserved
  {
    var accounts := PersistedAccounts(ctx.accounts, c);
    forall a | a in ctx.accounts
      ensures accounts[a].total == ctx.accounts[a].total + AccountDeltas(ctx, c)[a]
      ensures accounts[a].available <= accounts[a].total && (a == ctx.invoker ==> accounts[a].available >= ctx.reserved)
    {
      PersistedAccountFits(ctx, c, d, a);
    }
    SumPlus(Totals(ctx.accounts), AccountDeltas(ctx, c), Totals(accounts));
  }

  /** Persisting balanced changes moves no CCD on or off the chain, and leaves the invoker with
      at least what was reserved, on top of what is staked or locked. */
  lemma PersistConserves(ctx: Context, c: Changes)
    requires ContextOk(ctx) && true == Balanced(ctx, c, 0)
    ensures TotalCcd(PersistedAccounts(ctx.accounts, c), PersistedContracts(ctx.contracts, c)) ==
            TotalCcd(ctx.accounts, ctx.contracts)
    ensures true == AccountsOk(PersistedAccounts(ctx.accounts, c))
    ensures true == ModulesKnown(PersistedContracts(ctx.contracts, c), ctx.modules)
    ensures ctx.invoker in PersistedAccounts(ctx.accounts, c)
            && PersistedAccounts(ctx.accounts, c)[ctx.invoker].available >= ctx.reserved
  {
    assert DeltaSum(ctx, c) == 0;
    PersistedContractsFit(ctx, c, 0);
    PersistedAccountsFit(ctx, c, 0);
  }

  /** Charging an account lowers the total by the fee. */
  lemma ChargeLowersTotal(accounts: map<AccountId, ChainAccount>, contracts: map<ContractId, ChainContract>,
                          a: AccountId, k: ChainAccount)
    requires a in accounts
    ensures TotalCcd(accounts[a := k], contracts) == TotalCcd(accounts, contracts) - accounts[a].total + k.total
  {
    SumUpdate(Totals(accounts), a, k.total);
    assert Totals(accounts[a := k]) == Totals(accounts)[a := k.total];
  }

  // ---------------------------------------------------------------- what an update reports and does

  /** The chain as far as an update reads or changes it. */
  datatype World = World(
    accounts: map<AccountId, ChainAccount>,
    contracts: map<ContractId, ChainContract>,
    modules: set<ModuleRef>,
    euroPerEnergy: ExchangeRate,
    microCcdPerEuro: ExchangeRate,
    simpleTransferCost: nat)
  {
    ghost predicate Valid() {
      && euroPerEnergy.Valid() && microCcdPerEuro.Valid() && CheckExchangeRates(euroPerEnergy, microCcdPerEuro)
      && AccountsOk(accounts) && ModulesKnown(contracts, modules)
      && Total() <= MAX_AMOUNT
    }

    ghost function Total(): int { TotalCcd(accounts, contracts) }

    function Fee(energy: nat): nat
      requires euroPerEnergy.Valid() && microCcdPerEuro.Valid()
    {
      EnergyCost(energy, euroPerEnergy, microCcdPerEuro)
    }
  }

  /** An update. `headerCost`, `parameterFits` and `stateEnergy` stand for the checks and costs that
      come from outside, `answers` for the interpreter. */
  datatype Request = Request(
    invoker: AccountId,
    sender: Address,
    energyReserved: nat,
    address: ContractId,
    amount: nat,
    headerCost: nat,
    parameterFits: bool,
    stateEnergy: nat,
    answers: seq<Oracle>)

  predicate SenderExists(w: World, sender: Address) {
    match sender
    case Account(a) => a in w.accounts
    case Contract(a) => a in w.contracts
  }

  /** The checks that come before the invocation: the error they report, if any. The price of the
      reserved energy must fit 64 bits. */
  function Refusal(w: World, q: Request): Option<UpdateResult>
    requires w.euroPerEnergy.Valid() && w.microCcdPerEuro.Valid()
  {
    if !SenderExists(w, q.sender) then Some(Err(SenderDoesNotExist, 0, 0))
    else if q.invoker !in w.accounts then Some(Err(InvokerDoesNotExist, 0, 0))
    else if q.energyReserved < q.headerCost then Some(Err(OutOfEnergyError, 0, 0))
    else if w.Fee(q.energyReserved) > MAX_AMOUNT then Some(Panics)
    else if w.accounts[q.invoker].available < w.Fee(q.energyReserved) then
      Some(Err(InsufficientFunds, q.headerCost, w.Fee(q.headerCost)))
    else None
  }

  function ContextOf(w: World, q: Request): Context
    requires w.euroPerEnergy.Valid() && w.microCcdPerEuro.Valid()
  {
    Context(w.accounts, w.contracts, w.modules, q.invoker, w.Fee(q.energyReserved), q.energyReserved,
            w.simpleTransferCost)
  }

  /** The errors of the worker before the invocation starts. What is reserved and the amount must fit
      64 bits together. */
  function Early(w: World, q: Request): Option<UpdateResult>
    requires w.euroPerEnergy.Valid() && w.microCcdPerEuro.Valid() && q.invoker in w.accounts
  {
    if q.address !in w.contracts then Some(EarlyError(w, q, ContractDoesNotExist))
    else if !q.parameterFits then Some(EarlyError(w, q, ParameterTooLarge))
    else if w.Fee(q.energyReserved) + q.amount > MAX_AMOUNT then Some(Panics)
    else if w.accounts[q.invoker].available < w.Fee(q.energyReserved) + q.amount then
      Some(EarlyError(w, q, AmountTooLarge))
    else None
  }

  function EarlyError(w: World, q: Request, kind: ErrorKind): UpdateResult
    requires w.euroPerEnergy.Valid() && w.microCcdPerEuro.Valid()
  {
    Err(kind, q.headerCost, w.Fee(q.headerCost))
  }

  /** The run of the invocation. */
  function RunOf(ctx: Context, q: Request): Result
    requires q.headerCost <= q.energyReserved
  {
    Invocation(ctx, q.energyReserved - q.headerCost, q.sender, q.address, q.amount, q.answers)
  }

  /** The invocation succeeds, with less energy left than storing the state takes. */
  predicate StoringFails(w: World, q: Request)
    requires w.euroPerEnergy.Valid() && w.microCcdPerEuro.Valid() && Refusal(w, q).None?
  {
    && Early(w, q).None?
    && var r := RunOf(ContextOf(w, q), q); r.Done? && r.response.Success? && r.energy < q.stateEnergy
  }

  /** What an update returns. */
  function Reported(w: World, q: Request): UpdateResult
    requires w.euroPerEnergy.Valid() && w.microCcdPerEuro.Valid()
  {
    if Refusal(w, q).Some? then Refusal(w, q).value
    else
      match Early(w, q)
      case Some(u) => u
      case None => ReportedFor(w, q, RunOf(ContextOf(w, q), q))
  }

  /** What it returns for the end of the invocation. */
  function ReportedFor(w: World, q: Request, r: Result): UpdateResult
    requires w.euroPerEnergy.Valid() && w.microCcdPerEuro.Valid()
  {
    match r
    case Failed(OutOfEnergy) => Err(OutOfEnergyError, q.energyReserved, w.Fee(q.energyReserved))
    case Failed(BalanceOverflow(left)) =>
      var used := if left <= q.energyReserved then q.energyReserved - left else 0;
      Err(BalanceOverflowError, used, w.Fee(used))
    case Done(response, _, _, energy, _) =>
      if response.Failure? then
        var used := if energy <= q.energyReserved then q.energyReserved - energy else 0;
        Err(ExecutionError, used, w.Fee(used))
      else if energy < q.stateEnergy then
        Err(OutOfEnergyError, q.energyReserved, w.Fee(q.energyReserved))
      else
        var left := energy - q.stateEnergy;
        var used := if left <= q.energyReserved then q.energyReserved - left else 0;
        Ok(used, w.Fee(used))
    case Unfinished => MoreAnswersNeeded
    case Crashed => Panics
  }

  /** The reported fee is taken: for every success, and for an error exactly when the first checks
      passed and it was not storing the state that failed. A panic reports no fee. */
  predicate Charged(w: World, q: Request)
    requires w.euroPerEnergy.Valid() && w.microCcdPerEuro.Valid()
  {
    && Refusal(w, q).None? && !StoringFails(w, q)
    && (Reported(w, q).Ok? || Reported(w, q).Err?)
  }

  function Charge(accounts: map<AccountId, ChainAccount>, invoker: AccountId, fee: nat): map<AccountId, ChainAccount>
    requires invoker in accounts && fee <= accounts[invoker].available <= accounts[invoker].total
  {
    accounts[invoker := ChainAccount(accounts[invoker].total - fee, accounts[invoker].available - fee)]
  }

  ghost function Persisted(w: World, c: Changes): World {
    w.(accounts := PersistedAccounts(w.accounts, c), contracts := PersistedContracts(w.contracts, c))
  }

  /** What an update does: a success writes the last change set of its run to the chain, and then
      takes the fee; an error takes the fee if it is charged for, and changes nothing else. */
  ghost predicate Effect(w: World, q: Request, w': World)
    requires w.euroPerEnergy.Valid() && w.microCcdPerEuro.Valid()
  {
    var u := Reported(w, q);
    if u.Ok? then
      && Refusal(w, q).None? && RunOf(ContextOf(w, q), q).Done? && RunOf(ContextOf(w, q), q).changes != []
      && var changes := RunOf(ContextOf(w, q), q).changes;
         Taken(Persisted(w, changes[|changes| - 1]), q.invoker, u.fee, w')
    else if Charged(w, q) then Taken(w, q.invoker, u.fee, w')
    else w' == w
  }

  /** The fee is taken from the invoker, who has it, and nothing else changes. */
  ghost predicate Taken(w: World, invoker: AccountId, fee: nat, w': World) {
    && invoker in w.accounts && fee <= w.accounts[invoker].available <= w.accounts[invoker].total
    && w' == w.(accounts := Charge(w.accounts, invoker, fee))
  }

  lemma SuccessEffect(w: World, q: Request, r: Result, fee: nat, w': World)
    requires w.euroPerEnergy.Valid() && w.microCcdPerEuro.Valid() && Refusal(w, q).None?
             && r == RunOf(ContextOf(w, q), q) && r.Done?
    requires Reported(w, q).Ok? && Reported(w, q).fee == fee && r.changes != []
    requires Taken(Persisted(w, r.changes[|r.changes| - 1]), q.invoker, fee, w')
    ensures Effect(w, q, w')
  {
  }

  lemma TakenLowersTotal(w: World, invoker: AccountId, fee: nat, w': World)
    requires Taken(w, invoker, fee, w')
    ensures w'.Total() == w.Total() - fee
    ensures w.Valid() ==> w'.Valid()
  {
    ChargeLowersTotal(w.accounts, w.contracts, invoker, w'.accounts[invoker]);
  }

  lemma SuccessConserves(w: World, q: Request, r: Result, fee: nat, w': World)
    requires w.Valid() && Refusal(w, q).None? && r == RunOf(ContextOf(w, q), q) && r.Done? && r.changes != []
    requires Taken(Persisted(w, r.changes[|r.changes| - 1]), q.invoker, fee, w')
    ensures true == w'.Valid()
    ensures w'.Total() == w.Total() - fee
    ensures w'.accounts.Keys == w.accounts.Keys && w'.contracts.Keys == w.contracts.Keys
  {
    RunBalanced(w, q, ContextOf(w, q), r);
    PersistThenTake(w, ContextOf(w, q), r.changes[|r.changes| - 1], fee, w');
  }

  /** Over every update: the total falls by exactly the fee if it is a success or an error that is
      charged for, and not at all otherwise; the fee is at most that of the reserved energy. */
  lemma UpdateConserves(w: World, q: Request, w': World)
    requires w.Valid() && Effect(w, q, w')
    ensures w'.Valid()
    ensures w'.Total() == w.Total() - (if Charged(w, q) then Reported(w, q).fee else 0)
    ensures Charged(w, q) ==> Reported(w, q).fee <= w.Fee(q.energyReserved) <= MAX_AMOUNT
    ensures w'.accounts.Keys == w.accounts.Keys && w'.contracts.Keys == w.contracts.Keys
  {
    if Charged(w, q) {
      FeeWithinReserved(w, q);
      var u := Reported(w, q);
      if u.Ok? {
        SuccessConserves(w, q, RunOf(ContextOf(w, q), q), u.fee, w');
      } else {
        TakenLowersTotal(w, q.invoker, u.fee, w');
      }
    }
  }

  /** The chain stays valid when balanced changes are persisted, with the same total. */
  lemma PersistedValid(w: World, ctx: Context, c: Changes)
    requires w.Valid() && ContextOk(ctx) && Balanced(ctx, c, 0)
    requires ctx.accounts == w.accounts && ctx.contracts == w.contracts && ctx.modules == w.modules
    ensures true == Persisted(w, c).Valid()
    ensures Persisted(w, c).Total() == w.Total()
  {
    PersistConserves(ctx, c);
  }

  lemma PersistThenTake(w: World, ctx: Context, c: Changes, fee: nat, w': World)
    requires w.Valid() && ContextOk(ctx) && Balanced(ctx, c, 0)
    requires ctx.accounts == w.accounts && ctx.contracts == w.contracts && ctx.modules == w.modules
    requires Taken(Persisted(w, c), ctx.invoker, fee, w')
    ensures true == w'.Valid()
    ensures w'.Total() == w.Total() - fee
    ensures w'.accounts.Keys == w.accounts.Keys && w'.contracts.Keys == w.contracts.Keys
  {
    PersistedValid(w, ctx, c);
    TakenLowersTotal(Persisted(w, c), ctx.invoker, fee, w');
  }

  lemma UsedWithinReserved(w: World, q: Request, r: Result)
    requires w.euroPerEnergy.Valid() && w.microCcdPerEuro.Valid()
    ensures var u := ReportedFor(w, q, r);
            u.Ok? || u.Err? ==> u.energyUsed <= q.energyReserved && u.fee == w.Fee(u.energyUsed)
  {
  }

  lemma EarlyUsed(w: World, q: Request)
    requires w.euroPerEnergy.Valid() && w.microCcdPerEuro.Valid() && q.invoker in w.accounts && Early(w, q).Some?
    ensures var u := Early(w, q).value;
            u.Panics? || (u.Err? && u.energyUsed == q.headerCost && u.fee == w.Fee(u.energyUsed))
  {
  }

  lemma FeeWithinReserved(w: World, q: Request)
    requires w.Valid() && Charged(w, q)
    ensures Reported(w, q).energyUsed <= q.energyReserved && Reported(w, q).fee == w.Fee(Reported(w, q).energyUsed)
    ensures Reported(w, q).fee <= w.Fee(q.energyReserved)
  {
    if Early(w, q).None? { UsedWithinReserved(w, q, RunOf(ContextOf(w, q), q)); } else { EarlyUsed(w, q); }
    CostGrows(Reported(w, q).energyUsed, q.energyReserved, w.euroPerEnergy, w.microCcdPerEuro);
  }

  lemma ContextOfOk(w: World, q: Request)
    requires w.Valid() && Refusal(w, q).None?
    ensures true == ContextOk(ContextOf(w, q))
    ensures Exists(ContextOf(w, q), q.sender)
  {
    SupplyWithinTotal(ContextOf(w, q));
  }

  /** The price of the reserved energy exceeds 64 bits; or it can be paid, and together with the amount
      exceeds them; or that can be paid, and the invocation panics. */
  predicate UpdatePanics(w: World, q: Request)
    requires w.euroPerEnergy.Valid() && w.microCcdPerEuro.Valid()
  {
    && SenderExists(w, q.sender) && q.invoker in w.accounts && q.headerCost <= q.energyReserved
    && var price, available := w.Fee(q.energyReserved), w.accounts[q.invoker].available;
       || price > MAX_AMOUNT
       || (&& price <= available && q.address in w.contracts && q.parameterFits
           && (|| price + q.amount > MAX_AMOUNT
               || (price + q.amount <= available && RunPanicsFor(ContextOf(w, q), q))))
  }

  predicate RunPanicsFor(ctx: Context, q: Request)
    requires q.headerCost <= q.energyReserved
  {
    InvocationPanics(ctx, q.energyReserved - q.headerCost, q.sender, q.address, q.amount, q.answers)
  }

  /** An update panics exactly in these cases. */
  lemma PanicsExactly(w: World, q: Request)
    requires w.Valid()
    ensures Reported(w, q).Panics? <==> UpdatePanics(w, q)
  {
    if Refusal(w, q).None? && Early(w, q).None? {
      ContextOfOk(w, q);
      RunEnds(ContextOf(w, q), q);
      PanicReported(w, q, RunOf(ContextOf(w, q), q), RunPanicsFor(ContextOf(w, q), q));
    }
  }

  lemma PanicReported(w: World, q: Request, r: Result, panics: bool)
    requires w.euroPerEnergy.Valid() && w.microCcdPerEuro.Valid()
    requires exists ctx, energy :: ResultOk(ctx, energy, panics, r)
    ensures ReportedFor(w, q, r).Panics? <==> panics
  {
  }

  /** What a caller can do about it: an update does not panic if the price of the energy and the amount
      fit 64 bits together, so does the energy as the interpreter counts it, and the answers fit. */
  lemma NoPanic(w: World, q: Request)
    requires w.Valid() && w.Fee(q.energyReserved) + q.amount <= MAX_AMOUNT
    requires Refusal(w, q).None? ==> InvocationFits(ContextOf(w, q), q.energyReserved - q.headerCost, q.answers)
    ensures !Reported(w, q).Panics?
  {
    PanicsExactly(w, q);
    if Refusal(w, q).None? {
      ContextOfOk(w, q);
      RunFitsFor(ContextOf(w, q), q);
    }
    OnlyTheRunPanics(w, q);
  }

  lemma RunFitsFor(ctx: Context, q: Request)
    requires true == ContextOk(ctx)
    requires Exists(ctx, q.sender) && q.headerCost <= q.energyReserved == ctx.energyReserved
    requires InvocationFits(ctx, q.energyReserved - q.headerCost, q.answers)
    ensures !RunPanicsFor(ctx, q)
  {
    DoesNotPanic(ctx, q.energyReserved - q.headerCost, q.sender, q.address, q.amount, q.answers);
  }

  lemma OnlyTheRunPanics(w: World, q: Request)
    requires w.euroPerEnergy.Valid() && w.microCcdPerEuro.Valid() && w.Fee(q.energyReserved) + q.amount <= MAX_AMOUNT
    requires Refusal(w, q).None? ==> !RunPanicsFor(ContextOf(w, q), q)
    ensures !UpdatePanics(w, q)
  {
  }

  /** The run of an update ends as promised, with balanced changes. */
  lemma RunBalanced(w: World, q: Request, ctx: Context, r: Result)
    requires w.Valid() && Refusal(w, q).None? && ctx == ContextOf(w, q) && r == RunOf(ContextOf(w, q), q)
    ensures true == ContextOk(ctx)
    ensures r.Done? ==> r.changes != [] && true == Balanced(ctx, r.changes[|r.changes| - 1], 0)
  {
    ContextOfOk(w, q);
    RunEnds(ctx, q);
    LastBalanced(ctx, q.energyReserved - q.headerCost, RunPanicsFor(ctx, q), r);
  }

  lemma RunEnds(ctx: Context, q: Request)
    requires true == ContextOk(ctx)
    requires Exists(ctx, q.sender) && q.headerCost <= q.energyReserved == ctx.energyReserved
    ensures true == ResultOk(ctx, q.energyReserved - q.headerCost, RunPanicsFor(ctx, q), RunOf(ctx, q))
  {
    InvocationOk(ctx, q.energyReserved - q.headerCost, q.sender, q.address, q.amount, q.answers);
  }

  lemma LastBalanced(ctx: Context, energy: nat, panics: bool, r: Result)
    requires ResultOk(ctx, energy, panics, r)
    ensures r.Done? ==> r.changes != [] && true == Balanced(ctx, r.changes[|r.changes| - 1], 0)
  {
  }

  // ---------------------------------------------------------------- what it comes to

  /** The checks before the invocation pass, and so do those of the worker. */
  predicate Runs(w: World, q: Request)
    requires w.euroPerEnergy.Valid() && w.microCcdPerEuro.Valid()
  {
    && SenderExists(w, q.sender) && q.invoker in w.accounts && q.headerCost <= q.energyReserved
    && q.address in w.contracts && q.parameterFits
    && w.Fee(q.energyReserved) + q.amount <= MAX_AMOUNT
    && w.Fee(q.energyReserved) + q.amount <= w.accounts[q.invoker].available
  }

  /** The price of the reserved energy fits 64 bits, and the invoker has it. */
  predicate CanReserve(w: World, q: Request)
    requires w.euroPerEnergy.Valid() && w.microCcdPerEuro.Valid()
  {
    && SenderExists(w, q.sender) && q.invoker in w.accounts && q.headerCost <= q.energyReserved
    && w.Fee(q.energyReserved) <= MAX_AMOUNT && w.Fee(q.energyReserved) <= w.accounts[q.invoker].available
  }

  /** The run has used all energy but `left`. */
  predicate Uses(w: World, q: Request, used: nat, fee: nat, left: int)
    requires w.euroPerEnergy.Valid() && w.microCcdPerEuro.Valid()
  {
    left >= 0 && used + left == q.energyReserved && fee == w.Fee(used)
  }

  /** When each answer is given, and which energy it is for. No two of the conditions hold together. */
  ghost predicate Says(w: World, q: Request, u: UpdateResult)
    requires w.Valid()
  {
    match u
    case Panics => UpdatePanics(w, q)
    case MoreAnswersNeeded => Runs(w, q) && RunOf(ContextOf(w, q), q).Unfinished?
    case Ok(used, fee) =>
      && Runs(w, q)
      && var r := RunOf(ContextOf(w, q), q);
         r.Done? && r.response.Success? && Uses(w, q, used, fee, r.energy - q.stateEnergy)
    case Err(kind, used, fee) => SaysError(w, q, kind, used, fee)
  }

  ghost predicate SaysError(w: World, q: Request, kind: ErrorKind, used: nat, fee: nat)
    requires w.Valid()
  {
    match kind
    case SenderDoesNotExist => !SenderExists(w, q.sender) && used == fee == 0
    case InvokerDoesNotExist => SenderExists(w, q.sender) && q.invoker !in w.accounts && used == fee == 0
    case InsufficientFunds =>
      && SenderExists(w, q.sender) && q.invoker in w.accounts && q.headerCost <= q.energyReserved
      && w.accounts[q.invoker].available < w.Fee(q.energyReserved) <= MAX_AMOUNT
      && used == q.headerCost && fee == w.Fee(used)
    case ContractDoesNotExist =>
      CanReserve(w, q) && q.address !in w.contracts && used == q.headerCost && fee == w.Fee(used)
    case ParameterTooLarge =>
      CanReserve(w, q) && q.address in w.contracts && !q.parameterFits && used == q.headerCost && fee == w.Fee(used)
    case AmountTooLarge =>
      && CanReserve(w, q) && q.address in w.contracts && q.parameterFits
      && w.accounts[q.invoker].available < w.Fee(q.energyReserved) + q.amount <= MAX_AMOUNT
      && used == q.headerCost && fee == w.Fee(used)
    case OutOfEnergyError =>
      && SenderExists(w, q.sender) && q.invoker in w.accounts
      && if q.energyReserved < q.headerCost then used == fee == 0
         else Runs(w, q) && RunExhausts(w, q) && Uses(w, q, used, fee, 0)
    case BalanceOverflowError => false
    case ExecutionError =>
      && Runs(w, q)
      && var r := RunOf(ContextOf(w, q), q); r.Done? && r.response.Failure? && Uses(w, q, used, fee, r.energy)
  }

  /** The run, or storing the state after it, takes more energy than there is. */
  ghost predicate RunExhausts(w: World, q: Request)
    requires w.Valid() && q.headerCost <= q.energyReserved
  {
    var r := RunOf(ContextOf(w, q), q);
    r == Failed(OutOfEnergy) || (r.Done? && r.response.Success? && r.energy < q.stateEnergy)
  }

  lemma ChecksPass(w: World, q: Request)
    requires w.Valid()
    ensures Refusal(w, q).None? <==> CanReserve(w, q)
    ensures CanReserve(w, q) && Early(w, q).None? <==> Runs(w, q)
  {
  }

  lemma ChecksSay(w: World, q: Request)
    requires w.Valid()
    ensures Refusal(w, q).Some? ==> true == Says(w, q, Refusal(w, q).value)
    ensures CanReserve(w, q) && Early(w, q).Some? ==> true == Says(w, q, Early(w, q).value)
  {
  }

  lemma RunSays(w: World, q: Request)
    requires w.Valid() && Runs(w, q)
    ensures true == Says(w, q, ReportedFor(w, q, RunOf(ContextOf(w, q), q)))
  {
    ChecksPass(w, q);
    ContextOfOk(w, q);
    RunEnds(ContextOf(w, q), q);
    PanicReported(w, q, RunOf(ContextOf(w, q), q), RunPanicsFor(ContextOf(w, q), q));
  }

  /** Every update reports what it should. */
  lemma ReportedSays(w: World, q: Request)
    requires w.Valid()
    ensures true == Says(w, q, Reported(w, q))
  {
    ChecksPass(w, q);
    ChecksSay(w, q);
    if Runs(w, q) { RunSays(w, q); }
  }

  /** A fee is taken exactly if the reserve could be paid, a fee is reported, and it is not the case that
      the invocation succeeded and then could not store its state. */
  lemma ChargedExactly(w: World, q: Request)
    requires w.Valid()
    ensures Charged(w, q) <==>
              && CanReserve(w, q) && !Reported(w, q).Panics? && !Reported(w, q).MoreAnswersNeeded?
              && !(Runs(w, q) && var r := RunOf(ContextOf(w, q), q);
                                 r.Done? && r.response.Success? && r.energy < q.stateEnergy)
  {
    ChecksPass(w, q);
  }

  /** The run of an update is one of the machine, with the energy that the header leaves. */
  lemma RunOfIterates(w: World, q: Request) returns (ms: seq<Machine>)
    requires w.Valid() && Runs(w, q)
    ensures ContextOf(w, q) == Context(w.accounts, w.contracts, w.modules, q.invoker, w.Fee(q.energyReserved),
                                       q.energyReserved, w.simpleTransferCost)
    ensures true == IsInvocation(ContextOf(w, q), q.energyReserved - q.headerCost, q.sender, q.address, q.amount,
                                 q.answers, ms, RunOf(ContextOf(w, q), q))
  {
    ChecksPass(w, q);
    ContextOfOk(w, q);
    ms := RunIteratesFor(ContextOf(w, q), q);
  }

  lemma RunIteratesFor(ctx: Context, q: Request) returns (ms: seq<Machine>)
    requires true == ContextOk(ctx)
    requires Exists(ctx, q.sender) && q.headerCost <= q.energyReserved == ctx.energyReserved
    ensures true == IsInvocation(ctx, q.energyReserved - q.headerCost, q.sender, q.address, q.amount, q.answers, ms,
                                 RunOf(ctx, q))
  {
    ms := InvocationIterates(ctx, q.energyReserved - q.headerCost, q.sender, q.address, q.amount, q.answers);
  }

  /** The chain after the changes `c` and the fee: every contract has its balance, module and state of
      the change set; every account gained what it gained there, and the invoker paid the fee. */
  ghost predicate Becomes(w: World, ctx: Context, c: Changes, fee: nat, w': World)
    requires ctx.accounts == w.accounts && ctx.contracts == w.contracts
  {
    && w' == w.(accounts := w'.accounts, contracts := w'.contracts)
    && w'.accounts.Keys == w.accounts.Keys && w'.contracts.Keys == w.contracts.Keys
    && (forall a :: a in w.contracts ==>
          && w'.contracts[a].balance == ContractBalance(ctx, c, a)
          && w'.contracts[a].moduleRef == ModuleOf(ctx, c, a)
          && w'.contracts[a].state == StateOf(ctx, c, a))
    && (forall a :: a in w.accounts ==>
          var gain := AccountBalance(ctx, c, a) - OriginalBalance(ctx, a) - (if a == ctx.invoker then fee else 0);
          && w'.accounts[a].total == w.accounts[a].total + gain
          && w'.accounts[a].available == w.accounts[a].available + gain)
  }

  /** The changes that an update writes: those of its run if it succeeds, and none otherwise. */
  ghost function ChangesOf(w: World, q: Request): Changes
    requires w.Valid()
  {
    if Reported(w, q).Ok? && Runs(w, q) && RunOf(ContextOf(w, q), q).Done?
       && RunOf(ContextOf(w, q), q).changes != [] then
      var changes := RunOf(ContextOf(w, q), q).changes;
      changes[|changes| - 1]
    else NO_CHANGES
  }

  ghost function FeeOf(w: World, q: Request): nat
    requires w.Valid()
  {
    if Charged(w, q) then Reported(w, q).fee else 0
  }

  lemma ContractBecomes(ctx: Context, c: Changes, a: ContractId)
    requires Balanced(ctx, c, 0) && a in ctx.contracts
    ensures PersistedContracts(ctx.contracts, c)[a] ==
            ChainContract(ContractBalance(ctx, c, a), ModuleOf(ctx, c, a), StateOf(ctx, c, a))
  {
    assert a in c.contracts ==> ContractFits(ctx, a, c.contracts[a]);
  }

  lemma AccountBecomes(ctx: Context, c: Changes, a: AccountId)
    requires ContextOk(ctx) && Balanced(ctx, c, 0) && a in ctx.accounts
    ensures var k, gain := PersistedAccounts(ctx.accounts, c)[a], AccountBalance(ctx, c, a) - OriginalBalance(ctx, a);
            k.total == ctx.accounts[a].total + gain && k.available == ctx.accounts[a].available + gain
  {
    assert a in c.accounts ==> AccountFits(ctx, a, c.accounts[a]);
  }

  lemma PersistedBecomes(w: World, ctx: Context, c: Changes)
    requires ctx.accounts == w.accounts && ctx.contracts == w.contracts && ContextOk(ctx) && Balanced(ctx, c, 0)
    ensures true == Becomes(w, ctx, c, 0, Persisted(w, c))
  {
    forall a | a in w.contracts
      ensures Persisted(w, c).contracts[a] ==
              ChainContract(ContractBalance(ctx, c, a), ModuleOf(ctx, c, a), StateOf(ctx, c, a))
    {
      ContractBecomes(ctx, c, a);
    }
    forall a | a in w.accounts
      ensures var k, gain := Persisted(w, c).accounts[a], AccountBalance(ctx, c, a) - OriginalBalance(ctx, a);
              k.total == w.accounts[a].total + gain && k.available == w.accounts[a].available + gain
    {
      AccountBecomes(ctx, c, a);
    }
  }

  lemma TakenBecomes(w: World, ctx: Context, c: Changes, fee: nat, w1: World, w': World)
    requires ctx.accounts == w.accounts && ctx.contracts == w.contracts && Becomes(w, ctx, c, 0, w1)
    requires Taken(w1, ctx.invoker, fee, w')
    ensures true == Becomes(w, ctx, c, fee, w')
  {
  }

  lemma NothingBecomes(w: World, ctx: Context)
    requires ctx.accounts == w.accounts && ctx.contracts == w.contracts
    ensures true == Becomes(w, ctx, NO_CHANGES, 0, w)
  {
  }

  /** Every update does what it should: a success writes the changes of its run, and nothing else does;
      the fee is taken from the invoker exactly if it is charged for. */
  lemma UpdateBecomes(w: World, q: Request, w': World)
    requires w.Valid() && Effect(w, q, w')
    ensures true == Becomes(w, ContextOf(w, q), ChangesOf(w, q), FeeOf(w, q), w')
  {
    var ctx := ContextOf(w, q);
    ChecksPass(w, q);
    NothingBecomes(w, ctx);
    if Charged(w, q) {
      var u := Reported(w, q);
      if u.Ok? {
        RunBalanced(w, q, ctx, RunOf(ctx, q));
        PersistedBecomes(w, ctx, ChangesOf(w, q));
        TakenBecomes(w, ctx, ChangesOf(w, q), u.fee, Persisted(w, ChangesOf(w, q)), w');
      } else {
        TakenBecomes(w, ctx, NO_CHANGES, u.fee, w, w');
      }
    }
  }

  /** Runs the invocation of an update. */
  method RunUpdate(ctx: Context, q: Request) returns (r: Result)
    requires true == ContextOk(ctx)
    requires Exists(ctx, q.sender) && q.headerCost <= q.energyReserved == ctx.energyReserved
    ensures r == RunOf(ctx, q)
  {
    ghost var ms;
    r, ms := InvokeEntrypoint(ctx, q.energyReserved - q.headerCost, q.sender, q.address, q.amount, q.answers);
  }

  class Chain {
    var accounts: map<AccountId, ChainAccount>
    var contracts: map<ContractId, ChainContract>
    const modules: set<ModuleRef>
    const euroPerEnergy: ExchangeRate
    const microCcdPerEuro: ExchangeRate
    const simpleTransferCost: nat

    function Value(): World
      reads this
    {
      World(accounts, contracts, modules, euroPerEnergy, microCcdPerEuro, simpleTransferCost)
    }

    ghost predicate Valid()
      reads this
    {
      Value().Valid()
    }

    constructor (accounts: map<AccountId, ChainAccount>, contracts: map<ContractId, ChainContract>,
                 modules: set<ModuleRef>, euroPerEnergy: ExchangeRate, microCcdPerEuro: ExchangeRate,
                 simpleTransferCost: nat)
      ensures Value() == World(accounts, contracts, modules, euroPerEnergy, microCcdPerEuro, simpleTransferCost)
    {
      this.accounts, this.contracts, this.modules := accounts, contracts, modules;
      this.euroPerEnergy, this.microCcdPerEuro, this.simpleTransferCost :=
        euroPerEnergy, microCcdPerEuro, simpleTransferCost;
    }

    /** Writes the changed contracts to the chain, entry by entry. */
    method PersistContracts(c: Changes)
      modifies this`contracts
      ensures contracts == PersistedContracts(old(contracts), c)
    {
      var todo := c.contracts.Keys;
      while todo != {}
        invariant todo <= c.contracts.Keys && contracts.Keys == old(contracts.Keys)
        invariant forall a :: a in contracts ==>
                    contracts[a] ==
                      if a in c.contracts && a !in todo then PersistedContract(old(contracts)[a], c.contracts[a])
                      else old(contracts)[a]
        decreases todo
      {
        ghost var _ := Element(todo);
        var a :| a in todo;
        if a in contracts {
          contracts := contracts[a := PersistedContract(contracts[a], c.contracts[a])];
        }
        todo := todo - {a};
      }
      ghost var done := PersistedContracts(old(contracts), c);
      assert done.Keys == contracts.Keys by { assert forall a :: a in done.Keys <==> a in contracts.Keys; }
      assert forall a :: a in contracts ==> a !in todo && contracts[a] == done[a];
      SameMap(contracts, done);
    }

    /** Writes the changed accounts to the chain, entry by entry. */
    method PersistAccounts(c: Changes)
      modifies this`accounts
      ensures accounts == PersistedAccounts(old(accounts), c)
    {
      var todo := c.accounts.Keys;
      while todo != {}
        invariant todo <= c.accounts.Keys && accounts.Keys == old(accounts.Keys)
        invariant forall a :: a in accounts ==>
                    accounts[a] ==
                      if a in c.accounts && a !in todo then PersistedAccount(old(accounts)[a], c.accounts[a])
                      else old(accounts)[a]
        decreases todo
      {
        ghost var _ := Element(todo);
        var a :| a in todo;
        if a in accounts {
          accounts := accounts[a := PersistedAccount(accounts[a], c.accounts[a])];
        }
        todo := todo - {a};
      }
      ghost var done := PersistedAccounts(old(accounts), c);
      assert done.Keys == accounts.Keys by { assert forall a :: a in done.Keys <==> a in accounts.Keys; }
      assert forall a :: a in accounts ==> a !in todo && accounts[a] == done[a];
      SameMap(accounts, done);
    }

    /** Takes the fee from the invoker, who has it. */
    method TakeFee(invoker: AccountId, fee: nat)
      requires invoker in accounts && fee <= accounts[invoker].available <= accounts[invoker].total
      modifies this`accounts
      ensures Taken(old(Value()), invoker, fee, Value())
    {
      var k := accounts[invoker];
      accounts := accounts[invoker := ChainAccount(k.total - fee, k.available - fee)];
    }

    /** The checks that come before the invocation. */
    method Refuse(q: Request) returns (e: Option<UpdateResult>)
      requires Valid()
      ensures e == Refusal(Value(), q)
    {
      var senderExists := match q.sender case Account(a) => a in accounts case Contract(a) => a in contracts;
      if !senderExists {
        return Some(Err(SenderDoesNotExist, 0, 0));
      }
      if q.invoker !in accounts {
        return Some(Err(InvokerDoesNotExist, 0, 0));
      }
      if q.energyReserved < q.headerCost {
        return Some(Err(OutOfEnergyError, 0, 0));
      }
      if Value().Fee(q.energyReserved) > MAX_AMOUNT {
        return Some(Panics);
      }
      if accounts[q.invoker].available < Value().Fee(q.energyReserved) {
        return Some(Err(InsufficientFunds, q.headerCost, Value().Fee(q.headerCost)));
      }
      e := None;
    }

    /** The worker: an early error, or the run of the invocation. */
    method InvocationWorker(q: Request) returns (early: Option<UpdateResult>, r: Result)
      requires Valid() && Refusal(Value(), q).None?
      ensures early == Early(Value(), q)
      ensures early.None? ==> r == RunOf(ContextOf(Value(), q), q)
    {
      early, r := None, Unfinished;
      if q.address !in contracts {
        early := Some(EarlyError(Value(), q, ContractDoesNotExist));
      } else if !q.parameterFits {
        early := Some(EarlyError(Value(), q, ParameterTooLarge));
      } else if Value().Fee(q.energyReserved) + q.amount > MAX_AMOUNT {
        early := Some(Panics);
      } else if accounts[q.invoker].available < Value().Fee(q.energyReserved) + q.amount {
        early := Some(EarlyError(Value(), q, AmountTooLarge));
      } else {
        ContextOfOk(Value(), q);
        r := RunUpdate(ContextOf(Value(), q), q);
      }
    }

    /** Writes the changes of an invocation to the chain: the invoker keeps what was reserved. */
    method Persist(ctx: Context, c: Changes)
      requires Valid() && ContextOk(ctx) && ctx.accounts == accounts && ctx.contracts == contracts
               && ctx.modules == modules
      requires Balanced(ctx, c, 0)
      modifies this`accounts, this`contracts
      ensures Value() == Persisted(old(Value()), c)
      ensures true == Becomes(old(Value()), ctx, c, 0, Value())
      ensures Valid() && Value().Total() == old(Value().Total())
      ensures ctx.invoker in accounts && accounts[ctx.invoker].available >= ctx.reserved
    {
      PersistConserves(ctx, c);
      PersistedBecomes(Value(), ctx, c);
      PersistContracts(c);
      PersistAccounts(c);
    }

    /** Updates a contract: what is returned and what is done are those of the run. */
    method ContractUpdate(q: Request) returns (u: UpdateResult)
      requires Valid()
      modifies this`accounts, this`contracts
      ensures u == Reported(old(Value()), q)
      ensures true == Says(old(Value()), q, u)
      ensures true == Effect(old(Value()), q, Value())
      ensures true == Becomes(old(Value()), ContextOf(old(Value()), q), ChangesOf(old(Value()), q),
                              FeeOf(old(Value()), q), Value())
      ensures Valid()
    {
      ghost var w := Value();
      ReportedSays(w, q);
      var refused := Refuse(q);
      if refused.Some? {
        UpdateBecomes(w, q, w);
        return refused.value;
      }
      var early, r := InvocationWorker(q);
      if early.Some? {
        u := early.value;
        if u.Err? {
          ChargeError(q, u);
        }
      } else {
        u := Settle(q, r);
      }
      UpdateConserves(w, q, Value());
      UpdateBecomes(w, q, Value());
    }

    /** An error that is charged for. */
    method ChargeError(q: Request, u: UpdateResult)
      requires Valid() && u == Reported(Value(), q) && u.Err? && Charged(Value(), q)
      modifies this`accounts
      ensures true == Effect(old(Value()), q, Value())
    {
      FeeWithinReserved(Value(), q);
      TakeFee(q.invoker, u.fee);
    }

    /** The end of an invocation: a success is persisted first. */
    method Settle(q: Request, r: Result) returns (u: UpdateResult)
      requires Valid() && Refusal(Value(), q).None? && Early(Value(), q).None?
               && r == RunOf(ContextOf(Value(), q), q)
      modifies this`accounts, this`contracts
      ensures u == Reported(old(Value()), q)
      ensures true == Effect(old(Value()), q, Value())
    {
      u := ReportedFor(Value(), q, r);
      match u {
        case Ok(_, fee) =>
          FeeWithinReserved(Value(), q);
          StoreAndCharge(q, r, fee);
        case MoreAnswersNeeded =>
        case Panics =>
        case Err(_, _, _) =>
          // When storing the state runs out of energy, nothing is charged.
          if !(r.Done? && r.response.Success?) {
            ChargeError(q, u);
          }
      }
    }

    /** A success: its changes are persisted, and it is charged for. */
    method StoreAndCharge(q: Request, r: Result, fee: nat)
      requires Valid() && Refusal(Value(), q).None? && r == RunOf(ContextOf(Value(), q), q) && r.Done?
      requires Reported(Value(), q).Ok? && Reported(Value(), q).fee == fee <= Value().Fee(q.energyReserved)
      modifies this`accounts, this`contracts
      ensures true == Effect(old(Value()), q, Value())
    {
      ghost var w := Value();
      var ctx := ContextOf(Value(), q);
      RunBalanced(w, q, ctx, r);
      PersistAndTake(ctx, r.changes[|r.changes| - 1], fee);
      SuccessEffect(w, q, r, fee, Value());
    }

    method PersistAndTake(ctx: Context, c: Changes, fee: nat)
      requires Valid() && ContextOk(ctx) && ctx.accounts == accounts && ctx.contracts == contracts
               && ctx.modules == modules
      requires Balanced(ctx, c, 0) && fee <= ctx.reserved
      modifies this`accounts, this`contracts
      ensures true == Taken(Persisted(old(Value()), c), ctx.invoker, fee, Value())
    {
      Persist(ctx, c);
      TakeFee(ctx.invoker, fee);
    }
  }

  // ---------------------------------------------------------------- fees that are not taken

  const RICH: World := World(map[0 := ChainAccount(100000, 100000)], map[1 := ChainContract(0, 0, 0)], {0}, EVEN, EVEN,
                             300)
  const POOR: World := RICH.(accounts := map[0 := ChainAccount(5, 5)])

  /** The contract succeeds at once, with 9600 energy left; storing its state takes more. */
  const COSTLY: Request :=
    Request(0, Account(0), 10000, 1, 0, 100, true, 9601, [Oracle(true, 0, Finished(None, 100_000_000))])

  lemma EvenFee(w: World, energy: nat)
    requires w.euroPerEnergy == EVEN && w.microCcdPerEuro == EVEN
    ensures w.Fee(energy) == energy
  {
    assert 1 * 1 * energy == energy;
  }

  lemma OneAccountValid(w: World, balance: nat)
    requires w == RICH.(accounts := map[0 := ChainAccount(balance, balance)], euroPerEnergy := w.euroPerEnergy)
    requires w.euroPerEnergy.Valid() && CheckExchangeRates(w.euroPerEnergy, EVEN) && balance <= MAX_AMOUNT
    ensures w.Valid()
  {
    SumOne(Totals(w.accounts), 0);
    SumZero(Balances(w.contracts));
  }

  /** When storing the state runs out of energy, the reported fee of 10000 is not taken. */
  lemma StoringNotCharged(w': World)
    ensures RICH.Valid() && Reported(RICH, COSTLY) == Err(OutOfEnergyError, 10000, 10000)
    ensures Effect(RICH, COSTLY, w') <==> w' == RICH
  {
    OneAccountValid(RICH, 100000);
    EvenFee(RICH, 10000);
    CostlyRun();
  }

  const COSTLY_CONTEXT: Context := Context(RICH.accounts, RICH.contracts, {0}, 0, 10000, 10000, 300)
  const COSTLY_DATA: InvocationData := InvocationData(Account(0), 1, 0, 0, 0, 1, 1, 0)
  const COSTLY_READY: Machine := Machine([], [], None, [NO_CHANGES], 9600, 1, History(0, 1, map[], {}, []))
  const COSTLY_OVER: Machine := COSTLY_READY.(trace := [Regular(0, Updated)], response := Some(Success(0)))

  /** An entrypoint that is called without an amount, when nothing has changed yet. */
  lemma BeginsIdle(ctx: Context, energy: nat, sender: Address, a: ContractId, o: Oracle)
    requires a in ctx.contracts && ctx.contracts[a].moduleRef in ctx.modules && ctx.invoker in ctx.accounts
    requires o.hasEntrypoint && energy >= 300 + o.lookupCost
    ensures Begin(ctx, Start(energy, sender, a, 0), o) ==
            Ready(Machine([], [], None, [NO_CHANGES], energy - 300 - o.lookupCost, 1, History(0, 1, map[], {}, [])),
                  InvocationData(sender, a, 0, ctx.contracts[a].state, 0, 1, 1, 0))
  {
    var m := Start(energy, sender, a, 0);
    var item, m1 := m.work[0], m.(work := [], energy := energy - 300);
    assert m.work[..0] == [];
    var r := MoveAmount(ctx, m1, sender, a, 0);
    assert r.Moved? && r.changes == NO_CHANGES;
    assert m1.changes[..0] + [NO_CHANGES] == m1.changes;
    assert AfterMove(ctx, m1, item, o, r) == Enter(ctx, m1, item, o);
  }

  lemma CostlyFinishes()
    ensures OnFinished(COSTLY_CONTEXT, COSTLY_READY, COSTLY_DATA, COSTLY.answers[0].ran) == Running(COSTLY_OVER)
  {
    RunOnlySpends(9600, 100_000_000);
    assert [] + [Regular(0, Updated)] == [Regular(0, Updated)];
  }

  lemma CostlyRun()
    ensures Refusal(RICH, COSTLY).None? && StoringFails(RICH, COSTLY)
    ensures var r := RunOf(ContextOf(RICH, COSTLY), COSTLY); r.Done? && r.response.Success? && r.energy == 9600
  {
    EvenFee(RICH, 10000);
    assert ContextOf(RICH, COSTLY) == COSTLY_CONTEXT;
    BeginsIdle(COSTLY_CONTEXT, 9900, Account(0), 1, COSTLY.answers[0]);
    CostlyFinishes();
    var m := Start(9900, Account(0), 1, 0);
    assert Step(COSTLY_CONTEXT, m, COSTLY.answers[0]) == Running(COSTLY_OVER);
    assert RunFrom(COSTLY_CONTEXT, COSTLY_OVER, COSTLY.answers[1..]) == Ending(COSTLY_OVER);
  }

  /** When the invoker cannot reserve the energy, the reported fee of 100 is not taken. */
  lemma InsufficientNotCharged(w': World)
    ensures POOR.Valid() && Reported(POOR, COSTLY) == Err(InsufficientFunds, 100, 100)
    ensures Effect(POOR, COSTLY, w') <==> w' == POOR
  {
    OneAccountValid(POOR, 5);
    EvenFee(POOR, 10000);
    EvenFee(POOR, 100);
  }

  // ---------------------------------------------------------------- numbers that are too large

  /** Energy for 10^12 a unit of the smallest coin. */
  const CHEAP: ExchangeRate := ExchangeRate(1, 1_000_000_000_000)

  /** Rates that pass the check, and an energy of 10^11: the price cannot be computed. */
  lemma PricePanics(w: World, q: Request)
    requires w == RICH.(euroPerEnergy := STEEP) && q == COSTLY.(energyReserved := 100_000_000_000)
    ensures w.Valid() && Reported(w, q) == Panics
  {
    SteepPasses();
    OneAccountValid(w, 100000);
    SteepOverflows(q.energyReserved);
  }

  /** What is reserved can be paid, and so can no amount that does not fit with it. */
  lemma AmountPanics(q: Request)
    requires q == COSTLY.(amount := MAX_AMOUNT)
    ensures RICH.Valid() && Reported(RICH, q) == Panics
  {
    OneAccountValid(RICH, 100000);
    EvenFee(RICH, 10000);
  }

  /** A price of 20000 for an energy that the interpreter cannot count. */
  lemma EnergyPanics(w: World, q: Request)
    requires w == RICH.(euroPerEnergy := CHEAP) && q == COSTLY.(energyReserved := 20_000_000_000_000_000)
    ensures w.Valid() && w.Fee(q.energyReserved) == 20000 && Reported(w, q) == Panics
  {
    OneAccountValid(w, 100000);
    CheapPrice(w, q.energyReserved);
    TooMuchEnergy(ContextOf(w, q), q);
  }

  lemma CheapPrice(w: World, energy: nat)
    requires w == RICH.(euroPerEnergy := CHEAP) && energy == 20_000_000_000_000_000
    ensures w.Fee(energy) == 20000
  {
    CeilDivLeast(1 * 1 * energy, 1_000_000_000_000 * 1, 20000);
    CeilDivLeast(1 * 1 * energy, 1_000_000_000_000 * 1, 19999);
  }

  lemma TooMuchEnergy(ctx: Context, q: Request)
    requires ctx.contracts == RICH.contracts && ctx.modules == {0} && ctx.invoker in ctx.accounts
    requires q == COSTLY.(energyReserved := 20_000_000_000_000_000)
    ensures RunOf(ctx, q) == Crashed
  {
    var m, o := Start(q.energyReserved - 100, Account(0), 1, 0), q.answers[0];
    BeginsIdle(ctx, q.energyReserved - 100, Account(0), 1, o);
    assert Step(ctx, m, o) == Panicked;
  }
}
