/** The dynamic NFT contract: fungible amounts per token, and a list of metadata per token with a
    counter that points at the current one. */
module DynamicNft {
  import opened Common
  import opened Sums
  import opened Cis2Calls

  type Url = string

  datatype AddressState = AddressState(balances: map<TokenId, nat>, operators: set<Address>)
  datatype Metadata = Metadata(counter: nat, list: seq<Url>)
  datatype MintParam = MintParam(token: TokenId, amount: nat, urls: seq<Url>)

  datatype Action =
    | Mint(owner: Address, tokens: seq<MintParam>)
    | Upgrade(token: TokenId)
    | AddMetadata(additions: seq<(TokenId, Url)>)

  /** The contract state; `minted` records how much of each token was ever minted. */
  datatype Ledger = Ledger(state: map<Address, AddressState>, tokens: map<TokenId, Metadata>, minted: map<TokenId, nat>)

  const TWO_64: nat := 0x1_0000_0000_0000_0000

  /** Addition of 64-bit amounts: it wraps around. */
  function Add64(a: nat, b: nat): nat { if a + b < TWO_64 then a + b else a + b - TWO_64 }

  // ---------------------------------------------------------------- what the state functions do

  function StateOf(l: Ledger, a: Address): AddressState {
    if a in l.state then l.state[a] else AddressState(map[], {})
  }

  function BalanceIn(s: AddressState, t: TokenId): nat { if t in s.balances then s.balances[t] else 0 }

  function BalanceOf(l: Ledger, a: Address, t: TokenId): nat { BalanceIn(StateOf(l, a), t) }

  function MintedOf(l: Ledger, t: TokenId): nat { if t in l.minted then l.minted[t] else 0 }

  predicate IsOperator(l: Ledger, a: Address, owner: Address) { a in StateOf(l, owner).operators }

  /** Looking a token up also indexes its metadata list, which aborts beyond the end. */
  predicate CanLookUp(l: Ledger, t: TokenId) { t in l.tokens && l.tokens[t].counter < |l.tokens[t].list| }

  function WithBalance(l: Ledger, a: Address, t: TokenId, amount: nat): Ledger {
    var s := StateOf(l, a);
    l.(state := l.state[a := s.(balances := s.balances[t := amount])])
  }

  function Credit(l: Ledger, a: Address, t: TokenId, amount: nat): Ledger {
    WithBalance(l, a, t, Add64(BalanceOf(l, a, t), amount))
  }

  /** A transfer, or nothing where it fails or aborts. */
  function TransferOne(l: Ledger, t: TokenId, amount: nat, from: Address, to: Address): Option<Ledger> {
    if !CanLookUp(l, t) then None
    else if amount == 0 then Some(l)
    else if BalanceOf(l, from, t) < amount then None
    else Some(Credit(WithBalance(l, from, t, BalanceOf(l, from, t) - amount), to, t, amount))
  }

  function MintOne(l: Ledger, p: MintParam, owner: Address): Ledger {
    Credit(Announced(l, p), owner, p.token, p.amount)
  }

  /** Minting a token again replaces its metadata. */
  function Announced(l: Ledger, p: MintParam): Ledger {
    Ledger(l.state, l.tokens[p.token := Metadata(0, p.urls)], l.minted[p.token := MintedOf(l, p.token) + p.amount])
  }

  function Stepped(m: Metadata): Metadata { m.(counter := m.counter + 1) }

  function UpgradeToken(l: Ledger, t: TokenId): Option<Ledger> {
    if !CanLookUp(l, t) then None else Some(l.(tokens := l.tokens[t := Stepped(l.tokens[t])]))
  }

  function AddUrl(l: Ledger, t: TokenId, url: Url): Option<Ledger> {
    if !CanLookUp(l, t) then None
    else Some(l.(tokens := l.tokens[t := l.tokens[t].(list := l.tokens[t].list + [url])]))
  }

  function SetOperator(l: Ledger, owner: Address, u: OperatorUpdate): Ledger {
    var s := StateOf(l, owner);
    if u.add then l.(state := l.state[owner := s.(operators := s.operators + {u.operator})])
    else if owner in l.state then l.(state := l.state[owner := s.(operators := s.operators - {u.operator})])
    else l
  }

  // ---------------------------------------------------------------- what the entrypoints do

  function MintAll(l: Ledger, owner: Address, tokens: seq<MintParam>): Option<Ledger>
    decreases |tokens|
  {
    if tokens == [] then Some(l)
    else if tokens[0].urls == [] then None
    else MintAll(MintOne(l, tokens[0], owner), owner, tokens[1..])
  }

  function AddAll(l: Ledger, tokens: seq<(TokenId, Url)>): Option<Ledger>
    decreases |tokens|
  {
    if tokens == [] then Some(l)
    else
      match AddUrl(l, tokens[0].0, tokens[0].1)
      case None => None
      case Some(next) => AddAll(next, tokens[1..])
  }

  /** The event that is logged after an upgrade reads the new metadata: an overstep aborts. */
  function UpgradeAndLog(l: Ledger, t: TokenId): Option<Ledger> {
    match UpgradeToken(l, t)
    case None => None
    case Some(next) => if CanLookUp(next, t) then Some(next) else None
  }

  function Act(l: Ledger, action: Action): Option<Ledger> {
    match action
    case Mint(owner, tokens) => MintAll(l, owner, tokens)
    case Upgrade(token) => UpgradeAndLog(l, token)
    case AddMetadata(additions) => AddAll(l, additions)
  }

  function SetOperators(l: Ledger, owner: Address, updates: seq<OperatorUpdate>): Ledger
    decreases |updates|
  {
    if updates == [] then l else SetOperators(SetOperator(l, owner, updates[0]), owner, updates[1..])
  }

  /** A call of the contract of `admin`, or nothing where it fails. */
  function Exec(admin: Address, l: Ledger, call: Call<Action>): Option<Ledger>
    decreases call
  {
    match call
    case Transfers(sender, items) => TransferAll(admin, l, sender, items)
    case UpdateOperators(sender, updates) => Some(SetOperators(l, sender, updates))
    case Admin(sender, action) => if sender == admin then Act(l, action) else None
  }

  /** A batch of transfers, each followed by its hook. */
  function TransferAll(admin: Address, l: Ledger, sender: Address, items: seq<Item<Action>>): Option<Ledger>
    decreases items
  {
    if items == [] then Some(l)
    else
      match TransferItem(admin, l, sender, items[0])
      case None => None
      case Some(next) => TransferAll(admin, next, sender, items[1..])
  }

  function TransferItem(admin: Address, l: Ledger, sender: Address, item: Item<Action>): Option<Ledger>
    decreases item
  {
    if item.from != sender && !IsOperator(l, sender, item.from) then None
    else
      match TransferOne(l, item.token, item.amount, item.from, item.to)
      case None => None
      case Some(next) =>
        match item.hook
        case None => Some(next)
        case Some(hook) => if hook.ok then Some(Run(admin, next, hook.calls)) else None
  }

  /** A run of calls, one after the other: a call that fails changes nothing. */
  function Run(admin: Address, l: Ledger, calls: seq<Call<Action>>): Ledger
    decreases calls
  {
    if calls == [] then l
    else
      match Exec(admin, l, calls[0])
      case None => Run(admin, l, calls[1..])
      case Some(next) => Run(admin, next, calls[1..])
  }

  // ---------------------------------------------------------------- the contract

  /** The contract with its state, which the entrypoints change in place. A call that fails is
      undone by the host. */
  class Contract {
    const admin: Address
    var state: map<Address, AddressState>
    var tokens: map<TokenId, Metadata>
    ghost var minted: map<TokenId, nat>

    constructor (admin: Address)
      ensures this.admin == admin && Value() == Ledger(map[], map[], map[])
    {
      this.admin, state, tokens, minted := admin, map[], map[], map[];
    }

    ghost function Value(): Ledger
      reads this
    {
      Ledger(state, tokens, minted)
    }

    method ContainsToken(t: TokenId) returns (r: bool)
      ensures r <==> CanLookUp(Value(), t)
    {
      r := t in tokens && tokens[t].counter < |tokens[t].list|;
    }

    method AddBalance(a: Address, t: TokenId, amount: nat)
      modifies this
      ensures Value() == Credit(old(Value()), a, t, amount)
    {
      var s := if a in state then state[a] else AddressState(map[], {});
      var balance := if t in s.balances then s.balances[t] else 0;
      state := state[a := s.(balances := s.balances[t := Add64(balance, amount)])];
    }

    method MintToken(p: MintParam, owner: Address)
      modifies this
      ensures Value() == MintOne(old(Value()), p, owner)
    {
      minted := Announced(Value(), p).minted;
      tokens := tokens[p.token := Metadata(0, p.urls)];
      AddBalance(owner, p.token, p.amount);
    }

    method Transfer(t: TokenId, amount: nat, from: Address, to: Address) returns (ok: bool)
      modifies this
      ensures ok <==> TransferOne(old(Value()), t, amount, from, to).Some?
      ensures ok ==> Value() == TransferOne(old(Value()), t, amount, from, to).value
    {
      var found := ContainsToken(t);
      if !found {
        return false;
      }
      if amount == 0 {
        return true;
      }
      if from !in state || t !in state[from].balances || state[from].balances[t] < amount {
        return false;
      }
      var s := state[from];
      state := state[from := s.(balances := s.balances[t := s.balances[t] - amount])];
      AddBalance(to, t, amount);
      ok := true;
    }

    /** The entrypoint that moves a token on to its next metadata. */
    method UpgradeEntrypoint(t: TokenId) returns (ok: bool)
      modifies this
      ensures ok <==> UpgradeAndLog(old(Value()), t).Some?
      ensures ok ==> Value() == UpgradeAndLog(old(Value()), t).value
    {
      var found := ContainsToken(t);
      if !found {
        return false;
      }
      tokens := tokens[t := tokens[t].(counter := tokens[t].counter + 1)];
      ok := ContainsToken(t);
    }

    method AddMetadataEntrypoint(additions: seq<(TokenId, Url)>) returns (ok: bool)
      modifies this
      ensures ok <==> AddAll(old(Value()), additions).Some?
      ensures ok ==> Value() == AddAll(old(Value()), additions).value
    {
      for i := 0 to |additions|
        invariant AddAll(old(Value()), additions) == AddAll(Value(), additions[i..])
      {
        var (t, url) := additions[i];
        assert additions[i..][1..] == additions[i + 1..];
        var found := ContainsToken(t);
        if !found {
          return false;
        }
        tokens := tokens[t := tokens[t].(list := tokens[t].list + [url])];
      }
      ok := true;
    }

    method MintEntrypoint(owner: Address, params: seq<MintParam>) returns (ok: bool)
      modifies this
      ensures ok <==> MintAll(old(Value()), owner, params).Some?
      ensures ok ==> Value() == MintAll(old(Value()), owner, params).value
    {
      for i := 0 to |params|
        invariant MintAll(old(Value()), owner, params) == MintAll(Value(), owner, params[i..])
      {
        assert params[i..][1..] == params[i + 1..];
        MintToken(params[i], owner);
        if params[i].urls == [] {
          return false;
        }
      }
      ok := true;
    }

    method UpdateOperatorEntrypoint(sender: Address, updates: seq<OperatorUpdate>)
      modifies this
      ensures Value() == SetOperators(old(Value()), sender, updates)
    {
      for i := 0 to |updates|
        invariant SetOperators(old(Value()), sender, updates) == SetOperators(Value(), sender, updates[i..])
      {
        assert updates[i..][1..] == updates[i + 1..];
        var u := updates[i];
        if u.add {
          var s := if sender in state then state[sender] else AddressState(map[], {});
          state := state[sender := s.(operators := s.operators + {u.operator})];
        } else if sender in state {
          state := state[sender := state[sender].(operators := state[sender].operators - {u.operator})];
        }
      }
    }

    /** The loop over a batch of transfers. The state is fetched anew in each round, since the
        hook of the round before may have changed it. */
    method TransferEntrypoint(sender: Address, items: seq<Item<Action>>) returns (ok: bool)
      modifies this
      ensures ok <==> TransferAll(admin, old(Value()), sender, items).Some?
      ensures ok ==> Value() == TransferAll(admin, old(Value()), sender, items).value
      decreases items
    {
      for i := 0 to |items|
        invariant TransferAll(admin, old(Value()), sender, items) == TransferAll(admin, Value(), sender, items[i..])
      {
        assert items[i..][0] == items[i] && items[i..][1..] == items[i + 1..];
        var moved := TransferRound(sender, items[i]);
        if !moved {
          return false;
        }
      }
      ok := true;
    }

    method TransferRound(sender: Address, item: Item<Action>) returns (ok: bool)
      modifies this
      ensures ok <==> TransferItem(admin, old(Value()), sender, item).Some?
      ensures ok ==> Value() == TransferItem(admin, old(Value()), sender, item).value
      decreases item
    {
      if item.from != sender && (item.from !in state || sender !in state[item.from].operators) {
        return false;
      }
      ok := Transfer(item.token, item.amount, item.from, item.to);
      if ok && item.hook.Some? {
        InvokeHook(item.hook.value.calls);
        ok := item.hook.value.ok;
      }
    }

    /** The calls that a hook makes. */
    method InvokeHook(calls: seq<Call<Action>>)
      modifies this
      ensures Value() == Run(admin, old(Value()), calls)
      decreases calls
    {
      for i := 0 to |calls|
        invariant Run(admin, old(Value()), calls) == Run(admin, Value(), calls[i..])
      {
        assert calls[i..][0] == calls[i] && calls[i..][1..] == calls[i + 1..];
        var _ := Invoke(calls[i]);
      }
    }

    /** One call: what a failed one has changed is undone. */
    method Invoke(call: Call<Action>) returns (ok: bool)
      modifies this
      ensures ok <==> Exec(admin, old(Value()), call).Some?
      ensures Value() == if ok then Exec(admin, old(Value()), call).value else old(Value())
      decreases call
    {
      var savedState, savedTokens := state, tokens;
      ghost var savedMinted := minted;
      match call {
        case Transfers(sender, items) =>
          ok := TransferEntrypoint(sender, items);
        case UpdateOperators(sender, updates) =>
          UpdateOperatorEntrypoint(sender, updates);
          ok := true;
        case Admin(sender, action) =>
          if sender != admin {
            ok := false;
          } else {
            match action {
              case Mint(owner, params) => ok := MintEntrypoint(owner, params);
              case Upgrade(t) => ok := UpgradeEntrypoint(t);
              case AddMetadata(additions) => ok := AddMetadataEntrypoint(additions);
            }
          }
      }
      if !ok {
        state, tokens, minted := savedState, savedTokens, savedMinted;
      }
    }
  }
}
