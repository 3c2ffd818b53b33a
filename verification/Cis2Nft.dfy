/** The NFT contract: each address has a set of tokens. */
module Cis2Nft {
  import opened Common
  import opened Cis2Calls

  datatype AddressState = AddressState(owned: set<TokenId>, operators: set<Address>)

  datatype Action = Mint(owner: Address, tokens: seq<TokenId>)

  datatype Ledger = Ledger(state: map<Address, AddressState>, all: set<TokenId>)

  // ---------------------------------------------------------------- what the state functions do

  function StateOf(l: Ledger, a: Address): AddressState {
    if a in l.state then l.state[a] else AddressState({}, {})
  }

  predicate Owns(l: Ledger, a: Address, t: TokenId) { t in StateOf(l, a).owned }

  predicate IsOperator(l: Ledger, a: Address, owner: Address) { a in StateOf(l, owner).operators }

  function WithOwned(l: Ledger, a: Address, owned: set<TokenId>): Ledger {
    l.(state := l.state[a := StateOf(l, a).(owned := owned)])
  }

  function Give(l: Ledger, a: Address, t: TokenId): Ledger { WithOwned(l, a, StateOf(l, a).owned + {t}) }

  function Take(l: Ledger, a: Address, t: TokenId): Ledger { WithOwned(l, a, StateOf(l, a).owned - {t}) }

  function TransferOne(l: Ledger, t: TokenId, amount: nat, from: Address, to: Address): Option<Ledger> {
    if t !in l.all then None
    else if amount == 0 then Some(l)
    else if amount != 1 || !Owns(l, from, t) then None
    else Some(Give(Take(l, from, t), to, t))
  }

  function MintOne(l: Ledger, t: TokenId, owner: Address): Option<Ledger> {
    if t in l.all then None else Some(Give(l.(all := l.all + {t}), owner, t))
  }

  function SetOperator(l: Ledger, owner: Address, u: OperatorUpdate): Ledger {
    var s := StateOf(l, owner);
    if u.add then l.(state := l.state[owner := s.(operators := s.operators + {u.operator})])
    else if owner in l.state then l.(state := l.state[owner := s.(operators := s.operators - {u.operator})])
    else l
  }

  // ---------------------------------------------------------------- what the entrypoints do

  function MintAll(l: Ledger, owner: Address, tokens: seq<TokenId>): Option<Ledger>
    decreases |tokens|
  {
    if tokens == [] then Some(l)
    else
      match MintOne(l, tokens[0], owner)
      case None => None
      case Some(next) => MintAll(next, owner, tokens[1..])
  }

  function SetOperators(l: Ledger, owner: Address, updates: seq<OperatorUpdate>): Ledger
    decreases |updates|
  {
    if updates == [] then l else SetOperators(SetOperator(l, owner, updates[0]), owner, updates[1..])
  }

  /** A call of the contract of `admin`, or nothing where it fails. */
  function Exec(admin: Address, l: Ledger, call: Call<Action>): Option<Ledger>
    decreases call
  {
    match call
    case Transfers(sender, items) => TransferAll(admin, l, sender, items)
    case UpdateOperators(sender, updates) => Some(SetOperators(l, sender, updates))
    case Admin(sender, action) => if sender == admin then MintAll(l, action.owner, action.tokens) else None
  }

  /** A batch of transfers, each followed by its hook. */
  function TransferAll(admin: Address, l: Ledger, sender: Address, items: seq<Item<Action>>): Option<Ledger>
    decreases items
  {
    if items == [] then Some(l)
    else
      match TransferItem(admin, l, sender, items[0])
      case None => None
      case Some(next) => TransferAll(admin, next, sender, items[1..])
  }

  function TransferItem(admin: Address, l: Ledger, sender: Address, item: Item<Action>): Option<Ledger>
    decreases item
  {
    if item.from != sender && !IsOperator(l, sender, item.from) then None
    else
      match TransferOne(l, item.token, item.amount, item.from, item.to)
      case None => None
      case Some(next) =>
        match item.hook
        case None => Some(next)
        case Some(hook) => if hook.ok then Some(Run(admin, next, hook.calls)) else None
  }

  /** A run of calls, one after the other: a call that fails changes nothing. */
  function Run(admin: Address, l: Ledger, calls: seq<Call<Action>>): Ledger
    decreases calls
  {
    if calls == [] then l
    else
      match Exec(admin, l, calls[0])
      case None => Run(admin, l, calls[1..])
      case Some(next) => Run(admin, next, calls[1..])
  }

  // ---------------------------------------------------------------- the contract

  /** The contract with its state, which the entrypoints change in place. A call that fails is
      undone by the host. */
  class Contract {
    const admin: Address
    var state: map<Address, AddressState>
    var all: set<TokenId>

    constructor (admin: Address)
      ensures this.admin == admin && Value() == Ledger(map[], {})
    {
      this.admin, state, all := admin, map[], {};
    }

    function Value(): Ledger
      reads this
    {
      Ledger(state, all)
    }

    /** One for the owner and zero for everyone else; an error for a token that does not exist. */
    method Balance(t: TokenId, a: Address) returns (r: Option<nat>)
      requires OneOwner(Value())
      ensures r.None? <==> t !in all
      ensures r.Some? ==> exists owner :: Owns(Value(), owner, t) && r.value == (if a == owner then 1 else 0)
    {
      if t !in all {
        return None;
      }
      r := Some(if a in state && t in state[a].owned then 1 else 0);
      ghost var owner :| Owns(Value(), owner, t);
      assert Owns(Value(), a, t) ==> a == owner;
    }

    method AddOwned(a: Address, t: TokenId)
      modifies this
      ensures Value() == Give(old(Value()), a, t)
    {
      var s := if a in state then state[a] else AddressState({}, {});
      state := state[a := s.(owned := s.owned + {t})];
    }

    method MintToken(t: TokenId, owner: Address) returns (ok: bool)
      modifies this
      ensures ok <==> MintOne(old(Value()), t, owner).Some?
      ensures ok ==> Value() == MintOne(old(Value()), t, owner).value
    {
      if t in all {
        return false;
      }
      all := all + {t};
      AddOwned(owner, t);
      ok := true;
    }

    method Transfer(t: TokenId, amount: nat, from: Address, to: Address) returns (ok: bool)
      modifies this
      ensures ok <==> TransferOne(old(Value()), t, amount, from, to).Some?
      ensures ok ==> Value() == TransferOne(old(Value()), t, amount, from, to).value
    {
      if t !in all {
        return false;
      }
      if amount == 0 {
        return true;
      }
      if amount != 1 || from !in state || t !in state[from].owned {
        return false;
      }
      state := state[from := state[from].(owned := state[from].owned - {t})];
      AddOwned(to, t);
      ok := true;
    }

    method MintEntrypoint(owner: Address, tokens: seq<TokenId>) returns (ok: bool)
      modifies this
      ensures ok <==> MintAll(old(Value()), owner, tokens).Some?
      ensures ok ==> Value() == MintAll(old(Value()), owner, tokens).value
    {
      for i := 0 to |tokens|
        invariant MintAll(old(Value()), owner, tokens) == MintAll(Value(), owner, tokens[i..])
      {
        assert tokens[i..][1..] == tokens[i + 1..];
        var minted := MintToken(tokens[i], owner);
        if !minted {
          return false;
        }
      }
      ok := true;
    }

    method UpdateOperatorEntrypoint(sender: Address, updates: seq<OperatorUpdate>)
      modifies this
      ensures Value() == SetOperators(old(Value()), sender, updates)
    {
      for i := 0 to |updates|
        invariant SetOperators(old(Value()), sender, updates) == SetOperators(Value(), sender, updates[i..])
      {
        assert updates[i..][1..] == updates[i + 1..];
        var u := updates[i];
        if u.add {
          var s := if sender in state then state[sender] else AddressState({}, {});
          state := state[sender := s.(operators := s.operators + {u.operator})];
        } else if sender in state {
          state := state[sender := state[sender].(operators := state[sender].operators - {u.operator})];
        }
      }
    }

    /** The loop over a batch of transfers. The state is fetched anew in each round, since the
        hook of the round before may have changed it. */
    method TransferEntrypoint(sender: Address, items: seq<Item<Action>>) returns (ok: bool)
      modifies this
      ensures ok <==> TransferAll(admin, old(Value()), sender, items).Some?
      ensures ok ==> Value() == TransferAll(admin, old(Value()), sender, items).value
      decreases items
    {
      for i := 0 to |items|
        invariant TransferAll(admin, old(Value()), sender, items) == TransferAll(admin, Value(), sender, items[i..])
      {
        assert items[i..][0] == items[i] && items[i..][1..] == items[i + 1..];
        var moved := TransferRound(sender, items[i]);
        if !moved {
          return false;
        }
      }
      ok := true;
    }

    method TransferRound(sender: Address, item: Item<Action>) returns (ok: bool)
      modifies this
      ensures ok <==> TransferItem(admin, old(Value()), sender, item).Some?
      ensures ok ==> Value() == TransferItem(admin, old(Value()), sender, item).value
      decreases item
    {
      if item.from != sender && (item.from !in state || sender !in state[item.from].operators) {
        return false;
      }
      ok := Transfer(item.token, item.amount, item.from, item.to);
      if ok && item.hook.Some? {
        InvokeHook(item.hook.value.calls);
        ok := item.hook.value.ok;
      }
    }

    /** The calls that a hook makes. */
    method InvokeHook(calls: seq<Call<Action>>)
      modifies this
      ensures Value() == Run(admin, old(Value()), calls)
      decreases calls
    {
      for i := 0 to |calls|
        invariant Run(admin, old(Value()), calls) == Run(admin, Value(), calls[i..])
      {
        assert calls[i..][0] == calls[i] && calls[i..][1..] == calls[i + 1..];
        var _ := Invoke(calls[i]);
      }
    }

    /** One call: what a failed one has changed is undone. */
    method Invoke(call: Call<Action>) returns (ok: bool)
      modifies this
      ensures ok <==> Exec(admin, old(Value()), call).Some?
      ensures Value() == if ok then Exec(admin, old(Value()), call).value else old(Value())
      decreases call
    {
      var savedState, savedAll := state, all;
      match call {
        case Transfers(sender, items) =>
          ok := TransferEntrypoint(sender, items);
        case UpdateOperators(sender, updates) =>
          UpdateOperatorEntrypoint(sender, updates);
          ok := true;
        case Admin(sender, action) =>
          if sender != admin {
            ok := false;
          } else {
            ok := MintEntrypoint(action.owner, action.tokens);
          }
      }
      if !ok {
        state, all := savedState, savedAll;
      }
    }
  }

  // ---------------------------------------------------------------- one owner

  /** Every token that exists has exactly one owner, and nothing else is owned. */
  ghost predicate OneOwner(l: Ledger) {
    && (forall t :: t in l.all ==> exists a :: Owns(l, a, t))
    && (forall a, b, t :: Owns(l, a, t) && Owns(l, b, t) ==> a == b)
    && (forall a, t :: Owns(l, a, t) ==> t in l.all)
  }

  /** No token disappears, and each keeps exactly one owner. */
  ghost predicate Later(l: Ledger, m: Ledger) {
    l.all <= m.all && (OneOwner(l) ==> OneOwner(m))
  }

  /** A transfer hands the token to the receiver and changes nothing else. */
  lemma TransferMoves(l: Ledger, t: TokenId, amount: nat, from: Address, to: Address, n: Ledger)
    requires TransferOne(l, t, amount, from, to) == Some(n)
    ensures n.all == l.all
    ensures forall a, u :: Owns(n, a, u) <==> if u == t && amount > 0 && a in {from, to} then a == to else Owns(l, a, u)
    ensures forall a :: StateOf(n, a).operators == StateOf(l, a).operators
  {
  }

  lemma TransferLater(l: Ledger, t: TokenId, amount: nat, from: Address, to: Address, n: Ledger)
    requires TransferOne(l, t, amount, from, to) == Some(n)
    ensures Later(l, n)
  {
    TransferMoves(l, t, amount, from, to, n);
    if OneOwner(l) {
      forall u | u in n.all ensures exists a :: Owns(n, a, u) {
        var a :| Owns(l, a, u);
        assert if u == t && amount > 0 then Owns(n, to, u) else Owns(n, a, u);
      }
    }
  }

  lemma MintLater(l: Ledger, t: TokenId, owner: Address, n: Ledger)
    requires MintOne(l, t, owner) == Some(n)
    ensures Later(l, n)
  {
    assert forall a, u :: Owns(n, a, u) <==> Owns(l, a, u) || (a == owner && u == t);
    if OneOwner(l) {
      forall u | u in n.all ensures exists a :: Owns(n, a, u) {
        if u == t {
          assert Owns(n, owner, u);
        } else {
          var a :| Owns(l, a, u);
          assert Owns(n, a, u);
        }
      }
    }
  }

  lemma OperatorLater(l: Ledger, owner: Address, u: OperatorUpdate)
    ensures Later(l, SetOperator(l, owner, u))
  {
    var n := SetOperator(l, owner, u);
    assert forall a, t :: Owns(n, a, t) <==> Owns(l, a, t);
    if OneOwner(l) {
      forall t | t in n.all ensures exists a :: Owns(n, a, t) {
        var a :| Owns(l, a, t);
        assert Owns(n, a, t);
      }
    }
  }

  lemma {:induction false} MintAllLater(l: Ledger, owner: Address, tokens: seq<TokenId>)
    requires MintAll(l, owner, tokens).Some?
    ensures Later(l, MintAll(l, owner, tokens).value)
    decreases |tokens|
  {
    if tokens != [] {
      var next := MintOne(l, tokens[0], owner).value;
      MintLater(l, tokens[0], owner, next);
      MintAllLater(next, owner, tokens[1..]);
    }
  }

  lemma {:induction false} SetOperatorsLater(l: Ledger, owner: Address, updates: seq<OperatorUpdate>)
    ensures Later(l, SetOperators(l, owner, updates))
    decreases |updates|
  {
    if updates != [] {
      OperatorLater(l, owner, updates[0]);
      SetOperatorsLater(SetOperator(l, owner, updates[0]), owner, updates[1..]);
    }
  }

  lemma {:induction false} ExecLater(admin: Address, l: Ledger, call: Call<Action>)
    requires Exec(admin, l, call).Some?
    ensures Later(l, Exec(admin, l, call).value)
    decreases call
  {
    match call
    case Transfers(sender, items) => TransferAllLater(admin, l, sender, items);
    case UpdateOperators(sender, updates) => SetOperatorsLater(l, sender, updates);
    case Admin(sender, action) => MintAllLater(l, action.owner, action.tokens);
  }

  lemma {:induction false} TransferAllLater(admin: Address, l: Ledger, sender: Address, items: seq<Item<Action>>)
    requires TransferAll(admin, l, sender, items).Some?
    ensures Later(l, TransferAll(admin, l, sender, items).value)
    decreases items
  {
    if items != [] {
      TransferItemLater(admin, l, sender, items[0]);
      TransferAllLater(admin, TransferItem(admin, l, sender, items[0]).value, sender, items[1..]);
    }
  }

  lemma {:induction false} TransferItemLater(admin: Address, l: Ledger, sender: Address, item: Item<Action>)
    requires TransferItem(admin, l, sender, item).Some?
    ensures Later(l, TransferItem(admin, l, sender, item).value)
    decreases item
  {
    var next := TransferOne(l, item.token, item.amount, item.from, item.to).value;
    TransferLater(l, item.token, item.amount, item.from, item.to, next);
    if item.hook.Some? { RunLater(admin, next, item.hook.value.calls); }
  }

  /** Over every run of calls, hooks that call back included, each minted token has exactly one
      owner. */
  lemma {:induction false} RunLater(admin: Address, l: Ledger, calls: seq<Call<Action>>)
    ensures Later(l, Run(admin, l, calls))
    decreases calls
  {
    if calls != [] {
      match Exec(admin, l, calls[0])
      case None => RunLater(admin, l, calls[1..]);
      case Some(next) =>
        ExecLater(admin, l, calls[0]);
        RunLater(admin, next, calls[1..]);
    }
  }

  /** In every state the contract can reach, each minted token has exactly one owner. */
  lemma Reachable(admin: Address, calls: seq<Call<Action>>)
    ensures OneOwner(Run(admin, Ledger(map[], {}), calls))
  {
    RunLater(admin, Ledger(map[], {}), calls);
  }

  // ---------------------------------------------------------------- who can give a token away

  ghost function Controllers(l: Ledger, a: Address): set<Address> { {a} + StateOf(l, a).operators }

  ghost predicate Kept(l: Ledger, m: Ledger, a: Address) {
    StateOf(l, a).owned <= StateOf(m, a).owned && StateOf(m, a).operators == StateOf(l, a).operators
  }

  lemma {:induction false} MintAllKept(l: Ledger, owner: Address, tokens: seq<TokenId>, a: Address)
    requires MintAll(l, owner, tokens).Some?
    ensures Kept(l, MintAll(l, owner, tokens).value, a)
    decreases |tokens|
  {
    if tokens != [] { MintAllKept(MintOne(l, tokens[0], owner).value, owner, tokens[1..], a); }
  }

  lemma {:induction false} SetOperatorsKept(l: Ledger, owner: Address, updates: seq<OperatorUpdate>, a: Address)
    requires owner != a
    ensures Kept(l, SetOperators(l, owner, updates), a)
    decreases |updates|
  {
    if updates != [] { SetOperatorsKept(SetOperator(l, owner, updates[0]), owner, updates[1..], a); }
  }

  lemma {:induction false} ExecKept(admin: Address, l: Ledger, call: Call<Action>, a: Address)
    requires Exec(admin, l, call).Some? && SilentCall(call, Controllers(l, a))
    ensures Kept(l, Exec(admin, l, call).value, a)
    decreases call
  {
    match call
    case Transfers(sender, items) => TransferAllKept(admin, l, sender, items, a);
    case UpdateOperators(sender, updates) => SetOperatorsKept(l, sender, updates, a);
    case Admin(sender, action) => MintAllKept(l, action.owner, action.tokens, a);
  }

  lemma {:induction false} TransferAllKept(admin: Address, l: Ledger, sender: Address, items: seq<Item<Action>>,
                                           a: Address)
    requires TransferAll(admin, l, sender, items).Some?
    requires sender !in Controllers(l, a) && SilentItems(items, Controllers(l, a))
    ensures Kept(l, TransferAll(admin, l, sender, items).value, a)
    decreases items
  {
    if items != [] {
      TransferItemKept(admin, l, sender, items[0], a);
      TransferAllKept(admin, TransferItem(admin, l, sender, items[0]).value, sender, items[1..], a);
    }
  }

  lemma {:induction false} TransferItemKept(admin: Address, l: Ledger, sender: Address, item: Item<Action>, a: Address)
    requires TransferItem(admin, l, sender, item).Some?
    requires sender !in Controllers(l, a) && SilentItem(item, Controllers(l, a))
    ensures Kept(l, TransferItem(admin, l, sender, item).value, a)
    decreases item
  {
    var next := TransferOne(l, item.token, item.amount, item.from, item.to).value;
    assert Kept(l, next, a);
    if item.hook.Some? { RunKept(admin, next, item.hook.value.calls, a); }
  }

  /** An address loses no token in a run, hooks that call back included, unless it or one of its
      operators sends a call. */
  lemma {:induction false} RunKept(admin: Address, l: Ledger, calls: seq<Call<Action>>, a: Address)
    requires Silent(calls, Controllers(l, a))
    ensures Kept(l, Run(admin, l, calls), a)
    decreases calls
  {
    if calls != [] {
      assert SilentCall(calls[0], Controllers(l, a));
      match Exec(admin, l, calls[0])
      case None => RunKept(admin, l, calls[1..], a);
      case Some(next) =>
        ExecKept(admin, l, calls[0], a);
        RunKept(admin, next, calls[1..], a);
    }
  }
}
