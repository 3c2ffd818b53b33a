/** What every run of the dynamic NFT contract keeps, hooks that call back included. */
module DynamicNftProofs {
  import opened Common
  import opened Sums
  import opened Cis2Calls
  import opened DynamicNft

  type States = map<Address, AddressState>

  ghost function Held(s: States, t: TokenId): map<Address, int> { map a | a in s :: BalanceIn(s[a], t) }

  /** The balances of each token add up to what was minted of it. */
  ghost predicate SumsOk(l: Ledger) { forall t :: Sum(Held(l.state, t)) == MintedOf(l, t) }

  /** Each metadata counter is inside its list. */
  ghost predicate MetadataOk(l: Ledger) { forall t :: t in l.tokens ==> l.tokens[t].counter < |l.tokens[t].list| }

  ghost predicate Inv(l: Ledger) { SumsOk(l) && MetadataOk(l) }

  /** The supply of every token fits 64 bits. */
  ghost predicate Small(l: Ledger) { forall t :: t in l.minted ==> l.minted[t] < TWO_64 }

  /** Nothing minted is forgotten, and the invariant is kept while the supply fits. */
  ghost predicate Later(l: Ledger, m: Ledger) {
    && (forall t :: MintedOf(l, t) <= MintedOf(m, t))
    && (Inv(l) && Small(m) ==> Inv(m))
  }

  lemma SmallBefore(l: Ledger, m: Ledger)
    requires Later(l, m) && Small(m)
    ensures Small(l)
  {
    forall t | t in l.minted ensures l.minted[t] < TWO_64 { assert MintedOf(l, t) <= MintedOf(m, t); }
  }

  lemma LaterTransitive(l: Ledger, m: Ledger, n: Ledger)
    requires Later(l, m) && Later(m, n)
    ensures Later(l, n)
  {
    if Small(n) { SmallBefore(m, n); }
    forall t ensures MintedOf(l, t) <= MintedOf(n, t) { assert MintedOf(l, t) <= MintedOf(m, t); }
  }

  // ---------------------------------------------------------------- sums

  /** Changing the balance of one address in one token. */
  lemma SetBalanceSum(l: Ledger, a: Address, t: TokenId, amount: nat, u: TokenId)
    ensures Sum(Held(WithBalance(l, a, t, amount).state, u)) ==
            Sum(Held(l.state, u)) + (if u == t then amount - BalanceOf(l, a, t) else 0)
  {
    var s := StateOf(l, a);
    StateSum(l.state, a, s.(balances := s.balances[t := amount]), u);
  }

  /** Changing the state of one address. */
  lemma StateSum(states: States, a: Address, s: AddressState, u: TokenId)
    ensures Sum(Held(states[a := s], u)) ==
            Sum(Held(states, u)) + BalanceIn(s, u) - (if a in states then BalanceIn(states[a], u) else 0)
  {
    SumUpdate(Held(states, u), a, BalanceIn(s, u));
    assert Held(states[a := s], u) == Held(states, u)[a := BalanceIn(s, u)];
  }

  lemma BalanceInSum(l: Ledger, a: Address, t: TokenId)
    ensures BalanceOf(l, a, t) <= Sum(Held(l.state, t))
  {
    SumBounds(Held(l.state, t));
    assert a in l.state ==> a in Held(l.state, t);
  }

  lemma CreditSum(l: Ledger, a: Address, t: TokenId, amount: nat, u: TokenId, n: Ledger)
    requires BalanceOf(l, a, t) + amount < TWO_64 && n == Credit(l, a, t, amount)
    ensures Sum(Held(n.state, u)) == Sum(Held(l.state, u)) + (if u == t then amount else 0)
  {
    var balance := BalanceOf(l, a, t) + amount;
    assert n == WithBalance(l, a, t, balance);
    SetBalanceSum(l, a, t, balance, u);
  }

  lemma TransferFits(l: Ledger, t: TokenId, amount: nat, from: Address, to: Address, m: Ledger)
    requires SumsOk(l) && Small(l) && BalanceOf(l, from, t) >= amount
    requires m == WithBalance(l, from, t, BalanceOf(l, from, t) - amount)
    ensures BalanceOf(m, to, t) + amount < TWO_64
  {
    SetBalanceSum(l, from, t, BalanceOf(l, from, t) - amount, t);
    BalanceInSum(m, to, t);
    assert Sum(Held(l.state, t)) == MintedOf(l, t);
  }

  /** Paying and receiving cancel out in every sum. */
  lemma TransferSum(l: Ledger, t: TokenId, amount: nat, from: Address, to: Address, left: nat, m: Ledger, n: Ledger,
                    u: TokenId)
    requires left + amount == BalanceOf(l, from, t) && m == WithBalance(l, from, t, left)
    requires BalanceOf(m, to, t) + amount < TWO_64 && n == Credit(m, to, t, amount)
    ensures Sum(Held(n.state, u)) == Sum(Held(l.state, u))
  {
    SetBalanceSum(l, from, t, left, u);
    CreditSum(m, to, t, amount, u, n);
  }

  lemma TransferSums(l: Ledger, t: TokenId, amount: nat, from: Address, to: Address, n: Ledger)
    requires SumsOk(l) && Small(l) && amount > 0 && TransferOne(l, t, amount, from, to) == Some(n)
    ensures forall u :: Sum(Held(n.state, u)) == Sum(Held(l.state, u))
    ensures n.tokens == l.tokens && n.minted == l.minted
  {
    var left := BalanceOf(l, from, t) - amount;
    var m := WithBalance(l, from, t, left);
    TransferFits(l, t, amount, from, to, m);
    forall u ensures Sum(Held(n.state, u)) == Sum(Held(l.state, u)) {
      TransferSum(l, t, amount, from, to, left, m, n, u);
    }
  }

  /** A transfer moves an amount and leaves every sum alone. */
  lemma TransferLater(l: Ledger, t: TokenId, amount: nat, from: Address, to: Address, n: Ledger)
    requires TransferOne(l, t, amount, from, to) == Some(n)
    ensures Later(l, n)
  {
    if amount > 0 && Inv(l) && Small(n) {
      TransferSums(l, t, amount, from, to, n);
      SameSumsLater(l, n);
    }
  }

  lemma MintSum(l: Ledger, p: MintParam, owner: Address, m: Ledger, n: Ledger, u: TokenId)
    requires SumsOk(l) && m == Announced(l, p) && n == Credit(m, owner, p.token, p.amount)
    requires MintedOf(l, p.token) + p.amount < TWO_64
    ensures Sum(Held(n.state, u)) == MintedOf(l, u) + (if u == p.token then p.amount else 0)
  {
    assert Sum(Held(l.state, u)) == MintedOf(l, u);
    MintFits(l, p, owner, m);
    CreditSum(m, owner, p.token, p.amount, u, n);
  }

  lemma MintLater(l: Ledger, p: MintParam, owner: Address, m: Ledger, n: Ledger)
    requires p.urls != [] && m == Announced(l, p) && n == Credit(m, owner, p.token, p.amount)
    ensures Later(l, n)
  {
    assert n.tokens == m.tokens && n.minted == m.minted;
    if Inv(l) && Small(n) {
      assert n.minted[p.token] < TWO_64;
      forall u ensures Sum(Held(n.state, u)) == MintedOf(n, u) { MintSum(l, p, owner, m, n, u); }
    }
  }

  lemma SameSumsLater(l: Ledger, m: Ledger)
    requires m.minted == l.minted && forall u :: Sum(Held(m.state, u)) == Sum(Held(l.state, u))
    requires MetadataOk(l) ==> MetadataOk(m)
    ensures Later(l, m)
  {
    if Inv(l) {
      forall u ensures Sum(Held(m.state, u)) == MintedOf(m, u) { assert Sum(Held(l.state, u)) == MintedOf(l, u); }
    }
  }

  lemma OperatorLater(l: Ledger, owner: Address, u: OperatorUpdate)
    ensures Later(l, SetOperator(l, owner, u))
  {
    var m := SetOperator(l, owner, u);
    forall t ensures Sum(Held(m.state, t)) == Sum(Held(l.state, t)) {
      if owner in m.state { StateSum(l.state, owner, m.state[owner], t); }
    }
    SameSumsLater(l, m);
  }

  // ---------------------------------------------------------------- entrypoints

  lemma {:induction false} MintAllLater(l: Ledger, owner: Address, tokens: seq<MintParam>)
    requires MintAll(l, owner, tokens).Some?
    ensures Later(l, MintAll(l, owner, tokens).value)
    decreases |tokens|
  {
    if tokens != [] {
      var next := MintOne(l, tokens[0], owner);
      MintLater(l, tokens[0], owner, Announced(l, tokens[0]), next);
      MintAllLater(next, owner, tokens[1..]);
      LaterTransitive(l, next, MintAll(l, owner, tokens).value);
    }
  }

  lemma AddUrlLater(l: Ledger, t: TokenId, url: Url)
    requires AddUrl(l, t, url).Some?
    ensures Later(l, AddUrl(l, t, url).value)
  {
    var m := AddUrl(l, t, url).value;
    SameSumsLater(l, m);
  }

  lemma {:induction false} AddAllLater(l: Ledger, additions: seq<(TokenId, Url)>)
    requires AddAll(l, additions).Some?
    ensures Later(l, AddAll(l, additions).value)
    decreases |additions|
  {
    if additions != [] {
      var next := AddUrl(l, additions[0].0, additions[0].1).value;
      AddUrlLater(l, additions[0].0, additions[0].1);
      AddAllLater(next, additions[1..]);
      LaterTransitive(l, next, AddAll(l, additions).value);
    }
  }

  lemma {:induction false} SetOperatorsLater(l: Ledger, owner: Address, updates: seq<OperatorUpdate>)
    ensures Later(l, SetOperators(l, owner, updates))
    decreases |updates|
  {
    if updates != [] {
      var next := SetOperator(l, owner, updates[0]);
      OperatorLater(l, owner, updates[0]);
      SetOperatorsLater(next, owner, updates[1..]);
      LaterTransitive(l, next, SetOperators(l, owner, updates));
    }
  }

  lemma ActLater(l: Ledger, action: Action)
    requires Act(l, action).Some?
    ensures Later(l, Act(l, action).value)
  {
    match action
    case Mint(owner, tokens) => MintAllLater(l, owner, tokens);
    case AddMetadata(additions) => AddAllLater(l, additions);
    case Upgrade(t) =>
      var m := UpgradeAndLog(l, t).value;
      SameSumsLater(l, m);
  }

  lemma {:induction false} ExecLater(admin: Address, l: Ledger, call: Call<Action>)
    requires Exec(admin, l, call).Some?
    ensures Later(l, Exec(admin, l, call).value)
    decreases call
  {
    match call
    case Transfers(sender, items) => TransferAllLater(admin, l, sender, items);
    case UpdateOperators(sender, updates) => SetOperatorsLater(l, sender, updates);
    case Admin(sender, action) => ActLater(l, action);
  }

  lemma {:induction false} TransferAllLater(admin: Address, l: Ledger, sender: Address, items: seq<Item<Action>>)
    requires TransferAll(admin, l, sender, items).Some?
    ensures Later(l, TransferAll(admin, l, sender, items).value)
    decreases items
  {
    if items != [] {
      var next := TransferItem(admin, l, sender, items[0]).value;
      TransferItemLater(admin, l, sender, items[0]);
      TransferAllLater(admin, next, sender, items[1..]);
      LaterTransitive(l, next, TransferAll(admin, l, sender, items).value);
    }
  }

  lemma {:induction false} TransferItemLater(admin: Address, l: Ledger, sender: Address, item: Item<Action>)
    requires TransferItem(admin, l, sender, item).Some?
    ensures Later(l, TransferItem(admin, l, sender, item).value)
    decreases item
  {
    var next := TransferOne(l, item.token, item.amount, item.from, item.to).value;
    TransferLater(l, item.token, item.amount, item.from, item.to, next);
    if item.hook.Some? {
      RunLater(admin, next, item.hook.value.calls);
      LaterTransitive(l, next, TransferItem(admin, l, sender, item).value);
    }
  }

  /** Over every run of calls, hooks that call back included: the balances of each token add up to
      the amount minted, and each counter stays inside its list, as long as the supply fits. */
  lemma {:induction false} RunLater(admin: Address, l: Ledger, calls: seq<Call<Action>>)
    ensures Later(l, Run(admin, l, calls))
    decreases calls
  {
    if calls != [] {
      match Exec(admin, l, calls[0])
      case None => RunLater(admin, l, calls[1..]);
      case Some(next) =>
        ExecLater(admin, l, calls[0]);
        RunLater(admin, next, calls[1..]);
        LaterTransitive(l, next, Run(admin, l, calls));
    }
  }

  /** A new contract. */
  const NEW: Ledger := Ledger(map[], map[], map[])

  lemma InitialInv()
    ensures Inv(NEW)
  {
    forall t ensures Sum(Held(map[], t)) == 0 { SumZero(Held(map[], t)); }
  }

  /** In every state the contract can reach while the supply fits 64 bits, the balances of each
      token add up to the amount minted, and each counter is inside its list. */
  lemma Reachable(admin: Address, calls: seq<Call<Action>>)
    requires Small(Run(admin, NEW, calls))
    ensures Inv(Run(admin, NEW, calls))
  {
    InitialInv();
    RunLater(admin, NEW, calls);
  }

  // ---------------------------------------------------------------- who can spend

  /** A transfer takes the amount from one address and gives it to the other, and changes no other
      balance and no operator. */
  lemma TransferMoves(l: Ledger, t: TokenId, amount: nat, from: Address, to: Address, n: Ledger)
    requires Inv(l) && Small(l) && TransferOne(l, t, amount, from, to) == Some(n)
    ensures forall a, u :: BalanceOf(n, a, u) == BalanceOf(l, a, u)
                - (if a == from && u == t then amount else 0) + (if a == to && u == t then amount else 0)
    ensures forall a :: StateOf(n, a).operators == StateOf(l, a).operators
  {
    if amount > 0 {
      var m := WithBalance(l, from, t, BalanceOf(l, from, t) - amount);
      TransferFits(l, t, amount, from, to, m);
      assert n == WithBalance(m, to, t, BalanceOf(m, to, t) + amount);
    }
  }

  ghost function Controllers(l: Ledger, a: Address): set<Address> { {a} + StateOf(l, a).operators }

  /** The address has lost nothing, and has the operators it had. */
  ghost predicate Kept(l: Ledger, m: Ledger, a: Address) {
    && (forall t :: BalanceOf(l, a, t) <= BalanceOf(m, a, t))
    && StateOf(m, a).operators == StateOf(l, a).operators
  }

  lemma KeptTransitive(l: Ledger, m: Ledger, n: Ledger, a: Address)
    requires Kept(l, m, a) && Kept(m, n, a)
    ensures Kept(l, n, a)
  {
    forall t ensures BalanceOf(l, a, t) <= BalanceOf(n, a, t) { assert BalanceOf(l, a, t) <= BalanceOf(m, a, t); }
  }

  lemma CreditKept(l: Ledger, owner: Address, t: TokenId, amount: nat, n: Ledger, a: Address)
    requires BalanceOf(l, owner, t) + amount < TWO_64 && n == Credit(l, owner, t, amount)
    ensures Kept(l, n, a)
  {
    assert n == WithBalance(l, owner, t, BalanceOf(l, owner, t) + amount);
  }

  lemma MintFits(l: Ledger, p: MintParam, owner: Address, m: Ledger)
    requires SumsOk(l) && m == Announced(l, p) && MintedOf(l, p.token) + p.amount < TWO_64
    ensures BalanceOf(m, owner, p.token) + p.amount < TWO_64
  {
    assert Sum(Held(l.state, p.token)) == MintedOf(l, p.token);
    BalanceInSum(m, owner, p.token);
  }

  lemma MintKept(l: Ledger, p: MintParam, owner: Address, m: Ledger, n: Ledger, a: Address)
    requires SumsOk(l) && m == Announced(l, p) && n == Credit(m, owner, p.token, p.amount)
    requires MintedOf(l, p.token) + p.amount < TWO_64
    ensures Kept(l, n, a)
  {
    MintFits(l, p, owner, m);
    CreditKept(m, owner, p.token, p.amount, n, a);
    assert StateOf(m, a) == StateOf(l, a);
    assert Kept(l, m, a);
    KeptTransitive(l, m, n, a);
  }

  lemma {:induction false} MintAllKept(l: Ledger, owner: Address, tokens: seq<MintParam>, a: Address)
    requires Inv(l) && MintAll(l, owner, tokens).Some? && Small(MintAll(l, owner, tokens).value)
    ensures Kept(l, MintAll(l, owner, tokens).value, a)
    decreases |tokens|
  {
    if tokens != [] {
      var next := MintOne(l, tokens[0], owner);
      MintLater(l, tokens[0], owner, Announced(l, tokens[0]), next);
      MintAllLater(next, owner, tokens[1..]);
      SmallBefore(next, MintAll(l, owner, tokens).value);
      assert next.minted[tokens[0].token] < TWO_64;
      MintKept(l, tokens[0], owner, Announced(l, tokens[0]), next, a);
      MintAllKept(next, owner, tokens[1..], a);
      KeptTransitive(l, next, MintAll(l, owner, tokens).value, a);
    }
  }

  lemma {:induction false} AddAllState(l: Ledger, additions: seq<(TokenId, Url)>)
    requires AddAll(l, additions).Some?
    ensures AddAll(l, additions).value.state == l.state
    decreases |additions|
  {
    if additions != [] { AddAllState(AddUrl(l, additions[0].0, additions[0].1).value, additions[1..]); }
  }

  lemma {:induction false} SetOperatorsKept(l: Ledger, owner: Address, updates: seq<OperatorUpdate>, a: Address)
    requires owner != a
    ensures Kept(l, SetOperators(l, owner, updates), a)
    decreases |updates|
  {
    if updates != [] {
      var next := SetOperator(l, owner, updates[0]);
      SetOperatorsKept(next, owner, updates[1..], a);
      KeptTransitive(l, next, SetOperators(l, owner, updates), a);
    }
  }

  lemma {:induction false} ExecKept(admin: Address, l: Ledger, call: Call<Action>, a: Address)
    requires Inv(l) && Exec(admin, l, call).Some? && Small(Exec(admin, l, call).value)
    requires SilentCall(call, Controllers(l, a))
    ensures Kept(l, Exec(admin, l, call).value, a)
    decreases call
  {
    match call
    case Transfers(sender, items) => TransferAllKept(admin, l, sender, items, a);
    case UpdateOperators(sender, updates) => SetOperatorsKept(l, sender, updates, a);
    case Admin(sender, action) =>
      match action
      case Mint(owner, tokens) => MintAllKept(l, owner, tokens, a);
      case AddMetadata(additions) => AddAllState(l, additions);
      case Upgrade(t) =>
  }

  lemma {:induction false} TransferAllKept(admin: Address, l: Ledger, sender: Address, items: seq<Item<Action>>,
                                           a: Address)
    requires Inv(l) && TransferAll(admin, l, sender, items).Some? && Small(TransferAll(admin, l, sender, items).value)
    requires sender !in Controllers(l, a) && SilentItems(items, Controllers(l, a))
    ensures Kept(l, TransferAll(admin, l, sender, items).value, a)
    decreases items
  {
    if items != [] {
      var next := TransferItem(admin, l, sender, items[0]).value;
      TransferItemLater(admin, l, sender, items[0]);
      TransferAllLater(admin, next, sender, items[1..]);
      SmallBefore(next, TransferAll(admin, l, sender, items).value);
      TransferItemKept(admin, l, sender, items[0], a);
      TransferAllKept(admin, next, sender, items[1..], a);
      KeptTransitive(l, next, TransferAll(admin, l, sender, items).value, a);
    }
  }

  lemma {:induction false} TransferItemKept(admin: Address, l: Ledger, sender: Address, item: Item<Action>, a: Address)
    requires Inv(l) && TransferItem(admin, l, sender, item).Some? && Small(TransferItem(admin, l, sender, item).value)
    requires sender !in Controllers(l, a) && SilentItem(item, Controllers(l, a))
    ensures Kept(l, TransferItem(admin, l, sender, item).value, a)
    decreases item
  {
    var next := TransferOne(l, item.token, item.amount, item.from, item.to).value;
    TransferLater(l, item.token, item.amount, item.from, item.to, next);
    if item.hook.Some? {
      RunLater(admin, next, item.hook.value.calls);
      SmallBefore(next, TransferItem(admin, l, sender, item).value);
    }
    SmallBefore(l, next);
    TransferMoves(l, item.token, item.amount, item.from, item.to, next);
    if item.hook.Some? {
      RunKept(admin, next, item.hook.value.calls, a);
      KeptTransitive(l, next, TransferItem(admin, l, sender, item).value, a);
    }
  }

  /** An address loses no tokens in a run, hooks that call back included, unless it or one of its
      operators sends a call. */
  lemma {:induction false} RunKept(admin: Address, l: Ledger, calls: seq<Call<Action>>, a: Address)
    requires Inv(l) && Small(Run(admin, l, calls)) && Silent(calls, Controllers(l, a))
    ensures Kept(l, Run(admin, l, calls), a)
    decreases calls
  {
    if calls != [] {
      assert SilentCall(calls[0], Controllers(l, a));
      match Exec(admin, l, calls[0])
      case None => RunKept(admin, l, calls[1..], a);
      case Some(next) =>
        ExecLater(admin, l, calls[0]);
        RunLater(admin, next, calls[1..]);
        SmallBefore(next, Run(admin, l, calls));
        ExecKept(admin, l, calls[0], a);
        RunKept(admin, next, calls[1..], a);
        KeptTransitive(l, next, Run(admin, l, calls), a);
    }
  }
}
