/** What the calls of the NFT contract come to: operators, who may transfer, what is minted, and hooks
    as calls in a row. */
module NftCalls {
  import opened Common
  import opened Cis2Calls
  import opened Cis2Nft

  // ---------------------------------------------------------------- operators

  /** All that an update of operators leaves alone. */
  ghost predicate OthersStay(l: Ledger, n: Ledger, owner: Address) {
    && n.all == l.all
    && (forall a :: StateOf(n, a).owned == StateOf(l, a).owned)
    && (forall a :: a != owner ==> StateOf(n, a).operators == StateOf(l, a).operators)
  }

  /** After a call of `updateOperator`, an address is an operator of the sender exactly if the last update
      that names it adds it, or none names it and it was one before. Nothing else changes. */
  lemma {:induction false} OperatorsUpdated(l: Ledger, owner: Address, updates: seq<OperatorUpdate>)
    ensures var n := SetOperators(l, owner, updates);
            && (forall x :: IsOperator(n, x, owner) <==> Enabled(updates, x, IsOperator(l, x, owner)))
            && OthersStay(l, n, owner)
    decreases |updates|
  {
    if updates != [] {
      var u, next := updates[0], SetOperator(l, owner, updates[0]);
      OperatorsUpdated(next, owner, updates[1..]);
      assert forall x :: IsOperator(next, x, owner) <==> if u.operator == x then u.add else IsOperator(l, x, owner);
      forall x
        ensures IsOperator(SetOperators(l, owner, updates), x, owner) <==> Enabled(updates, x, IsOperator(l, x, owner))
      {
        EnabledFirst(updates, x, IsOperator(l, x, owner));
      }
    }
  }

  // ---------------------------------------------------------------- transfers

  /** A transfer of a batch goes through exactly if its sender is the owner or one of the operators at
      that point, the token exists, and is owned if it is moved, and the hook does not fail. The hook
      then runs in the state after the transfer. */
  lemma TransferGoesThrough(admin: Address, l: Ledger, sender: Address, item: Item<Action>)
    ensures var r := TransferItem(admin, l, sender, item);
            && (r.Some? <==>
                  && (item.from == sender || IsOperator(l, sender, item.from))
                  && item.token in l.all
                  && (item.amount == 0 || (item.amount == 1 && Owns(l, item.from, item.token)))
                  && (item.hook.Some? ==> item.hook.value.ok))
            && (r.Some? ==>
                  && TransferOne(l, item.token, item.amount, item.from, item.to).Some?
                  && var moved := TransferOne(l, item.token, item.amount, item.from, item.to).value;
                     r.value == if item.hook.Some? then Run(admin, moved, item.hook.value.calls) else moved)
  {
  }

  /** Who was removed as an operator, and is not the owner, can no longer transfer. */
  lemma RemovedCannotTransfer(admin: Address, l: Ledger, owner: Address, updates: seq<OperatorUpdate>, i: nat,
                              item: Item<Action>)
    requires i < |updates| && LastNames(updates, i, updates[i].operator) && !updates[i].add
    requires item.from == owner && updates[i].operator != owner
    ensures TransferItem(admin, SetOperators(l, owner, updates), updates[i].operator, item).None?
  {
    OperatorsUpdated(l, owner, updates);
    var x := updates[i].operator;
    forall j: nat | LastNames(updates, j, x) ensures j == i { OneLast(updates, i, j, x); }
    TransferGoesThrough(admin, SetOperators(l, owner, updates), x, item);
  }

  // ---------------------------------------------------------------- minting

  ghost predicate AllNew(l: Ledger, tokens: seq<TokenId>) {
    && (forall i :: 0 <= i < |tokens| ==> tokens[i] !in l.all)
    && (forall i, j :: 0 <= i < j < |tokens| ==> tokens[i] != tokens[j])
  }

  lemma AllNewFirst(l: Ledger, tokens: seq<TokenId>, owner: Address)
    requires tokens != [] && tokens[0] !in l.all
    ensures AllNew(l, tokens) <==> AllNew(MintOne(l, tokens[0], owner).value, tokens[1..])
  {
    var n, more := MintOne(l, tokens[0], owner).value, tokens[1..];
    if AllNew(n, more) {
      forall i | 0 < i < |tokens| ensures tokens[i] !in n.all { assert tokens[i] == more[i - 1]; }
      forall i, j | 0 < i < j < |tokens| ensures tokens[i] != tokens[j] {
        assert tokens[i] == more[i - 1] && tokens[j] == more[j - 1];
      }
    }
  }

  /** Minting succeeds exactly for tokens that are all new and different; they are then all owned by the
      owner named, and nothing else changes. */
  lemma {:induction false} TokensMinted(l: Ledger, owner: Address, tokens: seq<TokenId>)
    ensures var r := MintAll(l, owner, tokens);
            && (r.Some? <==> AllNew(l, tokens))
            && (r.Some? ==>
                  && (forall t :: t in r.value.all <==> t in l.all || t in tokens)
                  && (forall a, t :: Owns(r.value, a, t) <==> Owns(l, a, t) || (a == owner && t in tokens))
                  && (forall a :: StateOf(r.value, a).operators == StateOf(l, a).operators))
    decreases |tokens|
  {
    if tokens != [] && tokens[0] !in l.all {
      var next := MintOne(l, tokens[0], owner).value;
      TokensMinted(next, owner, tokens[1..]);
      AllNewFirst(l, tokens, owner);
      assert forall t :: t in tokens <==> t == tokens[0] || t in tokens[1..];
    }
  }

  /** Only the owner of the contract mints. */
  lemma OnlyAdminMints(admin: Address, l: Ledger, sender: Address, action: Action)
    ensures Exec(admin, l, Admin(sender, action)) ==
            if sender == admin then MintAll(l, action.owner, action.tokens) else None
  {
  }

  // ---------------------------------------------------------------- hooks as calls in a row

  /** The calls that took effect, one transfer each and without hooks, in the order in which they did:
      those of a hook come right after its transfer. */
  ghost function InOrder(admin: Address, l: Ledger, calls: seq<Call<Action>>): seq<Call<Action>>
    decreases calls
  {
    if calls == [] then []
    else
      match Exec(admin, l, calls[0])
      case None => InOrder(admin, l, calls[1..])
      case Some(next) => CallInOrder(admin, l, calls[0]) + InOrder(admin, next, calls[1..])
  }

  ghost function CallInOrder(admin: Address, l: Ledger, call: Call<Action>): seq<Call<Action>>
    decreases call
  {
    match call
    case Transfers(sender, items) => ItemsInOrder(admin, l, sender, items)
    case _ => [call]
  }

  ghost function ItemsInOrder(admin: Address, l: Ledger, sender: Address, items: seq<Item<Action>>): seq<Call<Action>>
    decreases items
  {
    if items == [] then []
    else
      match TransferItem(admin, l, sender, items[0])
      case None => []
      case Some(next) => ItemInOrder(admin, l, sender, items[0]) + ItemsInOrder(admin, next, sender, items[1..])
  }

  ghost function ItemInOrder(admin: Address, l: Ledger, sender: Address, item: Item<Action>): seq<Call<Action>>
    decreases item
  {
    var alone := Transfers(sender, [item.(hook := None)]);
    match TransferOne(l, item.token, item.amount, item.from, item.to)
    case None => [alone]
    case Some(moved) => [alone] + if item.hook.Some? then InOrder(admin, moved, item.hook.value.calls) else []
  }

  /** Each call succeeds when it is its turn, and none has a hook. */
  ghost predicate AllSucceed(admin: Address, l: Ledger, calls: seq<Call<Action>>)
    decreases |calls|
  {
    calls == [] || (&& Hookless(calls[0]) && Exec(admin, l, calls[0]).Some?
                    && AllSucceed(admin, Exec(admin, l, calls[0]).value, calls[1..]))
  }

  /** The calls all succeed, and end in `n`. */
  ghost predicate LeadTo(admin: Address, l: Ledger, calls: seq<Call<Action>>, n: Ledger) {
    AllSucceed(admin, l, calls) && Run(admin, l, calls) == n
  }

  lemma {:induction false} LeadOn(admin: Address, l: Ledger, a: seq<Call<Action>>, m: Ledger, b: seq<Call<Action>>,
                                  n: Ledger)
    requires LeadTo(admin, l, a, m) && LeadTo(admin, m, b, n)
    ensures LeadTo(admin, l, a + b, n)
    decreases |a|
  {
    if a == [] {
      assert a + b == b;
    } else {
      LeadOn(admin, Exec(admin, l, a[0]).value, a[1..], m, b, n);
      assert (a + b)[1..] == a[1..] + b;
    }
  }

  lemma OneLeadsTo(admin: Address, l: Ledger, call: Call<Action>, n: Ledger)
    requires Hookless(call) && Exec(admin, l, call) == Some(n)
    ensures LeadTo(admin, l, [call], n)
  {
    assert [call][1..] == [];
    assert Run(admin, n, []) == n;
  }

  lemma AloneLeadsTo(admin: Address, l: Ledger, sender: Address, item: Item<Action>, n: Ledger)
    requires item.hook.None? && TransferItem(admin, l, sender, item) == Some(n)
    ensures LeadTo(admin, l, [Transfers(sender, [item])], n)
  {
    assert [item][1..] == [];
    assert TransferAll(admin, n, sender, []) == Some(n);
    OneLeadsTo(admin, l, Transfers(sender, [item]), n);
  }

  lemma {:induction false} ItemLeadsTo(admin: Address, l: Ledger, sender: Address, item: Item<Action>, n: Ledger)
    requires TransferItem(admin, l, sender, item) == Some(n)
    ensures LeadTo(admin, l, ItemInOrder(admin, l, sender, item), n)
    decreases item
  {
    var alone := item.(hook := None);
    var moved := TransferOne(l, item.token, item.amount, item.from, item.to).value;
    AloneLeadsTo(admin, l, sender, alone, moved);
    if item.hook.Some? {
      HooksAreCalls(admin, moved, item.hook.value.calls);
      LeadOn(admin, l, [Transfers(sender, [alone])], moved, InOrder(admin, moved, item.hook.value.calls), n);
    } else {
      assert ItemInOrder(admin, l, sender, item) == [Transfers(sender, [alone])];
    }
  }

  lemma {:induction false} ItemsLeadTo(admin: Address, l: Ledger, sender: Address, items: seq<Item<Action>>, n: Ledger)
    requires TransferAll(admin, l, sender, items) == Some(n)
    ensures LeadTo(admin, l, ItemsInOrder(admin, l, sender, items), n)
    decreases items
  {
    if items != [] {
      var next := TransferItem(admin, l, sender, items[0]).value;
      ItemLeadsTo(admin, l, sender, items[0], next);
      ItemsLeadTo(admin, next, sender, items[1..], n);
      LeadOn(admin, l, ItemInOrder(admin, l, sender, items[0]), next, ItemsInOrder(admin, next, sender, items[1..]), n);
    }
  }

  lemma {:induction false} CallLeadsTo(admin: Address, l: Ledger, call: Call<Action>, n: Ledger)
    requires Exec(admin, l, call) == Some(n)
    ensures LeadTo(admin, l, CallInOrder(admin, l, call), n)
    decreases call
  {
    if call.Transfers? {
      ItemsLeadTo(admin, l, call.sender, call.items, n);
    } else {
      OneLeadsTo(admin, l, call, n);
    }
  }

  /** A run with hooks that call back into the contract, however deep, is a row of calls without hooks
      that all succeed, with the calls of each hook between the transfers of its batch. */
  lemma {:induction false} HooksAreCalls(admin: Address, l: Ledger, calls: seq<Call<Action>>)
    ensures LeadTo(admin, l, InOrder(admin, l, calls), Run(admin, l, calls))
    decreases calls
  {
    if calls != [] {
      match Exec(admin, l, calls[0])
      case None => HooksAreCalls(admin, l, calls[1..]);
      case Some(next) =>
        CallLeadsTo(admin, l, calls[0], next);
        HooksAreCalls(admin, next, calls[1..]);
        LeadOn(admin, l, CallInOrder(admin, l, calls[0]), next, InOrder(admin, next, calls[1..]),
               Run(admin, l, calls));
    }
  }
}
