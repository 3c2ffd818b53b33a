/** What the calls of the dynamic NFT contract come to: operators, who may transfer, what the owner's
    actions do, and hooks as calls in a row. */
module DynamicNftCalls {
  import opened Common
  import opened Sums
  import opened Cis2Calls
  import opened DynamicNft
  import opened DynamicNftProofs

  // ---------------------------------------------------------------- operators

  /** All that an update of operators leaves alone. */
  ghost predicate OthersStay(l: Ledger, n: Ledger, owner: Address) {
    && n.tokens == l.tokens && n.minted == l.minted
    && (forall a, t :: BalanceOf(n, a, t) == BalanceOf(l, a, t))
    && (forall a :: a != owner ==> StateOf(n, a).operators == StateOf(l, a).operators)
  }

  /** After a call of `updateOperator`, an address is an operator of the sender exactly if the last update
      that names it adds it, or none names it and it was one before. Nothing else changes. */
  lemma {:induction false} OperatorsUpdated(l: Ledger, owner: Address, updates: seq<OperatorUpdate>)
    ensures var n := SetOperators(l, owner, updates);
            && (forall x :: IsOperator(n, x, owner) <==> Enabled(updates, x, IsOperator(l, x, owner)))
            && OthersStay(l, n, owner)
    decreases |updates|
  {
    if updates != [] {
      var u, next := updates[0], SetOperator(l, owner, updates[0]);
      OperatorsUpdated(next, owner, updates[1..]);
      assert OthersStay(l, next, owner);
      assert forall x :: IsOperator(next, x, owner) <==> if u.operator == x then u.add else IsOperator(l, x, owner);
      forall x
        ensures IsOperator(SetOperators(l, owner, updates), x, owner) <==> Enabled(updates, x, IsOperator(l, x, owner))
      {
        EnabledFirst(updates, x, IsOperator(l, x, owner));
      }
    }
  }

  // ---------------------------------------------------------------- transfers

  /** A transfer of a batch goes through exactly if its sender is the owner or one of the operators at
      that point, the token can be looked up, the amount is there, and the hook does not fail. The hook
      then runs in the state after the transfer. */
  lemma TransferGoesThrough(admin: Address, l: Ledger, sender: Address, item: Item<Action>)
    ensures var r := TransferItem(admin, l, sender, item);
            && (r.Some? <==>
                  && (item.from == sender || IsOperator(l, sender, item.from))
                  && item.token in l.tokens && l.tokens[item.token].counter < |l.tokens[item.token].list|
                  && item.amount <= BalanceOf(l, item.from, item.token)
                  && (item.hook.Some? ==> item.hook.value.ok))
            && (r.Some? ==>
                  && TransferOne(l, item.token, item.amount, item.from, item.to).Some?
                  && var moved := TransferOne(l, item.token, item.amount, item.from, item.to).value;
                     r.value == if item.hook.Some? then Run(admin, moved, item.hook.value.calls) else moved)
  {
  }

  /** Who was removed as an operator, and is not the owner, can no longer transfer. */
  lemma RemovedCannotTransfer(admin: Address, l: Ledger, owner: Address, updates: seq<OperatorUpdate>, i: nat,
                              item: Item<Action>)
    requires i < |updates| && LastNames(updates, i, updates[i].operator) && !updates[i].add
    requires item.from == owner && updates[i].operator != owner
    ensures TransferItem(admin, SetOperators(l, owner, updates), updates[i].operator, item).None?
  {
    OperatorsUpdated(l, owner, updates);
    var x := updates[i].operator;
    forall j: nat | LastNames(updates, j, x) ensures j == i { OneLast(updates, i, j, x); }
    TransferGoesThrough(admin, SetOperators(l, owner, updates), x, item);
  }

  // ---------------------------------------------------------------- what the owner's actions do

  /** An upgrade succeeds exactly while there is a next entry, and moves the counter on by one; nothing
      else changes. */
  lemma TokenUpgraded(l: Ledger, t: TokenId)
    ensures var r := UpgradeAndLog(l, t);
            && (r.Some? <==> t in l.tokens && l.tokens[t].counter + 1 < |l.tokens[t].list|)
            && (r.Some? ==>
                  && r.value.state == l.state && r.value.minted == l.minted && r.value.tokens.Keys == l.tokens.Keys
                  && (forall u :: u in l.tokens ==>
                        && r.value.tokens[u].list == l.tokens[u].list
                        && r.value.tokens[u].counter == l.tokens[u].counter + (if u == t then 1 else 0)))
  {
  }

  /** How much of a token is minted by a list of parameters. */
  ghost function AmountOf(tokens: seq<MintParam>, t: TokenId): nat {
    if tokens == [] then 0 else (if tokens[0].token == t then tokens[0].amount else 0) + AmountOf(tokens[1..], t)
  }

  /** Parameter `i` is the last one for its token. */
  ghost predicate LastMint(tokens: seq<MintParam>, i: nat) {
    i < |tokens| && forall j :: i < j < |tokens| ==> tokens[j].token != tokens[i].token
  }

  /** Each token has the metadata of the last parameter for it, with the counter at the start, or what it
      had if there is none. */
  ghost predicate MetadataMinted(l: Ledger, tokens: seq<MintParam>, n: Ledger) {
    && (forall i: nat :: LastMint(tokens, i) ==>
          tokens[i].token in n.tokens && n.tokens[tokens[i].token] == Metadata(0, tokens[i].urls))
    && (forall t :: (forall i :: 0 <= i < |tokens| ==> tokens[i].token != t) ==>
          (t in n.tokens <==> t in l.tokens) && (t in l.tokens ==> n.tokens[t] == l.tokens[t]))
  }

  /** The amounts are credited to the owner named, and to nobody else. */
  ghost predicate AmountsMinted(l: Ledger, owner: Address, tokens: seq<MintParam>, n: Ledger) {
    && (forall a, t :: BalanceOf(n, a, t) == BalanceOf(l, a, t) + (if a == owner then AmountOf(tokens, t) else 0))
    && (forall t :: MintedOf(n, t) == MintedOf(l, t) + AmountOf(tokens, t))
    && (forall a :: StateOf(n, a).operators == StateOf(l, a).operators)
  }

  /** Minting succeeds exactly if every token comes with metadata. */
  lemma {:induction false} MintSucceeds(l: Ledger, owner: Address, tokens: seq<MintParam>)
    ensures MintAll(l, owner, tokens).Some? <==> forall i :: 0 <= i < |tokens| ==> tokens[i].urls != []
    decreases |tokens|
  {
    if tokens != [] && tokens[0].urls != [] {
      MintSucceeds(MintOne(l, tokens[0], owner), owner, tokens[1..]);
      assert forall i :: 1 <= i < |tokens| ==> tokens[i] == tokens[1..][i - 1];
    }
  }

  lemma BalanceSet(l: Ledger, a: Address, t: TokenId, amount: nat, n: Ledger)
    requires n == WithBalance(l, a, t, amount)
    ensures forall b, u :: BalanceOf(n, b, u) == if b == a && u == t then amount else BalanceOf(l, b, u)
    ensures forall b :: StateOf(n, b).operators == StateOf(l, b).operators
  {
  }

  lemma AmountOfOne(p: MintParam, t: TokenId)
    ensures AmountOf([p], t) == if p.token == t then p.amount else 0
  {
    assert [p][1..] == [];
  }

  lemma OneMinted(l: Ledger, p: MintParam, owner: Address, n: Ledger)
    requires SumsOk(l) && n == MintOne(l, p, owner) && MintedOf(l, p.token) + p.amount < TWO_64
    ensures true == AmountsMinted(l, owner, [p], n)
    ensures n.tokens == l.tokens[p.token := Metadata(0, p.urls)]
  {
    var m := Announced(l, p);
    var balance := BalanceOf(m, owner, p.token) + p.amount;
    MintFits(l, p, owner, m);
    BalanceSet(m, owner, p.token, balance, n);
    assert m.state == l.state && n.minted == m.minted;
    assert forall a, t :: BalanceOf(m, a, t) == BalanceOf(l, a, t);
    forall t ensures AmountOf([p], t) == if p.token == t then p.amount else 0 { AmountOfOne(p, t); }
  }

  /** While the supply fits 64 bits, minting credits the amounts and replaces the metadata. */
  lemma {:induction false} TokensMinted(l: Ledger, owner: Address, tokens: seq<MintParam>, n: Ledger)
    requires Inv(l) && MintAll(l, owner, tokens) == Some(n) && Small(n)
    ensures true == AmountsMinted(l, owner, tokens, n)
    ensures true == MetadataMinted(l, tokens, n)
    decreases |tokens|
  {
    if tokens != [] {
      var p, more, next := tokens[0], tokens[1..], MintOne(l, tokens[0], owner);
      MintLater(l, p, owner, Announced(l, p), next);
      MintAllLater(next, owner, more);
      SmallBefore(next, n);
      assert next.minted[p.token] < TWO_64;
      OneMinted(l, p, owner, next);
      TokensMinted(next, owner, more, n);
      AmountsTogether(l, owner, tokens, next, n);
      MetadataTogether(l, tokens, next, n);
    } else {
      NoneMinted(l, owner);
    }
  }

  lemma NoneMinted(l: Ledger, owner: Address)
    ensures true == AmountsMinted(l, owner, [], l)
    ensures true == MetadataMinted(l, [], l)
  {
    forall t ensures AmountOf([], t) == 0 {}
  }

  lemma AmountsTogether(l: Ledger, owner: Address, tokens: seq<MintParam>, next: Ledger, n: Ledger)
    requires tokens != [] && AmountsMinted(l, owner, [tokens[0]], next) && AmountsMinted(next, owner, tokens[1..], n)
    ensures true == AmountsMinted(l, owner, tokens, n)
  {
    assert [tokens[0]][1..] == [];
    forall t ensures AmountOf(tokens, t) == AmountOf([tokens[0]], t) + AmountOf(tokens[1..], t) {}
  }

  lemma MetadataTogether(l: Ledger, tokens: seq<MintParam>, next: Ledger, n: Ledger)
    requires tokens != [] && next.tokens == l.tokens[tokens[0].token := Metadata(0, tokens[0].urls)]
    requires MetadataMinted(next, tokens[1..], n)
    ensures MetadataMinted(l, tokens, n)
  {
    var more := tokens[1..];
    assert forall i :: 0 < i < |tokens| ==> tokens[i] == more[i - 1];
    forall i: nat | LastMint(tokens, i)
      ensures tokens[i].token in n.tokens && n.tokens[tokens[i].token] == Metadata(0, tokens[i].urls)
    {
      if i > 0 {
        assert LastMint(more, i - 1);
      } else {
        assert forall j :: 0 <= j < |more| ==> more[j].token != tokens[0].token;
      }
    }
    forall t | forall i :: 0 <= i < |tokens| ==> tokens[i].token != t
      ensures (t in n.tokens <==> t in l.tokens) && (t in l.tokens ==> n.tokens[t] == l.tokens[t])
    {
      assert tokens[0].token != t;
      assert forall j :: 0 <= j < |more| ==> more[j].token == tokens[j + 1].token;
    }
  }

  /** The entries that are added for a token, in order. */
  ghost function UrlsOf(additions: seq<(TokenId, Url)>, t: TokenId): seq<Url> {
    if additions == [] then []
    else (if additions[0].0 == t then [additions[0].1] else []) + UrlsOf(additions[1..], t)
  }

  /** Every list has the entries added for its token at its end. */
  ghost predicate Added(l: Ledger, additions: seq<(TokenId, Url)>, n: Ledger) {
    && n.state == l.state && n.minted == l.minted && n.tokens.Keys == l.tokens.Keys
    && (forall t :: t in l.tokens ==>
          n.tokens[t].counter == l.tokens[t].counter && n.tokens[t].list == l.tokens[t].list + UrlsOf(additions, t))
  }

  lemma UrlAdded(l: Ledger, t: TokenId, url: Url, next: Ledger)
    requires AddUrl(l, t, url) == Some(next)
    ensures true == Added(l, [(t, url)], next)
    ensures forall u :: CanLookUp(next, u) <==> CanLookUp(l, u)
  {
    var one := [(t, url)];
    assert one[1..] == [];
    forall u | u in l.tokens
      ensures next.tokens[u].counter == l.tokens[u].counter && next.tokens[u].list == l.tokens[u].list + UrlsOf(one, u)
    {
      assert UrlsOf(one, u) == if u == t then [url] else [];
    }
  }

  lemma AddedTogether(l: Ledger, additions: seq<(TokenId, Url)>, next: Ledger, n: Ledger)
    requires additions != [] && Added(l, [additions[0]], next) && Added(next, additions[1..], n)
    ensures true == Added(l, additions, n)
  {
    var one := [additions[0]];
    assert one[1..] == [];
    forall t | t in l.tokens
      ensures n.tokens[t].counter == l.tokens[t].counter && n.tokens[t].list == l.tokens[t].list + UrlsOf(additions, t)
    {
      assert UrlsOf(one, t) + UrlsOf(additions[1..], t) == UrlsOf(additions, t);
    }
  }

  lemma AllFound(l: Ledger, additions: seq<(TokenId, Url)>, next: Ledger)
    requires additions != [] && CanLookUp(l, additions[0].0)
    requires forall t :: CanLookUp(next, t) <==> CanLookUp(l, t)
    ensures (forall i :: 0 <= i < |additions| ==> CanLookUp(l, additions[i].0)) <==>
            (forall i :: 0 <= i < |additions[1..]| ==> CanLookUp(next, additions[1..][i].0))
  {
    var more := additions[1..];
    assert forall i :: 1 <= i < |additions| ==> additions[i] == more[i - 1];
    assert forall i :: 0 <= i < |more| ==> more[i] == additions[i + 1];
  }

  /** Adding metadata succeeds exactly if all tokens can be looked up, and adds the entries in order. */
  lemma {:induction false} MetadataAdded(l: Ledger, additions: seq<(TokenId, Url)>)
    ensures var r := AddAll(l, additions);
            && (r.Some? <==> forall i :: 0 <= i < |additions| ==> CanLookUp(l, additions[i].0))
            && (r.Some? ==> true == Added(l, additions, r.value))
    decreases |additions|
  {
    if additions != [] && CanLookUp(l, additions[0].0) {
      var next := AddUrl(l, additions[0].0, additions[0].1).value;
      UrlAdded(l, additions[0].0, additions[0].1, next);
      MetadataAdded(next, additions[1..]);
      AllFound(l, additions, next);
      if AddAll(l, additions).Some? { AddedTogether(l, additions, next, AddAll(l, additions).value); }
    }
  }

  /** Only the owner of the contract mints, upgrades and adds metadata. */
  lemma OnlyAdminActs(admin: Address, l: Ledger, sender: Address, action: Action)
    ensures sender != admin ==> Exec(admin, l, Admin(sender, action)).None?
    ensures action.Mint? && sender == admin ==>
              Exec(admin, l, Admin(sender, action)) == MintAll(l, action.owner, action.tokens)
    ensures action.Upgrade? && sender == admin ==>
              Exec(admin, l, Admin(sender, action)) == UpgradeAndLog(l, action.token)
    ensures action.AddMetadata? && sender == admin ==>
              Exec(admin, l, Admin(sender, action)) == AddAll(l, action.additions)
  {
  }

  // ---------------------------------------------------------------- hooks as calls in a row

  /** The calls that took effect, one transfer each and without hooks, in the order in which they did:
      those of a hook come right after its transfer. */
  ghost function InOrder(admin: Address, l: Ledger, calls: seq<Call<Action>>): seq<Call<Action>>
    decreases calls
  {
    if calls == [] then []
    else
      match Exec(admin, l, calls[0])
      case None => InOrder(admin, l, calls[1..])
      case Some(next) => CallInOrder(admin, l, calls[0]) + InOrder(admin, next, calls[1..])
  }

  ghost function CallInOrder(admin: Address, l: Ledger, call: Call<Action>): seq<Call<Action>>
    decreases call
  {
    match call
    case Transfers(sender, items) => ItemsInOrder(admin, l, sender, items)
    case _ => [call]
  }

  ghost function ItemsInOrder(admin: Address, l: Ledger, sender: Address, items: seq<Item<Action>>): seq<Call<Action>>
    decreases items
  {
    if items == [] then []
    else
      match TransferItem(admin, l, sender, items[0])
      case None => []
      case Some(next) => ItemInOrder(admin, l, sender, items[0]) + ItemsInOrder(admin, next, sender, items[1..])
  }

  ghost function ItemInOrder(admin: Address, l: Ledger, sender: Address, item: Item<Action>): seq<Call<Action>>
    decreases item
  {
    var alone := Transfers(sender, [item.(hook := None)]);
    match TransferOne(l, item.token, item.amount, item.from, item.to)
    case None => [alone]
    case Some(moved) => [alone] + if item.hook.Some? then InOrder(admin, moved, item.hook.value.calls) else []
  }

  /** Each call succeeds when it is its turn, and none has a hook. */
  ghost predicate AllSucceed(admin: Address, l: Ledger, calls: seq<Call<Action>>)
    decreases |calls|
  {
    calls == [] || (&& Hookless(calls[0]) && Exec(admin, l, calls[0]).Some?
                    && AllSucceed(admin, Exec(admin, l, calls[0]).value, calls[1..]))
  }

  /** The calls all succeed, and end in `n`. */
  ghost predicate LeadTo(admin: Address, l: Ledger, calls: seq<Call<Action>>, n: Ledger) {
    AllSucceed(admin, l, calls) && Run(admin, l, calls) == n
  }

  lemma {:induction false} LeadOn(admin: Address, l: Ledger, a: seq<Call<Action>>, m: Ledger, b: seq<Call<Action>>,
                                  n: Ledger)
    requires LeadTo(admin, l, a, m) && LeadTo(admin, m, b, n)
    ensures LeadTo(admin, l, a + b, n)
    decreases |a|
  {
    if a == [] {
      assert a + b == b;
    } else {
      LeadOn(admin, Exec(admin, l, a[0]).value, a[1..], m, b, n);
      assert (a + b)[1..] == a[1..] + b;
    }
  }

  lemma OneLeadsTo(admin: Address, l: Ledger, call: Call<Action>, n: Ledger)
    requires Hookless(call) && Exec(admin, l, call) == Some(n)
    ensures LeadTo(admin, l, [call], n)
  {
    assert [call][1..] == [];
    assert Run(admin, n, []) == n;
  }

  lemma AloneLeadsTo(admin: Address, l: Ledger, sender: Address, item: Item<Action>, n: Ledger)
    requires item.hook.None? && TransferItem(admin, l, sender, item) == Some(n)
    ensures LeadTo(admin, l, [Transfers(sender, [item])], n)
  {
    assert [item][1..] == [];
    assert TransferAll(admin, n, sender, []) == Some(n);
    OneLeadsTo(admin, l, Transfers(sender, [item]), n);
  }

  lemma {:induction false} ItemLeadsTo(admin: Address, l: Ledger, sender: Address, item: Item<Action>, n: Ledger)
    requires TransferItem(admin, l, sender, item) == Some(n)
    ensures LeadTo(admin, l, ItemInOrder(admin, l, sender, item), n)
    decreases item
  {
    var alone := item.(hook := None);
    var moved := TransferOne(l, item.token, item.amount, item.from, item.to).value;
    AloneLeadsTo(admin, l, sender, alone, moved);
    if item.hook.Some? {
      HooksAreCalls(admin, moved, item.hook.value.calls);
      LeadOn(admin, l, [Transfers(sender, [alone])], moved, InOrder(admin, moved, item.hook.value.calls), n);
    } else {
      assert ItemInOrder(admin, l, sender, item) == [Transfers(sender, [alone])];
    }
  }

  lemma {:induction false} ItemsLeadTo(admin: Address, l: Ledger, sender: Address, items: seq<Item<Action>>, n: Ledger)
    requires TransferAll(admin, l, sender, items) == Some(n)
    ensures LeadTo(admin, l, ItemsInOrder(admin, l, sender, items), n)
    decreases items
  {
    if items != [] {
      var next := TransferItem(admin, l, sender, items[0]).value;
      ItemLeadsTo(admin, l, sender, items[0], next);
      ItemsLeadTo(admin, next, sender, items[1..], n);
      LeadOn(admin, l, ItemInOrder(admin, l, sender, items[0]), next, ItemsInOrder(admin, next, sender, items[1..]), n);
    }
  }

  lemma {:induction false} CallLeadsTo(admin: Address, l: Ledger, call: Call<Action>, n: Ledger)
    requires Exec(admin, l, call) == Some(n)
    ensures LeadTo(admin, l, CallInOrder(admin, l, call), n)
    decreases call
  {
    if call.Transfers? {
      ItemsLeadTo(admin, l, call.sender, call.items, n);
    } else {
      OneLeadsTo(admin, l, call, n);
    }
  }

  /** A run with hooks that call back into the contract, however deep, is a row of calls without hooks
      that all succeed, with the calls of each hook between the transfers of its batch. */
  lemma {:induction false} HooksAreCalls(admin: Address, l: Ledger, calls: seq<Call<Action>>)
    ensures LeadTo(admin, l, InOrder(admin, l, calls), Run(admin, l, calls))
    decreases calls
  {
    if calls != [] {
      match Exec(admin, l, calls[0])
      case None => HooksAreCalls(admin, l, calls[1..]);
      case Some(next) =>
        CallLeadsTo(admin, l, calls[0], next);
        HooksAreCalls(admin, next, calls[1..]);
        LeadOn(admin, l, CallInOrder(admin, l, calls[0]), next, InOrder(admin, next, calls[1..]),
               Run(admin, l, calls));
    }
  }
}
