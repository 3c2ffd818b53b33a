/** Calls into a CIS-2 token contract. A receive hook may call back into the contract while a
    batch of transfers is under way. */
module Cis2Calls {
  import opened Common

  type Address = nat
  type TokenId = nat

  /** An entrypoint with its sender and parameter; `Admin` is what differs between contracts. */
  datatype Call<A> =
    | Transfers(sender: Address, items: seq<Item<A>>)
    | UpdateOperators(sender: Address, updates: seq<OperatorUpdate>)
    | Admin(sender: Address, action: A)

  /** One transfer of a batch. A receiver that is a contract has a hook. */
  datatype Item<A> = Item(token: TokenId, amount: nat, from: Address, to: Address, hook: Option<Hook<A>>)

  /** What a hook does: it makes calls of its own and then succeeds or fails. */
  datatype Hook<A> = Hook(calls: seq<Call<A>>, ok: bool)

  datatype OperatorUpdate = OperatorUpdate(operator: Address, add: bool)

  /** No call of the tree is sent by one of `who`. */
  ghost predicate Silent<A>(calls: seq<Call<A>>, who: set<Address>)
    decreases calls
  {
    forall i :: 0 <= i < |calls| ==> SilentCall(calls[i], who)
  }

  ghost predicate SilentCall<A>(call: Call<A>, who: set<Address>)
    decreases call
  {
    call.sender !in who && (call.Transfers? ==> SilentItems(call.items, who))
  }

  ghost predicate SilentItems<A>(items: seq<Item<A>>, who: set<Address>)
    decreases items
  {
    forall i :: 0 <= i < |items| ==> SilentItem(items[i], who)
  }

  ghost predicate SilentItem<A>(item: Item<A>, who: set<Address>)
    decreases item
  {
    item.hook.Some? ==> Silent(item.hook.value.calls, who)
  }

  /** No item of the call has a hook. */
  ghost predicate Hookless<A>(call: Call<A>) {
    call.Transfers? ==> forall i :: 0 <= i < |call.items| ==> call.items[i].hook.None?
  }

  /** Update `i` is the last one that names `x`. */
  ghost predicate LastNames(updates: seq<OperatorUpdate>, i: nat, x: Address) {
    i < |updates| && updates[i].operator == x && forall j :: i < j < |updates| ==> updates[j].operator != x
  }

  lemma OneLast(updates: seq<OperatorUpdate>, i: nat, j: nat, x: Address)
    requires LastNames(updates, i, x) && LastNames(updates, j, x)
    ensures i == j
  {
  }

  /** The last update that names `x` adds it, or none names it and it was enabled `before`. */
  ghost predicate Enabled(updates: seq<OperatorUpdate>, x: Address, before: bool) {
    || (exists i: nat :: LastNames(updates, i, x) && updates[i].add)
    || (before && forall i :: 0 <= i < |updates| ==> updates[i].operator != x)
  }

  /** What the first update says is what was before the others. */
  lemma EnabledFirst(updates: seq<OperatorUpdate>, x: Address, before: bool)
    requires updates != []
    ensures Enabled(updates, x, before) <==>
            Enabled(updates[1..], x, if updates[0].operator == x then updates[0].add else before)
  {
    var more, now := updates[1..], if updates[0].operator == x then updates[0].add else before;
    if Enabled(updates, x, before) {
      if i: nat :| LastNames(updates, i, x) && updates[i].add {
        if i > 0 { assert LastNames(more, i - 1, x); } else { OthersNamed(updates, x); }
      } else {
        OthersNamed(updates, x);
      }
    }
    if Enabled(more, x, now) {
      if i: nat :| LastNames(more, i, x) && more[i].add {
        LastOfMore(updates, i, x);
      } else {
        assert forall j :: 0 <= j < |more| ==> more[j].operator != x;
        assert forall j :: 1 <= j < |updates| ==> updates[j] == more[j - 1];
        if updates[0].operator == x { assert LastNames(updates, 0, x); }
      }
    }
  }

  lemma OthersNamed(updates: seq<OperatorUpdate>, x: Address)
    requires updates != [] && forall j :: 0 < j < |updates| ==> updates[j].operator != x
    ensures forall j :: 0 <= j < |updates[1..]| ==> updates[1..][j].operator != x
  {
  }

  lemma LastOfMore(updates: seq<OperatorUpdate>, i: nat, x: Address)
    requires updates != [] && LastNames(updates[1..], i, x)
    ensures LastNames(updates, i + 1, x)
  {
    assert forall j :: 1 <= j < |updates| ==> updates[j] == updates[1..][j - 1];
  }
}
