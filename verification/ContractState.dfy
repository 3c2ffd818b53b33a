/** The contract state: one flat store of byte entries, its entries with a cursor, and handles
    that load a value lazily and write it back without truncating. */
module ContractState {
  import opened Common
  import opened Codecs

  type Store = map<bytes, bytes>

  predicate HasPrefix(key: bytes, prefix: bytes) { |prefix| <= |key| && key[..|prefix|] == prefix }

  /** Nothing is stored under the prefix. */
  ghost predicate Unused(store: Store, prefix: bytes) {
    forall key :: key in store ==> !HasPrefix(key, prefix)
  }

  /** The store without the keys that start with `prefix`. */
  function Without(store: Store, prefix: bytes): Store {
    map key | key in store && !HasPrefix(key, prefix) :: store[key]
  }

  /** Writing `data` at offset `at`: what lies behind the written part stays. */
  function Overwrite(content: bytes, at: nat, data: bytes): bytes
    requires at <= |content|
  {
    content[..at] + data + (if at + |data| <= |content| then content[at + |data|..] else [])
  }

  /** Writing in pieces is writing the whole. */
  lemma WritesCompose(content: bytes, at: nat, first: bytes, second: bytes)
    requires at <= |content|
    ensures at + |first| <= |Overwrite(content, at, first)|
    ensures Overwrite(Overwrite(content, at, first), at + |first|, second) == Overwrite(content, at, first + second)
  {
    var once := Overwrite(content, at, first);
    assert once[..at + |first|] == content[..at] + first;
    var end := at + |first| + |second|;
    if end <= |content| {
      assert once[end..] == content[end..];
    }
  }

  lemma WholeOverwrite(content: bytes, data: bytes)
    requires |content| <= |data|
    ensures Overwrite(content, 0, data) == data
  {
  }

  /** The content of an entry is read as `v`; bytes behind the value do not matter. */
  ghost predicate ReadsAs<V(!new)>(c: Codec<V>, content: bytes, v: V) {
    c.fits(v) && exists tail :: c.deserial(content) == Some((v, tail))
  }

  lemma SerialHolds<V(!new)>(c: Codec<V>, v: V, tail: bytes)
    requires Lawful(c) && c.fits(v)
    ensures ReadsAs(c, c.serial(v) + tail, v)
  {
    assert ReadsBack(c, v, tail);
  }

  /** A value written over an entry is read back, even when a longer one leaves its tail behind. */
  lemma OverwriteHolds<V(!new)>(c: Codec<V>, content: bytes, v: V)
    requires Lawful(c) && c.fits(v)
    ensures ReadsAs(c, Overwrite(content, 0, c.serial(v)), v)
  {
    var data := c.serial(v);
    var tail := if |data| <= |content| then content[|data|..] else [];
    assert Overwrite(content, 0, data) == data + tail;
    SerialHolds(c, v, tail);
  }

  // ---------------------------------------------------------------- the store and its entries

  class StateApi {
    var store: Store

    constructor ()
      ensures store == map[]
    {
      store := map[];
    }

    method LookupEntry(key: bytes) returns (r: Option<StateEntry>)
      ensures r.Some? <==> key in store
      ensures r.Some? ==> fresh(r.value) && r.value.api == this && r.value.key == key && r.value.position == 0
    {
      if key in store {
        var entry := new StateEntry(this, key);
        r := Some(entry);
      } else {
        r := None;
      }
    }

    /** A new, empty entry; one that exists is emptied. */
    method CreateEntry(key: bytes) returns (entry: StateEntry)
      modifies this
      ensures store == old(store)[key := []]
      ensures fresh(entry) && entry.api == this && entry.key == key && entry.position == 0
    {
      store := store[key := []];
      entry := new StateEntry(this, key);
    }

    method DeleteEntry(key: bytes) returns (existed: bool)
      modifies this
      ensures store == old(store) - {key} && (existed <==> key in old(store))
    {
      existed := key in store;
      store := store - {key};
    }

    method DeletePrefix(prefix: bytes) returns (any: bool)
      modifies this
      ensures store == Without(old(store), prefix)
      ensures any <==> store != old(store)
    {
      var kept := Without(store, prefix);
      any := kept != store;
      store := kept;
    }
  }

  class StateEntry {
    const api: StateApi
    const key: bytes
    var position: nat

    constructor (api: StateApi, key: bytes)
      ensures this.api == api && this.key == key && position == 0
    {
      this.api := api;
      this.key := key;
      position := 0;
    }

    ghost predicate Valid()
      reads this, api
    {
      key in api.store && position <= |api.store[key]|
    }

    method Read(length: nat) returns (data: bytes)
      requires Valid()
      modifies this
      ensures Valid()
      ensures data == var rest := api.store[key][old(position)..]; if |rest| <= length then rest else rest[..length]
      ensures position == old(position) + |data|
    {
      var rest := api.store[key][position..];
      data := if |rest| <= length then rest else rest[..length];
      position := position + |data|;
    }

    method Write(data: bytes)
      requires Valid()
      modifies this, api
      ensures Valid()
      ensures api.store == old(api.store)[key := Overwrite(old(api.store[key]), old(position), data)]
      ensures position == old(position) + |data|
    {
      api.store := api.store[key := Overwrite(api.store[key], position, data)];
      position := position + |data|;
    }

    method Truncate(size: nat)
      requires Valid()
      modifies this, api
      ensures Valid()
      ensures api.store == old(api.store)[key := if size < |old(api.store[key])| then old(api.store[key])[..size]
                                          else old(api.store[key])]
      ensures position == if size < |old(api.store[key])| && size < old(position) then size else old(position)
    {
      if |api.store[key]| > size {
        api.store := api.store[key := api.store[key][..size]];
        if position > size {
          position := size;
        }
      }
    }
  }

  // ---------------------------------------------------------------- lazy handles

  /** A handle to the value of an entry: loaded at the first use, written back when dropped. */
  class StateRefMut<V(!new)> {
    const entry: StateEntry
    const codec: Codec<V>
    var lazy: Option<V>

    constructor (entry: StateEntry, codec: Codec<V>)
      ensures this.entry == entry && this.codec == codec && lazy == None
    {
      this.entry := entry;
      this.codec := codec;
      lazy := None;
    }

    /** The handle stands for the value `v`: the cached one, or else the stored one. */
    ghost predicate Refers(v: V)
      reads this, entry, entry.api
    {
      && Lawful(codec) && entry.key in entry.api.store && codec.fits(v)
      && match lazy
         case Some(cached) => cached == v
         case None => ReadsAs(codec, entry.api.store[entry.key], v)
    }

    /** `get`, and `get_mut` up to the assignment. */
    method Get(ghost v: V) returns (r: V)
      requires Refers(v)
      modifies this, entry
      ensures Refers(v) && r == v && lazy == Some(v)
    {
      match lazy
      case Some(cached) =>
        r := cached;
      case None =>
        entry.position := 0;
        r := codec.deserial(entry.api.store[entry.key]).value.0;
        lazy := Some(r);
    }

    /** Assignment through `get_mut`: nothing is written yet. */
    method Assign(ghost v: V, w: V)
      requires Refers(v) && codec.fits(w)
      modifies this, entry
      ensures Refers(w) && lazy == Some(w)
    {
      var _ := Get(v);
      lazy := Some(w);
    }

    /** Whatever the entry holds is overwritten at once. */
    method Set(w: V)
      requires Lawful(codec) && entry.key in entry.api.store && codec.fits(w)
      modifies this, entry, entry.api
      ensures Refers(w) && lazy == Some(w)
      ensures entry.api.store == WriteBack(old(entry.api.store), entry.key, codec.serial(w))
      ensures ReadsAs(codec, entry.api.store[entry.key], w)
    {
      entry.position := 0;
      OverwriteHolds(codec, entry.api.store[entry.key], w);
      entry.Write(codec.serial(w));
      lazy := Some(w);
    }

    method Update(ghost v: V, f: V -> V)
      requires Refers(v) && codec.fits(f(v))
      modifies this, entry, entry.api
      ensures Refers(f(v)) && ReadsAs(codec, entry.api.store[entry.key], f(v))
      ensures entry.api.store == WriteBack(old(entry.api.store), entry.key, codec.serial(f(v)))
    {
      var value := Get(v);
      Set(f(value));
    }

    /** Write-back when the handle is dropped: the entry then holds the value, cached or not, no
        other entry has changed, and every live handle to another entry stands for what it did. */
    method StoreMutations(ghost v: V)
      requires Refers(v)
      modifies entry, entry.api
      ensures Refers(v) && ReadsAs(codec, entry.api.store[entry.key], v)
      ensures lazy.Some? ==> entry.api.store == WriteBack(old(entry.api.store), entry.key, codec.serial(v))
      ensures lazy.None? ==> entry.api.store == old(entry.api.store)
      ensures forall other: StateRefMut<V>, u {:trigger other.Refers(u)} ::
                old(allocated(other) && other.Refers(u)) && other.entry.key != entry.key ==> other.Refers(u)
    {
      if lazy.Some? {
        entry.position := 0;
        OverwriteHolds(codec, entry.api.store[entry.key], v);
        entry.Write(codec.serial(lazy.value));
      }
    }
  }

  /** The store after a value is written from the start of an entry, which keeps a longer tail. */
  function WriteBack(store: Store, key: bytes, data: bytes): (r: Store)
    requires key in store
    ensures r.Keys == store.Keys
  {
    store[key := Overwrite(store[key], 0, data)]
  }
}
