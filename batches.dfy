/**
 * The batch refill/removal loop shared by `CashManager` and `ProductManager`:
 * entries are checked and applied one by one, so an invalid entry stops the
 * batch after the entries before it have already reached the ledger.
 */
module Batches {
  import opened Wrappers
  import opened Stocks

  /** Why one entry of a batch was refused. */
  datatype EntryError = InvalidItem | NonPositiveQuantity

  /** Whether a batch adds to the ledger or removes from it. */
  datatype Mode = Insert | Delete

  /** One (key, quantity) entry of a batch; a `None` key stands for a `null` map key. */
  type Entry<K> = (Option<K>, int)

  /** The entry check of `validateCashEntry`/`validateProductEntry`: the item first, then the quantity. */
  function CheckEntry<K(==)>(key: Option<K>, quantity: int, allowed: seq<K>): (r: Option<EntryError>)
    ensures r.None? <==> key.Some? && key.value in allowed && quantity > 0
    ensures r == Some(InvalidItem) <==> !(key.Some? && key.value in allowed)
    ensures r == Some(NonPositiveQuantity) <==> key.Some? && key.value in allowed && quantity <= 0
  {
    if !(key.Some? && key.value in allowed) then Some(InvalidItem)
    else if quantity <= 0 then Some(NonPositiveQuantity)
    else None
  }

  /** A batch-level outcome from the error (if any) of applying the entries, in the caller's own error terms. */
  function ToOutcome<E>(err: Option<EntryError>, cause: EntryError -> E): (r: Outcome<E>)
    ensures r.Pass? <==> err.None?
    ensures err.Some? ==> r == Fail(cause(err.value))
  {
    match err
    case None => Pass
    case Some(e) => Fail(cause(e))
  }

  /** An entry the batch accepts. */
  predicate ValidEntry<K(==)>(e: Entry<K>, allowed: seq<K>)
  {
    CheckEntry(e.0, e.1, allowed).None?
  }

  /** One ledger update of the batch loop. */
  function ApplyOne<K(==, !new)>(m: map<K, int>, key: K, quantity: int, mode: Mode): map<K, int>
  {
    match mode
    case Insert => Added(m, key, quantity)
    case Delete => Removed(m, key, quantity)
  }

  /**
   * Runs the batch loop over `entries`: the first refused entry's error (or
   * `None`) and the ledger as the loop leaves it.
   */
  function ApplyEntries<K(==, !new)>(m: map<K, int>, entries: seq<Entry<K>>, allowed: seq<K>, mode: Mode)
    : (r: (Option<EntryError>, map<K, int>))
    ensures r.0.None? <==> forall i :: 0 <= i < |entries| ==> ValidEntry(entries[i], allowed)
    ensures r.0.Some? ==> exists i :: 0 <= i < |entries| && CheckEntry(entries[i].0, entries[i].1, allowed) == r.0
    decreases |entries|
  {
    if entries == [] then (None, m)
    else
      var e := entries[0];
      match CheckEntry(e.0, e.1, allowed)
      case Some(err) => (Some(err), m)
      case None => ApplyEntries(ApplyOne(m, e.0.value, e.1, mode), entries[1..], allowed, mode)
  }

  /** The total quantity a batch lists for `k`. */
  function Listed<K(==)>(entries: seq<Entry<K>>, k: K): int
    decreases |entries|
  {
    if entries == [] then 0
    else (if entries[0].0 == Some(k) then entries[0].1 else 0) + Listed(entries[1..], k)
  }

  /**
   * A batch of valid entries is accepted, and each key's quantity moves by
   * what the batch lists for it: up by that total on insert, down by it
   * (floored at zero) on delete; unlisted keys keep their quantity.
   */
  lemma {:induction false} ApplyValidEntries<K(!new)>(m: map<K, int>, entries: seq<Entry<K>>, allowed: seq<K>, mode: Mode, k: K)
    requires forall i :: 0 <= i < |entries| ==> ValidEntry(entries[i], allowed)
    ensures ApplyEntries(m, entries, allowed, mode).0 == None
    ensures Listed(entries, k) >= 0
    ensures mode == Insert ==>
      Quantity(ApplyEntries(m, entries, allowed, mode).1, k) == Quantity(m, k) + Listed(entries, k)
    ensures mode == Delete ==>
      Quantity(ApplyEntries(m, entries, allowed, mode).1, k)
        == if Listed(entries, k) > 0 then Floor(Quantity(m, k) - Listed(entries, k)) else Quantity(m, k)
    decreases |entries|
  {
    if entries != [] {
      var e := entries[0];
      assert ValidEntry(e, allowed);
      var m' := ApplyOne(m, e.0.value, e.1, mode);
      ApplyValidEntries(m', entries[1..], allowed, mode, k);
    }
  }

  /**
   * A refused entry stops the batch with its own error, after every entry
   * before it has been applied: there is no separate validation pass.
   */
  lemma {:induction false} ApplyEntriesStopsAtFirstInvalid<K(!new)>(m: map<K, int>, entries: seq<Entry<K>>, allowed: seq<K>, mode: Mode, i: nat)
    requires i < |entries|
    requires forall j :: 0 <= j < i ==> ValidEntry(entries[j], allowed)
    requires !ValidEntry(entries[i], allowed)
    ensures ApplyEntries(m, entries, allowed, mode).0 == CheckEntry(entries[i].0, entries[i].1, allowed)
    ensures ApplyEntries(m, entries, allowed, mode).1 == ApplyEntries(m, entries[..i], allowed, mode).1
    decreases i
  {
    var e := entries[0];
    if i > 0 {
      assert ValidEntry(e, allowed);
      var m' := ApplyOne(m, e.0.value, e.1, mode);
      ApplyEntriesStopsAtFirstInvalid(m', entries[1..], allowed, mode, i - 1);
      assert entries[..i][1..] == entries[1..][..i - 1];
    }
  }

  /**
   * A batch whose keys are all recorded already leaves the key set as it was:
   * an entry counted down to zero stays recorded with zero.
   */
  lemma {:induction false} ApplyEntriesKeepsKeys<K(!new)>(m: map<K, int>, entries: seq<Entry<K>>, allowed: seq<K>, mode: Mode)
    requires forall i :: 0 <= i < |entries| ==> entries[i].0.Some? && entries[i].0.value in m
    ensures ApplyEntries(m, entries, allowed, mode).1.Keys == m.Keys
    decreases |entries|
  {
    if entries != [] {
      var e := entries[0];
      if CheckEntry(e.0, e.1, allowed).None? {
        var m' := ApplyOne(m, e.0.value, e.1, mode);
        assert m'.Keys == m.Keys;
        assert forall i :: 0 <= i < |entries[1..]| ==> entries[1..][i] == entries[i + 1];
        ApplyEntriesKeepsKeys(m', entries[1..], allowed, mode);
      }
    }
  }

  /** Batches never make a quantity negative: inserts add positive amounts, deletes clamp at zero. */
  lemma {:induction false} ApplyEntriesKeepsNonNegative<K(!new)>(m: map<K, int>, entries: seq<Entry<K>>, allowed: seq<K>, mode: Mode)
    requires NonNegative(m)
    ensures NonNegative(ApplyEntries(m, entries, allowed, mode).1)
    decreases |entries|
  {
    if entries != [] {
      var e := entries[0];
      if ValidEntry(e, allowed) {
        ApplyEntriesKeepsNonNegative(ApplyOne(m, e.0.value, e.1, mode), entries[1..], allowed, mode);
      }
    }
  }
  /** The entries of map `m` for the keys in `keys`, in that order: how a map argument is walked as a batch. */
  function EntriesOf<K(==)>(m: map<K, int>, keys: seq<K>): (es: seq<Entry<K>>)
    ensures forall i :: 0 <= i < |es| ==> es[i].0.Some? && es[i].0.value in m && es[i].1 == m[es[i].0.value]
    ensures |es| <= |keys|
    decreases |keys|
  {
    if keys == [] then []
    else (if keys[0] in m then [(Some(keys[0]), m[keys[0]])] else []) + EntriesOf(m, keys[1..])
  }

  /** Walking distinct keys lists each key's quantity once, and nothing for the other keys. */
  lemma {:induction false} ListedEntriesOf<K>(m: map<K, int>, keys: seq<K>, k: K)
    requires forall i, j :: 0 <= i < j < |keys| ==> keys[i] != keys[j]
    ensures Listed(EntriesOf(m, keys), k) == if k in keys then Quantity(m, k) else 0
    decreases |keys|
  {
    if keys != [] {
      var es := EntriesOf(m, keys);
      ListedEntriesOf(m, keys[1..], k);
      if keys[0] in m {
        assert es[0] == (Some(keys[0]), m[keys[0]]);
        assert es[1..] == EntriesOf(m, keys[1..]);
      } else {
        assert es == EntriesOf(m, keys[1..]);
        if es != [] {
          assert es[0].0 != Some(keys[0]);
        }
      }
      assert keys[0] == k ==> k !in keys[1..];
      assert k in keys <==> keys[0] == k || k in keys[1..];
    }
  }
  /** The walk yields no entries exactly when none of the keys is in the map. */
  lemma {:induction false} EntriesOfEmpty<K>(m: map<K, int>, keys: seq<K>)
    ensures EntriesOf(m, keys) == [] <==> forall k :: k in keys ==> k !in m
    decreases |keys|
  {
    if keys != [] {
      EntriesOfEmpty(m, keys[1..]);
      assert forall k :: k in keys <==> k == keys[0] || k in keys[1..];
    }
  }
}
