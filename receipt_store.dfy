/** The receipt collection and the per-user counters `createReceipt`, `updateReceipt` and
    `deleteReceipt` keep in step with it. */
module ReceiptStore {
  import opened Wrappers
  import opened Receipts

  /** The counter fields of a user profile. */
  datatype Counters = Counters(totalReceipts: int, totalRevenue: int)

  datatype StoreError = ReceiptNotFound | UserNotFound

  /** The fields of a new receipt; the store adds the id and both dates. */
  datatype NewReceipt = NewReceipt(
    userId: string,
    storeName: string,
    totalAmount: int,
    items: seq<Item>,
    category: string)

  /** A partial receipt: the fields an update overwrites. */
  datatype ReceiptPatch = ReceiptPatch(
    userId: Option<string>,
    storeName: Option<string>,
    totalAmount: Option<int>,
    items: Option<seq<Item>>,
    category: Option<string>)

  function Override<T>(current: T, given: Option<T>): T
  {
    if given.Some? then given.value else current
  }

  /** The stored receipt after an update: the patched fields replaced and `updatedAt` set to
      the ISO string of the update time. */
  function Patched(r: Receipt, patch: ReceiptPatch, nowIso: string): (s: Receipt)
    ensures s.id == r.id && s.createdAt == r.createdAt && s.updatedAt == Text(nowIso)
    ensures patch == ReceiptPatch(None, None, None, None, None) ==> s == r.(updatedAt := Text(nowIso))
    ensures (patch.userId.Some? ==> s.userId == patch.userId.value) && (patch.userId.None? ==> s.userId == r.userId)
    ensures (patch.storeName.Some? ==> s.storeName == patch.storeName.value) && (patch.storeName.None? ==> s.storeName == r.storeName)
    ensures (patch.totalAmount.Some? ==> s.totalAmount == patch.totalAmount.value) && (patch.totalAmount.None? ==> s.totalAmount == r.totalAmount)
    ensures (patch.items.Some? ==> s.items == patch.items.value) && (patch.items.None? ==> s.items == r.items)
    ensures (patch.category.Some? ==> s.category == patch.category.value) && (patch.category.None? ==> s.category == r.category)
  {
    r.(userId := Override(r.userId, patch.userId),
       storeName := Override(r.storeName, patch.storeName),
       totalAmount := Override(r.totalAmount, patch.totalAmount),
       items := Override(r.items, patch.items),
       category := Override(r.category, patch.category),
       updatedAt := Text(nowIso))
  }

  // ---------------------------------------------------------------- the counters' meaning

  /** The counters after one more receipt of `u`'s (or unchanged for another user's). */
  function Count(c: Counters, r: Receipt, u: string): Counters
  {
    if r.userId == u then Counters(c.totalReceipts + 1, c.totalRevenue + r.totalAmount) else c
  }

  /** The count and the revenue of `u`'s receipts in the collection. */
  ghost function OwnerTotals(m: map<string, Receipt>, u: string): Counters
    decreases |m|
  {
    if m == map[] then Counters(0, 0)
    else
      var id :| id in m;
      Count(OwnerTotals(m - {id}, u), m[id], u)
  }

  /** The totals can be computed by taking out any one receipt first. */
  lemma {:induction false} OwnerTotalsRemove(m: map<string, Receipt>, u: string, x: string)
    requires x in m
    ensures OwnerTotals(m, u) == Count(OwnerTotals(m - {x}, u), m[x], u)
    decreases |m|
  {
    var y :| y in m && OwnerTotals(m, u) == Count(OwnerTotals(m - {y}, u), m[y], u);
    if y != x {
      assert |m - {y}| == |m| - 1;
      assert |m - {x}| == |m| - 1;
      OwnerTotalsRemove(m - {y}, u, x);
      OwnerTotalsRemove(m - {x}, u, y);
      var rest := m - {y} - {x};
      assert rest == m - {x} - {y};
      assert (m - {y})[x] == m[x] && (m - {x})[y] == m[y];
      CountCommutes(OwnerTotals(rest, u), m[x], m[y], u);
    }
  }

  lemma CountCommutes(c: Counters, r: Receipt, s: Receipt, u: string)
    ensures Count(Count(c, r, u), s, u) == Count(Count(c, s, u), r, u)
  {
  }

  /** Every profile's counters are the totals of its owner's receipts, and every receipt
      belongs to a user with a profile. */
  ghost predicate Consistent(receipts: map<string, Receipt>, users: map<string, Counters>)
  {
    && (forall u :: u in users ==> users[u] == OwnerTotals(receipts, u))
    && (forall id :: id in receipts ==> receipts[id].userId in users)
  }

  /** Adding a receipt changes only its owner's totals, by one receipt and its amount. */
  lemma AddedTotals(m: map<string, Receipt>, x: string, r: Receipt, u: string)
    requires x !in m
    ensures OwnerTotals(m[x := r], u) == Count(OwnerTotals(m, u), r, u)
  {
    OwnerTotalsRemove(m[x := r], u, x);
    assert m[x := r] - {x} == m;
  }

  /** Removing a receipt changes only its owner's totals. */
  lemma RemovedTotals(m: map<string, Receipt>, x: string, u: string)
    requires x in m
    ensures Count(OwnerTotals(m - {x}, u), m[x], u) == OwnerTotals(m, u)
  {
    OwnerTotalsRemove(m, u, x);
  }

  /** `createReceipt`'s counter update (+1 receipt, +amount) keeps the counters consistent. */
  lemma CreateKeepsConsistent(receipts: map<string, Receipt>, users: map<string, Counters>, r: Receipt)
    requires Consistent(receipts, users)
    requires r.id !in receipts && r.userId in users
    ensures var c := users[r.userId];
      Consistent(receipts[r.id := r], users[r.userId := Counters(c.totalReceipts + 1, c.totalRevenue + r.totalAmount)])
  {
    forall u | u in users {
      AddedTotals(receipts, r.id, r, u);
    }
  }

  /** `deleteReceipt`'s counter update (-1 receipt, -amount) keeps the counters consistent. */
  lemma DeleteKeepsConsistent(receipts: map<string, Receipt>, users: map<string, Counters>, id: string)
    requires Consistent(receipts, users)
    requires id in receipts
    ensures var r := receipts[id];
      var c := users[r.userId];
      Consistent(receipts - {id}, users[r.userId := Counters(c.totalReceipts - 1, c.totalRevenue - r.totalAmount)])
  {
    forall u | u in users {
      RemovedTotals(receipts, id, u);
    }
  }

  // ---------------------------------------------------------------- updates

  function Uncount(c: Counters, r: Receipt): Counters
  {
    Counters(c.totalReceipts - 1, c.totalRevenue - r.totalAmount)
  }

  /** The counters after `updateReceipt` as written: only the revenue of the receipt's previous
      owner moves, by the new amount minus the old, and only when an amount is given and
      differs from the stored one. */
  function AsWrittenCounters(users: map<string, Counters>, before: Receipt, patch: ReceiptPatch): (after: map<string, Counters>)
    requires before.userId in users
    ensures after.Keys == users.Keys
    ensures forall u :: u in users && u != before.userId ==> after[u] == users[u]
    ensures after[before.userId].totalReceipts == users[before.userId].totalReceipts
    ensures after[before.userId].totalRevenue == users[before.userId].totalRevenue
      + (if patch.totalAmount.Some? then patch.totalAmount.value - before.totalAmount else 0)
    ensures patch.totalAmount.None? ==> after == users
  {
    if patch.totalAmount.Some? && patch.totalAmount.value != before.totalAmount then
      var c := users[before.userId];
      users[before.userId := Counters(c.totalReceipts, c.totalRevenue + (patch.totalAmount.value - before.totalAmount))]
    else
      users
  }

  /** The counters after an update that moves the receipt's count and amount from its
      previous owner to its owner after the patch. */
  function MovedCounters(users: map<string, Counters>, before: Receipt, after: Receipt): map<string, Counters>
    requires before.userId in users && after.userId in users
  {
    var taken := users[before.userId := Uncount(users[before.userId], before)];
    taken[after.userId := Count(taken[after.userId], after, after.userId)]
  }

  /** When the owner stays the same, moving the receipt is exactly what the code does. */
  lemma MovedAgreesWhenOwnerKept(users: map<string, Counters>, before: Receipt, patch: ReceiptPatch, nowIso: string)
    requires before.userId in users
    requires patch.userId.None? || patch.userId.value == before.userId
    ensures MovedCounters(users, before, Patched(before, patch, nowIso)) == AsWrittenCounters(users, before, patch)
  {
  }

  /** Moving the receipt between owners keeps the counters consistent, for any patch. */
  lemma UpdateKeepsConsistent(receipts: map<string, Receipt>, users: map<string, Counters>, id: string, after: Receipt)
    requires Consistent(receipts, users)
    requires id in receipts && after.userId in users
    ensures Consistent(receipts[id := after], MovedCounters(users, receipts[id], after))
  {
    var rest := receipts - {id};
    assert receipts[id := after] == rest[id := after];
    forall u | u in users
      ensures MovedCounters(users, receipts[id], after)[u] == OwnerTotals(receipts[id := after], u)
    {
      RemovedTotals(receipts, id, u);
      AddedTotals(rest, id, after, u);
    }
  }

  /** Finding: as written, a patch that hands a receipt to another user leaves both users'
      counters wrong. One receipt of 10 owned by "a", handed to "b". */
  lemma AsWrittenOwnerChangeBreaksCounters()
    ensures var before := Receipt("x", "a", "", 10, [], "", Stamp(0), Stamp(0));
      var receipts := map["x" := before];
      var users := map["a" := Counters(1, 10), "b" := Counters(0, 0)];
      var patch := ReceiptPatch(Some("b"), None, None, None, None);
      && Consistent(receipts, users)
      && !Consistent(receipts["x" := Patched(before, patch, "")], AsWrittenCounters(users, before, patch))
  {
    var before := Receipt("x", "a", "", 10, [], "", Stamp(0), Stamp(0));
    var after := Patched(before, ReceiptPatch(Some("b"), None, None, None, None), "");
    var empty: map<string, Receipt> := map[];
    AddedTotals(empty, "x", before, "a");
    AddedTotals(empty, "x", before, "b");
    AddedTotals(empty, "x", after, "a");
    assert map["x" := before] == empty["x" := before];
    assert map["x" := before]["x" := after] == empty["x" := after];
  }

  // ---------------------------------------------------------------- the store

  class Store {
    /** The receipts collection, by document id. */
    var receipts: map<string, Receipt>
    /** The users collection's counter fields, by user id. */
    var users: map<string, Counters>

    ghost predicate Valid()
      reads this
    {
      && Consistent(receipts, users)
      && (forall id :: id in receipts ==> receipts[id].id == id)
    }

    /** A store with no receipts and a fresh profile for each user. */
    constructor(profiles: set<string>)
      ensures receipts == map[]
      ensures users == map u | u in profiles :: Counters(0, 0)
      ensures Valid()
    {
      receipts := map[];
      users := map u | u in profiles :: Counters(0, 0);
    }

    /** `createReceipt`: stores the receipt under the fresh id `newId` with both dates set to
        `now`, and adds one receipt and its amount to its owner's counters in the same batch;
        the batch fails, changing nothing, when the owner has no profile. */
    method CreateReceipt(newId: string, draft: NewReceipt, now: int) returns (result: Result<Receipt, StoreError>)
      requires Valid()
      requires newId !in receipts
      modifies this
      ensures Valid()
      ensures draft.userId !in old(users) ==>
        result == Failure(UserNotFound) && receipts == old(receipts) && users == old(users)
      ensures draft.userId in old(users) ==>
        var r := Receipt(newId, draft.userId, draft.storeName, draft.totalAmount, draft.items, draft.category, Stamp(now), Stamp(now));
        var c := old(users)[draft.userId];
        && result == Success(r)
        && receipts == old(receipts)[newId := r]
        && users == old(users)[draft.userId := Counters(c.totalReceipts + 1, c.totalRevenue + draft.totalAmount)]
    {
      if draft.userId !in users {
        return Failure(UserNotFound);
      }
      var r := Receipt(newId, draft.userId, draft.storeName, draft.totalAmount, draft.items, draft.category, Stamp(now), Stamp(now));
      CreateKeepsConsistent(receipts, users, r);
      receipts := receipts[newId := r];
      var c := users[draft.userId];
      users := users[draft.userId := Counters(c.totalReceipts + 1, c.totalRevenue + draft.totalAmount)];
      result := Success(r);
    }

    /** `updateReceipt`, with the counters kept right when the patch changes the owner: fails
        with nothing changed when the receipt does not exist (or the new owner has no profile);
        otherwise stores the patched receipt with `updatedAt` set to `nowIso` and returns it.
        An update that keeps the owner changes only that owner's revenue, by the new amount
        minus the old, and only when an amount is given and differs. */
    method UpdateReceipt(id: string, patch: ReceiptPatch, nowIso: string) returns (result: Result<Receipt, StoreError>)
      requires Valid()
      modifies this
      ensures Valid()
      ensures id !in old(receipts) ==>
        result == Failure(ReceiptNotFound) && receipts == old(receipts) && users == old(users)
      ensures id in old(receipts) && Patched(old(receipts)[id], patch, nowIso).userId !in old(users) ==>
        result == Failure(UserNotFound) && receipts == old(receipts) && users == old(users)
      ensures id in old(receipts) && Patched(old(receipts)[id], patch, nowIso).userId in old(users) ==>
        var before := old(receipts)[id];
        var after := Patched(before, patch, nowIso);
        && result == Success(after)
        && receipts == old(receipts)[id := after]
        && users == MovedCounters(old(users), before, after)
      ensures id in old(receipts) && (patch.userId.None? || patch.userId.value == old(receipts)[id].userId) ==>
        && result.Success?
        && users == AsWrittenCounters(old(users), old(receipts)[id], patch)
        && (forall u :: u in users ==> users[u].totalReceipts == old(users)[u].totalReceipts)
    {
      if id !in receipts {
        return Failure(ReceiptNotFound);
      }
      var before := receipts[id];
      var after := Patched(before, patch, nowIso);
      if after.userId !in users {
        return Failure(UserNotFound);
      }
      ghost var moved := MovedCounters(users, before, after);
      UpdateKeepsConsistent(receipts, users, id, after);
      if patch.userId.None? || patch.userId.value == before.userId {
        MovedAgreesWhenOwnerKept(users, before, patch, nowIso);
      }
      var counters := users;
      if after.userId == before.userId {
        if patch.totalAmount.Some? && patch.totalAmount.value != before.totalAmount {
          var difference := patch.totalAmount.value - before.totalAmount;
          var c := counters[before.userId];
          counters := counters[before.userId := Counters(c.totalReceipts, c.totalRevenue + difference)];
        }
      } else {
        var previous := counters[before.userId];
        counters := counters[before.userId := Counters(previous.totalReceipts - 1, previous.totalRevenue - before.totalAmount)];
        var next := counters[after.userId];
        counters := counters[after.userId := Counters(next.totalReceipts + 1, next.totalRevenue + after.totalAmount)];
      }
      assert counters == moved;
      receipts := receipts[id := after];
      users := counters;
      result := Success(after);
    }

    /** `deleteReceipt`: fails with nothing changed when the receipt does not exist; otherwise
        removes it and takes one receipt and its amount off its owner's counters. */
    method DeleteReceipt(id: string) returns (error: Option<StoreError>)
      requires Valid()
      modifies this
      ensures Valid()
      ensures id !in old(receipts) ==>
        error == Some(ReceiptNotFound) && receipts == old(receipts) && users == old(users)
      ensures id in old(receipts) ==>
        var r := old(receipts)[id];
        var c := old(users)[r.userId];
        && error.None?
        && receipts == old(receipts) - {id}
        && users == old(users)[r.userId := Counters(c.totalReceipts - 1, c.totalRevenue - r.totalAmount)]
    {
      if id !in receipts {
        return Some(ReceiptNotFound);
      }
      var r := receipts[id];
      DeleteKeepsConsistent(receipts, users, id);
      receipts := receipts - {id};
      var c := users[r.userId];
      users := users[r.userId := Counters(c.totalReceipts - 1, c.totalRevenue - r.totalAmount)];
      error := None;
    }
  }
}
