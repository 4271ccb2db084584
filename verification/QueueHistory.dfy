/** What any sequence of queue operations keeps: every id ever inserted is accounted for, ids stay
    unique, survivors keep their order, and a claimed item is frozen until it is released. */
module QueueHistory {
  import opened JsText
  import opened RequestQueue

  datatype Op =
    | Insert(position: Position, item: Item)
    | UpdateText(itemid: string, text: string, now: string)
    | Update(itemid: string, edit: Edit, now: string)
    | Delete(itemid: string)
    | ClaimNext(now: string)
    | Release(itemid: string)
    | Complete(itemid: string)
    | Clear

  function Apply(q: seq<Item>, op: Op): seq<Item> {
    match op
    case Insert(position, item) => Inserted(q, position, item)
    case UpdateText(itemid, text, now) => Retexted(q, itemid, text, now)
    case Update(itemid, edit, now) => Edited(q, itemid, edit, now)
    case Delete(itemid) => Without(q, itemid)
    case ClaimNext(now) => AfterClaim(q, now)
    case Release(itemid) => Released(q, itemid)
    case Complete(itemid) => Without(q, itemid)
    case Clear => []
  }

  function ApplyAll(q: seq<Item>, ops: seq<Op>): seq<Item>
    decreases |ops|
  {
    if ops == [] then q else ApplyAll(Apply(q, ops[0]), ops[1..])
  }

  /** The ids ever used, after one more operation. */
  ghost function Used(used: set<string>, op: Op): set<string> {
    if op.Insert? then used + {op.item.itemid} else used
  }

  ghost function UsedAfter(used: set<string>, ops: seq<Op>): set<string>
    decreases |ops|
  {
    if ops == [] then used else UsedAfter(Used(used, ops[0]), ops[1..])
  }

  ghost predicate BringsFreshId(used: set<string>, op: Op) {
    op.Insert? ==> op.item.itemid !in used
  }

  /** Every insertion brings an id that was never used before. */
  ghost predicate FreshIds(used: set<string>, ops: seq<Op>)
    decreases |ops|
  {
    ops != [] ==> BringsFreshId(used, ops[0]) && FreshIds(Used(used, ops[0]), ops[1..])
  }

  // ----- where ids go --------------------------------------------------------------------

  /** Ids by the way they left the queue. */
  datatype Fates = Fates(removed: set<string>, cleared: set<string>, pruned: set<string>)

  /** The ids operation `op` takes out of `q`, filed under the way it takes them. */
  ghost function Filed(fates: Fates, q: seq<Item>, op: Op): Fates {
    match op
    case Delete(itemid) => fates.(removed := fates.removed + {itemid} * Ids(q))
    case Complete(itemid) => fates.(removed := fates.removed + {itemid} * Ids(q))
    case Clear => fates.(cleared := fates.cleared + Ids(q))
    case ClaimNext(_) => fates.(pruned := fates.pruned + Ids(q[..|q| - |Pruned(q)|]))
    case _ => fates
  }

  ghost function FiledAll(fates: Fates, q: seq<Item>, ops: seq<Op>): Fates
    decreases |ops|
  {
    if ops == [] then fates else FiledAll(Filed(fates, q, ops[0]), Apply(q, ops[0]), ops[1..])
  }

  /** The used ids are the disjoint union of the ids present and of the three fates. */
  ghost predicate Accounted(used: set<string>, q: seq<Item>, fates: Fates) {
    && UniqueIds(q)
    && used == Ids(q) + fates.removed + fates.cleared + fates.pruned
    && Ids(q) !! fates.removed !! fates.cleared !! fates.pruned
  }

  lemma RemovalAccounts(used: set<string>, q: seq<Item>, fates: Fates, itemid: string)
    requires Accounted(used, q, fates)
    ensures Accounted(used, Without(q, itemid), fates.(removed := fates.removed + {itemid} * Ids(q)))
  {
    IdsOfWithout(q, itemid);
  }

  lemma ClaimAccounts(used: set<string>, q: seq<Item>, fates: Fates, now: string)
    requires Accounted(used, q, fates)
    ensures Accounted(used, AfterClaim(q, now), fates.(pruned := fates.pruned + Ids(q[..|q| - |Pruned(q)|])))
  {
    IdsOfClaim(q, now);
    PrunedIsSuffix(q);
    IdsOfSuffix(q, |q| - |Pruned(q)|);
  }

  lemma EditAccounts(used: set<string>, q: seq<Item>, q': seq<Item>, fates: Fates)
    requires Accounted(used, q, fates)
    requires Ids(q') == Ids(q) && UniqueIds(q')
    ensures Accounted(used, q', fates)
  {
  }

  lemma ApplyAccounts(used: set<string>, q: seq<Item>, fates: Fates, op: Op)
    requires Accounted(used, q, fates) && BringsFreshId(used, op)
    ensures Accounted(Used(used, op), Apply(q, op), Filed(fates, q, op))
  {
    if op.Insert? {
      IdsOfInserted(q, InsertIndex(q, op.position), op.item);
    } else if op.Delete? || op.Complete? {
      RemovalAccounts(used, q, fates, op.itemid);
    } else if op.ClaimNext? {
      ClaimAccounts(used, q, fates, op.now);
    } else if !op.Clear? {
      EditsKeepIds(q, op);
      EditAccounts(used, q, Apply(q, op), fates);
    }
  }

  /** Edits and releases change no id and no position. */
  lemma EditsKeepIds(q: seq<Item>, op: Op)
    requires UniqueIds(q) && (op.UpdateText? || op.Update? || op.Release?)
    ensures Ids(Apply(q, op)) == Ids(q) && UniqueIds(Apply(q, op))
    ensures |Apply(q, op)| == |q| && forall i | 0 <= i < |q| :: Apply(q, op)[i].itemid == q[i].itemid
  {
    match op
    case UpdateText(itemid, text, now) =>
      IdsOfEdits(q, itemid, text, Edit(text, Model("", None), None, {}, []), now);
    case Update(itemid, edit, now) => IdsOfEdits(q, itemid, edit.text, edit, now);
    case Release(itemid) => IdsOfReleased(q, itemid);
  }

  /** Conservation, over every sequence of operations. */
  lemma {:induction false} IdsConserved(used: set<string>, q: seq<Item>, fates: Fates, ops: seq<Op>)
    requires Accounted(used, q, fates) && FreshIds(used, ops)
    ensures Accounted(UsedAfter(used, ops), ApplyAll(q, ops), FiledAll(fates, q, ops))
    decreases |ops|
  {
    if ops != [] {
      ApplyAccounts(used, q, fates, ops[0]);
      IdsConserved(Used(used, ops[0]), Apply(q, ops[0]), Filed(fates, q, ops[0]), ops[1..]);
    }
  }

  /** Only empty, unclaimed items are ever pruned. */
  lemma PrunedWereEmpty(q: seq<Item>, id: string)
    requires id in Ids(q[..|q| - |Pruned(q)|])
    ensures exists i :: 0 <= i < |q| && q[i].itemid == id && q[i].Empty() && !q[i].Claimed()
  {
    PrunedIsSuffix(q);
    var p := q[..|q| - |Pruned(q)|];
    var i :| 0 <= i < |p| && p[i].itemid == id;
    assert q[i] == p[i];
  }

  // ----- order ---------------------------------------------------------------------------

  /** The ids of `q` that lie in `keep`, in queue order. */
  ghost function OrderOf(q: seq<Item>, keep: set<string>): seq<string> {
    if q == [] then []
    else (if q[0].itemid in keep then [q[0].itemid] else []) + OrderOf(q[1..], keep)
  }

  lemma {:induction false} OrderOfConcat(a: seq<Item>, b: seq<Item>, keep: set<string>)
    ensures OrderOf(a + b, keep) == OrderOf(a, keep) + OrderOf(b, keep)
  {
    if a == [] {
      assert a + b == b;
    } else {
      assert (a + b)[1..] == a[1..] + b;
      OrderOfConcat(a[1..], b, keep);
      Assoc(if a[0].itemid in keep then [a[0].itemid] else [], OrderOf(a[1..], keep), OrderOf(b, keep));
    }
  }

  lemma {:induction false} OrderOfSameIds(a: seq<Item>, b: seq<Item>, keep: set<string>)
    requires |a| == |b| && forall i | 0 <= i < |a| :: a[i].itemid == b[i].itemid
    ensures OrderOf(a, keep) == OrderOf(b, keep)
  {
    if a != [] { OrderOfSameIds(a[1..], b[1..], keep); }
  }

  lemma {:induction false} OrderOfNone(a: seq<Item>, keep: set<string>)
    requires forall i | 0 <= i < |a| :: a[i].itemid !in keep
    ensures OrderOf(a, keep) == []
  {
    if a != [] { OrderOfNone(a[1..], keep); }
  }

  lemma {:induction false} OrderOfWithout(q: seq<Item>, itemid: string, keep: set<string>)
    requires itemid !in keep
    ensures OrderOf(Without(q, itemid), keep) == OrderOf(q, keep)
  {
    if q != [] { OrderOfWithout(q[1..], itemid, keep); }
  }

  lemma InsertKeepsOrder(q: seq<Item>, k: nat, item: Item, keep: set<string>)
    requires k <= |q| && item.itemid !in keep
    ensures OrderOf(InsertedAt(q, k, item), keep) == OrderOf(q, keep)
  {
    Halves(q, k);
    InsertBetween(q[..k], q[k..], item, keep);
  }

  lemma InsertBetween(a: seq<Item>, b: seq<Item>, item: Item, keep: set<string>)
    requires item.itemid !in keep
    ensures OrderOf(a + [item] + b, keep) == OrderOf(a + b, keep)
  {
    OrderOfConcat(a, b, keep);
    OrderOfConcat(a + [item], b, keep);
    OrderOfConcat(a, [item], keep);
    OrderOfNone([item], keep);
    assert OrderOf(a, keep) + [] == OrderOf(a, keep);
  }

  lemma DropKeepsOrder(q: seq<Item>, d: nat, keep: set<string>)
    requires d <= |q| && UniqueIds(q) && keep <= Ids(q[d..])
    ensures OrderOf(q[d..], keep) == OrderOf(q, keep)
  {
    IdsOfSuffix(q, d);
    forall i | 0 <= i < d ensures q[..d][i].itemid !in keep {
      assert q[..d][i].itemid in Ids(q[..d]);
    }
    OrderOfNone(q[..d], keep);
    OrderOfConcat(q[..d], q[d..], keep);
    assert q == q[..d] + q[d..];
  }

  lemma PruneKeepsOrder(q: seq<Item>, keep: set<string>)
    requires UniqueIds(q) && keep <= Ids(Pruned(q))
    ensures OrderOf(Pruned(q), keep) == OrderOf(q, keep)
  {
    PrunedIsSuffix(q);
    DropKeepsOrder(q, |q| - |Pruned(q)|, keep);
  }

  lemma MarkKeepsOrder(q: seq<Item>, now: string, keep: set<string>)
    ensures OrderOf(AfterClaim(q, now), keep) == OrderOf(Pruned(q), keep)
  {
    OrderOfSameIds(Pruned(q), AfterClaim(q, now), keep);
  }

  lemma ClaimKeepsOrder(q: seq<Item>, now: string, keep: set<string>)
    requires UniqueIds(q) && keep <= Ids(AfterClaim(q, now))
    ensures keep <= Ids(q) && OrderOf(AfterClaim(q, now), keep) == OrderOf(q, keep)
  {
    IdsOfClaim(q, now);
    PruneKeepsOrder(q, keep);
    MarkKeepsOrder(q, now, keep);
  }

  lemma ApplyKeepsOrder(used: set<string>, q: seq<Item>, op: Op, keep: set<string>)
    requires UniqueIds(q) && Ids(q) <= used && BringsFreshId(used, op)
    requires keep <= used && keep <= Ids(Apply(q, op))
    ensures keep <= Ids(q)
    ensures OrderOf(Apply(q, op), keep) == OrderOf(q, keep)
  {
    if op.Insert? {
      IdsOfInserted(q, InsertIndex(q, op.position), op.item);
      InsertKeepsOrder(q, InsertIndex(q, op.position), op.item, keep);
    } else if op.Delete? || op.Complete? {
      IdsOfWithout(q, op.itemid);
      OrderOfWithout(q, op.itemid, keep);
    } else if op.ClaimNext? {
      ClaimKeepsOrder(q, op.now, keep);
    } else if op.Clear? {
      OrderOfNone(q, keep);
    } else {
      EditsKeepIds(q, op);
      OrderOfSameIds(q, Apply(q, op), keep);
    }
  }

  /** Items that were there before and are there after stand in the same order, and none of them
      was away in between. */
  lemma {:induction false} SurvivorsKeepOrder(used: set<string>, q: seq<Item>, ops: seq<Op>, keep: set<string>)
    requires UniqueIds(q) && Ids(q) <= used && FreshIds(used, ops)
    requires keep <= used && keep <= Ids(ApplyAll(q, ops))
    ensures keep <= Ids(q)
    ensures OrderOf(ApplyAll(q, ops), keep) == OrderOf(q, keep)
    decreases |ops|
  {
    if ops != [] {
      ApplyAccounts(used, q, Fates(used - Ids(q), {}, {}), ops[0]);
      SurvivorsKeepOrder(Used(used, ops[0]), Apply(q, ops[0]), ops[1..], keep);
      ApplyKeepsOrder(used, q, ops[0], keep);
    }
  }

  // ----- frozen claims -------------------------------------------------------------------

  lemma {:induction false} WithoutKeeps(q: seq<Item>, itemid: string, x: Item)
    requires x in q && x.itemid != itemid
    ensures x in Without(q, itemid)
  {
    if q[0] != x { WithoutKeeps(q[1..], itemid, x); }
  }

  lemma ClaimFreezes(q: seq<Item>, now: string, x: Item, k: nat)
    requires UniqueIds(q) && k < |q| && q[k] == x && x.Claimed() && x.itemid in Ids(AfterClaim(q, now))
    ensures x in AfterClaim(q, now)
    ensures Claim(q, now).Some? ==> Claim(q, now).value.itemid != x.itemid
  {
    var p := Pruned(q);
    var d := |q| - |p|;
    PrunedIsSuffix(q);
    assert p[k - d] == x;
    IdsOfSuffix(q, d);
    var f := FirstRunnable(p);
    if f < |p| { assert f != k - d; }
    assert AfterClaim(q, now)[k - d] == x;
  }

  lemma ApplyFreezesClaim(q: seq<Item>, op: Op, x: Item)
    requires UniqueIds(q) && x in q && x.Claimed()
    requires op != Release(x.itemid) && (op.Insert? ==> op.item.itemid !in Ids(q))
    requires x.itemid in Ids(Apply(q, op))
    ensures x in Apply(q, op)
    ensures op.ClaimNext? && Claim(q, op.now).Some? ==> Claim(q, op.now).value.itemid != x.itemid
  {
    var k :| 0 <= k < |q| && q[k] == x;
    match op
    case Insert(position, item) =>
      var j := InsertIndex(q, position);
      assert Apply(q, op)[if k < j then k else k + 1] == x;
    case UpdateText(itemid, text, now) => assert Apply(q, op)[k] == x;
    case Update(itemid, edit, now) => assert Apply(q, op)[k] == x;
    case Delete(itemid) => IdsOfWithout(q, itemid); WithoutKeeps(q, itemid, x);
    case ClaimNext(now) => ClaimFreezes(q, now, x, k);
    case Release(itemid) => assert Apply(q, op)[k] == x;
    case Complete(itemid) => IdsOfWithout(q, itemid); WithoutKeeps(q, itemid, x);
    case Clear =>
  }

  /** As long as a claimed item is present and not released, no operation changes it, and no
      claim hands it out again. */
  lemma {:induction false} ClaimedItemFrozen(used: set<string>, q: seq<Item>, ops: seq<Op>, x: Item)
    requires UniqueIds(q) && Ids(q) <= used && FreshIds(used, ops)
    requires x in q && x.Claimed() && Release(x.itemid) !in ops
    requires x.itemid in Ids(ApplyAll(q, ops))
    ensures x in ApplyAll(q, ops)
    decreases |ops|
  {
    if ops != [] {
      ApplyAccounts(used, q, Fates(used - Ids(q), {}, {}), ops[0]);
      SurvivorsKeepOrder(Used(used, ops[0]), Apply(q, ops[0]), ops[1..], {x.itemid});
      ApplyFreezesClaim(q, ops[0], x);
      ClaimedItemFrozen(Used(used, ops[0]), Apply(q, ops[0]), ops[1..], x);
    }
  }
}
