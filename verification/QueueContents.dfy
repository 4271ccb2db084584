/** What the operations on a queue do to its items: where a new one stands, what an edit changes, and
    that nothing else changes more than the mark of a claim. */
module QueueContents {
  import opened JsText
  import opened RequestQueue
  import opened QueueHistory

  /** A new item stands where the position says: first, last, or right beside its anchor; last, if the
      anchor is not queued. The other items stay as they are. */
  lemma InsertedWhereAsked(q: seq<Item>, position: Position, item: Item) returns (k: nat)
    requires UniqueIds(q) && item.itemid !in Ids(q)
    ensures k <= |q| && Inserted(q, position, item)[k] == item
    ensures Inserted(q, position, item)[..k] == q[..k] && Inserted(q, position, item)[k + 1..] == q[k..]
    ensures position.Front? ==> k == 0
    ensures position.End? ==> k == |q|
    ensures position.Before? && position.itemid in Ids(q) ==> k < |q| && q[k].itemid == position.itemid
    ensures position.After? && position.itemid in Ids(q) ==> k > 0 && q[k - 1].itemid == position.itemid
    ensures (position.Before? || position.After?) && position.itemid !in Ids(q) ==> k == |q|
  {
    k := InsertIndex(q, position);
  }

  /** A new request is unclaimed, and can run unless it is empty. */
  lemma NewItemWaits(input: Enqueue, itemid: string, now: string, rewrite: string -> string)
    ensures
      var item := NewItem(input, itemid, now, rewrite);
      && !item.Claimed() && item.itemid == itemid && item.sessionid == input.sessionid
      && item.text == rewrite(input.text) && item.attachments == input.attachments && item.model == input.model
      && (item.Runnable() <==> !Blank(rewrite(input.text)) || input.attachments != [])
  {
  }

  /** `a` can be sent with the model: images as images, everything else as files; a model that says
      nothing about it takes text only. */
  predicate Sendable(model: Model, a: Attachment) {
    model.modalities.Some? &&
    if IsImage(a.reference.mimeType) then "image" in model.modalities.value else "file" in model.modalities.value
  }

  lemma SupportsIsSendable(model: Model, a: Attachment)
    ensures Supports(model, a) <==> Sendable(model, a)
  {
    if model.modalities.None? {
      assert |"text"| != |"image"|;
      assert ["text"][0] != "file";
    }
  }

  /** An edit changes one unclaimed item: its text and model, and its attachments to those kept and
      those added, as far as the model takes them. Its place, its id and its times of creation and
      claim stay, and so do all other items. */
  lemma EditedAsAsked(q: seq<Item>, itemid: string, edit: Edit, now: string, i: nat)
    requires UniqueIds(q) && i < |q|
    ensures
      var old_, new_ := q[i], Edited(q, itemid, edit, now)[i];
      if old_.itemid == itemid && !old_.Claimed() then
        && new_.itemid == old_.itemid && new_.sessionid == old_.sessionid && new_.createdat == old_.createdat
        && new_.claimedat == old_.claimedat && new_.text == edit.text && new_.model == edit.model
        && forall a :: a in new_.attachments <==>
             Sendable(edit.model, a) && ((a in old_.attachments && a.attachmentid in edit.keep) || a in edit.added)
      else new_ == old_
  {
    var new_ := Edited(q, itemid, edit, now)[i];
    if q[i].itemid == itemid && !q[i].Claimed() {
      assert IndexOfId(q, itemid) == i;
      forall a ensures a in new_.attachments <==>
          Sendable(edit.model, a) && ((a in q[i].attachments && a.attachmentid in edit.keep) || a in edit.added)
      {
        SupportsIsSendable(edit.model, a);
      }
    }
  }

  lemma RetextedAsAsked(q: seq<Item>, itemid: string, text: string, now: string, i: nat)
    requires UniqueIds(q) && i < |q|
    ensures Retexted(q, itemid, text, now)[i] ==
            if q[i].itemid == itemid && !q[i].Claimed() then q[i].(text := text, updatedat := now) else q[i]
  {
    if q[i].itemid == itemid { assert IndexOfId(q, itemid) == i; }
  }

  /** The item was there before, as it is but for the mark of its claim. */
  ghost predicate WasThere(q: seq<Item>, x: Item) {
    exists y :: y in q && y.(claimedat := x.claimedat) == x
  }

  lemma {:induction false} WithoutWasThere(q: seq<Item>, itemid: string, x: Item)
    requires x in Without(q, itemid)
    ensures x in q
  {
    if x != q[0] || q[0].itemid == itemid { WithoutWasThere(q[1..], itemid, x); }
  }

  lemma ClaimWasThere(q: seq<Item>, now: string, x: Item)
    requires x in AfterClaim(q, now)
    ensures WasThere(q, x)
  {
    var p := Pruned(q);
    PrunedIsSuffix(q);
    var i :| 0 <= i < |p| && AfterClaim(q, now)[i] == x;
    assert p[i] in q && p[i].(claimedat := x.claimedat) == x;
  }

  /** Nothing but an insertion brings an item, and nothing but an edit changes more of one than the mark
      of its claim. */
  lemma OnlyMarksChange(q: seq<Item>, op: Op, x: Item)
    requires !op.Insert? && !op.UpdateText? && !op.Update? && x in Apply(q, op)
    ensures WasThere(q, x)
  {
    match op
    case Delete(itemid) =>
      WithoutWasThere(q, itemid, x);
      assert x.(claimedat := x.claimedat) == x;
    case Complete(itemid) =>
      WithoutWasThere(q, itemid, x);
      assert x.(claimedat := x.claimedat) == x;
    case ClaimNext(now) => ClaimWasThere(q, now, x);
    case Release(itemid) =>
      var i :| 0 <= i < |q| && Released(q, itemid)[i] == x;
      assert q[i].(claimedat := x.claimedat) == x;
    case _ =>
  }
}
