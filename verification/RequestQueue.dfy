/** The in-memory queue of pending requests kept for every session.

    A queue is a sequence of items. A claimed item stays in its queue until it is completed
    (removed) or released; only unclaimed items are shown to clients or edited.
    The functions give the queue each operation leaves behind; `Registry` performs them. */
module RequestQueue {
  import opened JsText

  datatype Attachment = Attachment(attachmentid: string, reference: Reference)
  datatype Reference = Reference(kind: string, path: string, name: string, mimeType: string, size: int)
  datatype Model = Model(name: string, modalities: Option<seq<string>>)
  datatype ModelSource = SessionDefault | ClientSelected | ToolDefault
  datatype Position = Front | End | Before(itemid: string) | After(itemid: string)

  datatype Item = Item(
    itemid: string, sessionid: string, text: string, attachments: seq<Attachment>,
    model: Model, modelSource: Option<ModelSource>, modelUpdatedAt: Option<string>,
    createdat: string, updatedat: string, claimedat: Option<string>)
  {
    /** An empty time stamp counts as no claim, because the field is tested for truth. */
    predicate Claimed() { claimedat.Some? && claimedat.value != "" }

    predicate Empty() { Blank(text) && attachments == [] }

    predicate Runnable() { !Claimed() && !Empty() }
  }

  /** What a claim hands out: the item with its attachments reduced to references. */
  datatype ClaimedRequest = ClaimedRequest(item: Item, references: seq<Reference>)

  /** What a request is queued with. */
  datatype Enqueue = Enqueue(
    sessionid: string, text: string, attachments: seq<Attachment>, model: Model, modelSource: Option<ModelSource>)

  datatype Edit = Edit(
    text: string, model: Model, modelSource: Option<ModelSource>, keep: set<string>, added: seq<Attachment>)

  // ----- attachments ---------------------------------------------------------------------

  function Lower(c: char): char {
    if 'A' <= c <= 'Z' then (c as int + 32) as char else c
  }

  predicate IsImage(mimeType: string) {
    |mimeType| >= 6 && seq(6, i requires 0 <= i < 6 => Lower(mimeType[i])) == "image/"
  }

  predicate Supports(model: Model, attachment: Attachment) {
    var modalities := if model.modalities.Some? then model.modalities.value else ["text"];
    (if IsImage(attachment.reference.mimeType) then "image" else "file") in modalities
  }

  function Kept(attachments: seq<Attachment>, keep: set<string>, model: Model): (r: seq<Attachment>)
    ensures forall a :: a in r <==> a in attachments && a.attachmentid in keep && Supports(model, a)
  {
    if attachments == [] then []
    else
      var rest := Kept(attachments[1..], keep, model);
      if attachments[0].attachmentid in keep && Supports(model, attachments[0])
      then [attachments[0]] + rest else rest
  }

  function Supported(attachments: seq<Attachment>, model: Model): (r: seq<Attachment>)
    ensures forall a :: a in r <==> a in attachments && Supports(model, a)
  {
    if attachments == [] then []
    else
      var rest := Supported(attachments[1..], model);
      if Supports(model, attachments[0]) then [attachments[0]] + rest else rest
  }

  /** The item of a new request; `rewrite` takes internal markers out of its text. */
  function NewItem(input: Enqueue, itemid: string, now: string, rewrite: string -> string): Item {
    Item(itemid, input.sessionid, rewrite(input.text), input.attachments, input.model, input.modelSource,
         if input.modelSource.Some? then Some(now) else None, now, now, None)
  }

  // ----- queues --------------------------------------------------------------------------

  ghost function Ids(q: seq<Item>): set<string> {
    set i | 0 <= i < |q| :: q[i].itemid
  }

  ghost function ClaimedIds(q: seq<Item>): set<string> {
    set i | 0 <= i < |q| && q[i].Claimed() :: q[i].itemid
  }

  predicate UniqueIds(q: seq<Item>) {
    forall i, j | 0 <= i < j < |q| :: q[i].itemid != q[j].itemid
  }

  function IndexOfId(q: seq<Item>, itemid: string): (k: nat)
    ensures k <= |q|
    ensures k < |q| ==> q[k].itemid == itemid
    ensures k < |q| <==> itemid in Ids(q)
  {
    if q == [] || q[0].itemid == itemid then 0
    else
      var k := IndexOfId(q[1..], itemid);
      assert forall i | 1 <= i < |q| :: q[i] == q[1..][i - 1];
      k + 1
  }

  function InsertIndex(q: seq<Item>, position: Position): (k: nat)
    ensures k <= |q|
  {
    match position
    case Front => 0
    case End => |q|
    case Before(anchor) => IndexOfId(q, anchor)
    case After(anchor) => var k := IndexOfId(q, anchor); if k == |q| then |q| else k + 1
  }

  function InsertedAt(q: seq<Item>, k: nat, item: Item): (r: seq<Item>)
    requires k <= |q|
    ensures |r| == |q| + 1
  {
    q[..k] + [item] + q[k..]
  }

  function Inserted(q: seq<Item>, position: Position, item: Item): (r: seq<Item>)
    ensures |r| == |q| + 1
  {
    InsertedAt(q, InsertIndex(q, position), item)
  }

  function Without(q: seq<Item>, itemid: string): (r: seq<Item>)
    ensures |r| <= |q|
    ensures |r| == |q| ==> r == q
  {
    if q == [] then []
    else if q[0].itemid == itemid then Without(q[1..], itemid)
    else [q[0]] + Without(q[1..], itemid)
  }

  predicate Editable(q: seq<Item>, itemid: string) {
    var k := IndexOfId(q, itemid);
    k < |q| && !q[k].Claimed()
  }

  function Retexted(q: seq<Item>, itemid: string, text: string, now: string): (r: seq<Item>)
    ensures |r| == |q|
  {
    var k := IndexOfId(q, itemid);
    if Editable(q, itemid) then q[k := q[k].(text := text, updatedat := now)] else q
  }

  function EditedItem(item: Item, edit: Edit, now: string): Item {
    item.(text := edit.text, model := edit.model, modelSource := edit.modelSource, modelUpdatedAt := Some(now),
          attachments := Kept(item.attachments, edit.keep, edit.model) + Supported(edit.added, edit.model),
          updatedat := now)
  }

  function Edited(q: seq<Item>, itemid: string, edit: Edit, now: string): (r: seq<Item>)
    ensures |r| == |q|
  {
    var k := IndexOfId(q, itemid);
    if Editable(q, itemid) then q[k := EditedItem(q[k], edit, now)] else q
  }

  /** Drops the empty items in front of the first item that is claimed or has something to send. */
  function Pruned(q: seq<Item>): (r: seq<Item>)
    ensures |r| <= |q|
  {
    if q != [] && !q[0].Claimed() && q[0].Empty() then Pruned(q[1..]) else q
  }

  lemma {:induction false} PrunedIsSuffix(q: seq<Item>)
    ensures
      var p := Pruned(q);
      && p == q[|q| - |p|..]
      && (p != [] ==> p[0].Claimed() || !p[0].Empty())
      && forall i | 0 <= i < |q| - |p| :: !q[i].Claimed() && q[i].Empty()
  {
    if q != [] && !q[0].Claimed() && q[0].Empty() {
      PrunedIsSuffix(q[1..]);
      assert forall i | 1 <= i < |q| :: q[i] == q[1..][i - 1];
    }
  }

  function FirstRunnable(q: seq<Item>): (k: nat)
    ensures k <= |q|
    ensures k < |q| ==> q[k].Runnable()
  {
    if q == [] || q[0].Runnable() then 0 else FirstRunnable(q[1..]) + 1
  }

  lemma {:induction false} FirstRunnableIsFirst(q: seq<Item>)
    ensures forall i | 0 <= i < FirstRunnable(q) :: !q[i].Runnable()
  {
    if q != [] && !q[0].Runnable() {
      FirstRunnableIsFirst(q[1..]);
      assert forall i | 1 <= i < |q| :: q[i] == q[1..][i - 1];
    }
  }

  function AfterClaim(q: seq<Item>, now: string): (r: seq<Item>)
    ensures |r| <= |q|
  {
    var p := Pruned(q);
    var k := FirstRunnable(p);
    if k < |p| then p[k := p[k].(claimedat := Some(now))] else p
  }

  function Claim(q: seq<Item>, now: string): Option<Item> {
    var p := Pruned(q);
    var k := FirstRunnable(p);
    if k < |p| then Some(p[k].(claimedat := Some(now))) else None
  }

  function Released(q: seq<Item>, itemid: string): (r: seq<Item>)
    ensures |r| == |q|
  {
    var k := IndexOfId(q, itemid);
    if k < |q| && q[k].Claimed() then q[k := q[k].(claimedat := None)] else q
  }

  function Visible(q: seq<Item>): (r: seq<Item>)
    ensures forall x :: x in r <==> x in q && !x.Claimed()
  {
    if q == [] then [] else (if q[0].Claimed() then [] else [q[0]]) + Visible(q[1..])
  }

  /** `at` lists, in rising order, exactly the places of the unclaimed items. */
  ghost predicate UnclaimedAt(q: seq<Item>, at: seq<nat>) {
    && (forall i, j | 0 <= i < j < |at| :: at[i] < at[j])
    && (forall i | 0 <= i < |at| :: at[i] < |q|)
    && (forall k | 0 <= k < |q| :: k in at <==> !q[k].Claimed())
  }

  /** What clients see are the unclaimed items, each at its turn. */
  lemma {:induction false} VisibleInOrder(q: seq<Item>) returns (at: seq<nat>)
    ensures UnclaimedAt(q, at) && |Visible(q)| == |at| && forall i | 0 <= i < |at| :: Visible(q)[i] == q[at[i]]
  {
    if q == [] {
      at := [];
    } else {
      var rest := VisibleInOrder(q[1..]);
      var moved := seq(|rest|, i requires 0 <= i < |rest| => rest[i] + 1);
      at := (if q[0].Claimed() then [] else [0]) + moved;
      PlacesAfterFirst(q, rest, moved);
      ItemsAfterFirst(q, Visible(q[1..]), rest, moved);
    }
  }

  lemma ItemsAfterFirst(q: seq<Item>, items: seq<Item>, rest: seq<nat>, moved: seq<nat>)
    requires q != [] && |items| == |rest| == |moved|
    requires forall i | 0 <= i < |rest| :: rest[i] < |q| - 1 && items[i] == q[1..][rest[i]] && moved[i] == rest[i] + 1
    ensures
      var all, at := (if q[0].Claimed() then [] else [q[0]]) + items, (if q[0].Claimed() then [] else [0]) + moved;
      |all| == |at| && forall i | 0 <= i < |at| :: at[i] < |q| && all[i] == q[at[i]]
  {
    assert forall i | 0 <= i < |rest| :: q[1..][rest[i]] == q[moved[i]];
  }

  lemma PlacesAfterFirst(q: seq<Item>, rest: seq<nat>, moved: seq<nat>)
    requires q != [] && UnclaimedAt(q[1..], rest)
    requires |moved| == |rest| && forall i | 0 <= i < |rest| :: moved[i] == rest[i] + 1
    ensures UnclaimedAt(q, (if q[0].Claimed() then [] else [0]) + moved)
  {
    forall k | 0 < k < |q| ensures k in moved <==> !q[k].Claimed() {
      assert q[k] == q[1..][k - 1];
      if k - 1 in rest {
        var i :| 0 <= i < |rest| && rest[i] == k - 1;
        assert moved[i] == k;
      }
    }
  }

  /** What clients see is what they may edit. */
  lemma VisibleIsEditable(q: seq<Item>, itemid: string)
    requires UniqueIds(q)
    ensures itemid in Ids(Visible(q)) <==> Editable(q, itemid)
  {
    var k := IndexOfId(q, itemid);
    if itemid in Ids(Visible(q)) {
      var i :| 0 <= i < |Visible(q)| && Visible(q)[i].itemid == itemid;
      assert Visible(q)[i] in q;
    }
    if Editable(q, itemid) {
      assert q[k] in Visible(q);
    }
  }

  /** The claim takes the first runnable item of the queue as it was: the pruned items in front
      are not runnable, and nothing that could run is passed over. */
  lemma {:induction false} ClaimTakesFirstRunnable(q: seq<Item>, now: string)
    ensures FirstRunnable(q) == |q| - |Pruned(q)| + FirstRunnable(Pruned(q))
    ensures Claim(q, now) ==
            if FirstRunnable(q) < |q| then Some(q[FirstRunnable(q)].(claimedat := Some(now))) else None
  {
    if q != [] && !q[0].Claimed() && q[0].Empty() {
      ClaimTakesFirstRunnable(q[1..], now);
    }
  }

  // ----- which ids, and which claims, an operation leaves -------------------------------

  lemma InsertedIsUnique(q: seq<Item>, k: nat, item: Item)
    requires k <= |q| && UniqueIds(q) && item.itemid !in Ids(q)
    ensures UniqueIds(InsertedAt(q, k, item))
  {
    var r := InsertedAt(q, k, item);
    forall i, j | 0 <= i < j < |r| ensures r[i].itemid != r[j].itemid {
      var i', j' := if i < k then i else i - 1, if j < k then j else j - 1;
      assert i != k ==> r[i] == q[i'] && q[i'].itemid in Ids(q);
      assert j != k ==> r[j] == q[j'] && q[j'].itemid in Ids(q);
    }
  }

  lemma IdsOfInserted(q: seq<Item>, k: nat, item: Item)
    requires k <= |q| && UniqueIds(q) && item.itemid !in Ids(q)
    ensures Ids(InsertedAt(q, k, item)) == Ids(q) + {item.itemid}
    ensures ClaimedIds(InsertedAt(q, k, item)) == ClaimedIds(q) + if item.Claimed() then {item.itemid} else {}
    ensures UniqueIds(InsertedAt(q, k, item))
  {
    InsertedIsUnique(q, k, item);
    IdsOfConcat(q[..k], [item]);
    IdsOfConcat(q[..k] + [item], q[k..]);
    IdsOfConcat(q[..k], q[k..]);
    assert q == q[..k] + q[k..];
    assert Ids([item]) == {item.itemid} && ClaimedIds([item]) == if item.Claimed() then {item.itemid} else {} by {
      assert [item][0] == item;
    }
  }

  lemma IdsOfConcat(a: seq<Item>, b: seq<Item>)
    ensures Ids(a + b) == Ids(a) + Ids(b)
    ensures ClaimedIds(a + b) == ClaimedIds(a) + ClaimedIds(b)
  {
    var r := a + b;
    assert forall i | 0 <= i < |a| :: r[i] == a[i];
    assert forall i | 0 <= i < |b| :: r[|a| + i] == b[i];
  }

  lemma {:induction false} WithoutLosesId(q: seq<Item>, itemid: string)
    ensures Ids(Without(q, itemid)) == Ids(q) - {itemid}
    ensures ClaimedIds(Without(q, itemid)) == ClaimedIds(q) - {itemid}
  {
    if q != [] {
      WithoutLosesId(q[1..], itemid);
      assert q == [q[0]] + q[1..];
      IdsOfCons(q[0], q[1..]);
      if q[0].itemid != itemid {
        IdsOfCons(q[0], Without(q[1..], itemid));
      }
    }
  }

  lemma {:induction false} WithoutIsUnique(q: seq<Item>, itemid: string)
    requires UniqueIds(q)
    ensures UniqueIds(Without(q, itemid))
  {
    if q != [] {
      assert q == [q[0]] + q[1..];
      UniqueTail(q[0], q[1..]);
      WithoutIsUnique(q[1..], itemid);
      if q[0].itemid != itemid {
        WithoutLosesId(q[1..], itemid);
        UniqueCons(q[0], Without(q[1..], itemid));
      }
    }
  }

  lemma IdsOfWithout(q: seq<Item>, itemid: string)
    ensures Ids(Without(q, itemid)) == Ids(q) - {itemid}
    ensures ClaimedIds(Without(q, itemid)) == ClaimedIds(q) - {itemid}
    ensures UniqueIds(q) ==> UniqueIds(Without(q, itemid))
    ensures |Without(q, itemid)| < |q| <==> itemid in Ids(q)
  {
    WithoutLosesId(q, itemid);
    if UniqueIds(q) {
      WithoutIsUnique(q, itemid);
    }
    if itemid !in Ids(q) {
      WithoutAbsent(q, itemid);
    }
  }

  lemma {:induction false} WithoutAbsent(q: seq<Item>, itemid: string)
    requires forall i | 0 <= i < |q| :: q[i].itemid != itemid
    ensures Without(q, itemid) == q
  {
    if q != [] {
      WithoutAbsent(q[1..], itemid);
    }
  }

  lemma IdsOfCons(x: Item, q: seq<Item>)
    ensures Ids([x] + q) == {x.itemid} + Ids(q)
    ensures ClaimedIds([x] + q) == (if x.Claimed() then {x.itemid} else {}) + ClaimedIds(q)
  {
    var r := [x] + q;
    assert r[0] == x;
    assert forall i | 0 <= i < |q| :: q[i] == r[i + 1];
    assert forall i | 1 <= i < |r| :: r[i] == q[i - 1];
  }

  lemma UniqueTail(x: Item, q: seq<Item>)
    requires UniqueIds([x] + q)
    ensures UniqueIds(q) && x.itemid !in Ids(q)
  {
    var r := [x] + q;
    assert forall i | 0 <= i < |q| :: q[i] == r[i + 1];
    assert r[0] == x;
  }

  lemma UniqueCons(x: Item, q: seq<Item>)
    requires UniqueIds(q) && x.itemid !in Ids(q)
    ensures UniqueIds([x] + q)
  {
    forall i, j | 0 <= i < j < |[x] + q| ensures ([x] + q)[i].itemid != ([x] + q)[j].itemid {
      assert q[j - 1].itemid in Ids(q);
    }
  }

  /** Replacing one item by one with the same id. */
  lemma IdsOfReplaced(q: seq<Item>, k: nat, item: Item)
    requires k < |q| && item.itemid == q[k].itemid && UniqueIds(q)
    ensures Ids(q[k := item]) == Ids(q) && UniqueIds(q[k := item])
    ensures ClaimedIds(q[k := item]) == ClaimedIds(q) - {item.itemid} + if item.Claimed() then {item.itemid} else {}
  {
    var r := q[k := item];
    assert forall i | 0 <= i < |q| :: r[i].itemid == q[i].itemid;
    forall id | id in Ids(q) ensures id in Ids(r) {
      var i :| 0 <= i < |q| && q[i].itemid == id;
      assert r[i].itemid == id;
    }
    var c := ClaimedIds(q) - {item.itemid} + if item.Claimed() then {item.itemid} else {};
    forall id | id in c ensures id in ClaimedIds(r) {
      if id != item.itemid {
        var i :| 0 <= i < |q| && q[i].Claimed() && q[i].itemid == id;
        assert r[i] == q[i];
      } else {
        assert r[k] == item;
      }
    }
    forall id | id in ClaimedIds(r) ensures id in c {
      var i :| 0 <= i < |r| && r[i].Claimed() && r[i].itemid == id;
      if i != k { assert r[i] == q[i] && q[i].itemid != q[k].itemid; }
    }
  }

  lemma IdsOfEdits(q: seq<Item>, itemid: string, text: string, edit: Edit, now: string)
    requires UniqueIds(q)
    ensures Ids(Retexted(q, itemid, text, now)) == Ids(q) && UniqueIds(Retexted(q, itemid, text, now))
    ensures ClaimedIds(Retexted(q, itemid, text, now)) == ClaimedIds(q)
    ensures Ids(Edited(q, itemid, edit, now)) == Ids(q) && UniqueIds(Edited(q, itemid, edit, now))
    ensures ClaimedIds(Edited(q, itemid, edit, now)) == ClaimedIds(q)
  {
    var k := IndexOfId(q, itemid);
    if Editable(q, itemid) {
      ClaimedAtIndex(q, k);
      IdsOfReplaced(q, k, q[k].(text := text, updatedat := now));
      IdsOfReplaced(q, k, EditedItem(q[k], edit, now));
    }
  }

  lemma ClaimedAtIndex(q: seq<Item>, k: nat)
    requires k < |q| && UniqueIds(q)
    ensures q[k].Claimed() <==> q[k].itemid in ClaimedIds(q)
  {
  }

  lemma IdsOfReleased(q: seq<Item>, itemid: string)
    requires UniqueIds(q)
    ensures Ids(Released(q, itemid)) == Ids(q) && UniqueIds(Released(q, itemid))
    ensures ClaimedIds(Released(q, itemid)) == ClaimedIds(q) - {itemid}
  {
    var k := IndexOfId(q, itemid);
    if k < |q| {
      ClaimedAtIndex(q, k);
      if q[k].Claimed() {
        IdsOfReplaced(q, k, q[k].(claimedat := None));
      }
    }
  }

  lemma IdsOfSuffix(q: seq<Item>, d: nat)
    requires d <= |q| && UniqueIds(q)
    ensures UniqueIds(q[d..]) && Ids(q[d..]) <= Ids(q)
    ensures Ids(q) == Ids(q[..d]) + Ids(q[d..]) && Ids(q[..d]) !! Ids(q[d..])
    ensures (forall i | 0 <= i < d :: !q[i].Claimed()) ==> ClaimedIds(q[d..]) == ClaimedIds(q)
  {
    assert forall i | 0 <= i < |q| - d :: q[d..][i] == q[d + i];
    forall id | id in Ids(q) ensures id in Ids(q[..d]) + Ids(q[d..]) {
      var i :| 0 <= i < |q| && q[i].itemid == id;
      if i < d { assert q[..d][i] == q[i]; } else { assert q[d..][i - d] == q[i]; }
    }
    if forall i | 0 <= i < d :: !q[i].Claimed() {
      forall id | id in ClaimedIds(q) ensures id in ClaimedIds(q[d..]) {
        var i :| 0 <= i < |q| && q[i].Claimed() && q[i].itemid == id;
        assert q[d..][i - d] == q[i];
      }
    }
  }

  lemma IdsOfPruned(q: seq<Item>)
    requires UniqueIds(q)
    ensures UniqueIds(Pruned(q)) && Ids(Pruned(q)) <= Ids(q) && ClaimedIds(Pruned(q)) == ClaimedIds(q)
  {
    PrunedIsSuffix(q);
    IdsOfSuffix(q, |q| - |Pruned(q)|);
  }

  /** A claim adds the claimed id to the claims, takes an id that was not claimed, and otherwise
      only drops empty unclaimed items. */
  lemma IdsOfClaim(q: seq<Item>, now: string)
    requires UniqueIds(q)
    ensures UniqueIds(AfterClaim(q, now)) && Ids(AfterClaim(q, now)) == Ids(Pruned(q)) <= Ids(q)
    ensures Claim(q, now).None? ==> ClaimedIds(AfterClaim(q, now)) == ClaimedIds(q)
    ensures Claim(q, now).Some? && now != "" ==>
              var id := Claim(q, now).value.itemid;
              id in Ids(q) && id !in ClaimedIds(q) && ClaimedIds(AfterClaim(q, now)) == ClaimedIds(q) + {id}
  {
    var p := Pruned(q);
    IdsOfPruned(q);
    var k := FirstRunnable(p);
    if k < |p| {
      ClaimedAtIndex(p, k);
      IdsOfReplaced(p, k, p[k].(claimedat := Some(now)));
      assert p[k].itemid in Ids(p);
    }
  }

  // ----- the registry --------------------------------------------------------------------

  function QueueOf(queues: map<string, seq<Item>>, sessionid: string): seq<Item> {
    if sessionid in queues then queues[sessionid] else []
  }

  /** Queues are stored only while they hold something. */
  function Stored(queues: map<string, seq<Item>>, sessionid: string, q: seq<Item>): map<string, seq<Item>> {
    if q == [] then queues - {sessionid} else queues[sessionid := q]
  }

  /** What is stored is read back, other sessions' queues stay, and no empty queue is stored. */
  lemma StoredIsRead(queues: map<string, seq<Item>>, sessionid: string, q: seq<Item>, other: string)
    ensures QueueOf(Stored(queues, sessionid, q), other) == if other == sessionid then q else QueueOf(queues, other)
    ensures sessionid in Stored(queues, sessionid, q) <==> q != []
  {
  }

  /** The array a new item is put into: at the front, at the end, or beside another item; an
      anchor that is not queued means the end. */
  method Place(queue: seq<Item>, position: Position, item: Item) returns (placed: seq<Item>)
    ensures placed == Inserted(queue, position, item)
  {
    if position.Front? {
      placed := [item] + queue;
    } else if position.Before? || position.After? {
      var index := IndexOfId(queue, position.itemid);
      if index == |queue| {
        placed := queue + [item];
      } else if position.Before? {
        placed := queue[..index] + [item] + queue[index..];
      } else {
        placed := queue[..index + 1] + [item] + queue[index + 1..];
      }
    } else {
      placed := queue + [item];
    }
  }

  method DropEmptyHead(all: seq<Item>) returns (queue: seq<Item>)
    ensures queue == Pruned(all)
  {
    queue := all;
    while |queue| > 0
      invariant Pruned(queue) == Pruned(all)
      decreases |queue|
    {
      if queue[0].Claimed() {
        break;
      }
      if queue[0].Empty() {
        queue := queue[1..];
        continue;
      }
      break;
    }
  }

  class Registry {
    var queues: map<string, seq<Item>>

    ghost predicate Valid()
      reads this
    {
      forall s | s in queues :: queues[s] != [] && UniqueIds(queues[s])
    }

    constructor ()
      ensures Valid() && queues == map[]
    {
      queues := map[];
    }

    /** The new item carries an id that no queued item has, as a random id does. */
    method Insert(input: Enqueue, position: Position, itemid: string, now: string, rewrite: string -> string)
      returns (item: Item)
      requires Valid() && itemid !in Ids(QueueOf(queues, input.sessionid))
      modifies this
      ensures Valid()
      ensures item == NewItem(input, itemid, now, rewrite)
      ensures queues == Stored(old(queues), input.sessionid,
                               Inserted(QueueOf(old(queues), input.sessionid), position, item))
    {
      item := NewItem(input, itemid, now, rewrite);
      var queue := QueueOf(queues, input.sessionid);
      IdsOfInserted(queue, InsertIndex(queue, position), item);
      queue := Place(queue, position, item);
      queues := queues[input.sessionid := queue];
    }

    method UpdateText(sessionid: string, itemid: string, text: string, now: string, rewrite: string -> string)
      returns (updated: bool)
      requires Valid()
      modifies this
      ensures Valid()
      ensures updated == Editable(QueueOf(old(queues), sessionid), itemid)
      ensures queues == Stored(old(queues), sessionid,
                               Retexted(QueueOf(old(queues), sessionid), itemid, rewrite(text), now))
    {
      var queue := QueueOf(queues, sessionid);
      var k := IndexOfId(queue, itemid);
      assert queue == [] ==> Stored(queues, sessionid, queue) == queues;
      if k == |queue| || queue[k].Claimed() {
        return false;
      }
      IdsOfEdits(queue, itemid, rewrite(text), Edit(text, queue[k].model, None, {}, []), now);
      queues := queues[sessionid := queue[k := queue[k].(text := rewrite(text), updatedat := now)]];
      return true;
    }

    method Update(sessionid: string, itemid: string, edit: Edit, now: string, rewrite: string -> string)
      returns (updated: bool)
      requires Valid()
      modifies this
      ensures Valid()
      ensures updated == Editable(QueueOf(old(queues), sessionid), itemid)
      ensures queues == Stored(old(queues), sessionid,
                               Edited(QueueOf(old(queues), sessionid), itemid, edit.(text := rewrite(edit.text)), now))
    {
      var queue := QueueOf(queues, sessionid);
      var k := IndexOfId(queue, itemid);
      assert queue == [] ==> Stored(queues, sessionid, queue) == queues;
      if k == |queue| || queue[k].Claimed() {
        return false;
      }
      var rewritten := edit.(text := rewrite(edit.text));
      IdsOfEdits(queue, itemid, edit.text, rewritten, now);
      queues := queues[sessionid := queue[k := EditedItem(queue[k], rewritten, now)]];
      return true;
    }

    method Delete(sessionid: string, itemid: string) returns (deleted: bool)
      requires Valid()
      modifies this
      ensures Valid()
      ensures deleted == (itemid in Ids(QueueOf(old(queues), sessionid)))
      ensures queues == Stored(old(queues), sessionid, Without(QueueOf(old(queues), sessionid), itemid))
    {
      var queue := QueueOf(queues, sessionid);
      var next := Without(queue, itemid);
      IdsOfWithout(queue, itemid);
      assert queue == [] ==> Stored(queues, sessionid, queue) == queues;
      if |next| == |queue| {
        return false;
      }
      if |next| > 0 {
        queues := queues[sessionid := next];
      } else {
        queues := queues - {sessionid};
      }
      return true;
    }

    method CompleteClaim(sessionid: string, itemid: string) returns (completed: bool)
      requires Valid()
      modifies this
      ensures Valid()
      ensures completed == (itemid in Ids(QueueOf(old(queues), sessionid)))
      ensures queues == Stored(old(queues), sessionid, Without(QueueOf(old(queues), sessionid), itemid))
    {
      completed := Delete(sessionid, itemid);
    }

    method ClaimNextRunnable(sessionid: string, now: string) returns (claimed: Option<ClaimedRequest>)
      requires Valid()
      modifies this
      ensures Valid()
      ensures queues == Stored(old(queues), sessionid, AfterClaim(QueueOf(old(queues), sessionid), now))
      ensures claimed.Some? <==> Claim(QueueOf(old(queues), sessionid), now).Some?
      ensures claimed.Some? ==>
                && claimed.value.item == Claim(QueueOf(old(queues), sessionid), now).value
                && claimed.value.references == References(claimed.value.item.attachments)
    {
      var queue := DropEmptyHead(QueueOf(queues, sessionid));
      IdsOfClaim(QueueOf(queues, sessionid), now);
      var k := FirstRunnable(queue);
      if k < |queue| {
        var next := queue[k].(claimedat := Some(now));
        claimed := Some(ClaimedRequest(next, References(next.attachments)));
        queue := queue[k := next];
      } else {
        claimed := None;
      }
      SetQueue(sessionid, queue);
    }

    method SetQueue(sessionid: string, queue: seq<Item>)
      requires Valid() && UniqueIds(queue)
      modifies this
      ensures Valid() && queues == Stored(old(queues), sessionid, queue)
    {
      if queue == [] {
        queues := queues - {sessionid};
      } else {
        queues := queues[sessionid := queue];
      }
    }

    method ReleaseClaim(sessionid: string, itemid: string) returns (released: bool)
      requires Valid()
      modifies this
      ensures Valid()
      ensures released == (itemid in ClaimedIds(QueueOf(old(queues), sessionid)))
      ensures queues == Stored(old(queues), sessionid, Released(QueueOf(old(queues), sessionid), itemid))
    {
      var queue := QueueOf(queues, sessionid);
      var k := IndexOfId(queue, itemid);
      IdsOfReleased(queue, itemid);
      assert queue == [] ==> Stored(queues, sessionid, queue) == queues;
      if k < |queue| {
        ClaimedAtIndex(queue, k);
      }
      if k == |queue| || !queue[k].Claimed() {
        return false;
      }
      queues := queues[sessionid := queue[k := queue[k].(claimedat := None)]];
      return true;
    }

    method Clear(sessionid: string)
      requires Valid()
      modifies this
      ensures Valid() && queues == Stored(old(queues), sessionid, [])
    {
      queues := queues - {sessionid};
    }

    /** The unclaimed items, each once and in the order of the queue: those that may be edited. */
    method Items(sessionid: string) returns (items: seq<Item>, ghost at: seq<nat>)
      requires Valid()
      ensures
        var queue := QueueOf(queues, sessionid);
        UnclaimedAt(queue, at) && |items| == |at| && forall i | 0 <= i < |at| :: items[i] == queue[at[i]]
      ensures forall itemid :: itemid in Ids(items) <==> Editable(QueueOf(queues, sessionid), itemid)
    {
      items := Visible(QueueOf(queues, sessionid));
      at := VisibleInOrder(QueueOf(queues, sessionid));
      forall itemid ensures itemid in Ids(items) <==> Editable(QueueOf(queues, sessionid), itemid) {
        VisibleIsEditable(QueueOf(queues, sessionid), itemid);
      }
    }

    /** Whether anything is queued at all: claimed items count, unlike in what clients see. */
    method HasItems(sessionid: string) returns (has: bool)
      requires Valid()
      ensures has <==> Ids(QueueOf(queues, sessionid)) != {}
      ensures has <==> sessionid in queues
    {
      var queue := QueueOf(queues, sessionid);
      has := |queue| > 0;
      assert has ==> queue[0].itemid in Ids(queue);
    }
  }

  function References(attachments: seq<Attachment>): seq<Reference> {
    seq(|attachments|, i requires 0 <= i < |attachments| => attachments[i].reference)
  }
}
