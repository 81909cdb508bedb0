// The write-ahead receipt protocol of `cleanup_execute`.
//
// A run may die between any two steps, any step may raise, and other processes
// may change the cache directory at every step. A retry starts from the receipt
// that reached the disk.

module Cleanup {
  import opened Base

  const OWNER_UID: nat := 0
  const MAX_ITEMS: nat := 256
  const MAX_SCANNED: nat := 512
  const MAX_FILE_BYTES: int := 512 * 1024 * 1024
  const MAX_TOTAL_BYTES: int := 8 * 1024 * 1024 * 1024
  const DAY_NS: int := 86_400_000_000_000
  const CATEGORY: string := "verified-release-cache"

  /** What the identity digest of a file is computed from. */
  datatype FileKey = FileKey(path: string, dev: nat, ino: nat, size: nat, mtimeNs: int)

  /** An item id: the digest of a key (collision-free), or some other text a client sent. */
  datatype ItemId = Sha256(key: FileKey) | OtherText(text: string)

  /** What lstat reports; only the first four fields enter the identity. */
  datatype Stat = Stat(dev: nat, ino: nat, size: nat, mtimeNs: int,
                       blocks: nat, regular: bool, symlink: bool, nlink: nat, uid: nat)

  datatype Item = Item(id: ItemId, category: string, path: string, bytes: int)

  datatype Body = Body(schemaVersion: int, operationId: string, items: seq<Item>)

  datatype Removal = Removal(id: ItemId, bytes: int)

  datatype Status = Running | Interrupted | Succeeded

  datatype Receipt = Receipt(request: Body, status: Status,
                             removed: seq<Removal>, skipped: seq<ItemId>, uncertain: seq<ItemId>,
                             pending: Option<ItemId>, removedBytes: Option<int>)

  /** One unlink: the file it hit, and the identities already gone at the second look before it and at the unlink. */
  datatype Deletion = Deletion(victim: FileKey, looked: set<FileKey>, gone: set<FileKey>)

  datatype Ending = Returns(receipt: Receipt) | Raises | Crashes

  function EndingOf(signal: Signal): Ending
    requires signal != Continue
  {
    if signal == Raise then Raises else Crashes
  }

  // ----- Request validation -----

  predicate ValidId(id: ItemId) {
    id.OtherText? ==> Hex(id.text, 64)
  }

  predicate ValidItem(item: Item) {
    ValidId(item.id) && 0 <= item.bytes <= MAX_FILE_BYTES
  }

  function TotalBytes(items: seq<Item>): int {
    if items == [] then 0 else TotalBytes(items[..|items| - 1]) + items[|items| - 1].bytes
  }

  lemma TotalBytesSnoc(items: seq<Item>, item: Item)
    ensures TotalBytes(items + [item]) == TotalBytes(items) + item.bytes
  {
    assert (items + [item])[..|items|] == items;
  }

  ghost predicate DistinctIds(items: seq<Item>) {
    forall i, j :: 0 <= i < j < |items| ==> items[i].id != items[j].id
  }

  ghost predicate ValidBody(body: Body) {
    && body.schemaVersion == 1
    && Hex(body.operationId, 32)
    && |body.items| <= MAX_ITEMS
    && (forall i :: 0 <= i < |body.items| ==> ValidItem(body.items[i]))
    && DistinctIds(body.items)
    && TotalBytes(body.items) <= MAX_TOTAL_BYTES
  }

  /** A request within its bounds, field by field. */
  lemma ValidBodyMeaning(body: Body)
    ensures ValidBody(body) <==>
            && body.schemaVersion == 1 && Digits(body.operationId, 32) && |body.items| <= 256
            && (forall i :: 0 <= i < |body.items| ==>
                  && 0 <= body.items[i].bytes <= 536870912
                  && (body.items[i].id.OtherText? ==> Digits(body.items[i].id.text, 64)))
            && (forall i, j :: 0 <= i < j < |body.items| ==> body.items[i].id != body.items[j].id)
            && Sum(body.items) <= 8589934592
  {
    hide Hex, Digits, TotalBytes, Sum;
    SumIsTotal(body.items);
    DigitsMeaning(body.operationId, 32);
    forall i | 0 <= i < |body.items| && body.items[i].id.OtherText?
      ensures Hex(body.items[i].id.text, 64) <==> Digits(body.items[i].id.text, 64)
    {
      DigitsMeaning(body.items[i].id.text, 64);
    }
  }

  lemma DigitsMeaning(text: string, length: nat)
    ensures Hex(text, length) <==> Digits(text, length)
  {
    assert forall c: char :: c in "0123456789abcdef" <==> '0' <= c <= '9' || 'a' <= c <= 'f' by {
      forall c: char ensures c in "0123456789abcdef" <==> '0' <= c <= '9' || 'a' <= c <= 'f' {
        DigitMeaning(c);
      }
    }
  }

  lemma DigitMeaning(c: char)
    ensures c in "0123456789abcdef" <==> '0' <= c <= '9' || 'a' <= c <= 'f'
  {
    var digits := "0123456789abcdef";
    if '0' <= c <= '9' {
      assert digits[c as int - '0' as int] == c;
    } else if 'a' <= c <= 'f' {
      assert digits[c as int - 'a' as int + 10] == c;
    }
  }

  ghost predicate Digits(text: string, length: nat) {
    |text| == length && forall i :: 0 <= i < |text| ==> text[i] in "0123456789abcdef"
  }

  function Sum(items: seq<Item>): int {
    if items == [] then 0 else items[0].bytes + Sum(items[1..])
  }

  lemma {:induction false} SumIsTotal(items: seq<Item>)
    ensures Sum(items) == TotalBytes(items)
  {
    if items != [] {
      SumIsTotal(items[1..]);
      TotalFromFront(items);
    }
  }

  lemma {:induction false} TotalFromFront(items: seq<Item>)
    requires items != []
    ensures TotalBytes(items) == items[0].bytes + TotalBytes(items[1..])
  {
    var k := |items| - 1;
    if k > 0 {
      TotalFromFront(items[..k]);
      assert items[1..][..k - 1] == items[..k][1..];
    }
  }

  /** The checks `cleanup_execute` makes before it takes any lock. */
  method Validate(body: Body) returns (ok: bool)
    ensures ok <==> ValidBody(body)
  {
    if body.schemaVersion != 1 || !Hex(body.operationId, 32) || |body.items| > MAX_ITEMS {
      return false;
    }
    var ids: set<ItemId> := {};
    var total := 0;
    for i := 0 to |body.items|
      invariant forall j :: 0 <= j < i ==> ValidItem(body.items[j])
      invariant forall id :: id in ids <==> exists j :: 0 <= j < i && body.items[j].id == id
      invariant DistinctIds(body.items[..i])
      invariant total == TotalBytes(body.items[..i])
    {
      var item := body.items[i];
      if !ValidItem(item) {
        return false;
      }
      if item.id in ids {
        return false;
      }
      ids := ids + {item.id};
      assert body.items[..i + 1][..i] == body.items[..i];
      total := total + item.bytes;
    }
    assert body.items[..|body.items|] == body.items;
    ok := total <= MAX_TOTAL_BYTES;
  }

  // ----- What a receipt may say -----

  /** What a run decided about one item. */
  datatype Verdict = Removed | Skipped | Uncertain

  /** The three lists a receipt holds after these verdicts on the first items, in request order. */
  function RemovedOf(items: seq<Item>, verdicts: seq<Verdict>): seq<Removal>
    requires |verdicts| <= |items|
  {
    if verdicts == [] then [] else
      var k := |verdicts| - 1;
      RemovedOf(items, verdicts[..k]) + if verdicts[k] == Removed then [Removal(items[k].id, items[k].bytes)] else []
  }

  function SkippedOf(items: seq<Item>, verdicts: seq<Verdict>): seq<ItemId>
    requires |verdicts| <= |items|
  {
    if verdicts == [] then [] else
      var k := |verdicts| - 1;
      SkippedOf(items, verdicts[..k]) + if verdicts[k] == Skipped then [items[k].id] else []
  }

  function UncertainOf(items: seq<Item>, verdicts: seq<Verdict>): seq<ItemId>
    requires |verdicts| <= |items|
  {
    if verdicts == [] then [] else
      var k := |verdicts| - 1;
      UncertainOf(items, verdicts[..k]) + if verdicts[k] == Uncertain then [items[k].id] else []
  }

  function RemovedTotal(removed: seq<Removal>): int {
    if removed == [] then 0 else RemovedTotal(removed[..|removed| - 1]) + removed[|removed| - 1].bytes
  }

  /** The verdicts, the pending item and the unlinks of an operation agree. */
  ghost predicate Agree(items: seq<Item>, verdicts: seq<Verdict>, pending: bool, deleted: map<ItemId, Deletion>) {
    && |verdicts| <= |items|
    && (forall i :: 0 <= i < |verdicts| && verdicts[i] == Removed ==> items[i].id in deleted)
    && (forall i :: 0 <= i < |items| && items[i].id in deleted ==>
          if i < |verdicts| then verdicts[i] != Skipped else i == |verdicts| && pending)
  }

  /** The receipt is the summary of one verdict per item of a prefix of the request, and accounts for every unlink. */
  ghost predicate Sound(r: Receipt, verdicts: seq<Verdict>, deleted: map<ItemId, Deletion>) {
    && Agree(r.request.items, verdicts, r.pending.Some?, deleted)
    && r.removed == RemovedOf(r.request.items, verdicts)
    && r.skipped == SkippedOf(r.request.items, verdicts)
    && r.uncertain == UncertainOf(r.request.items, verdicts)
    && (r.pending.Some? ==> |verdicts| < |r.request.items| && r.pending.value == r.request.items[|verdicts|].id)
    && (r.status == Succeeded ==>
          |verdicts| == |r.request.items| && r.pending == None && r.removedBytes == Some(RemovedTotal(r.removed)))
  }

  /** How often an id occurs among the removals. */
  function RemovedBag(removed: seq<Removal>): multiset<ItemId> {
    if removed == [] then multiset{} else RemovedBag(removed[..|removed| - 1]) + multiset{removed[|removed| - 1].id}
  }

  /** How often a receipt mentions an id, over all three categories. */
  function Mentions(r: Receipt, id: ItemId): nat {
    RemovedBag(r.removed)[id] + multiset(r.skipped)[id] + multiset(r.uncertain)[id]
  }

  lemma {:induction false} RemovedTally(items: seq<Item>, verdicts: seq<Verdict>, i: nat)
    requires DistinctIds(items) && |verdicts| <= |items| && i < |items|
    ensures RemovedBag(RemovedOf(items, verdicts))[items[i].id] == if i < |verdicts| && verdicts[i] == Removed then 1
            else 0
  {
    if verdicts != [] {
      var k := |verdicts| - 1;
      RemovedTally(items, verdicts[..k], i);
      RemovedOneMore(RemovedOf(items, verdicts[..k]), Removal(items[k].id, items[k].bytes), items[i].id);
    }
  }

  lemma RemovedOneMore(removed: seq<Removal>, x: Removal, id: ItemId)
    ensures RemovedBag(removed + [x])[id] == RemovedBag(removed)[id] + if x.id == id then 1 else 0
    ensures removed + [] == removed
  {
    assert (removed + [x])[..|removed|] == removed;
  }

  lemma CountOneMore(ids: seq<ItemId>, x: ItemId, id: ItemId)
    ensures multiset(ids + [x])[id] == multiset(ids)[id] + if x == id then 1 else 0
  {
  }

  lemma {:induction false} SkippedTally(items: seq<Item>, verdicts: seq<Verdict>, i: nat)
    requires DistinctIds(items) && |verdicts| <= |items| && i < |items|
    ensures multiset(SkippedOf(items, verdicts))[items[i].id] == if i < |verdicts| && verdicts[i] == Skipped then 1
            else 0
  {
    if verdicts != [] {
      var k := |verdicts| - 1;
      SkippedTally(items, verdicts[..k], i);
      CountOneMore(SkippedOf(items, verdicts[..k]), items[k].id, items[i].id);
    }
  }

  lemma {:induction false} UncertainTally(items: seq<Item>, verdicts: seq<Verdict>, i: nat)
    requires DistinctIds(items) && |verdicts| <= |items| && i < |items|
    ensures multiset(UncertainOf(items, verdicts))[items[i].id] == if i < |verdicts| && verdicts[i] == Uncertain then 1
            else 0
  {
    if verdicts != [] {
      var k := |verdicts| - 1;
      UncertainTally(items, verdicts[..k], i);
      CountOneMore(UncertainOf(items, verdicts[..k]), items[k].id, items[i].id);
    }
  }

  /** Which lists mention a requested item, and how often. */
  lemma Tally(items: seq<Item>, verdicts: seq<Verdict>, i: nat)
    requires DistinctIds(items) && |verdicts| <= |items| && i < |items|
    ensures RemovedBag(RemovedOf(items, verdicts))[items[i].id] == if i < |verdicts| && verdicts[i] == Removed then 1
            else 0
    ensures multiset(SkippedOf(items, verdicts))[items[i].id] == if i < |verdicts| && verdicts[i] == Skipped then 1
            else 0
    ensures multiset(UncertainOf(items, verdicts))[items[i].id] == if i < |verdicts| && verdicts[i] == Uncertain then 1
            else 0
  {
    RemovedTally(items, verdicts, i);
    SkippedTally(items, verdicts, i);
    UncertainTally(items, verdicts, i);
  }

  lemma {:induction false} OnlyRequested(items: seq<Item>, verdicts: seq<Verdict>, id: ItemId)
    requires |verdicts| <= |items| && forall i :: 0 <= i < |items| ==> items[i].id != id
    ensures RemovedBag(RemovedOf(items, verdicts))[id] == 0
    ensures id !in SkippedOf(items, verdicts) && id !in UncertainOf(items, verdicts)
  {
    if verdicts != [] {
      var k := |verdicts| - 1;
      OnlyRequested(items, verdicts[..k], id);
      var removed, all := RemovedOf(items, verdicts[..k]), RemovedOf(items, verdicts);
      if verdicts[k] == Removed {
        assert all[..|all| - 1] == removed;
      } else {
        assert all == removed;
      }
    }
  }

  /** Every requested item is mentioned at most once over the three categories, and exactly once
      when its verdict has been reached; nothing else is mentioned. */
  lemma AtMostOneCategory(r: Receipt, verdicts: seq<Verdict>, deleted: map<ItemId, Deletion>, id: ItemId)
    requires ValidBody(r.request) && Sound(r, verdicts, deleted)
    ensures Mentions(r, id) <= 1
    ensures Mentions(r, id) == 1 <==> exists i :: 0 <= i < |verdicts| && r.request.items[i].id == id
  {
    var items := r.request.items;
    if i :| 0 <= i < |items| && items[i].id == id {
      Tally(items, verdicts, i);
    } else {
      OnlyRequested(items, verdicts, id);
    }
  }

  /** A succeeded receipt puts every requested item in exactly one category. */
  lemma SucceededClassifiesAll(r: Receipt, verdicts: seq<Verdict>, deleted: map<ItemId, Deletion>, i: nat)
    requires ValidBody(r.request) && Sound(r, verdicts, deleted)
    requires r.status == Succeeded && i < |r.request.items|
    ensures Mentions(r, r.request.items[i].id) == 1
  {
    AtMostOneCategory(r, verdicts, deleted, r.request.items[i].id);
  }

  /** An item at whose path this operation unlinked a file is never reported as skipped, and only such an item is
      reported as removed. */
  lemma CategoriesTellTheTruth(r: Receipt, verdicts: seq<Verdict>, deleted: map<ItemId, Deletion>, i: nat)
    requires ValidBody(r.request) && Sound(r, verdicts, deleted) && i < |r.request.items|
    ensures var id := r.request.items[i].id;
            && (id in deleted ==> id !in r.skipped)
            && (id in deleted ==> id in RemovedBag(r.removed) || id in r.uncertain || r.pending == Some(id))
            && (id in RemovedBag(r.removed) ==> id in deleted)
  {
    Tally(r.request.items, verdicts, i);
  }

  /** The bytes of the items with one verdict. */
  ghost function BytesOf(items: seq<Item>, verdicts: seq<Verdict>, verdict: Verdict): int
    requires |verdicts| <= |items|
  {
    if verdicts == [] then 0 else
      (if verdicts[0] == verdict then items[0].bytes else 0) + BytesOf(items[1..], verdicts[1..], verdict)
  }

  lemma {:induction false} BytesOfNext(items: seq<Item>, verdicts: seq<Verdict>, verdict: Verdict)
    requires 0 < |verdicts| <= |items|
    ensures var k := |verdicts| - 1;
            BytesOf(items, verdicts, verdict) ==
            BytesOf(items, verdicts[..k], verdict) + if verdicts[k] == verdict then items[k].bytes else 0
  {
    if |verdicts| > 1 {
      BytesOfNext(items[1..], verdicts[1..], verdict);
      assert verdicts[1..][..|verdicts| - 2] == verdicts[..|verdicts| - 1][1..];
    }
  }

  lemma {:induction false} RemovedTotalMeaning(items: seq<Item>, verdicts: seq<Verdict>)
    requires |verdicts| <= |items|
    ensures RemovedTotal(RemovedOf(items, verdicts)) == BytesOf(items, verdicts, Removed)
  {
    if verdicts != [] {
      var k := |verdicts| - 1;
      RemovedTotalMeaning(items, verdicts[..k]);
      BytesOfNext(items, verdicts, Removed);
      var removed, all := RemovedOf(items, verdicts[..k]), RemovedOf(items, verdicts);
      if verdicts[k] == Removed {
        assert all[..|all| - 1] == removed;
      } else {
        assert all == removed;
      }
    }
  }

  lemma {:induction false} BytesAddUp(items: seq<Item>, verdicts: seq<Verdict>)
    requires |verdicts| == |items|
    ensures BytesOf(items, verdicts, Removed) + BytesOf(items, verdicts, Skipped) + BytesOf(items, verdicts, Uncertain)
            == Sum(items)
    ensures (forall i :: 0 <= i < |items| ==> items[i].bytes >= 0) ==>
              forall verdict :: BytesOf(items, verdicts, verdict) >= 0
  {
    if verdicts != [] {
      BytesAddUp(items[1..], verdicts[1..]);
    }
  }

  /** The reported total is that of the removed items; with the skipped and uncertain ones it is what the request
      planned. */
  lemma RemovedWithinPlan(r: Receipt, verdicts: seq<Verdict>, deleted: map<ItemId, Deletion>)
    requires ValidBody(r.request) && Sound(r, verdicts, deleted) && r.status == Succeeded
    ensures r.removedBytes == Some(BytesOf(r.request.items, verdicts, Removed))
    ensures forall verdict :: BytesOf(r.request.items, verdicts, verdict) >= 0
    ensures BytesOf(r.request.items, verdicts, Removed) + BytesOf(r.request.items, verdicts, Skipped)
            + BytesOf(r.request.items, verdicts, Uncertain) == Sum(r.request.items) <= MAX_TOTAL_BYTES
  {
    RemovedTotalMeaning(r.request.items, verdicts);
    BytesAddUp(r.request.items, verdicts);
    SumIsTotal(r.request.items);
  }

  // ----- One step of the receipt -----

  /** The receipt with its next item skipped, uncertain, pending, or removed. */
  function Skip(r: Receipt, id: ItemId): Receipt {
    r.(skipped := r.skipped + [id], pending := None)
  }

  function Doubt(r: Receipt, id: ItemId): Receipt {
    r.(uncertain := r.uncertain + [id], pending := None)
  }

  function Announce(r: Receipt, id: ItemId): Receipt {
    r.(pending := Some(id))
  }

  function Remove(r: Receipt, item: Item): Receipt {
    r.(removed := r.removed + [Removal(item.id, item.bytes)], pending := None)
  }

  /** The next item of a running receipt. */
  ghost predicate Next(r: Receipt, verdicts: seq<Verdict>, item: Item) {
    r.status == Running && |verdicts| < |r.request.items| && item == r.request.items[|verdicts|]
  }

  /** Skipping is right only for an item this operation never unlinked. */
  lemma SkipIsSound(r: Receipt, verdicts: seq<Verdict>, deleted: map<ItemId, Deletion>, item: Item)
    requires Sound(r, verdicts, deleted) && Next(r, verdicts, item) && item.id !in deleted
    ensures Sound(Skip(r, item.id), verdicts + [Skipped], deleted)
  {
    assert (verdicts + [Skipped])[..|verdicts|] == verdicts;
  }

  lemma DoubtIsSound(r: Receipt, verdicts: seq<Verdict>, deleted: map<ItemId, Deletion>, item: Item)
    requires Sound(r, verdicts, deleted) && Next(r, verdicts, item)
    ensures Sound(Doubt(r, item.id), verdicts + [Uncertain], deleted)
  {
    assert (verdicts + [Uncertain])[..|verdicts|] == verdicts;
  }

  lemma RemoveIsSound(r: Receipt, verdicts: seq<Verdict>, deleted: map<ItemId, Deletion>, item: Item)
    requires Sound(r, verdicts, deleted) && Next(r, verdicts, item) && item.id in deleted
    ensures Sound(Remove(r, item), verdicts + [Removed], deleted)
  {
    assert (verdicts + [Removed])[..|verdicts|] == verdicts;
  }

  lemma AnnounceIsSound(r: Receipt, verdicts: seq<Verdict>, deleted: map<ItemId, Deletion>, item: Item)
    requires Sound(r, verdicts, deleted) && Next(r, verdicts, item)
    ensures Sound(Announce(r, item.id), verdicts, deleted)
  {
  }

  /** With its id pending, an unlink is accounted for before the receipt records it. */
  lemma PendingCoversUnlink(r: Receipt, verdicts: seq<Verdict>, deleted: map<ItemId, Deletion>, id: ItemId, d: Deletion)
    requires ValidBody(r.request) && Sound(r, verdicts, deleted) && r.pending == Some(id)
    ensures Sound(r, verdicts, deleted[id := d])
  {
  }

  lemma {:induction false} RemovedBagMember(removed: seq<Removal>, id: ItemId)
    ensures id in RemovedBag(removed) <==> exists x :: x in removed && x.id == id
  {
    if removed != [] {
      RemovedBagMember(removed[..|removed| - 1], id);
      assert removed == removed[..|removed| - 1] + [removed[|removed| - 1]];
    }
  }

  /** The set of classified ids a run computes when it starts. */
  function Done(r: Receipt): set<ItemId> {
    (set x | x in r.removed :: x.id) + (set id | id in r.skipped) + (set id | id in r.uncertain)
  }

  lemma InDone(r: Receipt, verdicts: seq<Verdict>, deleted: map<ItemId, Deletion>, i: nat)
    requires ValidBody(r.request) && Sound(r, verdicts, deleted) && i < |r.request.items|
    ensures r.request.items[i].id in Done(r) <==> i < |verdicts|
  {
    hide RemovedOf, SkippedOf, UncertainOf, RemovedBag, RemovedTotal;
    Tally(r.request.items, verdicts, i);
    RemovedBagMember(r.removed, r.request.items[i].id);
  }

  // ----- The directory -----

  function KeyOf(path: string, st: Stat): FileKey {
    FileKey(path, st.dev, st.ino, st.size, st.mtimeNs)
  }

  function Live(files: map<string, Stat>): set<FileKey> {
    set path | path in files :: KeyOf(path, files[path])
  }

  /** What other processes may do to the directory: anything, except that an identity
      that has gone never comes back. */
  ghost predicate Interference(files: map<string, Stat>, retired: set<FileKey>,
                               files': map<string, Stat>, retired': set<FileKey>)
  {
    retired <= retired' && Live(files) <= Live(files') + retired' && Live(files') !! retired'
  }

  /** Later: what has gone stays gone, and what was there is there or has gone. */
  ghost predicate Onward(files: map<string, Stat>, retired: set<FileKey>, files': map<string, Stat>,
                         retired': set<FileKey>) {
    retired <= retired' && Live(files) <= Live(files') + retired'
  }

  predicate Eligible(st: Stat, nowNs: int) {
    && st.regular && !st.symlink && st.nlink == 1 && st.uid == OWNER_UID
    && 1 <= st.size <= MAX_FILE_BYTES
    && nowNs - st.mtimeNs >= DAY_NS
  }

  /** `cleanup_item` on a path that exists. */
  function CleanupItem(path: string, category: string, st: Stat, nowNs: int): Option<Item> {
    if Eligible(st, nowNs) then Some(Item(Sha256(KeyOf(path, st)), category, path, st.blocks * 512)) else None
  }

  /** What one `lstat` found, and the time it is judged by. */
  datatype Look = Look(nowNs: int, stat: Option<Stat>)

  function ItemAt(path: string, category: string, look: Look): Option<Item> {
    if look.stat.Some? then CleanupItem(path, category, look.stat.value, look.nowNs) else None
  }

  /** Which files can be cleaned up, and as what: regular files of root with one name, of one byte to 512 MiB, that have
      not changed for a day. The id tells apart path, device, inode, size and modification time. */
  lemma CleanupItemMeaning(path: string, category: string, st: Stat, nowNs: int)
    ensures CleanupItem(path, category, st, nowNs).Some? <==>
              && st.regular && !st.symlink && st.nlink == 1 && st.uid == 0
              && 1 <= st.size <= 536870912 && nowNs - st.mtimeNs >= 86400 * 1000000000
    ensures CleanupItem(path, category, st, nowNs).Some? ==>
              var item := CleanupItem(path, category, st, nowNs).value;
              && item.id.Sha256? && item.id.key.path == item.path == path && item.category == category
              && item.id.key.dev == st.dev && item.id.key.ino == st.ino && item.id.key.size == st.size
              && item.id.key.mtimeNs == st.mtimeNs && item.bytes == 512 * st.blocks
  {
  }

  /** One entry of the cache root, as a preview found it. */
  datatype Reading = Reading(path: string, look: Look)

  /** The items of a preview: one for each entry that can be cleaned up. */
  function ItemsOf(readings: seq<Reading>): seq<Item> {
    if readings == [] then [] else
      var last := readings[|readings| - 1];
      ItemsOf(readings[..|readings| - 1]) +
        match ItemAt(last.path, CATEGORY, last.look) case None => [] case Some(item) => [item]
  }

  ghost predicate DistinctReadings(readings: seq<Reading>) {
    forall i, j :: 0 <= i < j < |readings| ==> readings[i].path != readings[j].path
  }

  lemma {:induction false} ItemsMeaning(readings: seq<Reading>, item: Item)
    ensures item in ItemsOf(readings) <==>
            exists r :: r in readings && ItemAt(r.path, CATEGORY, r.look) == Some(item)
  {
    if readings != [] {
      var k := |readings| - 1;
      ItemsMeaning(readings[..k], item);
      assert readings == readings[..k] + [readings[k]];
    }
  }

  lemma {:induction false} ItemsDistinct(readings: seq<Reading>)
    requires DistinctReadings(readings)
    ensures DistinctIds(ItemsOf(readings))
    ensures forall a, b :: a in ItemsOf(readings) && b in ItemsOf(readings) && a.path == b.path ==> a == b
  {
    if readings != [] {
      var k := |readings| - 1;
      ItemsDistinct(readings[..k]);
      forall item | item in ItemsOf(readings[..k]) ensures item.id.Sha256? && item.id.key.path == item.path
          && item.path != readings[k].path {
        ItemsMeaning(readings[..k], item);
      }
    }
  }

  /** At its look, a file that is still there now was found. */
  ghost predicate Sees(key: FileKey, look: Look, retired: set<FileKey>) {
    key in retired || (look.stat.Some? && KeyOf(key.path, look.stat.value) == key)
  }

  /** A preview has seen every file that was there before it began and is still there now. */
  ghost predicate SeesAll(before: map<string, Stat>, readings: seq<Reading>, retired: set<FileKey>) {
    forall path :: path in before && KeyOf(path, before[path]) !in retired ==>
      exists r :: r in readings && r.path == path && Sees(KeyOf(path, before[path]), r.look, retired)
  }

  /** Part of the way through the listing: all but `names` has been read. */
  ghost predicate SeesSome(listed: map<string, Stat>, names: set<string>, readings: seq<Reading>,
                           retired: set<FileKey>) {
    forall path :: path in listed && path !in names && KeyOf(path, listed[path]) !in retired ==>
      exists r :: r in readings && r.path == path && Sees(KeyOf(path, listed[path]), r.look, retired)
  }

  lemma NothingListed(files: map<string, Stat>, retired: set<FileKey>)
    ensures SeesSome(files, files.Keys, [], retired) && AllGenuine([], retired, files, retired)
    ensures Onward(files, retired, files, retired) && AtOnce(files, []) && DistinctReadings([])
    ensures ItemsOf([]) == [] && TotalBytes([]) == 0
  {
  }

  lemma LookedOn(f0: map<string, Stat>, g0: set<FileKey>, f1: map<string, Stat>, g1: set<FileKey>,
                 files: map<string, Stat>, retired: set<FileKey>, items: seq<Item>)
    requires Onward(f0, g0, f1, g1) && Interference(f1, g1, files, retired) && AllGenuine(items, g0, f1, g1)
    ensures Onward(f0, g0, files, retired) && AllGenuine(items, g0, files, retired) && g0 <= g1 <= retired
  {
  }

  lemma GenuineAdded(items: seq<Item>, item: Item, g0: set<FileKey>, g1: set<FileKey>, files: map<string, Stat>,
                     retired: set<FileKey>)
    requires AllGenuine(items, g0, files, retired) && Genuine(item, g1, files, retired) && g0 <= g1
    ensures AllGenuine(items + [item], g0, files, retired)
  {
  }

  lemma OneMoreRead(listed: map<string, Stat>, names: set<string>, readings: seq<Reading>, g0: set<FileKey>,
                    gone: set<FileKey>, files: map<string, Stat>, retired: set<FileKey>, name: string, look: Look)
    requires SeesSome(listed, names, readings, gone) && gone <= retired && Onward(listed, g0, files, retired)
    requires look.stat == if name in files then Some(files[name]) else None
    ensures SeesSome(listed, names - {name}, readings + [Reading(name, look)], retired)
    ensures listed == files && name in listed && AtOnce(files, readings) ==>
              AtOnce(files, readings + [Reading(name, look)])
  {
    var more := readings + [Reading(name, look)];
    assert more[|readings|] == Reading(name, look);
    forall path | path in listed && path !in names - {name} && KeyOf(path, listed[path]) !in retired
      ensures exists r :: r in more && r.path == path && Sees(KeyOf(path, listed[path]), r.look, retired)
    {
      if path == name {
        assert KeyOf(path, listed[path]) in Live(listed);
        assert Sees(KeyOf(path, listed[path]), look, retired);
      } else {
        var r :| r in readings && r.path == path && Sees(KeyOf(path, listed[path]), r.look, gone);
        assert r in more && Sees(KeyOf(path, listed[path]), r.look, retired);
      }
    }
  }

  lemma ReadingAdded(readings: seq<Reading>, r: Reading)
    requires DistinctReadings(readings) && forall x :: x in readings ==> x.path != r.path
    ensures DistinctReadings(readings + [r])
    ensures ItemsOf(readings + [r]) ==
            ItemsOf(readings) + match ItemAt(r.path, CATEGORY, r.look) case None => [] case Some(item) => [item]
  {
    assert (readings + [r])[..|readings|] == readings;
    forall i | 0 <= i < |readings| ensures readings[i].path != r.path {
      assert readings[i] in readings;
    }
  }

  lemma AllRead(before: map<string, Stat>, readings: seq<Reading>, retired: set<FileKey>)
    requires SeesSome(before, {}, readings, retired)
    ensures SeesAll(before, readings, retired)
  {
  }

  /** Every entry was found as the directory has it. */
  ghost predicate AtOnce(files: map<string, Stat>, readings: seq<Reading>) {
    forall r :: r in readings ==> r.path in files && r.look.stat == Some(files[r.path])
  }

  /** What a run decides about an item that its preview lists as it was requested (`listed`), and about one it does not.
      `look` is the second look; `doubted` says that an earlier run had announced the unlink. */
  function Decision(item: Item, listed: bool, look: Option<Look>, doubted: bool): Verdict {
    if listed then
      if look.Some? && ItemAt(item.path, item.category, look.value) == Some(item) then Removed else Skipped
    else if doubted then Uncertain else Skipped
  }

  /** The path that a verdict takes away. */
  function Taken(item: Item, verdict: Verdict): set<string> {
    if verdict == Removed then {item.path} else {}
  }

  predicate Listed(reviewed: map<ItemId, Item>, item: Item) {
    item.id in reviewed && reviewed[item.id] == item
  }

  /** Every reviewed item has existed, and no two of them are at one path. */
  ghost predicate AllKnown(reviewed: map<ItemId, Item>, files: map<string, Stat>, retired: set<FileKey>) {
    && (forall id :: id in reviewed ==> id.Sha256? && id.key in Live(files) + retired)
    && (forall a, b :: a in reviewed && b in reviewed && reviewed[a].path == reviewed[b].path ==> a == b)
  }

  lemma GoneByNow(files: map<string, Stat>, retired: set<FileKey>, deleted: map<ItemId, Deletion>)
    requires History(files, retired, deleted)
    ensures forall id :: id in deleted ==> id.Sha256? && id.key in retired
  {
  }

  /** What a run found: whether the cache root was usable, the entries its preview read, and its second looks. */
  datatype Account = Account(usable: bool, readings: seq<Reading>, looks: seq<Option<Look>>)

  predicate Finished(receipt: Option<Receipt>) {
    receipt.Some? && receipt.value.status == Succeeded
  }

  function PendingOf(receipt: Option<Receipt>): Option<ItemId> {
    if receipt.Some? then receipt.value.pending else None
  }

  /** The verdicts from `n` on follow from the account: an item that the preview lists as requested is removed exactly
      if the second look showed just that, and any other is skipped, or uncertain if its unlink had been announced
      before. Neither look misses a file that is still there now. */
  ghost predicate Explained(items: seq<Item>, n: nat, pending: Option<ItemId>, v: seq<Verdict>, account: Account,
                            retired: set<FileKey>) {
    && |account.looks| == |v| <= |items|
    && forall i :: n <= i < |v| ==>
         ExplainedAt(items[i], i == n && pending == Some(items[i].id), v[i], account.readings, account.looks[i],
                     retired)
  }

  ghost predicate ExplainedAt(item: Item, doubted: bool, verdict: Verdict, readings: seq<Reading>, look: Option<Look>,
                              retired: set<FileKey>) {
    if exists r :: r in readings && ItemAt(r.path, "verified-release-cache", r.look) == Some(item) then
      && look.Some? && item.id.Sha256? && Sees(item.id.key, look.value, retired)
      && verdict == if ItemAt(item.path, item.category, look.value) == Some(item) then Removed else Skipped
    else verdict == if doubted then Uncertain else Skipped
  }

  /** The directory holds more entries or files than one cleanup takes on. */
  ghost predicate TooMuch(files: map<string, Stat>, account: Account) {
    || |files| > MAX_SCANNED || |ItemsOf(account.readings)| > MAX_ITEMS
    || TotalBytes(ItemsOf(account.readings)) > MAX_TOTAL_BYTES
  }

  /** Both looks found the directory as it was at the start, and exactly the paths of the removed items have gone. */
  ghost predicate Undisturbed(before: map<string, Stat>, items: seq<Item>, n: nat, v: seq<Verdict>, account: Account,
                              files: map<string, Stat>) {
    AtOnce(before, account.readings) && LeftAlone(before, items, n, v, account.looks, files)
  }

  ghost predicate AllReported(r: Receipt, items: seq<Item>, v: seq<Verdict>)
    requires |v| == |items|
  {
    forall i :: 0 <= i < |items| ==> Reported(r, items[i], v[i])
  }

  /** The receipt lists the item under its verdict. */
  ghost predicate Reported(r: Receipt, item: Item, verdict: Verdict) {
    match verdict
    case Removed => Removal(item.id, item.bytes) in r.removed
    case Skipped => item.id in r.skipped
    case Uncertain => item.id in r.uncertain
  }

  lemma {:induction false} InLists(items: seq<Item>, v: seq<Verdict>, i: nat)
    requires i < |v| <= |items|
    ensures match v[i]
            case Removed => Removal(items[i].id, items[i].bytes) in RemovedOf(items, v)
            case Skipped => items[i].id in SkippedOf(items, v)
            case Uncertain => items[i].id in UncertainOf(items, v)
  {
    if i < |v| - 1 {
      InLists(items, v[..|v| - 1], i);
    }
  }

  lemma SucceededIsReported(r: Receipt, v: seq<Verdict>, deleted: map<ItemId, Deletion>)
    requires Sound(r, v, deleted) && r.status == Succeeded
    ensures |v| == |r.request.items| && AllReported(r, r.request.items, v)
  {
    hide RemovedOf, SkippedOf, UncertainOf, RemovedTotal, Agree;
    forall i | 0 <= i < |v| ensures Reported(r, r.request.items[i], v[i]) {
      InLists(r.request.items, v, i);
    }
  }

  lemma SeesAllBefore(f: map<string, Stat>, g: set<FileKey>, f': map<string, Stat>, g': set<FileKey>,
                      readings: seq<Reading>, retired: set<FileKey>)
    requires Interference(f, g, f', g') && g' <= retired
    ensures SeesAll(f', readings, retired) ==> SeesAll(f, readings, retired)
  {
    if SeesAll(f', readings, retired) {
      forall path | path in f && KeyOf(path, f[path]) !in retired
        ensures exists r :: r in readings && r.path == path && Sees(KeyOf(path, f[path]), r.look, retired)
      {
        assert KeyOf(path, f[path]) in Live(f);
        assert path in f' && KeyOf(path, f'[path]) == KeyOf(path, f[path]);
      }
    }
  }

  lemma SeesAllLater(f: map<string, Stat>, readings: seq<Reading>, gone: set<FileKey>, retired: set<FileKey>)
    requires gone <= retired
    ensures SeesAll(f, readings, gone) ==> SeesAll(f, readings, retired)
  {
    if SeesAll(f, readings, gone) {
      forall path | path in f && KeyOf(path, f[path]) !in retired
        ensures exists r :: r in readings && r.path == path && Sees(KeyOf(path, f[path]), r.look, retired)
      {
        var r :| r in readings && r.path == path && Sees(KeyOf(path, f[path]), r.look, gone);
        assert Sees(KeyOf(path, f[path]), r.look, retired);
      }
    }
  }

  lemma JudgedIsExplained(items: seq<Item>, n: nat, pending: Option<ItemId>, v: seq<Verdict>, account: Account,
                          gone: set<FileKey>, retired: set<FileKey>)
    requires Judged(items, Reviewed(ItemsOf(account.readings)), n, pending, v, account.looks, gone) && gone <= retired
    requires forall item :: Listed(Reviewed(ItemsOf(account.readings)), item) <==> item in ItemsOf(account.readings)
    ensures Explained(items, n, pending, v, account, retired)
  {
    hide Reviewed, ItemsOf, CleanupItem;
    forall i | n <= i < |v|
      ensures ExplainedAt(items[i], i == n && pending == Some(items[i].id), v[i], account.readings, account.looks[i],
                          retired)
    {
      ItemsMeaning(account.readings, items[i]);
    }
  }

  /** What a preview lists may be looked at: it has existed, none of it has been unlinked by this operation, and each
      item is at a path of its own. */
  lemma PreviewKnown(readings: seq<Reading>, gone: set<FileKey>, files: map<string, Stat>, retired: set<FileKey>,
                     deleted: map<ItemId, Deletion>)
    requires DistinctReadings(readings) && AllGenuine(ItemsOf(readings), gone, files, retired)
    requires forall id :: id in deleted ==> id.Sha256? && id.key in gone
    ensures var reviewed := Reviewed(ItemsOf(readings));
            && AllKnown(reviewed, files, retired)
            && (forall id :: id in reviewed ==> id.Sha256? && reviewed[id].path == id.key.path && id !in deleted)
            && (forall item :: Listed(reviewed, item) <==> item in ItemsOf(readings))
  {
    PreviewListed(readings);
    hide ItemsOf, Live;
    KnownItems(ItemsOf(readings), Reviewed(ItemsOf(readings)), gone, files, retired, deleted);
  }

  lemma PreviewListed(readings: seq<Reading>)
    requires DistinctReadings(readings)
    ensures forall item :: Listed(Reviewed(ItemsOf(readings)), item) <==> item in ItemsOf(readings)
    ensures forall a, b :: a in ItemsOf(readings) && b in ItemsOf(readings) && a.path == b.path ==> a == b
  {
    ItemsDistinct(readings);
    hide ItemsOf, Reviewed;
    forall item: Item ensures Listed(Reviewed(ItemsOf(readings)), item) <==> item in ItemsOf(readings) {
      ReviewedMeaning(ItemsOf(readings), item);
    }
  }

  lemma KnownItems(items: seq<Item>, reviewed: map<ItemId, Item>, gone: set<FileKey>, files: map<string, Stat>,
                   retired: set<FileKey>, deleted: map<ItemId, Deletion>)
    requires AllGenuine(items, gone, files, retired) && forall id :: id in deleted ==> id.Sha256? && id.key in gone
    requires forall id :: id in reviewed ==> reviewed[id] in items && reviewed[id].id == id
    requires forall a, b :: a in items && b in items && a.path == b.path ==> a == b
    ensures AllKnown(reviewed, files, retired)
    ensures forall id :: id in reviewed ==> id.Sha256? && reviewed[id].path == id.key.path && id !in deleted
  {
    hide Live;
    assert forall id :: id in reviewed ==> Genuine(reviewed[id], gone, files, retired);
  }

  lemma KnownAt(reviewed: map<ItemId, Item>, id: ItemId, files: map<string, Stat>, retired: set<FileKey>)
    requires AllKnown(reviewed, files, retired)
    ensures id in reviewed ==> id.Sha256? && id.key in Live(files) + retired
  {
  }

  lemma StillKnown(reviewed: map<ItemId, Item>, f: map<string, Stat>, g: set<FileKey>, files: map<string, Stat>,
                   retired: set<FileKey>)
    requires AllKnown(reviewed, f, g) && Onward(f, g, files, retired)
    ensures AllKnown(reviewed, files, retired)
  {
  }

  /** What the loop decided about the items from `n` on: by its look for an item that is listed, and by the announced
      unlink, which only the first of them can have, for one that is not. */
  ghost predicate Judged(items: seq<Item>, reviewed: map<ItemId, Item>, n: nat, pending: Option<ItemId>,
                         v: seq<Verdict>, looks: seq<Option<Look>>, retired: set<FileKey>) {
    && |looks| == |v| <= |items|
    && forall i :: n <= i < |v| ==>
         && v[i] == Decision(items[i], Listed(reviewed, items[i]), looks[i], i == n && pending == Some(items[i].id))
         && (looks[i].Some? <==> Listed(reviewed, items[i]))
         && (looks[i].Some? ==> items[i].id.Sha256? && Sees(items[i].id.key, looks[i].value, retired))
  }

  /** With nobody else at work: the looks found the directory as it was when the loop began, and exactly the paths of
      the removed items have gone from it. */
  ghost predicate LeftAlone(before: map<string, Stat>, items: seq<Item>, n: nat, v: seq<Verdict>,
                            looks: seq<Option<Look>>, files: map<string, Stat>) {
    && |looks| == |v| <= |items|
    && (forall i :: n <= i < |v| && looks[i].Some? ==>
          looks[i].value.stat == if items[i].path in before then Some(before[items[i].path]) else None)
    && files == before - set i | n <= i < |v| && v[i] == Removed :: items[i].path
  }

  lemma NoneJudged(items: seq<Item>, reviewed: map<ItemId, Item>, v: seq<Verdict>, pending: Option<ItemId>,
                   looks: seq<Option<Look>>, retired: set<FileKey>, files: map<string, Stat>)
    requires |looks| == |v| <= |items|
    ensures Judged(items, reviewed, |v|, pending, v, looks, retired) && LeftAlone(files, items, |v|, v, looks, files)
    ensures Onward(files, retired, files, retired)
  {
  }

  lemma JudgedStill(items: seq<Item>, reviewed: map<ItemId, Item>, n: nat, pending: Option<ItemId>, v: seq<Verdict>,
                    looks: seq<Option<Look>>, gone: set<FileKey>, retired: set<FileKey>)
    requires Judged(items, reviewed, n, pending, v, looks, gone) && gone <= retired
    ensures Judged(items, reviewed, n, pending, v, looks, retired)
  {
  }

  lemma JudgedNext(items: seq<Item>, reviewed: map<ItemId, Item>, n: nat, pending: Option<ItemId>, v: seq<Verdict>,
                   looks: seq<Option<Look>>, retired: set<FileKey>, verdict: Verdict, look: Option<Look>)
    requires Judged(items, reviewed, n, pending, v, looks, retired) && n <= |v| < |items|
    requires var item := items[|v|];
             && verdict == Decision(item, Listed(reviewed, item), look, |v| == n && pending == Some(item.id))
             && (look.Some? <==> Listed(reviewed, item))
             && (look.Some? ==> item.id.Sha256? && Sees(item.id.key, look.value, retired))
    ensures Judged(items, reviewed, n, pending, v + [verdict], looks + [look], retired)
  {
  }

  lemma LeftAloneNext(before: map<string, Stat>, items: seq<Item>, reviewed: map<ItemId, Item>, n: nat,
                      pending: Option<ItemId>, v: seq<Verdict>, looks: seq<Option<Look>>, retired: set<FileKey>,
                      between: map<string, Stat>, verdict: Verdict, look: Option<Look>, files: map<string, Stat>)
    requires LeftAlone(before, items, n, v, looks, between) && n <= |v| < |items| && DistinctIds(items)
    requires Judged(items, reviewed, n, pending, v, looks, retired)
    requires forall a, b :: a in reviewed && b in reviewed && reviewed[a].path == reviewed[b].path ==> a == b
    requires look.Some? <==> Listed(reviewed, items[|v|])
    requires look.Some? ==>
               look.value.stat == if items[|v|].path in between then Some(between[items[|v|].path]) else None
    requires verdict == Removed ==> look.Some?
    requires files == between - Taken(items[|v|], verdict)
    ensures LeftAlone(before, items, n, v + [verdict], looks + [look], files)
  {
    var all, m := v + [verdict], |v|;
    var gone, gone' := set i | n <= i < |v| && v[i] == Removed :: items[i].path,
                       set i | n <= i < |all| && all[i] == Removed :: items[i].path;
    assert all[m] == verdict && forall i :: 0 <= i < m ==> all[i] == v[i];
    forall path ensures path in gone' <==> path in gone || path in Taken(items[m], verdict) {
      if path in gone {
        var i :| n <= i < |v| && v[i] == Removed && items[i].path == path;
        assert all[i] == Removed;
      }
    }
    assert gone' == gone + Taken(items[m], verdict);
    if look.Some? {
      forall i | n <= i < m && v[i] == Removed ensures items[i].path != items[m].path {
        assert Listed(reviewed, items[i]) && items[i].id != items[m].id;
      }
      assert items[m].path !in gone;
    }
  }

  lemma StillSeen(key: FileKey, files: map<string, Stat>, retired: set<FileKey>, look: Look)
    requires key in Live(files) + retired && look.stat == if key.path in files then Some(files[key.path]) else None
    ensures Sees(key, look, retired)
  {
  }

  /** The dictionary `cleanup_execute` builds from a preview: the last item with an id wins. */
  function Reviewed(items: seq<Item>): (m: map<ItemId, Item>)
    ensures forall id :: id in m ==> m[id] in items && m[id].id == id
  {
    if items == [] then map[] else
      var last := items[|items| - 1];
      Reviewed(items[..|items| - 1])[last.id := last]
  }

  lemma {:induction false} ReviewedMeaning(items: seq<Item>, item: Item)
    requires DistinctIds(items)
    ensures item.id in Reviewed(items) && Reviewed(items)[item.id] == item <==> item in items
  {
    if items != [] {
      var k := |items| - 1;
      assert items == items[..k] + [items[k]];
      ReviewedMeaning(items[..k], item);
      if item in items[..k] {
        assert item.id != items[k].id;
      }
    }
  }

  /** An identity that is gone is not on disk, and every unlink is accounted for. */
  ghost predicate History(files: map<string, Stat>, retired: set<FileKey>, deleted: map<ItemId, Deletion>) {
    && Live(files) !! retired
    && forall id :: id in deleted ==> Faithful(id, deleted[id], retired)
  }

  /** An unlink was at its item's path. The reviewed file was still there at the second look, and by now it is gone;
      the file hit was there until then, and it is the reviewed one unless that one went in between. */
  ghost predicate Faithful(id: ItemId, d: Deletion, retired: set<FileKey>) {
    && id.Sha256? && id.key in retired && d.victim in retired && d.victim.path == id.key.path
    && d.looked <= d.gone && id.key !in d.looked && d.victim !in d.gone
    && (d.victim == id.key || id.key in d.gone)
  }

  /** Unlinking what is at the path of an identity that existed keeps the history: that identity has gone by then. */
  lemma UnlinkKeepsHistory(files: map<string, Stat>, retired: set<FileKey>, deleted: map<ItemId, Deletion>, id: ItemId,
                           d: Deletion)
    requires History(files, retired, deleted) && id.Sha256? && id.key in Live(files) + retired && id.key !in d.looked
    requires id.key.path in files && d.victim == KeyOf(id.key.path, files[id.key.path])
    requires d.gone == retired && d.looked <= retired
    ensures History(files - {id.key.path}, retired + {d.victim}, deleted[id := d])
    ensures Onward(files, retired, files - {id.key.path}, retired + {d.victim})
  {
    var rest := files - {id.key.path};
    assert forall path :: path in files && path != id.key.path ==>
                            path in rest && KeyOf(path, rest[path]) in Live(rest);
  }

  /** What others do leaves the history true, and an identity that existed is on disk or gone. */
  lemma StillThere(f: map<string, Stat>, g: set<FileKey>, f': map<string, Stat>, g': set<FileKey>,
                   deleted: map<ItemId, Deletion>, key: FileKey)
    requires History(f, g, deleted) && Interference(f, g, f', g') && key in Live(f) + g
    ensures History(f', g', deleted) && key in Live(f') + g' && Onward(f, g, f', g')
  {
  }

  lemma OnwardTwice(f: map<string, Stat>, g: set<FileKey>, f': map<string, Stat>, g': set<FileKey>,
                    f'': map<string, Stat>, g'': set<FileKey>)
    requires Onward(f, g, f', g') && Onward(f', g', f'', g'')
    ensures Onward(f, g, f'', g'')
  {
  }

  /** What "removed" means: there was an unlink at the item's path after a look that found the reviewed file, and it hit
      that file exactly unless something else took it away between the look and the unlink. */
  lemma RemovedMeaning(r: Receipt, verdicts: seq<Verdict>, files: map<string, Stat>, retired: set<FileKey>,
                       deleted: map<ItemId, Deletion>, i: nat)
    requires ValidBody(r.request) && Sound(r, verdicts, deleted) && History(files, retired, deleted)
    requires i < |r.request.items| && r.request.items[i].id in RemovedBag(r.removed)
    ensures var id := r.request.items[i].id;
            && id in deleted && id.Sha256? && deleted[id].victim.path == id.key.path && id.key !in deleted[id].looked
            && (deleted[id].victim == id.key <==> id.key !in deleted[id].gone - deleted[id].looked)
  {
    hide ValidBody;
    CategoriesTellTheTruth(r, verdicts, deleted, i);
  }

  ghost function RequestedIds(body: Body): set<ItemId> {
    set item | item in body.items :: item.id
  }

  /** What the disk holds at any moment, whoever crashed before. */
  ghost predicate Stored(receipt: Option<Receipt>, verdicts: seq<Verdict>, deleted: map<ItemId, Deletion>) {
    match receipt
    case None => deleted == map[] && verdicts == []
    case Some(r) => ValidBody(r.request) && Sound(r, verdicts, deleted) && deleted.Keys <= RequestedIds(r.request)
  }

  lemma UnlinkKeepsStored(receipt: Option<Receipt>, verdicts: seq<Verdict>, deleted: map<ItemId, Deletion>, id: ItemId,
                          d: Deletion)
    requires Stored(receipt, verdicts, deleted) && receipt.Some? && receipt.value.pending == Some(id)
    ensures Stored(receipt, verdicts, deleted[id := d])
  {
    PendingCoversUnlink(receipt.value, verdicts, deleted, id, d);
  }

  /** The receipt a run starts from. */
  function Opening(receipt: Option<Receipt>, body: Body): Receipt {
    if receipt.Some? then receipt.value.(status := Running) else Receipt(body, Running, [], [], [], None, None)
  }

  lemma OpeningIsSound(receipt: Option<Receipt>, verdicts: seq<Verdict>, deleted: map<ItemId, Deletion>, body: Body)
    requires Stored(receipt, verdicts, deleted)
    ensures Sound(Opening(receipt, body), verdicts, deleted)
  {
  }

  /** The disk as one operation sees it: the directory and the operation's own receipt. `retired`, `verdicts`
      and `deleted` record history: the identities that have gone, the verdicts behind the stored receipt,
      and this operation's unlinks, at most one for each item. */
  class Disk {
    var files: map<string, Stat>
    var receipt: Option<Receipt>
    var retired: set<FileKey>
    ghost var verdicts: seq<Verdict>
    ghost var deleted: map<ItemId, Deletion>
    /** Since this run began nobody else has changed the directory, and no step has failed by itself. */
    ghost var calm: bool
    /** Since this run began a step has failed by itself. */
    ghost var failed: bool

    ghost predicate Valid()
      reads this
    {
      History(files, retired, deleted) && Stored(receipt, verdicts, deleted)
    }

    constructor (files: map<string, Stat>)
      ensures Valid() && receipt == None && deleted == map[] && this.files == files
    {
      this.files := files;
      receipt, retired, verdicts, deleted, calm, failed := None, {}, [], map[], true, false;
    }

    /** Other processes run. */
    method Interfere()
      requires Live(files) !! retired
      modifies this`files, this`retired, this`calm
      ensures Interference(old(files), old(retired), files, retired)
      ensures calm ==> old(calm) && files == old(files)
    {
      var wish: map<string, Stat> := *;
      var passing: set<FileKey> := *;
      var files' := map path | path in wish && KeyOf(path, wish[path]) !in retired :: wish[path];
      retired := retired + (Live(files) + passing - Live(files'));
      calm := calm && files' == files;
      files := files';
    }

    /** `cleanup_save`: the receipt is replaced atomically, and the call may fail or die on either side of that. */
    method Save(r: Receipt, ghost v: seq<Verdict>) returns (signal: Signal)
      requires Valid() && ValidBody(r.request) && Sound(r, v, deleted)
      requires receipt.Some? ==> receipt.value.request == r.request
      modifies this`files, this`retired, this`receipt, this`verdicts, this`calm, this`failed
      ensures Valid() && Interference(old(files), old(retired), files, retired)
      ensures calm ==> old(calm) && files == old(files) && signal == Continue
      ensures (receipt == old(receipt) && verdicts == old(verdicts)) || (receipt == Some(r) && verdicts == v)
      ensures signal == Continue ==> receipt == Some(r) && verdicts == v
      ensures signal != Continue ==> failed
      ensures signal == Continue ==> failed == old(failed)
    {
      Interfere();
      var replaced: bool := *;
      signal := *;
      calm, failed := calm && signal == Continue, failed || signal != Continue;
      if replaced || signal == Continue {
        receipt, verdicts := Some(r), v;
      }
    }

    /** Reading one path, with a step of the others before it: the file may be gone by then. */
    method Lookup(path: string, category: string, nowNs: int)
      returns (item: Option<Item>, signal: Signal, ghost look: Look)
      requires Valid()
      modifies this`files, this`retired, this`calm, this`failed
      ensures Valid() && Interference(old(files), old(retired), files, retired)
      ensures look == Look(nowNs, if path in files then Some(files[path]) else None)
      ensures item == ItemAt(path, category, look)
      ensures item.Some? ==> path in files && item.value.id == Sha256(KeyOf(path, files[path])) &&
                             item.value.category == category && item.value.path == path
      ensures item.Some? ==> Genuine(item.value, old(retired), files, retired)
      ensures calm ==> old(calm) && files == old(files) && signal == Continue
      ensures signal == Continue ==> failed == old(failed)
    {
      Interfere();
      signal, item := *, None;
      calm, failed := calm && signal == Continue, failed || signal != Continue;
      look := Look(nowNs, if path in files then Some(files[path]) else None);
      if path in files {
        item := CleanupItem(path, category, files[path], nowNs);
      }
    }

    /** `path.unlink()` for the pending item. It raises when the path is gone, and may raise or die anyway. */
    method Unlink(ghost id: ItemId, path: string, ghost looked: set<FileKey>) returns (signal: Signal)
      requires Valid() && id.Sha256? && id.key.path == path
      requires receipt.Some? && receipt.value.pending == Some(id)
      requires id !in deleted
      requires id.key in Live(files) + retired && id.key !in looked && looked <= retired
      modifies this`files, this`retired, this`deleted, this`calm, this`failed
      ensures Valid() && Onward(old(files), old(retired), files, retired)
      ensures deleted - {id} == old(deleted) && (id in deleted ==> deleted[id].looked == looked)
      ensures signal == Continue ==> id in deleted
      ensures calm ==> old(calm) && (path in old(files) ==> signal == Continue && files == old(files) - {path})
      ensures signal == Continue ==> failed == old(failed)
    {
      hide Stored, Live, Faithful, Interference, Onward;
      ghost var f0, g0 := files, retired;
      Interfere();
      StillThere(f0, g0, files, retired, deleted, id.key);
      signal := *;
      calm, failed := calm && signal == Continue, failed || signal != Continue;
      if path !in files {
        if signal == Continue { signal := Raise; }
        return;
      }
      var happened: bool := *;
      if happened || signal == Continue {
        var victim := KeyOf(path, files[path]);
        ghost var d := Deletion(victim, looked, retired);
        UnlinkKeepsStored(receipt, verdicts, deleted, id, d);
        UnlinkKeepsHistory(files, retired, deleted, id, d);
        deleted := deleted[id := d];
        OnwardTwice(f0, g0, files, retired, files - {path}, retired + {victim});
        files, retired := files - {path}, retired + {victim};
      }
    }

    /** `cleanup_preview`: one pass over the cache root, with others changing it meanwhile. The entries are those of one
        listing, in any order; all are judged by one reading of the clock. */
    method Preview() returns (items: seq<Item>, signal: Signal, ghost usable: bool, ghost readings: seq<Reading>)
      requires Valid()
      modifies this`files, this`retired, this`calm, this`failed
      ensures Valid() && Onward(old(files), old(retired), files, retired)
      ensures AllGenuine(items, old(retired), files, retired)
      ensures items == ItemsOf(readings) && DistinctReadings(readings)
      ensures signal == Continue && usable ==> SeesAll(old(files), readings, retired)
      ensures !usable ==> readings == [] && signal == Continue
      ensures signal == Continue ==> |items| <= MAX_ITEMS && TotalBytes(items) <= MAX_TOTAL_BYTES
      ensures calm ==> old(calm) && files == old(files) && AtOnce(files, readings)
      ensures calm && signal != Continue ==>
              |files| > MAX_SCANNED || |items| > MAX_ITEMS || TotalBytes(items) > MAX_TOTAL_BYTES
      ensures signal == Continue ==> failed == old(failed)
    {
      hide Stored, History, Sound, ItemsOf, DistinctReadings, SeesSome, SeesAll, AtOnce, AllGenuine, Onward, Live,
        TotalBytes, Interference, CleanupItem;
      ghost var f0, g0 := files, retired;
      items, signal, readings := [], Continue, [];
      var rootUsable: bool := *;
      usable := rootUsable;
      if !rootUsable {
        NothingListed(files, retired);
        return;
      }
      var nowNs: int := *;
      var names := files.Keys;
      var planned, scanned := 0, 0;
      NothingListed(files, retired);
      while names != {}
        invariant Valid() && Onward(f0, g0, files, retired) && signal == Continue && failed == old(failed)
        invariant AllGenuine(items, g0, files, retired)
        invariant items == ItemsOf(readings) && DistinctReadings(readings)
        invariant (forall r :: r in readings ==> r.path !in names) && SeesSome(f0, names, readings, retired)
        invariant planned == TotalBytes(items) && |items| <= MAX_ITEMS && planned <= MAX_TOTAL_BYTES
        invariant calm ==> old(calm) && files == f0 && AtOnce(f0, readings)
        invariant scanned + |names| == |f0.Keys| && scanned <= MAX_SCANNED && names <= f0.Keys
        decreases names
      {
        var name :| name in names;
        var late: bool := *;
        ghost var f1, g1 := files, retired;
        scanned := scanned + 1;
        if scanned > MAX_SCANNED || late {
          calm, failed := calm && !late, failed || late;
          return items, Raise, usable, readings;
        }
        var item, step; ghost var look;
        item, step, look := Lookup(name, CATEGORY, nowNs);
        LookedOn(f0, g0, f1, g1, files, retired, items);
        if step != Continue {
          return items, step, usable, readings;
        }
        OneMoreRead(f0, names, readings, g0, g1, files, retired, name, look);
        ReadingAdded(readings, Reading(name, look));
        readings := readings + [Reading(name, look)];
        names := names - {name};
        if item.Some? {
          TotalBytesSnoc(items, item.value);
          GenuineAdded(items, item.value, g0, g1, files, retired);
          items, planned := items + [item.value], planned + item.value.bytes;
        }
        if |items| > MAX_ITEMS || planned > MAX_TOTAL_BYTES {
          return items, Raise, usable, readings;
        }
      }
      AllRead(f0, readings, retired);
    }

    /** Unlink the announced item and record that it was removed. */
    method UnlinkAndRecord(start: Receipt, item: Item, ghost looked: set<FileKey>)
      returns (memory: Receipt, ghost v: seq<Verdict>, signal: Signal)
      requires Valid() && receipt == Some(start) && Next(start, verdicts, item) && start.pending == Some(item.id)
      requires item.id.Sha256? && item.path == item.id.key.path && item.id.key in Live(files) + retired
      requires item.id !in deleted && item.id.key !in looked && looked <= retired
      modifies this`files, this`retired, this`receipt, this`verdicts, this`deleted, this`calm, this`failed
      ensures Valid() && receipt.Some? && receipt.value.request == memory.request == start.request
              && Onward(old(files), old(retired), files, retired)
      ensures memory.status == Running && Sound(memory, v, deleted)
      ensures old(verdicts) <= verdicts <= v && deleted - {item.id} == old(deleted)
      ensures item.id in deleted ==> deleted[item.id].looked == looked
      ensures v == old(verdicts) || v == old(verdicts) + [Removed]
      ensures signal == Continue ==>
                receipt == Some(memory) && verdicts == v == old(verdicts) + [Removed] && memory.pending == None
      ensures calm ==> old(calm)
      ensures calm && item.path in old(files) ==> signal == Continue && files == old(files) - {item.path}
      ensures signal == Continue ==> failed == old(failed)
    {
      hide ValidBody, History, Agree, Live;
      memory, v := start, verdicts;
      signal := Unlink(item.id, item.path, looked);
      if signal != Continue {
        return;
      }
      RemoveIsSound(memory, v, deleted, item);
      memory, v := Remove(memory, item), v + [Removed];
      signal := Save(memory, v);
    }

    /** Announce the item in the stored receipt, then unlink it. */
    method Delete(start: Receipt, item: Item, ghost looked: set<FileKey>)
      returns (memory: Receipt, ghost v: seq<Verdict>, signal: Signal)
      requires Valid() && receipt == Some(start) && Next(start, verdicts, item)
      requires item.id.Sha256? && item.path == item.id.key.path && item.id.key in Live(files) + retired
      requires item.id !in deleted && item.id.key !in looked && looked <= retired
      modifies this`files, this`retired, this`receipt, this`verdicts, this`deleted, this`calm, this`failed
      ensures Valid() && receipt.Some? && receipt.value.request == memory.request == start.request
              && Onward(old(files), old(retired), files, retired)
      ensures memory.status == Running && Sound(memory, v, deleted)
      ensures old(verdicts) <= verdicts <= v && deleted - {item.id} == old(deleted)
      ensures item.id in deleted ==> deleted[item.id].looked == looked
      ensures v == old(verdicts) || v == old(verdicts) + [Removed]
      ensures signal == Continue ==>
                receipt == Some(memory) && verdicts == v == old(verdicts) + [Removed] && memory.pending == None
      ensures calm ==> old(calm)
      ensures calm && item.path in old(files) ==> signal == Continue && files == old(files) - {item.path}
      ensures signal == Continue ==> failed == old(failed)
    {
      v := verdicts;
      AnnounceIsSound(start, v, deleted, item);
      memory := Announce(start, item.id);
      signal := Save(memory, v);
      if signal != Continue {
        return;
      }
      memory, v, signal := UnlinkAndRecord(memory, item, looked);
    }

    /** An item the fresh preview still shows: look again, and delete it exactly if it is still the reviewed file. */
    method Process(start: Receipt, item: Item)
      returns (memory: Receipt, ghost v: seq<Verdict>, signal: Signal, ghost look: Look)
      requires Valid() && receipt == Some(start) && Next(start, verdicts, item)
      requires item.id.Sha256? && item.path == item.id.key.path && item.id !in deleted
      requires item.id.key in Live(files) + retired
      modifies this`files, this`retired, this`receipt, this`verdicts, this`deleted, this`calm, this`failed
      ensures Valid() && receipt.Some? && receipt.value.request == memory.request == start.request
              && Onward(old(files), old(retired), files, retired)
      ensures memory.status == Running && Sound(memory, v, deleted)
      ensures old(verdicts) <= verdicts <= v && deleted - {item.id} == old(deleted)
      ensures signal == Continue ==> receipt == Some(memory) && verdicts == v && memory.pending == None
      ensures v == old(verdicts) || v == old(verdicts) + [Decision(item, true, Some(look), false)]
      ensures signal == Continue ==> |v| == |old(verdicts)| + 1
      ensures Sees(item.id.key, look, retired)
      ensures item.id in deleted ==> old(retired) <= deleted[item.id].looked
      ensures calm ==> old(calm) && signal == Continue && files == old(files) - Taken(item, v[|old(verdicts)|])
      ensures calm ==> look.stat == if item.path in old(files) then Some(old(files)[item.path]) else None
      ensures signal == Continue ==> failed == old(failed)
    {
      memory, v := start, verdicts;
      hide Sound, History, Agree, ValidBody, CleanupItem;
      var nowNs: int := *;
      var immediate;
      immediate, signal, look := Lookup(item.path, item.category, nowNs);
      ghost var looked := retired;
      StillSeen(item.id.key, files, retired, look);
      if signal != Continue {
        return;
      }
      if immediate != Some(item) {
        SkipIsSound(memory, v, deleted, item);
        memory, v := Skip(memory, item.id), v + [Skipped];
        signal := Save(memory, v);
        return;
      }
      memory, v, signal := Delete(start, item, looked);
    }

    /** An item the fresh preview no longer shows: uncertain if this operation may have unlinked it, else skipped. */
    method Dismiss(start: Receipt, item: Item) returns (memory: Receipt, ghost v: seq<Verdict>, signal: Signal)
      requires Valid() && receipt == Some(start) && Next(start, verdicts, item)
      modifies this`files, this`retired, this`receipt, this`verdicts, this`calm, this`failed
      ensures Valid() && receipt.Some? && receipt.value.request == memory.request == start.request
              && Onward(old(files), old(retired), files, retired)
      ensures memory.status == Running && Sound(memory, v, deleted)
      ensures old(verdicts) <= verdicts <= v
      ensures v == old(verdicts) + [if start.pending == Some(item.id) then Uncertain else Skipped]
              && memory.pending == None
      ensures signal == Continue ==> receipt == Some(memory) && verdicts == v
      ensures calm ==> old(calm) && signal == Continue && files == old(files)
      ensures signal == Continue ==> failed == old(failed)
    {
      v := verdicts;
      if start.pending == Some(item.id) {
        DoubtIsSound(start, v, deleted, item);
        memory, v := Doubt(start, item.id), v + [Uncertain];
      } else {
        SkipIsSound(start, v, deleted, item);
        memory, v := Skip(start, item.id), v + [Skipped];
      }
      signal := Save(memory, v);
    }

    /** One turn of the loop: an item that the preview lists as requested is decided by a second look, and any other is
        dismissed. */
    method Advance(start: Receipt, item: Item, reviewed: map<ItemId, Item>)
      returns (memory: Receipt, ghost v: seq<Verdict>, signal: Signal, ghost look: Option<Look>)
      requires Valid() && receipt == Some(start) && Next(start, verdicts, item)
      requires item.id in reviewed ==>
              item.id.Sha256? && reviewed[item.id].path == item.id.key.path && item.id !in deleted
      requires item.id in reviewed ==> item.id.key in Live(files) + retired
      modifies this`files, this`retired, this`receipt, this`verdicts, this`deleted, this`calm, this`failed
      ensures Valid() && receipt.Some? && receipt.value.request == memory.request == start.request
      ensures memory.status == Running && Sound(memory, v, deleted)
      ensures Onward(old(files), old(retired), files, retired)
      ensures old(verdicts) <= verdicts <= v
      ensures deleted == old(deleted) || (item.id !in old(deleted) && deleted - {item.id} == old(deleted))
      ensures signal == Continue ==>
              receipt == Some(memory) && verdicts == v && |v| == |old(verdicts)| + 1 && memory.pending == None
      ensures look.Some? <==> Listed(reviewed, item)
      ensures look.Some? ==> Sees(item.id.key, look.value, retired)
      ensures v == old(verdicts) ||
              v == old(verdicts) + [Decision(item, Listed(reviewed, item), look, start.pending == Some(item.id))]
      ensures calm ==> old(calm) && signal == Continue && files == old(files) - Taken(item, v[|old(verdicts)|])
      ensures calm && look.Some? ==>
              look.value.stat == if item.path in old(files) then Some(old(files)[item.path]) else None
      ensures signal == Continue ==> failed == old(failed)
    {
      hide History, ValidBody, Agree, CleanupItem;
      if item.id !in reviewed || reviewed[item.id] != item {
        look := None;
        memory, v, signal := Dismiss(start, item);
      } else {
        ghost var found;
        memory, v, signal, found := Process(start, item);
        look := Some(found);
      }
    }

    /** One turn, with the account of it: `n` items were decided when the loop began, and `looks` are those so far. */
    method Turn(start: Receipt, item: Item, reviewed: map<ItemId, Item>, ghost n: nat, ghost pending: Option<ItemId>,
                ghost before: map<string, Stat>, ghost looks: seq<Option<Look>>)
      returns (memory: Receipt, ghost v: seq<Verdict>, signal: Signal, ghost looks': seq<Option<Look>>)
      requires Valid() && receipt == Some(start) && Next(start, verdicts, item)
      requires n <= |verdicts| && start.pending == (if |verdicts| == n then pending else None)
      requires forall id :: id in reviewed ==> id.Sha256? && reviewed[id].path == id.key.path
      requires item.id !in deleted || item.id !in reviewed
      requires AllKnown(reviewed, files, retired) && DistinctIds(start.request.items)
      requires Judged(start.request.items, reviewed, n, pending, verdicts, looks, retired)
      modifies this`files, this`retired, this`receipt, this`verdicts, this`deleted, this`calm, this`failed
      ensures Valid() && receipt.Some? && receipt.value.request == memory.request == start.request
      ensures memory.status == Running && Sound(memory, v, deleted)
      ensures Onward(old(files), old(retired), files, retired) && AllKnown(reviewed, files, retired)
      ensures old(verdicts) <= verdicts <= v
      ensures deleted == old(deleted) || (item.id !in old(deleted) && deleted - {item.id} == old(deleted))
      ensures signal == Continue ==>
              receipt == Some(memory) && verdicts == v && |v| == |old(verdicts)| + 1 && memory.pending == None
      ensures Judged(start.request.items, reviewed, n, pending, v, looks', retired)
      ensures calm ==> old(calm) && signal == Continue
      ensures calm && LeftAlone(before, start.request.items, n, old(verdicts), looks, old(files)) ==>
                LeftAlone(before, start.request.items, n, v, looks', files)
      ensures signal == Continue ==> failed == old(failed)
    {
      hide Sound, ValidBody, Faithful, Judged, LeftAlone, History, DistinctIds, Stored, CleanupItem;
      ghost var items, v1, f1, g1 := start.request.items, verdicts, files, retired;
      ghost var look;
      memory, v, signal, look := Advance(start, item, reviewed);
      looks' := looks;
      StillKnown(reviewed, f1, g1, files, retired);
      JudgedStill(items, reviewed, n, pending, v1, looks, g1, retired);
      if v != v1 {
        assert items[|v1|] == item;
        JudgedNext(items, reviewed, n, pending, v1, looks, retired, v[|v1|], look);
        if calm && LeftAlone(before, items, n, v1, looks, f1) {
          LeftAloneNext(before, items, reviewed, n, pending, v1, looks, retired, f1, v[|v1|], look, files);
        }
        looks' := looks + [look];
      }
    }

    /** The loop over the requested items; the memory it leaves is at most one save ahead of the disk. */
    method Classify(start: Receipt, reviewed: map<ItemId, Item>)
      returns (memory: Receipt, ghost v: seq<Verdict>, signal: Signal, ghost looks: seq<Option<Look>>)
      requires Valid() && receipt == Some(start) && start.status == Running
      requires forall id :: id in reviewed ==> id.Sha256? && reviewed[id].path == id.key.path && id !in deleted
      requires AllKnown(reviewed, files, retired)
      modifies this`files, this`retired, this`receipt, this`verdicts, this`deleted, this`calm, this`failed
      ensures Valid() && receipt.Some? && receipt.value.request == memory.request == start.request
      ensures Sound(memory, v, deleted) && memory.status == Running && Onward(old(files), old(retired), files, retired)
      ensures old(verdicts) <= verdicts <= v && Grew(old(deleted), deleted)
      ensures Spared(start.request.items, |old(verdicts)|, |start.request.items|, old(deleted), deleted)
      ensures signal == Continue ==> |v| == |memory.request.items| && memory.pending == None
      ensures Judged(start.request.items, reviewed, |old(verdicts)|, start.pending, v, looks, retired)
      ensures calm ==> old(calm) && signal == Continue
                       && LeftAlone(old(files), start.request.items, |old(verdicts)|, v, looks, files)
      ensures signal == Continue ==> failed == old(failed)
    {
      hide Sound, ValidBody, Spared, Done, Faithful, Judged, LeftAlone, AllKnown, History, Onward, DistinctIds, Stored;
      memory, v, signal := start, verdicts, Continue;
      ghost var v0, d0, f0, g0 := verdicts, deleted, files, retired;
      looks := seq(|v0|, _ => None);
      RequestOk(receipt, verdicts, deleted);
      NoneSpared(start.request.items, |v0|, d0);
      NoneJudged(start.request.items, reviewed, v0, start.pending, looks, retired, files);
      var items, done := start.request.items, Done(start);
      for i := 0 to |items|
        invariant Valid() && receipt == Some(memory) && verdicts == v && v0 <= v && signal == Continue
        invariant Onward(f0, g0, files, retired) && failed == old(failed)
        invariant memory.request == start.request && memory.status == Running && Sound(memory, v, deleted)
        invariant |v| == if i <= |v0| then |v0| else i
        invariant if i <= |v0| then memory == start else memory.pending == None
        invariant Grew(d0, deleted) && Spared(items, |v0|, i, d0, deleted)
        invariant AllKnown(reviewed, files, retired)
        invariant Judged(items, reviewed, |v0|, start.pending, v, looks, retired)
        invariant calm ==> old(calm) && LeftAlone(f0, items, |v0|, v, looks, files)
      {
        var item := items[i];
        InDone(start, v0, d0, i);
        if item.id in done {
          SparedLater(items, |v0|, i, i + 1, d0, deleted);
          continue;
        }
        var late: bool := *;
        if late {
          SparedLater(items, |v0|, i, |items|, d0, deleted);
          calm, failed := false, true;
          return memory, v, Raise, looks;
        }
        ghost var d1, f1, g1 := deleted, files, retired;
        SparedAt(items, |v0|, i, d0, d1);
        memory, v, signal, looks := Turn(memory, item, reviewed, |v0|, start.pending, f0, looks);
        SparedNext(items, |v0|, i, d0, d1, deleted);
        OnwardTwice(f0, g0, f1, g1, files, retired);
        if signal != Continue {
          SparedLater(items, |v0|, i + 1, |items|, d0, deleted);
          return;
        }
      }
      AllDecided(memory, v, deleted);
    }

    /** The body of the `try` statement; `memory` is the receipt variable as the handler will find it. */
    method TryBody(body: Body)
      returns (memory: Option<Receipt>, ghost v: seq<Verdict>, ending: Ending, ghost account: Account)
      requires Valid() && ValidBody(body)
      modifies this`files, this`retired, this`receipt, this`verdicts, this`deleted, this`calm, this`failed
      ensures Valid() && old(verdicts) <= verdicts && Grew(old(deleted), deleted)
      ensures memory == None || memory.value.request != body ==>
                receipt == old(receipt) && verdicts == old(verdicts) && deleted == old(deleted) && !ending.Returns?
      ensures memory.Some? && memory.value.request != body ==> receipt == memory
      ensures memory.Some? && memory.value.request == body ==> Sound(memory.value, v, deleted) && verdicts <= v
      ensures memory.Some? && memory.value.request == body && receipt.Some? ==> receipt.value.request == body
      ensures old(receipt).Some? ==> receipt.Some? && receipt.value.request == old(receipt).value.request
      ensures old(receipt).Some? && old(receipt).value.status == Succeeded ==>
                receipt == old(receipt) && verdicts == old(verdicts) && deleted == old(deleted) &&
                (ending.Raises? ==> memory == None || memory.value.request != body)
      ensures ending.Returns? ==>
              receipt == memory == Some(ending.receipt) && ending.receipt.status == Succeeded
                && ending.receipt.request == body
      ensures ending.Returns? && !Finished(old(receipt)) ==>
              Explained(body.items, |old(verdicts)|, PendingOf(old(receipt)), verdicts, account, retired)
                && |verdicts| == |body.items| && (account.usable ==> SeesAll(old(files), account.readings, retired))
      ensures calm ==> old(calm)
      ensures calm && (old(receipt).Some? ==> old(receipt).value.request == body) ==>
                ending.Returns? || TooMuch(old(files), account)
      ensures calm && ending.Returns? && !Finished(old(receipt)) ==>
              Undisturbed(old(files), body.items, |old(verdicts)|, verdicts, account, files)
      ensures ending.Returns? ==> failed == old(failed)
    {
      hide RemovedOf, SkippedOf, UncertainOf, RemovedTotal, Explained, SeesAll, Undisturbed, TooMuch, Live,
        CleanupItem, Done, Agree, ValidBody;
      memory, v, account := None, verdicts, Account(false, [], []);
      ghost var f0, g0 := files, retired;
      Interfere();
      var locked: Signal := *;
      calm, failed := calm && locked == Continue, failed || locked != Continue;
      if locked != Continue {
        return None, v, EndingOf(locked), account;
      }
      if receipt.Some? {
        if receipt.value.request != body {
          return receipt, v, Raises, account;
        }
        if receipt.value.status == Succeeded {
          return receipt, v, Returns(receipt.value), account;
        }
      }
      ghost var f1, g1 := files, retired;
      memory, v, ending, account := Run(body);
      SeesAllBefore(f0, g0, f1, g1, account.readings, retired);
    }

    /** The rest of the `try`, for a new or an unfinished operation. */
    method Run(body: Body)
      returns (memory: Option<Receipt>, ghost v: seq<Verdict>, ending: Ending, ghost account: Account)
      requires Valid() && ValidBody(body)
      requires receipt.Some? ==> receipt.value.request == body && receipt.value.status != Succeeded
      modifies this`files, this`retired, this`receipt, this`verdicts, this`deleted, this`calm, this`failed
      ensures Valid() && old(verdicts) <= verdicts <= v && Grew(old(deleted), deleted) && old(retired) <= retired
      ensures memory.Some? && memory.value.request == body && Sound(memory.value, v, deleted)
      ensures old(receipt).Some? ==> receipt.Some?
      ensures receipt.Some? ==> receipt.value.request == body
      ensures ending.Returns? ==> receipt == memory == Some(ending.receipt) && ending.receipt.status == Succeeded
      ensures ending.Returns? ==>
              Explained(body.items, |old(verdicts)|, PendingOf(old(receipt)), verdicts, account, retired)
                && |verdicts| == |body.items| && (account.usable ==> SeesAll(old(files), account.readings, retired))
      ensures calm ==> old(calm) && (ending.Returns? || TooMuch(old(files), account))
      ensures calm && ending.Returns? ==>
              Undisturbed(old(files), body.items, |old(verdicts)|, verdicts, account, files)
      ensures ending.Returns? ==> failed == old(failed)
    {
      hide RemovedOf, SkippedOf, UncertainOf, RemovedTotal, Explained, SeesAll, Undisturbed, TooMuch, Live, CleanupItem;
      v, account := verdicts, Account(false, [], []);
      ghost var f0, g0 := files, retired;
      var start := Opening(receipt, body);
      OpeningIsSound(receipt, v, deleted, body);
      memory := Some(start);
      var signal := Save(start, v);
      if signal != Continue {
        return memory, v, EndingOf(signal), account;
      }
      ghost var f1, g1 := files, retired;
      memory, v, ending, account := Resume(start);
      SeesAllBefore(f0, g0, f1, g1, account.readings, retired);
    }

    /** A fresh preview, the loop, and the final save. */
    method Resume(start: Receipt)
      returns (memory: Option<Receipt>, ghost v: seq<Verdict>, ending: Ending, ghost account: Account)
      requires Valid() && receipt == Some(start) && start.status == Running
      modifies this`files, this`retired, this`receipt, this`verdicts, this`deleted, this`calm, this`failed
      ensures Valid() && old(verdicts) <= verdicts <= v && Grew(old(deleted), deleted) && old(retired) <= retired
      ensures memory.Some? && memory.value.request == start.request && Sound(memory.value, v, deleted)
      ensures receipt.Some? && receipt.value.request == start.request
      ensures ending.Returns? ==> receipt == memory == Some(ending.receipt) && ending.receipt.status == Succeeded
      ensures ending.Returns? ==>
              Explained(start.request.items, |old(verdicts)|, start.pending, verdicts, account, retired)
                && |verdicts| == |start.request.items|
                && (account.usable ==> SeesAll(old(files), account.readings, retired))
      ensures calm ==> old(calm) && (ending.Returns? || TooMuch(old(files), account))
      ensures calm && ending.Returns? ==>
              Undisturbed(old(files), start.request.items, |old(verdicts)|, verdicts, account, files)
      ensures ending.Returns? ==> failed == old(failed)
    {
      hide RemovedOf, SkippedOf, UncertainOf, RemovedTotal, SeesAll, AllGenuine, Judged, LeftAlone, AtOnce, ItemsOf,
        Reviewed, DistinctReadings, Explained, AllKnown, Live, Done, Agree;
      ghost var gone, n, pending := retired, |verdicts|, start.pending;
      GoneByNow(files, retired, deleted);
      var items, signal; ghost var usable, readings;
      items, signal, usable, readings := Preview();
      account := Account(usable, readings, []);
      if signal != Continue {
        return Some(start), verdicts, EndingOf(signal), account;
      }
      PreviewKnown(readings, gone, files, retired, deleted);
      ghost var seenBy := retired;
      var current; ghost var looks;
      current, v, signal, looks := Classify(start, Reviewed(items));
      account := account.(looks := looks);
      ghost var g1 := retired;
      if signal != Continue {
        return Some(current), v, EndingOf(signal), account;
      }
      memory, ending := Finish(current, v);
      SeesAllLater(old(files), readings, seenBy, retired);
      JudgedIsExplained(start.request.items, n, pending, v, account, g1, retired);
    }

    /** Mark the fully classified receipt as succeeded. */
    method Finish(current: Receipt, ghost v: seq<Verdict>) returns (memory: Option<Receipt>, ending: Ending)
      requires Valid() && receipt.Some? && receipt.value.request == current.request && verdicts <= v
      requires Sound(current, v, deleted) && |v| == |current.request.items| && current.pending == None
      modifies this`files, this`retired, this`receipt, this`verdicts, this`calm, this`failed
      ensures Valid() && old(verdicts) <= verdicts <= v && receipt.Some? && receipt.value.request == current.request
      ensures memory.Some? && memory.value.request == current.request && Sound(memory.value, v, deleted)
      ensures ending.Returns? ==> receipt == memory == Some(ending.receipt) && ending.receipt.status == Succeeded
      ensures ending.Returns? ==> verdicts == v
      ensures old(retired) <= retired && (calm ==> old(calm) && files == old(files) && ending.Returns?)
      ensures ending.Returns? ==> failed == old(failed)
    {
      var done := current.(status := Succeeded, removedBytes := Some(RemovedTotal(current.removed)));
      memory := Some(done);
      var signal := Save(done, v);
      ending := if signal == Continue then Returns(done) else EndingOf(signal);
    }

    /** `cleanup_execute`: any run, ended anywhere, keeps the disk valid and only adds to what earlier runs decided.
        What it returns accounts for every item by what its preview and its second look found; and left alone it
        returns. */
    method Execute(body: Body) returns (ending: Ending, ghost account: Account, ghost lost: bool)
      requires Valid()
      modifies this`files, this`retired, this`receipt, this`verdicts, this`deleted, this`calm, this`failed
      ensures Valid() && old(verdicts) <= verdicts && Grew(old(deleted), deleted)
      ensures old(receipt).Some? ==> receipt.Some? && receipt.value.request == old(receipt).value.request
      // A malformed request, or another request under the same operation id, changes nothing.
      ensures !ValidBody(body) || (old(receipt).Some? && old(receipt).value.request != body) ==>
                receipt == old(receipt) && deleted == old(deleted) && !ending.Returns?
      // A finished operation is only reported again.
      ensures Finished(old(receipt)) ==>
                receipt == old(receipt) && deleted == old(deleted)
                  && (ending.Returns? ==> receipt == Some(ending.receipt))
      ensures ending.Returns? ==>
              receipt == Some(ending.receipt) && ending.receipt.status == Succeeded && ending.receipt.request == body
      // Every item is reported as its verdict says, and this run's verdicts follow from what it found.
      ensures ending.Returns? ==>
              |verdicts| == |body.items| && AllReported(ending.receipt, body.items, verdicts)
      ensures ending.Returns? && !Finished(old(receipt)) ==>
              Explained(body.items, |old(verdicts)|, PendingOf(old(receipt)), verdicts, account, retired)
                && (account.usable ==> SeesAll(old(files), account.readings, retired))
      // With nobody else at work and no failing step, a fitting directory is cleaned up as it was found.
      ensures calm && ValidBody(body) && (old(receipt).Some? ==> old(receipt).value.request == body) ==>
                ending.Returns? || TooMuch(old(files), account)
      ensures calm && ending.Returns? && !Finished(old(receipt)) ==>
              Undisturbed(old(files), body.items, |old(verdicts)|, verdicts, account, files)
      ensures ending.Returns? ==> !failed
      // A run that raises leaves the receipt alone, or marked as interrupted unless that save failed too.
      ensures ending.Raises? && !lost ==>
                || (receipt == old(receipt) && verdicts == old(verdicts))
                || (receipt.Some? && receipt.value.status == Interrupted
                    && receipt.value.removedBytes == Some(RemovedTotal(receipt.value.removed)))
    {
      hide RemovedOf, SkippedOf, UncertainOf, RemovedTotal, Explained, SeesAll, Undisturbed, TooMuch, AllReported, Live;
      calm, failed, account, lost := true, false, Account(false, [], []), false;
      var ok := Validate(body);
      if !ok {
        return Raises, account, lost;
      }
      var memory; ghost var v;
      memory, v, ending, account := TryBody(body);
      if ending.Raises? && memory.Some? && memory.value.request == body {
        ending, lost := Interrupt(memory.value, v);
      }
      if ending.Returns? {
        SucceededIsReported(ending.receipt, verdicts, deleted);
      }
    }

    /** The exception handler: save what the memory knows, marked as interrupted. */
    method Interrupt(r: Receipt, ghost v: seq<Verdict>) returns (ending: Ending, ghost lost: bool)
      requires Valid() && ValidBody(r.request) && Sound(r, v, deleted) && verdicts <= v
      requires receipt.Some? ==> receipt.value.request == r.request
      modifies this`files, this`retired, this`receipt, this`verdicts, this`calm, this`failed
      ensures Valid() && old(verdicts) <= verdicts && !ending.Returns?
      ensures old(receipt).Some? ==> receipt.Some?
      ensures receipt.Some? ==> receipt.value.request == r.request
      ensures calm ==> old(calm)
      ensures !lost ==>
                receipt == Some(r.(status := Interrupted, removedBytes := Some(RemovedTotal(r.removed))))
                  && verdicts == v
      ensures lost ==> failed
    {
      var signal := Save(r.(status := Interrupted, removedBytes := Some(RemovedTotal(r.removed))), v);
      ending, lost := if signal == Crash then Crashes else Raises, signal != Continue;
    }
  }

  /** Any number of attempts at one operation id, with any requests, each ending in any way. */
  method Lifetime(disk: Disk, attempts: seq<Body>) returns (endings: seq<Ending>)
    requires disk.Valid()
    modifies disk
    ensures disk.Valid() && |endings| == |attempts|
    ensures old(disk.verdicts) <= disk.verdicts && Grew(old(disk.deleted), disk.deleted)
    ensures forall i, j :: 0 <= i < j < |endings| && endings[i].Returns? && endings[j].Returns? ==>
            endings[i] == endings[j]
  {
    hide RemovedOf, SkippedOf, UncertainOf, RemovedTotal;
    endings := [];
    for i := 0 to |attempts|
      invariant disk.Valid() && |endings| == i
      invariant old(disk.verdicts) <= disk.verdicts && Grew(old(disk.deleted), disk.deleted)
      invariant forall j :: 0 <= j < i && endings[j].Returns? ==>
                  disk.receipt == Some(endings[j].receipt) && endings[j].receipt.status == Succeeded
    {
      var ending; ghost var account, lost;
      ending, account, lost := disk.Execute(attempts[i]);
      endings := endings + [ending];
    }
  }

  /** History is only added to. */
  ghost predicate Grew(before: map<ItemId, Deletion>, after: map<ItemId, Deletion>) {
    forall id :: id in before ==> id in after && after[id] == before[id]
  }

  /** Nothing was unlinked for an item decided before this run, nor for one this run has not come to: the first
      `decided` items were, and the run stands at item `i`. */
  ghost predicate Spared(items: seq<Item>, decided: nat, i: nat, before: map<ItemId, Deletion>,
                         after: map<ItemId, Deletion>) {
    forall j :: 0 <= j < |items| && (j < decided || i <= j) && items[j].id in after ==> items[j].id in before
  }

  lemma NoneSpared(items: seq<Item>, decided: nat, deleted: map<ItemId, Deletion>)
    ensures Spared(items, decided, 0, deleted, deleted)
  {
  }

  lemma SparedLater(items: seq<Item>, decided: nat, i: nat, k: nat, before: map<ItemId, Deletion>,
                    after: map<ItemId, Deletion>)
    requires Spared(items, decided, i, before, after) && i <= k
    ensures Spared(items, decided, k, before, after)
  {
  }

  lemma AllDecided(r: Receipt, verdicts: seq<Verdict>, deleted: map<ItemId, Deletion>)
    requires Sound(r, verdicts, deleted) && |verdicts| == |r.request.items|
    ensures r.pending == None
  {
  }

  lemma SparedAt(items: seq<Item>, decided: nat, i: nat, before: map<ItemId, Deletion>, after: map<ItemId, Deletion>)
    requires Spared(items, decided, i, before, after) && i < |items|
    ensures items[i].id in after ==> items[i].id in before
  {
  }

  lemma SparedNext(items: seq<Item>, decided: nat, i: nat, d0: map<ItemId, Deletion>, d1: map<ItemId, Deletion>,
                   d2: map<ItemId, Deletion>)
    requires Spared(items, decided, i, d0, d1) && DistinctIds(items) && decided <= i < |items|
    requires d2 == d1 || d2 - {items[i].id} == d1
    ensures Spared(items, decided, i + 1, d0, d2)
  {
    forall j | 0 <= j < |items| && j != i && items[j].id in d2 ensures items[j].id in d1 {
      assert items[j].id != items[i].id;
      assert d2 != d1 ==> items[j].id in d2 - {items[i].id};
    }
  }

  lemma RequestOk(receipt: Option<Receipt>, verdicts: seq<Verdict>, deleted: map<ItemId, Deletion>)
    requires receipt.Some? && Stored(receipt, verdicts, deleted)
    ensures ValidBody(receipt.value.request) && DistinctIds(receipt.value.request.items)
    ensures Sound(receipt.value, verdicts, deleted) && |verdicts| <= |receipt.value.request.items|
  {
  }

  ghost predicate AllGenuine(items: seq<Item>, goneBefore: set<FileKey>, files: map<string, Stat>,
                             retired: set<FileKey>) {
    forall it :: it in items ==> Genuine(it, goneBefore, files, retired)
  }

  /** What a preview may list: a file whose identity had not gone before the preview and has existed by now, and which
      was therefore on disk in between. */
  ghost predicate Genuine(item: Item, goneBefore: set<FileKey>, files: map<string, Stat>, retired: set<FileKey>) {
    item.id.Sha256? && item.path == item.id.key.path && item.id.key !in goneBefore
      && item.id.key in Live(files) + retired
  }
}
