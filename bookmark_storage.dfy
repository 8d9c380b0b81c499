/** `lib/bookmark-storage.ts`: the bookmark store. All bookmarks live in one slot of the browser's
    local storage (key "bookmarks") as one JSON array; every operation reads the whole list,
    changes it and writes it back. */
module BookmarkStorage {
  import opened Wrappers
  import opened Seqs
  import opened BookmarkTypes
  import opened JsonText

  /** The list `getAll` reads from a slot content: [] when the key is absent or its text does not
      parse as a list of records. */
  function Decode(slot: Option<Text>): seq<Bookmark> {
    match slot
    case None => []
    case Some(t) => PayloadRecords(t).GetOr([])
  }

  /** `findIndex((b) => b.id === id)`: the first position holding `id`, or -1. */
  function IndexOf(bs: seq<Bookmark>, id: string): (i: int)
    ensures -1 <= i < |bs|
    ensures i == -1 ==> forall k :: 0 <= k < |bs| ==> bs[k].id != id
    ensures 0 <= i ==> bs[i].id == id && forall k :: 0 <= k < i ==> bs[k].id != id
  {
    if bs == [] then -1
    else if bs[0].id == id then 0
    else
      var j := IndexOf(bs[1..], id);
      if j == -1 then -1 else j + 1
  }

  /** The list `update(id, u)` writes back: the first record with `id` replaced by the shallow merge
      of `u` over it; the list itself when no record has `id`. */
  function Updated(bs: seq<Bookmark>, id: string, u: Patch): seq<Bookmark> {
    var i := IndexOf(bs, id);
    if i < 0 then bs else bs[i := Merge(bs[i], u)]
  }

  function HasId(id: string): Bookmark -> bool {
    (b: Bookmark) => b.id == id
  }

  function NotId(id: string): Bookmark -> bool {
    (b: Bookmark) => b.id != id
  }

  /** `filter((b) => b.id !== id)`: the list `delete(id)` writes back. */
  function Without(bs: seq<Bookmark>, id: string): seq<Bookmark> {
    Filter(bs, NotId(id))
  }

  /** The ids present in a list: `new Set(bookmarks.map(b => b.id))`. */
  function Ids(bs: seq<Bookmark>): set<string> {
    set b | b in bs :: b.id
  }

  /** No two records of the list share an id. */
  ghost predicate UniqueIds(bs: seq<Bookmark>) {
    forall i, j :: 0 <= i < j < |bs| ==> bs[i].id != bs[j].id
  }

  /** The structural check of an imported record: `id`, `url` and `title` are non-empty. */
  predicate IsValid(b: Bookmark) {
    b.id != "" && b.url != "" && b.title != ""
  }

  /** The filter `import` applies to the payload: a valid record whose id is not stored yet. */
  function KeptOnImport(existing: set<string>): Bookmark -> bool {
    (b: Bookmark) => IsValid(b) && b.id !in existing
  }

  /** The second filter of `getImportStats`: the id is not stored yet. */
  function NotStored(existing: set<string>): Bookmark -> bool {
    (b: Bookmark) => b.id !in existing
  }

  /** The record `import` stores for a kept payload record: the id defaulted to `fallbackId`
      (a clock value and random digits) when empty, and `createdAt` defaulted to the clock value
      `now` when it is 0 or missing. */
  function Stamp(b: Bookmark, now: int, fallbackId: string): Bookmark {
    b.(id := if b.id != "" then b.id else fallbackId,
       createdAt := if b.createdAt != 0 then b.createdAt else now)
  }

  /** `map` of `Stamp` over a list. */
  function StampAll(bs: seq<Bookmark>, now: int, fallbackId: string): seq<Bookmark> {
    seq(|bs|, i requires 0 <= i < |bs| => Stamp(bs[i], now, fallbackId))
  }

  /** The block `import` prepends: the kept payload records, in payload order, stamped. */
  function NewBlock(items: seq<Bookmark>, stored: seq<Bookmark>, now: int, fallbackId: string): seq<Bookmark> {
    StampAll(Filter(items, KeptOnImport(Ids(stored))), now, fallbackId)
  }

  /** The list `import(data)` writes over the stored list `stored`, or `None` when it returns
      `false` and writes nothing. */
  function ImportResult(stored: seq<Bookmark>, data: Text, now: int, fallbackId: string): Option<seq<Bookmark>> {
    match PayloadRecords(data)
    case None => None
    case Some(items) => Some(NewBlock(items, stored, now, fallbackId) + stored)
  }

  /** The counts `getImportStats` reports. */
  datatype ImportStats = ImportStats(total: nat, newCount: nat, duplicates: nat)

  /** What `getImportStats(data)` returns over the stored list `stored`: `None` for `null`. The
      new records it counts are exactly those `import` keeps. */
  function StatsOf(stored: seq<Bookmark>, data: Text): (r: Option<ImportStats>)
    ensures r.Some? <==> PayloadRecords(data).Some?
    ensures r.Some? ==>
      && r.value.total == |Filter(PayloadRecords(data).value, IsValid)|
      && r.value.newCount == |Filter(PayloadRecords(data).value, KeptOnImport(Ids(stored)))|
      && r.value.duplicates == r.value.total - r.value.newCount
  {
    match PayloadRecords(data)
    case None => None
    case Some(items) =>
      var valid := Filter(items, IsValid);
      var newOnes := Filter(valid, NotStored(Ids(stored)));
      FilterFilter(items, IsValid, NotStored(Ids(stored)), KeptOnImport(Ids(stored)));
      Some(ImportStats(|valid|, |newOnes|, |valid| - |newOnes|))
  }

  /** The persisted slot and the operations on it. */
  class BookmarkStore {
    /** The text stored under the key, `None` when the key is absent. */
    var slot: Option<Text>

    constructor (initial: Option<Text>)
      ensures slot == initial
    {
      slot := initial;
    }

    /** `getAll`. */
    function GetAll(): seq<Bookmark>
      reads this
    {
      Decode(slot)
    }

    /** `save`: overwrite the slot with the encoded list. */
    method Save(bookmarks: seq<Bookmark>)
      modifies this
      ensures slot == Some(Stringify(bookmarks))
      ensures GetAll() == bookmarks
    {
      slot := Some(Stringify(bookmarks));
      ParseStringify(bookmarks);
    }

    /** `add`: prepend one record. */
    method Add(bookmark: Bookmark)
      modifies this
      ensures GetAll() == [bookmark] + old(GetAll())
      ensures slot == Some(Stringify(GetAll()))
    {
      var bookmarks := GetAll();
      bookmarks := [bookmark] + bookmarks;
      Save(bookmarks);
    }

    /** `update`: merge `u` over the first record with `id`; write nothing when there is none. */
    method Update(id: string, u: Patch)
      modifies this
      ensures IndexOf(old(GetAll()), id) == -1 ==> slot == old(slot)
      ensures IndexOf(old(GetAll()), id) != -1 ==> slot == Some(Stringify(GetAll()))
      ensures GetAll() == Updated(old(GetAll()), id, u)
    {
      var bookmarks := GetAll();
      var index := IndexOf(bookmarks, id);
      if index != -1 {
        bookmarks := bookmarks[index := Merge(bookmarks[index], u)];
        Save(bookmarks);
      }
    }

    /** `delete`: drop every record with `id`. */
    method Delete(id: string)
      modifies this
      ensures GetAll() == Without(old(GetAll()), id)
      ensures slot == Some(Stringify(GetAll()))
    {
      var bookmarks := GetAll();
      var filtered := Filter(bookmarks, NotId(id));
      Save(filtered);
    }

    /** `clear`: remove the key itself. */
    method Clear()
      modifies this
      ensures slot == None
      ensures GetAll() == []
    {
      slot := None;
    }

    /** `export`: the encoded list (pretty-printed in the source). */
    method Export() returns (t: Text)
      ensures t == Stringify(GetAll())
      ensures PayloadRecords(t) == Some(GetAll())
    {
      t := Stringify(GetAll());
      ParseStringify(GetAll());
    }

    /** `import`: `now` is the clock value and `fallbackId` the generated id the source would use. */
    method Import(data: Text, now: int, fallbackId: string) returns (ok: bool)
      modifies this
      ensures ok == PayloadRecords(data).Some?
      ensures !ok ==> slot == old(slot)
      ensures ok ==> GetAll() == ImportResult(old(GetAll()), data, now, fallbackId).value
      ensures ok ==> slot == Some(Stringify(GetAll()))
    {
      var imported := PayloadRecords(data);
      if imported.None? {
        return false;
      }
      var existingBookmarks := GetAll();
      var existingIds := Ids(existingBookmarks);
      var newBookmarks := Filter(imported.value, KeptOnImport(existingIds));
      var processed := StampAll(newBookmarks, now, fallbackId);
      Save(processed + existingBookmarks);
      ok := true;
    }

    /** `getImportStats`: counts only, nothing written. */
    method GetImportStats(data: Text) returns (stats: Option<ImportStats>)
      ensures stats.Some? <==> PayloadRecords(data).Some?
      ensures stats == StatsOf(GetAll(), data)
    {
      var imported := PayloadRecords(data);
      if imported.None? {
        return None;
      }
      var existingIds := Ids(GetAll());
      var valid := Filter(imported.value, IsValid);
      var newBookmarks := Filter(valid, NotStored(existingIds));
      stats := Some(ImportStats(|valid|, |newBookmarks|, |valid| - |newBookmarks|));
    }
  }

  // ---------------------------------------------------------------------------------------------
  // Properties of the operations, stated on the lists they read and write.

  /** `getAll` on an absent key, on text that does not parse, and on a cleared store is []. */
  lemma GetAllDefaults()
    ensures Decode(None) == []
    ensures Decode(Some(Malformed)) == []
    ensures Decode(Some(WellFormed(JOther))) == []
  {
  }

  /** `update` replaces only the first record with `id`, keeps the length and every other
      position; with `id` absent it changes nothing. */
  lemma UpdatedSpec(bs: seq<Bookmark>, id: string, u: Patch)
    ensures |Updated(bs, id, u)| == |bs|
    ensures (forall k :: 0 <= k < |bs| ==> bs[k].id != id) ==> Updated(bs, id, u) == bs
    ensures forall i :: 0 <= i < |bs| && bs[i].id == id && (forall k :: 0 <= k < i ==> bs[k].id != id) ==>
      Updated(bs, id, u)[i] == Merge(bs[i], u) &&
      forall k :: 0 <= k < |bs| && k != i ==> Updated(bs, id, u)[k] == bs[k]
  {
    var i := IndexOf(bs, id);
    assert forall j :: 0 <= j < |bs| && bs[j].id == id && (forall k :: 0 <= k < j ==> bs[k].id != id) ==> j == i;
  }

  /** After `delete(id)` no record has `id`, the others keep their order and multiplicity, and the
      length drops by the number of records that had `id`. */
  lemma {:induction false} DeleteSpec(bs: seq<Bookmark>, id: string)
    ensures forall b :: b in Without(bs, id) ==> b.id != id
    ensures IsSubsequence(Without(bs, id), bs)
    ensures forall b: Bookmark :: b.id != id ==> multiset(Without(bs, id))[b] == multiset(bs)[b]
    ensures |Without(bs, id)| == |bs| - |Filter(bs, HasId(id))|
  {
    FilterIsSubsequence(bs, NotId(id));
    forall b: Bookmark | b.id != id ensures multiset(Without(bs, id))[b] == multiset(bs)[b] {
      FilterMultiset(bs, NotId(id), b);
    }
    FilterComplement(bs, HasId(id), NotId(id));
  }

  /** `update(id, ...)` right after `delete(id)` writes nothing new. */
  lemma UpdateAfterDelete(bs: seq<Bookmark>, id: string, u: Patch)
    ensures IndexOf(Without(bs, id), id) == -1
    ensures Updated(Without(bs, id), id, u) == Without(bs, id)
  {
    var r := Without(bs, id);
    forall k | 0 <= k < |r| ensures r[k].id != id {
      assert r[k] in r;
    }
  }

  /** The elements of a subsequence are elements of the sequence. */
  lemma {:induction false} SubsequenceElements(r: seq<Bookmark>, s: seq<Bookmark>)
    requires IsSubsequence(r, s)
    ensures forall x :: x in r ==> x in s
    decreases |s|
  {
    if r == [] {
    } else if r[0] == s[0] && IsSubsequence(r[1..], s[1..]) {
      SubsequenceElements(r[1..], s[1..]);
      assert r == [r[0]] + r[1..];
    } else {
      SubsequenceElements(r, s[1..]);
    }
  }

  /** A subsequence of a list with unique ids has unique ids. */
  lemma {:induction false} SubsequenceUniqueIds(r: seq<Bookmark>, s: seq<Bookmark>)
    requires IsSubsequence(r, s) && UniqueIds(s)
    ensures UniqueIds(r)
    decreases |s|
  {
    if r == [] {
    } else if r[0] == s[0] && IsSubsequence(r[1..], s[1..]) {
      SubsequenceUniqueIds(r[1..], s[1..]);
      SubsequenceElements(r[1..], s[1..]);
      forall i, j | 0 <= i < j < |r| ensures r[i].id != r[j].id {
        if i == 0 {
          assert r[j] == r[1..][j - 1] && r[j] in r[1..];
          var k :| 0 <= k < |s[1..]| && s[1..][k] == r[j];
          assert s[k + 1] == r[j];
        } else {
          assert r[i] == r[1..][i - 1] && r[j] == r[1..][j - 1];
        }
      }
    } else {
      SubsequenceUniqueIds(r, s[1..]);
    }
  }

  /** `add` keeps ids unique when the new id is not stored yet. */
  lemma AddPreservesUniqueIds(bs: seq<Bookmark>, b: Bookmark)
    requires UniqueIds(bs) && b.id !in Ids(bs)
    ensures UniqueIds([b] + bs)
  {
    var r := [b] + bs;
    forall i, j | 0 <= i < j < |r| ensures r[i].id != r[j].id {
      if i == 0 {
        assert r[j] == bs[j - 1] && bs[j - 1] in bs;
      } else {
        assert r[i] == bs[i - 1] && r[j] == bs[j - 1];
      }
    }
  }

  /** `delete` keeps ids unique. */
  lemma DeletePreservesUniqueIds(bs: seq<Bookmark>, id: string)
    requires UniqueIds(bs)
    ensures UniqueIds(Without(bs, id))
  {
    FilterIsSubsequence(bs, NotId(id));
    SubsequenceUniqueIds(Without(bs, id), bs);
  }

  /** `update` keeps ids unique when it does not set the id. */
  lemma UpdatePreservesUniqueIds(bs: seq<Bookmark>, id: string, u: Patch)
    requires UniqueIds(bs) && u.id == Keep
    ensures UniqueIds(Updated(bs, id, u))
  {
  }

  /** The block `import` prepends is the subsequence of the payload made of exactly the valid records
      whose id is not stored, each with its own id (the generated fallback is never used, since an
      empty id fails validation) and with `createdAt` replaced by `now` exactly when it was 0. */
  lemma {:induction false} NewBlockSpec(items: seq<Bookmark>, stored: seq<Bookmark>, now: int, fallbackId: string)
    ensures var kept := Filter(items, KeptOnImport(Ids(stored)));
      && IsSubsequence(kept, items)
      && (forall b :: multiset(kept)[b] == if IsValid(b) && b.id !in Ids(stored) then multiset(items)[b] else 0)
      && |NewBlock(items, stored, now, fallbackId)| == |kept|
      && forall i :: 0 <= i < |kept| ==>
           NewBlock(items, stored, now, fallbackId)[i] ==
             kept[i].(createdAt := if kept[i].createdAt == 0 then now else kept[i].createdAt)
  {
    var kept := Filter(items, KeptOnImport(Ids(stored)));
    FilterIsSubsequence(items, KeptOnImport(Ids(stored)));
    forall b ensures multiset(kept)[b] == if IsValid(b) && b.id !in Ids(stored) then multiset(items)[b] else 0 {
      FilterMultiset(items, KeptOnImport(Ids(stored)), b);
    }
  }

  /** `getImportStats` and `import` agree: stats exist exactly when the import succeeds, `newCount`
      is the number of records the import prepends, and `total` counts the valid records. */
  lemma StatsAgreeWithImport(stored: seq<Bookmark>, data: Text, now: int, fallbackId: string)
    ensures StatsOf(stored, data).Some? <==> ImportResult(stored, data, now, fallbackId).Some?
    ensures ImportResult(stored, data, now, fallbackId).Some? ==>
      var r := ImportResult(stored, data, now, fallbackId).value;
      var st := StatsOf(stored, data).value;
      && st.total == |Filter(PayloadRecords(data).value, IsValid)|
      && st.newCount == |r| - |stored|
      && r[st.newCount..] == stored
      && st.duplicates == st.total - st.newCount
  {
    if PayloadRecords(data).Some? {
      var items := PayloadRecords(data).value;
      var e := Ids(stored);
      FilterFilter(items, IsValid, NotStored(e), KeptOnImport(e));
    }
  }

  /** Every valid payload record's id is stored after a successful import. */
  lemma ImportedIdsStored(stored: seq<Bookmark>, data: Text, now: int, fallbackId: string)
    requires ImportResult(stored, data, now, fallbackId).Some?
    ensures forall b :: b in PayloadRecords(data).value && IsValid(b) ==>
      b.id in Ids(ImportResult(stored, data, now, fallbackId).value)
  {
    var items := PayloadRecords(data).value;
    var r := ImportResult(stored, data, now, fallbackId).value;
    var kept := Filter(items, KeptOnImport(Ids(stored)));
    var block := NewBlock(items, stored, now, fallbackId);
    forall b | b in items && IsValid(b) ensures b.id in Ids(r) {
      if b.id in Ids(stored) {
        var c :| c in stored && c.id == b.id;
        assert c in r;
      } else {
        FilterMultiset(items, KeptOnImport(Ids(stored)), b);
        assert b in kept;
        var i :| 0 <= i < |kept| && kept[i] == b;
        assert block[i] == Stamp(b, now, fallbackId) && block[i] in r;
      }
    }
  }

  /** Importing the same payload a second time leaves the list unchanged, whatever the clock, and
      its stats report no new record: every valid record counts as a duplicate. */
  lemma ImportTwice(stored: seq<Bookmark>, data: Text, now: int, fallbackId: string, now2: int, fallbackId2: string)
    requires ImportResult(stored, data, now, fallbackId).Some?
    ensures var once := ImportResult(stored, data, now, fallbackId).value;
      && ImportResult(once, data, now2, fallbackId2) == Some(once)
      && StatsOf(once, data).value.newCount == 0
      && StatsOf(once, data).value.duplicates == StatsOf(once, data).value.total
  {
    var items := PayloadRecords(data).value;
    var once := ImportResult(stored, data, now, fallbackId).value;
    ImportedIdsStored(stored, data, now, fallbackId);
    FilterNone(items, KeptOnImport(Ids(once)));
    StatsAgreeWithImport(once, data, now2, fallbackId2);
  }

  /** Importing an export into an empty store reproduces the list, in order, when every record is
      valid and has a non-zero `createdAt`. */
  lemma ExportImportRoundTrip(bs: seq<Bookmark>, now: int, fallbackId: string)
    requires forall b :: b in bs ==> IsValid(b) && b.createdAt != 0
    ensures ImportResult([], Stringify(bs), now, fallbackId) == Some(bs)
  {
    ParseStringify(bs);
    assert Ids([]) == {};
    FilterAll(bs, KeptOnImport({}));
    var block := NewBlock(bs, [], now, fallbackId);
    forall i | 0 <= i < |bs| ensures block[i] == bs[i] {
      assert bs[i] in bs;
    }
    assert block == bs;
    assert ImportResult([], Stringify(bs), now, fallbackId) == Some(block + []);
    assert block + [] == bs;
  }

  /** Import keeps stored ids unique exactly when the records it adds have pairwise distinct ids:
      duplicates are looked up among the stored ids only, never within the payload. */
  lemma ImportUniqueIdsIff(stored: seq<Bookmark>, data: Text, now: int, fallbackId: string)
    requires UniqueIds(stored) && PayloadRecords(data).Some?
    ensures var kept := Filter(PayloadRecords(data).value, KeptOnImport(Ids(stored)));
      UniqueIds(ImportResult(stored, data, now, fallbackId).value) <==> UniqueIds(kept)
  {
    var items := PayloadRecords(data).value;
    var kept := Filter(items, KeptOnImport(Ids(stored)));
    var block := NewBlock(items, stored, now, fallbackId);
    var r := block + stored;
    forall i | 0 <= i < |kept| ensures block[i].id == kept[i].id {
      assert kept[i] in kept;
    }
    if UniqueIds(kept) {
      forall i, j | 0 <= i < j < |r| ensures r[i].id != r[j].id {
        if j < |block| {
        } else if i < |block| {
          assert kept[i] in kept;
          assert r[j] == stored[j - |block|] && stored[j - |block|] in stored;
        } else {
          assert r[i] == stored[i - |block|] && r[j] == stored[j - |block|];
        }
      }
    }
    if UniqueIds(r) {
      forall i, j | 0 <= i < j < |kept| ensures kept[i].id != kept[j].id {
        assert r[i] == block[i] && r[j] == block[j];
      }
    }
  }

  /** Two payload records with the same new id are both imported, so ids stop being unique. */
  lemma DuplicateNewIdsBothImported(now: int, fallbackId: string)
    ensures var b := Bookmark("1", "https://example.com", Website, "Example", None, [], false, 5, None);
      && ImportResult([], Stringify([b, b]), now, fallbackId) == Some([b, b])
      && !UniqueIds([b, b])
  {
    var b := Bookmark("1", "https://example.com", Website, "Example", None, [], false, 5, None);
    ExportImportRoundTrip([b, b], now, fallbackId);
  }
}
