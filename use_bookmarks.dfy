/** `hooks/use-bookmarks.ts`: the state a page works with. It holds the in-memory list and a
    loading flag over the store; every mutation goes to the store and the list is then read back
    from it. The linked preview, the clock and the hostname `new URL(url)` yields are inputs. */
module UseBookmarks {
  import opened Wrappers
  import opened Seqs
  import opened Strings
  import opened BookmarkTypes
  import opened JsonText
  import opened BookmarkStorage
  import opened LinkDetector

  // ---------------------------------------------------------------------------------------------
  // Lookups and tag lists

  /** `bookmarks.find((b) => b.id === id)`: the first record with `id`. */
  function Find(bs: seq<Bookmark>, id: string): (r: Option<Bookmark>)
    ensures r.None? <==> forall k :: 0 <= k < |bs| ==> bs[k].id != id
    ensures r.Some? ==> exists i :: (0 <= i < |bs| && bs[i] == r.value && r.value.id == id &&
      forall k :: 0 <= k < i ==> bs[k].id != id)
  {
    var i := IndexOf(bs, id);
    if i == -1 then None else Some(bs[i])
  }

  /** The tag list `addTag` writes: `t` appended when it is absent, the list unchanged otherwise. */
  function WithTag(tags: seq<string>, t: string): seq<string> {
    if t in tags then tags else tags + [t]
  }

  function NotTag(t: string): string -> bool {
    (x: string) => x != t
  }

  /** `tags.filter((x) => x !== t)`: the tag list `removeTag` writes. */
  function WithoutTag(tags: seq<string>, t: string): seq<string> {
    Filter(tags, NotTag(t))
  }

  /** Adding a tag keeps the earlier tags in place, makes `t` present, and is idempotent. */
  lemma WithTagSpec(tags: seq<string>, t: string)
    ensures t in WithTag(tags, t)
    ensures tags <= WithTag(tags, t)
    ensures forall x :: x in WithTag(tags, t) <==> x in tags || x == t
    ensures WithTag(WithTag(tags, t), t) == WithTag(tags, t)
  {
  }

  /** A duplicate-free tag list stays duplicate-free, and then holds `t` exactly once. */
  lemma {:induction false} WithTagNoDuplicates(tags: seq<string>, t: string)
    requires NoDuplicates(tags)
    ensures NoDuplicates(WithTag(tags, t))
    ensures multiset(WithTag(tags, t))[t] == 1
  {
    var r := WithTag(tags, t);
    if t !in tags {
      forall i, j | 0 <= i < j < |r| ensures r[i] != r[j] {
        if j == |tags| {
          assert r[i] == tags[i];
        } else {
          assert r[i] == tags[i] && r[j] == tags[j];
        }
      }
    }
    NoDuplicatesOccursOnce(r, t);
  }

  /** Removing a tag drops every occurrence of it and keeps the other tags, in order. */
  lemma WithoutTagSpec(tags: seq<string>, t: string)
    ensures t !in WithoutTag(tags, t)
    ensures IsSubsequence(WithoutTag(tags, t), tags)
    ensures forall x :: x != t ==> multiset(WithoutTag(tags, t))[x] == multiset(tags)[x]
    ensures NoDuplicates(tags) ==> NoDuplicates(WithoutTag(tags, t))
  {
    FilterIsSubsequence(tags, NotTag(t));
    forall x | x != t ensures multiset(WithoutTag(tags, t))[x] == multiset(tags)[x] {
      FilterMultiset(tags, NotTag(t), x);
    }
    if NoDuplicates(tags) {
      FilterNoDuplicates(tags, NotTag(t));
    }
  }

  // ---------------------------------------------------------------------------------------------
  // The lists the lookup-then-update operations produce, as functions of the list they start from

  /** The stored list after `toggleFavorite(id)` over the in-memory list `bs`, when the two agree. */
  function Toggled(bs: seq<Bookmark>, id: string): seq<Bookmark> {
    match Find(bs, id)
    case None => bs
    case Some(b) => Updated(bs, id, FavoritePatch(!b.favorite))
  }

  /** The stored list after `addTag(id, t)`, likewise. */
  function Tagged(bs: seq<Bookmark>, id: string, t: string): seq<Bookmark> {
    match Find(bs, id)
    case None => bs
    case Some(b) => if t in b.tags then bs else Updated(bs, id, TagsPatch(b.tags + [t]))
  }

  /** The stored list after `removeTag(id, t)`, likewise. */
  function Untagged(bs: seq<Bookmark>, id: string, t: string): seq<Bookmark> {
    match Find(bs, id)
    case None => bs
    case Some(b) => Updated(bs, id, TagsPatch(WithoutTag(b.tags, t)))
  }

  /** `toggleFavorite` flips the flag of the first record with `id` and changes nothing else; with
      no such record the list is unchanged. */
  lemma ToggledSpec(bs: seq<Bookmark>, id: string)
    ensures |Toggled(bs, id)| == |bs|
    ensures IndexOf(bs, id) == -1 ==> Toggled(bs, id) == bs
    ensures var i := IndexOf(bs, id);
      0 <= i ==> (Toggled(bs, id)[i] == bs[i].(favorite := !bs[i].favorite) &&
        forall k :: 0 <= k < |bs| && k != i ==> Toggled(bs, id)[k] == bs[k])
  {
    var i := IndexOf(bs, id);
    if 0 <= i {
      SingleFieldPatches(bs[i], !bs[i].favorite, []);
    }
  }

  /** Toggling twice restores the list. */
  lemma ToggleTwice(bs: seq<Bookmark>, id: string)
    ensures Toggled(Toggled(bs, id), id) == bs
  {
    var i := IndexOf(bs, id);
    if 0 <= i {
      ToggledSpec(bs, id);
      var once := Toggled(bs, id);
      assert IndexOf(once, id) == i by {
        forall k | 0 <= k < i ensures once[k].id != id {
          assert once[k] == bs[k];
        }
      }
      ToggledSpec(once, id);
    }
  }

  /** `addTag` sets the tags of the first record with `id` to `WithTag` of its tags, and changes
      nothing else. */
  lemma TaggedSpec(bs: seq<Bookmark>, id: string, t: string)
    ensures |Tagged(bs, id, t)| == |bs|
    ensures IndexOf(bs, id) == -1 ==> Tagged(bs, id, t) == bs
    ensures var i := IndexOf(bs, id);
      0 <= i ==> (Tagged(bs, id, t)[i] == bs[i].(tags := WithTag(bs[i].tags, t)) &&
        forall k :: 0 <= k < |bs| && k != i ==> Tagged(bs, id, t)[k] == bs[k])
  {
    var i := IndexOf(bs, id);
    if 0 <= i {
      SingleFieldPatches(bs[i], false, bs[i].tags + [t]);
    }
  }

  /** Adding the same tag twice is adding it once. */
  lemma TagTwice(bs: seq<Bookmark>, id: string, t: string)
    ensures Tagged(Tagged(bs, id, t), id, t) == Tagged(bs, id, t)
  {
    var i := IndexOf(bs, id);
    if 0 <= i {
      TaggedSpec(bs, id, t);
      var once := Tagged(bs, id, t);
      assert IndexOf(once, id) == i by {
        forall k | 0 <= k < i ensures once[k].id != id {
          assert once[k] == bs[k];
        }
      }
      assert t in once[i].tags;
    }
  }

  /** `removeTag` sets the tags of the first record with `id` to `WithoutTag` of its tags, and
      changes nothing else. */
  lemma UntaggedSpec(bs: seq<Bookmark>, id: string, t: string)
    ensures |Untagged(bs, id, t)| == |bs|
    ensures IndexOf(bs, id) == -1 ==> Untagged(bs, id, t) == bs
    ensures var i := IndexOf(bs, id);
      0 <= i ==> (Untagged(bs, id, t)[i] == bs[i].(tags := WithoutTag(bs[i].tags, t)) &&
        forall k :: 0 <= k < |bs| && k != i ==> Untagged(bs, id, t)[k] == bs[k])
  {
    var i := IndexOf(bs, id);
    if 0 <= i {
      SingleFieldPatches(bs[i], false, WithoutTag(bs[i].tags, t));
    }
  }

  // ---------------------------------------------------------------------------------------------
  // The record `addBookmark` builds

  /** JavaScript truthiness of an optional string: present and non-empty. */
  predicate Truthy(s: Option<string>) {
    s.Some? && s.value != ""
  }

  /** `preview.title || hostname`. */
  function ResolveTitle(preview: LinkPreview, hostname: string): string {
    if Truthy(preview.title) then preview.title.value else hostname
  }

  /** The image rule, by priority: the preview's image when it is non-empty; otherwise the
      thumbnail for a YouTube URL with a video id; otherwise the favicon for a website; otherwise
      whatever (empty) image the preview had. */
  function ResolveImage(platform: Platform, url: string, hostname: string, preview: LinkPreview): Option<string> {
    if Truthy(preview.image) then preview.image
    else if platform == YouTube && ExtractYouTubeVideoId(url).Some? then
      Some(YouTubeThumbnail(ExtractYouTubeVideoId(url).value))
    else if platform == Website then Some(FaviconUrl(Some(hostname)))
    else preview.image
  }

  /** What the resolved image is made of: the preview's own image, a thumbnail of the URL's video,
      or the favicon of its host, and it is non-empty exactly when one of the three applies. */
  lemma ImageRules(platform: Platform, url: string, hostname: string, preview: LinkPreview)
    ensures var r := ResolveImage(platform, url, hostname, preview);
      var vid := ExtractYouTubeVideoId(url);
      && (Truthy(preview.image) ==> r == preview.image)
      && (!Truthy(preview.image) && platform == YouTube && vid.Some? ==>
            r.Some? && ThumbnailVideoId(r.value) == vid)
      && (!Truthy(preview.image) && platform == Website ==>
            r.Some? && FaviconHost(r.value) == Some(hostname))
      && (Truthy(r) <==> Truthy(preview.image) || (platform == YouTube && vid.Some?) || platform == Website)
  {
    var vid := ExtractYouTubeVideoId(url);
    if vid.Some? {
      ThumbnailRoundTrip(vid.value);
    }
    FaviconRoundTrip(Some(hostname));
  }

  /** The record `addBookmark(url)` stores: the id is the decimal clock value, and the timestamp
      the clock value itself. */
  function NewBookmark(url: string, hostname: string, preview: LinkPreview, now: nat): Bookmark {
    var platform := DetectPlatform(hostname);
    Bookmark(DecimalString(now), url, platform, ResolveTitle(preview, hostname),
      ResolveImage(platform, url, hostname, preview), [], false, now, Some(preview))
  }

  /** The fields of a new record: no tags, not a favourite, created at the clock value with an id
      that reads back as that value, the classification of its host, the preview kept, and the
      preview's title unless it is empty or missing, the hostname then. With a non-empty URL and
      hostname the record passes the structural check of an import. */
  lemma NewBookmarkFields(url: string, hostname: string, preview: LinkPreview, now: nat)
    ensures var b := NewBookmark(url, hostname, preview, now);
      && b.url == url && b.tags == [] && !b.favorite && b.createdAt == now
      && DecimalValue(b.id) == now && b.id != ""
      && b.platform == DetectPlatform(hostname) && b.rawPreview == Some(preview)
      && (Truthy(preview.title) ==> b.title == preview.title.value)
      && (!Truthy(preview.title) ==> b.title == hostname)
      && (url != "" && hostname != "" ==> IsValid(b))
  {
    DecimalRoundTrip(now);
  }

  /** Records created at different clock values get different ids. */
  lemma NewBookmarkIdsDiffer(url1: string, h1: string, p1: LinkPreview, now1: nat,
                             url2: string, h2: string, p2: LinkPreview, now2: nat)
    requires now1 != now2
    ensures NewBookmark(url1, h1, p1, now1).id != NewBookmark(url2, h2, p2, now2).id
  {
    DecimalStringInjective(now1, now2);
  }

  /** When the preview service fails, the title is the hostname and the image comes from the URL
      alone: a video thumbnail, a favicon, or none. */
  lemma FailedPreviewRecord(url: string, hostname: string, now: nat)
    ensures var b := NewBookmark(url, hostname, FetchLinkPreview(None, url, hostname), now);
      var vid := ExtractYouTubeVideoId(url);
      && b.title == hostname
      && (b.platform == YouTube && vid.Some? ==> b.image == Some(YouTubeThumbnail(vid.value)))
      && (b.platform == Website ==> b.image == Some(FaviconUrl(Some(hostname))))
      && (b.platform != Website && !(b.platform == YouTube && vid.Some?) ==> b.image.None?)
  {
  }

  // ---------------------------------------------------------------------------------------------
  // The hook's state

  /** What `importData` returns: the stats only on success. */
  datatype ImportOutcome = ImportOutcome(success: bool, stats: Option<ImportStats>)

  class BookmarkService {
    /** The in-memory list the page renders. */
    var bookmarks: seq<Bookmark>
    /** Whether an `addBookmark` is in progress. */
    var loading: bool
    /** The store every operation goes through. */
    const store: BookmarkStore

    /** The in-memory list is what the store holds. */
    ghost predicate Synced()
      reads this, store
    {
      bookmarks == store.GetAll()
    }

    /** Mounting the hook: the list is loaded from the store once. */
    constructor (store: BookmarkStore)
      ensures this.store == store
      ensures bookmarks == store.GetAll() && !loading
    {
      this.store := store;
      bookmarks := store.GetAll();
      loading := false;
    }

    /** `addBookmark(url)`. `hostname` is what `new URL(url).hostname` yields, `None` when it
        throws; `response` is the preview service's answer, `None` when the call fails; `now` is
        the clock. A URL without a hostname throws inside the `try`, so nothing is added. */
    method AddBookmark(url: string, hostname: Option<string>, response: Option<LinkPreview>, now: nat)
      modifies this, store
      ensures !loading
      ensures hostname.None? ==> store.slot == old(store.slot) && bookmarks == old(bookmarks)
      ensures hostname.Some? ==>
        var preview := FetchLinkPreview(response, url, hostname.value);
        store.GetAll() == [NewBookmark(url, hostname.value, preview, now)] + old(store.GetAll()) &&
        Synced()
    {
      loading := true;
      if hostname.None? {
        loading := false;
        return;
      }
      var host := hostname.value;
      var platform := DetectPlatform(host);
      var preview := FetchLinkPreview(response, url, host);

      var image := preview.image;
      var title := if Truthy(preview.title) then preview.title.value else host;

      if platform == YouTube {
        var videoId := ExtractYouTubeVideoId(url);
        if videoId.Some? && !Truthy(image) {
          image := Some(YouTubeThumbnail(videoId.value));
        }
      }

      if platform == Website && !Truthy(image) {
        image := Some(FaviconUrl(hostname));
      }

      var bookmark := Bookmark(DecimalString(now), url, platform, title, image, [], false, now, Some(preview));
      store.Add(bookmark);
      bookmarks := store.GetAll();
      loading := false;
    }

    /** `updateBookmark`: update the store, then reload the list. */
    method UpdateBookmark(id: string, u: Patch)
      modifies this, store
      ensures store.GetAll() == Updated(old(store.GetAll()), id, u)
      ensures Synced() && loading == old(loading)
    {
      store.Update(id, u);
      bookmarks := store.GetAll();
    }

    /** `deleteBookmark`: delete in the store, then reload the list. */
    method DeleteBookmark(id: string)
      modifies this, store
      ensures store.GetAll() == Without(old(store.GetAll()), id)
      ensures Synced() && loading == old(loading)
    {
      store.Delete(id);
      bookmarks := store.GetAll();
    }

    /** `toggleFavorite`: the flag is read from the in-memory list; nothing happens when the id is
        not there. */
    method ToggleFavorite(id: string)
      modifies this, store
      ensures loading == old(loading)
      ensures Find(old(bookmarks), id).None? ==> store.slot == old(store.slot) && bookmarks == old(bookmarks)
      ensures Find(old(bookmarks), id).Some? ==> (Synced() &&
        store.GetAll() == Updated(old(store.GetAll()), id, FavoritePatch(!Find(old(bookmarks), id).value.favorite)))
      ensures old(Synced()) ==> Synced() && bookmarks == Toggled(old(bookmarks), id)
    {
      var bookmark := Find(bookmarks, id);
      if bookmark.Some? {
        UpdateBookmark(id, FavoritePatch(!bookmark.value.favorite));
      }
    }

    /** `addTag`: appends `tag` to the tags held in memory, unless it is already one of them. */
    method AddTag(id: string, tag: string)
      modifies this, store
      ensures loading == old(loading)
      ensures var b := Find(old(bookmarks), id);
        b.None? || tag in b.value.tags ==> store.slot == old(store.slot) && bookmarks == old(bookmarks)
      ensures var b := Find(old(bookmarks), id);
        b.Some? && tag !in b.value.tags ==> (Synced() &&
          store.GetAll() == Updated(old(store.GetAll()), id, TagsPatch(b.value.tags + [tag])))
      ensures old(Synced()) ==> Synced() && bookmarks == Tagged(old(bookmarks), id, tag)
    {
      var bookmark := Find(bookmarks, id);
      if bookmark.Some? && tag !in bookmark.value.tags {
        UpdateBookmark(id, TagsPatch(bookmark.value.tags + [tag]));
      }
    }

    /** `removeTag`: writes the in-memory tags without `tag`, whether or not it was there. */
    method RemoveTag(id: string, tag: string)
      modifies this, store
      ensures loading == old(loading)
      ensures Find(old(bookmarks), id).None? ==> store.slot == old(store.slot) && bookmarks == old(bookmarks)
      ensures Find(old(bookmarks), id).Some? ==> (Synced() &&
        store.GetAll() == Updated(old(store.GetAll()), id, TagsPatch(WithoutTag(Find(old(bookmarks), id).value.tags, tag))))
      ensures old(Synced()) ==> Synced() && bookmarks == Untagged(old(bookmarks), id, tag)
    {
      var bookmark := Find(bookmarks, id);
      if bookmark.Some? {
        UpdateBookmark(id, TagsPatch(Filter(bookmark.value.tags, NotTag(tag))));
      }
    }

    /** `clearAll`: the key is removed and the list emptied. */
    method ClearAll()
      modifies this, store
      ensures store.slot == None && bookmarks == []
      ensures Synced() && loading == old(loading)
    {
      store.Clear();
      bookmarks := [];
    }

    /** `exportData`. */
    method ExportData() returns (t: Text)
      ensures t == Stringify(store.GetAll())
      ensures PayloadRecords(t) == Some(store.GetAll())
    {
      t := store.Export();
    }

    /** `importData`: the stats are taken before importing; on failure there are none and the list
        is not reloaded. */
    method ImportData(data: Text, now: int, fallbackId: string) returns (outcome: ImportOutcome)
      modifies this, store
      ensures loading == old(loading)
      ensures outcome.success == PayloadRecords(data).Some?
      ensures !outcome.success ==>
        outcome.stats.None? && store.slot == old(store.slot) && bookmarks == old(bookmarks)
      ensures outcome.success ==>
        && outcome.stats == StatsOf(old(store.GetAll()), data)
        && store.GetAll() == ImportResult(old(store.GetAll()), data, now, fallbackId).value
        && |store.GetAll()| == |old(store.GetAll())| + outcome.stats.value.newCount
        && Synced()
    {
      ghost var before := store.GetAll();
      var stats := store.GetImportStats(data);
      var success := store.Import(data, now, fallbackId);
      if success {
        StatsAgreeWithImport(before, data, now, fallbackId);
        bookmarks := store.GetAll();
        return ImportOutcome(true, stats);
      }
      return ImportOutcome(false, None);
    }
  }
}
