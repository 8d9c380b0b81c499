/** The records of `types/bookmark.ts`: a saved bookmark, the link preview the preview service
    answers with, and the partial record (`Partial<Bookmark>`) an update spreads over a bookmark. */
module BookmarkTypes {
  import opened Wrappers

  /** The fixed classification of a bookmark's URL. */
  datatype Platform = YouTube | Twitter | LinkedIn | Website | Other

  /** The string the source stores for each platform, which is also the name of its category. */
  function PlatformName(p: Platform): string {
    match p
    case YouTube => "youtube"
    case Twitter => "twitter"
    case LinkedIn => "linkedin"
    case Website => "website"
    case Other => "other"
  }

  /** The answer of the link-preview service; every field may be absent. */
  datatype LinkPreview = LinkPreview(
    title: Option<string>,
    description: Option<string>,
    image: Option<string>,
    url: Option<string>,
    domain: Option<string>)

  /** One saved bookmark. `createdAt` is in epoch milliseconds; `rawPreview` is the preview the
      bookmark was created from, stored and never interpreted. */
  datatype Bookmark = Bookmark(
    id: string,
    url: string,
    platform: Platform,
    title: string,
    image: Option<string>,
    tags: seq<string>,
    favorite: bool,
    createdAt: int,
    rawPreview: Option<LinkPreview>)

  /** One key of a partial record: left out, or present with a value (possibly `undefined`,
      which for the optional fields is `None`). */
  datatype Field<T> = Keep | Put(value: T) {
    function Over(current: T): T {
      match this
      case Keep => current
      case Put(v) => v
    }
  }

  /** `Partial<Bookmark>`: the keys an update sets. */
  datatype Patch = Patch(
    id: Field<string>,
    url: Field<string>,
    platform: Field<Platform>,
    title: Field<string>,
    image: Field<Option<string>>,
    tags: Field<seq<string>>,
    favorite: Field<bool>,
    createdAt: Field<int>,
    rawPreview: Field<Option<LinkPreview>>)

  /** The partial record with no keys: `{}`. */
  const NoChange: Patch := Patch(Keep, Keep, Keep, Keep, Keep, Keep, Keep, Keep, Keep)

  /** `{ favorite: v }` */
  function FavoritePatch(v: bool): Patch {
    NoChange.(favorite := Put(v))
  }

  /** `{ tags: ts }` */
  function TagsPatch(ts: seq<string>): Patch {
    NoChange.(tags := Put(ts))
  }

  /** `{ ...b, ...u }`: every key present in `u` replaces the one in `b`. */
  function Merge(b: Bookmark, u: Patch): Bookmark {
    Bookmark(
      u.id.Over(b.id),
      u.url.Over(b.url),
      u.platform.Over(b.platform),
      u.title.Over(b.title),
      u.image.Over(b.image),
      u.tags.Over(b.tags),
      u.favorite.Over(b.favorite),
      u.createdAt.Over(b.createdAt),
      u.rawPreview.Over(b.rawPreview))
  }

  /** Spreading an empty partial record changes nothing. */
  lemma MergeNoChange(b: Bookmark)
    ensures Merge(b, NoChange) == b
  {
  }

  /** Spreading the same partial record twice is spreading it once. */
  lemma MergeIdempotent(b: Bookmark, u: Patch)
    ensures Merge(Merge(b, u), u) == Merge(b, u)
  {
  }

  /** `{ favorite: v }` changes the favorite flag and nothing else; `{ tags: ts }` the tags. */
  lemma SingleFieldPatches(b: Bookmark, v: bool, ts: seq<string>)
    ensures Merge(b, FavoritePatch(v)) == b.(favorite := v)
    ensures Merge(b, TagsPatch(ts)) == b.(tags := ts)
  {
  }
}
