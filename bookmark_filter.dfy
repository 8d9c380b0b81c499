/** `app/page.tsx`: the visible list the page computes from the bookmarks, the selected category and
    the search box, and the count shown beside each category. */
module BookmarkFilter {
  import opened Seqs
  import opened Strings
  import opened BookmarkTypes

  function IsFavorite(): Bookmark -> bool {
    (b: Bookmark) => b.favorite
  }

  function OnPlatform(category: string): Bookmark -> bool {
    (b: Bookmark) => PlatformName(b.platform) == category
  }

  /** The search test on an already lower-cased query: the lower-cased title, some lower-cased tag
      or the lower-cased URL contains it. */
  function MatchesQuery(query: string): Bookmark -> bool {
    (b: Bookmark) =>
      Contains(Lower(b.title), query) ||
      (exists tag :: tag in b.tags && Contains(Lower(tag), query)) ||
      Contains(Lower(b.url), query)
  }

  /** The first stage: "all" keeps everything, "favorites" the favourites, any other category the
      records whose platform string equals it. */
  function ByCategory(bs: seq<Bookmark>, category: string): seq<Bookmark> {
    if category == "all" then bs
    else if category == "favorites" then Filter(bs, IsFavorite())
    else Filter(bs, OnPlatform(category))
  }

  /** The second stage: an empty search box keeps everything. */
  function BySearch(bs: seq<Bookmark>, searchQuery: string): seq<Bookmark> {
    if searchQuery == "" then bs else Filter(bs, MatchesQuery(Lower(searchQuery)))
  }

  /** `filteredBookmarks`. */
  function FilteredBookmarks(bs: seq<Bookmark>, category: string, searchQuery: string): seq<Bookmark> {
    BySearch(ByCategory(bs, category), searchQuery)
  }

  /** `getCategoryCount`. */
  function CategoryCount(bs: seq<Bookmark>, category: string): nat {
    if category == "all" then |bs|
    else if category == "favorites" then |Filter(bs, IsFavorite())|
    else |Filter(bs, OnPlatform(category))|
  }

  // ---------------------------------------------------------------------------------------------
  // The selection stated on its own

  /** `pat` occurs in the lower-cased form of `s`. */
  ghost predicate FoundIn(s: string, pat: string) {
    exists i :: OccursAt(Lower(s), pat, i)
  }

  /** A record the search for the lower-cased query `lq` finds. */
  ghost predicate Hit(b: Bookmark, lq: string) {
    FoundIn(b.title, lq) || (exists k :: 0 <= k < |b.tags| && FoundIn(b.tags[k], lq)) || FoundIn(b.url, lq)
  }

  /** A record the page shows for `category` and `searchQuery`. */
  ghost predicate Shown(b: Bookmark, category: string, searchQuery: string) {
    && (category == "all" || (category == "favorites" && b.favorite) ||
        (category != "favorites" && PlatformName(b.platform) == category))
    && (searchQuery == "" || Hit(b, Lower(searchQuery)))
  }

  /** The search test is the substring test it describes. */
  lemma MatchesQueryIff(b: Bookmark, lq: string)
    ensures MatchesQuery(lq)(b) <==> Hit(b, lq)
  {
    ContainsIff(Lower(b.title), lq);
    ContainsIff(Lower(b.url), lq);
    forall k | 0 <= k < |b.tags| ensures Contains(Lower(b.tags[k]), lq) <==> FoundIn(b.tags[k], lq) {
      ContainsIff(Lower(b.tags[k]), lq);
    }
    if exists tag :: tag in b.tags && Contains(Lower(tag), lq) {
      var tag :| tag in b.tags && Contains(Lower(tag), lq);
      var k :| 0 <= k < |b.tags| && b.tags[k] == tag;
      assert FoundIn(b.tags[k], lq);
    }
    if exists k :: 0 <= k < |b.tags| && FoundIn(b.tags[k], lq) {
      var k :| 0 <= k < |b.tags| && FoundIn(b.tags[k], lq);
      assert b.tags[k] in b.tags;
    }
  }

  /** Each record appears in the visible list as often as in `bs` when it is shown, and not at all
      otherwise. */
  lemma FilteredMultiset(bs: seq<Bookmark>, category: string, searchQuery: string, b: Bookmark)
    ensures multiset(FilteredBookmarks(bs, category, searchQuery))[b] ==
      if Shown(b, category, searchQuery) then multiset(bs)[b] else 0
  {
    var c := ByCategory(bs, category);
    var lq := Lower(searchQuery);
    if category == "favorites" {
      FilterMultiset(bs, IsFavorite(), b);
    } else if category != "all" {
      FilterMultiset(bs, OnPlatform(category), b);
    }
    if searchQuery != "" {
      FilterMultiset(c, MatchesQuery(lq), b);
      MatchesQueryIff(b, lq);
    }
  }

  /** The category "all" with an empty search box shows every bookmark. */
  lemma AllUnfiltered(bs: seq<Bookmark>)
    ensures FilteredBookmarks(bs, "all", "") == bs
  {
  }

  /** The visible list keeps the order of the bookmarks. */
  lemma FilteredIsSubsequence(bs: seq<Bookmark>, category: string, searchQuery: string)
    ensures IsSubsequence(FilteredBookmarks(bs, category, searchQuery), bs)
  {
    var c := ByCategory(bs, category);
    if category == "all" {
      SubsequenceOfSelf(bs);
    } else if category == "favorites" {
      FilterIsSubsequence(bs, IsFavorite());
    } else {
      FilterIsSubsequence(bs, OnPlatform(category));
    }
    if searchQuery == "" {
      SubsequenceOfSelf(c);
    } else {
      FilterIsSubsequence(c, MatchesQuery(Lower(searchQuery)));
    }
    SubsequenceTransitive(FilteredBookmarks(bs, category, searchQuery), c, bs);
  }

  /** "favorites" keeps exactly the favourites; any category other than "all" keeps exactly the
      records on the platform of that name, so a name that is no platform's shows nothing. */
  lemma CategoryExact(bs: seq<Bookmark>, category: string)
    ensures category == "favorites" ==>
      forall b :: b in FilteredBookmarks(bs, category, "") <==> b in bs && b.favorite
    ensures category != "all" && category != "favorites" ==>
      forall b :: b in FilteredBookmarks(bs, category, "") <==> b in bs && PlatformName(b.platform) == category
    ensures category !in {"all", "favorites", "youtube", "twitter", "linkedin", "website", "other"} ==>
      FilteredBookmarks(bs, category, "") == []
  {
    var shown := FilteredBookmarks(bs, category, "");
    forall b ensures b in shown <==> b in bs && Shown(b, category, "") {
      FilteredMultiset(bs, category, "", b);
      assert b in shown <==> multiset(shown)[b] > 0;
      assert b in bs <==> multiset(bs)[b] > 0;
    }
    if category !in {"all", "favorites", "youtube", "twitter", "linkedin", "website", "other"} {
      FilterNone(bs, OnPlatform(category));
    }
  }

  /** The search compares lower-cased text only, so queries that agree up to case find the same. */
  lemma SearchIgnoresCase(bs: seq<Bookmark>, category: string, q1: string, q2: string)
    requires Lower(q1) == Lower(q2)
    ensures FilteredBookmarks(bs, category, q1) == FilteredBookmarks(bs, category, q2)
  {
    assert |q1| == |Lower(q1)| && |q2| == |Lower(q2)|;
  }

  /** The count beside a category is the length of the list that category shows without a search. */
  lemma CategoryCountIsShownLength(bs: seq<Bookmark>, category: string)
    ensures CategoryCount(bs, category) == |FilteredBookmarks(bs, category, "")|
  {
  }
}
