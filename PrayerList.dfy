/** The prayer wall's list view: the category buttons derived from the data,
    the filter applied to the list, the per-card visibility rules, and the
    lightbox that pages through one item's images. */
module PrayerList {
  import opened Types
  import opened Text
  import opened Seqs

  /** Every tag of every item, item by item (`prayers.flatMap(p => p.category)`). */
  function FlatCategories(prayers: seq<PrayerItem>): (r: seq<string>)
    ensures forall c :: c in r <==> exists i :: 0 <= i < |prayers| && c in prayers[i].category
  {
    if prayers == [] then []
    else
      var rest := FlatCategories(prayers[1..]);
      assert forall i :: 1 <= i < |prayers| ==> prayers[i] == prayers[1..][i - 1];
      assert forall c :: (exists i :: 1 <= i < |prayers| && c in prayers[i].category) ==>
        c in rest;
      prayers[0].category + rest
  }

  /** Position of the first occurrence of `x` in `s`. */
  function FirstIndex<T(==)>(s: seq<T>, x: T): (i: nat)
    requires x in s
    ensures i < |s| && s[i] == x && x !in s[..i]
  {
    if s[0] == x then 0
    else
      var i := FirstIndex(s[1..], x);
      assert s[..i + 1] == [s[0]] + s[1..][..i];
      i + 1
  }

  /** A first occurrence inside a prefix is still the first occurrence once
      more elements follow. */
  lemma FirstIndexPrefix<T>(s: seq<T>, t: seq<T>, x: T)
    requires x in s
    ensures x in s + t && FirstIndex(s + t, x) == FirstIndex(s, x)
  {
    var i, j := FirstIndex(s, x), FirstIndex(s + t, x);
    assert (s + t)[i] == x;
    forall k | 0 <= k < i ensures (s + t)[k] != x {
      assert (s + t)[k] == s[..i][k];
    }
    assert forall k :: 0 <= k < j ==> (s + t)[..j][k] == (s + t)[k];
  }

  /** `Array.from(new Set(s))`: each value once, in the order of its first
      appearance. */
  function Dedup(s: seq<string>): (r: seq<string>)
    ensures forall x :: x in r <==> x in s
    ensures NoDuplicates(r)
  {
    if s == [] then []
    else
      var init := Dedup(s[..|s| - 1]);
      var last := s[|s| - 1];
      assert s == s[..|s| - 1] + [last];
      if last in init then init else init + [last]
  }

  /** Values come out of `Dedup` ordered by where they first appear. */
  lemma {:induction false} DedupFirstAppearance(s: seq<string>)
    ensures forall i, j :: 0 <= i < j < |Dedup(s)| ==>
      FirstIndex(s, Dedup(s)[i]) < FirstIndex(s, Dedup(s)[j])
  {
    if s != [] {
      var pre := s[..|s| - 1];
      var last := s[|s| - 1];
      var init := Dedup(pre);
      var r := Dedup(s);
      assert s == pre + [last];
      DedupFirstAppearance(pre);
      forall x | x in init ensures FirstIndex(s, x) == FirstIndex(pre, x) {
        FirstIndexPrefix(pre, [last], x);
      }
      if last !in init {
        forall k | 0 <= k < |s| - 1 ensures s[k] != last {
          assert s[k] == pre[k];
        }
        assert FirstIndex(s, last) == |s| - 1;
        forall i, j | 0 <= i < j < |r| ensures FirstIndex(s, r[i]) < FirstIndex(s, r[j]) {
          if j == |r| - 1 {
            assert r[i] == init[i];
          } else {
            assert r[i] == init[i] && r[j] == init[j];
          }
        }
      }
    }
  }

  /** The category buttons: every tag that some item carries, exactly once,
      in first-appearance order over the items. */
  function Categories(prayers: seq<PrayerItem>): (r: seq<string>)
    ensures NoDuplicates(r)
    ensures forall c :: c in r <==> exists i :: 0 <= i < |prayers| && c in prayers[i].category
  {
    Dedup(FlatCategories(prayers))
  }

  /** Categories are listed in the order their first occurrence has in the
      flattened tags. */
  lemma CategoriesOrder(prayers: seq<PrayerItem>)
    ensures var flat := FlatCategories(prayers); var r := Categories(prayers);
      forall i, j :: 0 <= i < j < |r| ==> FirstIndex(flat, r[i]) < FirstIndex(flat, r[j])
  {
    DedupFirstAppearance(FlatCategories(prayers));
  }

  /** The search part of the filter, on the already lowercased query:
      description and author name are lowercased before the search, the date
      is searched as it is. */
  predicate MatchesQuery(p: PrayerItem, q: string, lower: string -> string): (b: bool)
    ensures q == "" ==> b
  {
    ContainsEmpty(p.date);
    Contains(lower(p.description), q) || Contains(lower(p.userName), q) || Contains(p.date, q)
  }

  /** An item matches when the query occurs at some position of its lower-cased
      description, its lower-cased author name or its date. */
  lemma MatchesQueryMeans(p: PrayerItem, q: string, lower: string -> string)
    ensures MatchesQuery(p, q, lower)
        <==> || (exists i :: OccursAt(lower(p.description), q, i))
             || (exists i :: OccursAt(lower(p.userName), q, i))
             || (exists i :: OccursAt(p.date, q, i))
  {
    ContainsIff(lower(p.description), q);
    ContainsIff(lower(p.userName), q);
    ContainsIff(p.date, q);
  }

  /** Whether an item passes the list filter. An owner filter that is on
      rejects other authors; a selected (non-empty) category rejects items
      without it; a non-empty query keeps exactly the items that match it. */
  predicate Keep(p: PrayerItem, showMine: bool, currentUser: string, selected: Option<string>,
                 query: string, lower: string -> string)
  {
    if showMine && p.userName != currentUser then false
    else if HasRef(selected) && selected.value !in p.category then false
    else if query != "" then MatchesQuery(p, lower(query), lower)
    else true
  }

  /** The three criteria are independent and all must hold; an empty query
      keeps every item the other two keep. */
  lemma KeepMeans(p: PrayerItem, showMine: bool, currentUser: string, selected: Option<string>,
                  query: string, lower: string -> string)
    ensures Keep(p, showMine, currentUser, selected, query, lower)
        <==> && (!showMine || p.userName == currentUser)
             && (!HasRef(selected) || selected.value in p.category)
             && (query == "" || MatchesQuery(p, lower(query), lower))
    ensures !showMine && !HasRef(selected) ==> Keep(p, showMine, currentUser, selected, "", lower)
  {
  }

  /** The items shown in the list. */
  function FilteredPrayers(prayers: seq<PrayerItem>, showMine: bool, currentUser: string,
                           selected: Option<string>, query: string, lower: string -> string): (r: seq<PrayerItem>)
    ensures |r| <= |prayers|
    ensures forall p :: p in r <==> p in prayers && Keep(p, showMine, currentUser, selected, query, lower)
    ensures showMine ==> forall k :: 0 <= k < |r| ==> r[k].userName == currentUser
    ensures HasRef(selected) ==> forall k :: 0 <= k < |r| ==> selected.value in r[k].category
    ensures query != "" ==> forall k :: 0 <= k < |r| ==> MatchesQuery(r[k], lower(query), lower)
  {
    if prayers == [] then []
    else
      var rest := FilteredPrayers(prayers[1..], showMine, currentUser, selected, query, lower);
      assert prayers == [prayers[0]] + prayers[1..];
      if Keep(prayers[0], showMine, currentUser, selected, query, lower) then [prayers[0]] + rest else rest
  }

  /** The list shown keeps the items' original relative order. */
  lemma {:induction false} FilteredIsSubsequence(prayers: seq<PrayerItem>, showMine: bool, currentUser: string,
                                                 selected: Option<string>, query: string, lower: string -> string)
    ensures Subsequence(FilteredPrayers(prayers, showMine, currentUser, selected, query, lower), prayers)
  {
    var r := FilteredPrayers(prayers, showMine, currentUser, selected, query, lower);
    if prayers != [] {
      FilteredIsSubsequence(prayers[1..], showMine, currentUser, selected, query, lower);
      if Keep(prayers[0], showMine, currentUser, selected, query, lower) {
        assert r[1..] == FilteredPrayers(prayers[1..], showMine, currentUser, selected, query, lower);
      }
    }
  }

  /** With the owner toggle off, no category selected and an empty query,
      every item is shown, in order. */
  lemma {:induction false} NoCriteriaShowsAll(prayers: seq<PrayerItem>, currentUser: string,
                                              selected: Option<string>, lower: string -> string)
    requires !HasRef(selected)
    ensures FilteredPrayers(prayers, false, currentUser, selected, "", lower) == prayers
  {
    if prayers != [] {
      NoCriteriaShowsAll(prayers[1..], currentUser, selected, lower);
    }
  }

  /** The filter works item by item: filtering a concatenation filters each part. */
  lemma {:induction false} FilteredAppend(a: seq<PrayerItem>, b: seq<PrayerItem>, showMine: bool, currentUser: string,
                                          selected: Option<string>, query: string, lower: string -> string)
    ensures FilteredPrayers(a + b, showMine, currentUser, selected, query, lower)
         == FilteredPrayers(a, showMine, currentUser, selected, query, lower)
          + FilteredPrayers(b, showMine, currentUser, selected, query, lower)
  {
    if a == [] {
      assert a + b == b;
    } else {
      assert (a + b)[0] == a[0];
      assert (a + b)[1..] == a[1..] + b;
      FilteredAppend(a[1..], b, showMine, currentUser, selected, query, lower);
    }
  }

  /** The share button: only the author sees it, and only while the item is
      not pending, so an item without a status counts as shareable. */
  predicate ShowShare(p: PrayerItem, currentUser: string): (b: bool)
    ensures b <==> p.userName == currentUser && (p.status == None || p.status == Some(Approved))
  {
    assert p.status.Some? ==> p.status.value == Pending || p.status.value == Approved;
    p.status != Some(Pending) && p.userName == currentUser
  }

  /** The pending ribbon. */
  predicate ShowPendingRibbon(p: PrayerItem): (b: bool)
    ensures b <==> p.status.Some? && !p.status.value.Approved?
  {
    p.status == Some(Pending)
  }

  /** The ribbon and the share button never show together; for the author,
      exactly one of them shows; a missing status behaves like "approved". */
  lemma ShareAndRibbon(p: PrayerItem, currentUser: string)
    ensures !(ShowShare(p, currentUser) && ShowPendingRibbon(p))
    ensures p.userName == currentUser ==> (ShowShare(p, currentUser) <==> !ShowPendingRibbon(p))
    ensures ShowShare(p.(status := None), currentUser) == ShowShare(p.(status := Some(Approved)), currentUser)
  {
  }

  /** Whether the card of `p` is expanded (`expandedDescriptions[p.id]`, a
      missing key reads as not expanded). */
  predicate Expanded(expanded: map<int, bool>, id: int) {
    id in expanded && expanded[id]
  }

  /** The "show more" button: a description longer than 100 characters on a
      card that is not expanded. */
  predicate ShowMore(expanded: map<int, bool>, p: PrayerItem): (b: bool)
    ensures b ==> |p.description| >= 101
    ensures b <==> (p.id !in expanded || !expanded[p.id]) && |p.description| > 100
  {
    !Expanded(expanded, p.id) && |p.description| > 100
  }

  /** The number on the comment button: the length of `comments`, or 0 when
      the item carries none. */
  function CommentCountShown(p: PrayerItem): (n: nat)
    ensures p.comments.Some? ==> n == |p.comments.value|
    ensures p.comments.None? ==> n == 0
  {
    match p.comments
    case None => 0
    case Some(cs) => |cs|
  }

  class View {
    var showMyPrayers: bool
    var selectedCategory: Option<string>
    var searchQuery: string
    var expandedDescriptions: map<int, bool>
    var lightboxImage: Option<string>
    var lightboxIndex: int
    /** The item whose images the lightbox pages through (`currentPrayerRef`). */
    var current: Option<PrayerItem>

    /** Once an item is in the lightbox, the index points into its images and
        an open lightbox shows the image at that index. */
    ghost predicate Valid()
      reads this
    {
      && (lightboxImage.Some? ==> current.Some?)
      && (current.Some? ==>
            && 0 <= lightboxIndex < |current.value.images|
            && (lightboxImage.Some? ==> lightboxImage.value == current.value.images[lightboxIndex]))
    }

    /** The images the lightbox pages through. */
    function Images(): seq<string>
      reads this
    {
      if current.Some? then current.value.images else []
    }

    /** The lightbox and its arrows are on screen. */
    predicate ArrowsShown(): (b: bool)
      reads this
      ensures b ==> |Images()| >= 2 && lightboxImage.Some? && lightboxImage.value != ""
      ensures HasRef(lightboxImage) && |Images()| >= 2 ==> b
    {
      HasRef(lightboxImage) && current.Some? && |current.value.images| > 1
    }

    constructor ()
      ensures Valid()
      ensures !showMyPrayers && selectedCategory == None && searchQuery == ""
      ensures expandedDescriptions == map[] && lightboxImage == None && lightboxIndex == 0 && current == None
    {
      showMyPrayers, selectedCategory, searchQuery := false, None, "";
      expandedDescriptions := map[];
      lightboxImage, lightboxIndex, current := None, 0, None;
    }

    method ToggleMine()
      modifies this`showMyPrayers
      ensures showMyPrayers == !old(showMyPrayers)
    {
      showMyPrayers := !showMyPrayers;
    }

    /** "All" passes `None`, a category button passes its category. */
    method SelectCategory(category: Option<string>)
      modifies this`selectedCategory
      ensures selectedCategory == category
    {
      selectedCategory := category;
    }

    method SetSearchQuery(query: string)
      modifies this`searchQuery
      ensures searchQuery == query
    {
      searchQuery := query;
    }

    /** "Show more" on card `id`: that card is expanded, every other card
        keeps its state, and the button no longer shows for it. */
    method Expand(id: int)
      modifies this`expandedDescriptions
      ensures expandedDescriptions == old(expandedDescriptions)[id := true]
      ensures Expanded(expandedDescriptions, id)
      ensures forall p: PrayerItem :: p.id == id ==> !ShowMore(expandedDescriptions, p)
      ensures forall other :: other != id ==>
        Expanded(expandedDescriptions, other) == Expanded(old(expandedDescriptions), other)
    {
      expandedDescriptions := expandedDescriptions[id := true];
    }

    /** Clicking thumbnail `index` of `prayer`; thumbnails exist only for the
        item's images. */
    method OpenLightbox(prayer: PrayerItem, index: int)
      requires 0 <= index < |prayer.images|
      modifies this`current, this`lightboxImage, this`lightboxIndex
      ensures Valid()
      ensures current == Some(prayer) && lightboxIndex == index
      ensures lightboxImage == Some(prayer.images[index])
    {
      current := Some(prayer);
      lightboxImage := Some(prayer.images[index]);
      lightboxIndex := index;
    }

    /** The left arrow: steps back one image unless already at the first. */
    method Prev()
      requires Valid() && ArrowsShown()
      modifies this`lightboxImage, this`lightboxIndex
      ensures Valid()
      ensures lightboxIndex == if old(lightboxIndex) > 0 then old(lightboxIndex) - 1 else old(lightboxIndex)
      ensures 0 <= lightboxIndex < |Images()|
      ensures lightboxImage == Some(Images()[lightboxIndex])
    {
      if lightboxIndex > 0 {
        lightboxIndex := lightboxIndex - 1;
        lightboxImage := Some(current.value.images[lightboxIndex]);
      }
    }

    /** The right arrow: steps forward one image unless already at the last. */
    method Next()
      requires Valid() && ArrowsShown()
      modifies this`lightboxImage, this`lightboxIndex
      ensures Valid()
      ensures lightboxIndex ==
        if old(lightboxIndex) < |Images()| - 1 then old(lightboxIndex) + 1 else old(lightboxIndex)
      ensures 0 <= lightboxIndex < |Images()|
      ensures lightboxImage == Some(Images()[lightboxIndex])
    {
      if current.Some? && lightboxIndex < |current.value.images| - 1 {
        lightboxIndex := lightboxIndex + 1;
        lightboxImage := Some(current.value.images[lightboxIndex]);
      }
    }

    /** The close button or a click on the backdrop; the index and the item
        stay as they were. */
    method CloseLightbox()
      requires Valid()
      modifies this`lightboxImage
      ensures Valid()
      ensures lightboxImage == None
    {
      lightboxImage := None;
    }
  }
}
