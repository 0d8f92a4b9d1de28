/**
 * The portfolio section: the category filter over the portfolio items, the
 * card click that opens an item's lightbox at its first picture, and the
 * lightbox's next/previous navigation with wrap-around, by arrow button or
 * keyboard.
 */
module Portfolio {
  import opened Common

  datatype PortfolioItem = PortfolioItem(
    id: int,
    title: string,
    category: string,
    description: string,
    image: string,
    galleryImages: Option<seq<string>>)

  /** The filter buttons, in order. */
  const Categories: seq<string> := ["All", "Wedding", "Drone", "Event", "Prewedding", "Marriage"]

  /** `filteredItems` */
  function FilteredItems(items: seq<PortfolioItem>, activeCategory: string): seq<PortfolioItem>
  {
    if activeCategory == "All" then items
    else Filter(items, (it: PortfolioItem) => it.category == activeCategory)
  }

  /**
   * "All" shows every item; any other category shows, in order, exactly
   * the items of that category.
   */
  lemma FilteredItemsSpec(items: seq<PortfolioItem>, activeCategory: string)
    ensures activeCategory == "All" ==> FilteredItems(items, activeCategory) == items
    ensures activeCategory != "All" ==>
      && IsSubsequence(FilteredItems(items, activeCategory), items)
      && (forall it :: it in FilteredItems(items, activeCategory) <==> it in items && it.category == activeCategory)
  {
    if activeCategory != "All" {
      var p := (it: PortfolioItem) => it.category == activeCategory;
      FilterIsSubsequence(items, p);
      forall it | it in items && it.category == activeCategory
        ensures it in FilteredItems(items, activeCategory)
      {
        var i :| 0 <= i < |items| && items[i] == it;
      }
    }
  }

  /** The open item (None when the modal is closed) and the lightbox position. */
  datatype Lightbox = Lightbox(selected: Option<PortfolioItem>, index: int)

  /** A card click: the item opens at its first picture. */
  function SelectCard(s: Lightbox, item: PortfolioItem): (r: Lightbox)
    ensures r.selected == Some(item) && r.index == 0
  {
    Lightbox(Some(item), 0)
  }

  /** `prev + 1 < len ? prev + 1 : 0` */
  function NextIndex(prev: int, len: nat): int {
    if prev + 1 < len then prev + 1 else 0
  }

  /** `prev - 1 >= 0 ? prev - 1 : len - 1` */
  function PrevIndex(prev: int, len: nat): int {
    if prev - 1 >= 0 then prev - 1 else len - 1
  }

  /** Inside a gallery the two moves stay in range and undo each other. */
  lemma NavigationInverse(i: int, len: nat)
    requires 0 <= i < len
    ensures 0 <= NextIndex(i, len) < len && 0 <= PrevIndex(i, len) < len
    ensures PrevIndex(NextIndex(i, len), len) == i
    ensures NextIndex(PrevIndex(i, len), len) == i
    ensures NextIndex(i, len) == (i + 1) % len
  {
  }

  /** The `!selectedItem?.galleryImages` guard: an item without a gallery array has nowhere to move. */
  predicate HasGallery(s: Lightbox) {
    s.selected.Some? && s.selected.value.galleryImages.Some?
  }

  /** `nextImage` */
  function NextImage(s: Lightbox): (r: Lightbox)
    ensures !HasGallery(s) ==> r == s
    ensures HasGallery(s) ==> r == s.(index := NextIndex(s.index, |s.selected.value.galleryImages.value|))
  {
    if !HasGallery(s) then s
    else s.(index := NextIndex(s.index, |s.selected.value.galleryImages.value|))
  }

  /**
   * `prevImage` as written: the guard lets an empty gallery array through
   * (an empty array is truthy), and stepping back from 0 then lands on -1.
   */
  function PrevImageAsWritten(s: Lightbox): Lightbox
  {
    if !HasGallery(s) then s
    else s.(index := PrevIndex(s.index, |s.selected.value.galleryImages.value|))
  }

  /** The left arrow key on an item whose gallery array is empty moves the index to -1. */
  lemma PrevOnEmptyGalleryGoesNegative(item: PortfolioItem)
    requires item.galleryImages == Some([])
    ensures PrevImageAsWritten(SelectCard(Lightbox(None, 0), item)).index == -1
  {
  }

  /**
   * `prevImage` with an empty gallery treated like a missing one: the index
   * never leaves a gallery's range and never goes negative.
   */
  function PrevImage(s: Lightbox): (r: Lightbox)
    ensures !HasGallery(s) || s.selected.value.galleryImages.value == [] ==> r == s
    ensures HasGallery(s) && s.selected.value.galleryImages.value != [] ==>
      r == PrevImageAsWritten(s)
    ensures s.index >= 0 ==> r.index >= 0
    ensures HasGallery(s) && 0 <= s.index < |s.selected.value.galleryImages.value| ==>
      0 <= r.index < |s.selected.value.galleryImages.value|
  {
    if !HasGallery(s) || s.selected.value.galleryImages.value == [] then s
    else s.(index := PrevIndex(s.index, |s.selected.value.galleryImages.value|))
  }

  /**
   * As written, the index stays in range in a non-empty gallery and never
   * goes below -1; the only way down to -1 is the left arrow on an empty
   * gallery array.
   */
  lemma MovesKeepIndexInRange(s: Lightbox)
    requires s.index >= 0
    ensures NextImage(s).index >= 0
    ensures PrevImageAsWritten(s).index >= -1
    ensures PrevImageAsWritten(s).index == -1 <==> HasGallery(s) && s.selected.value.galleryImages.value == [] && s.index == 0
    ensures HasGallery(s) && 0 <= s.index < |s.selected.value.galleryImages.value| ==>
      && 0 <= NextImage(s).index < |s.selected.value.galleryImages.value|
      && 0 <= PrevImageAsWritten(s).index < |s.selected.value.galleryImages.value|
      && PrevImageAsWritten(NextImage(s)) == s
      && NextImage(PrevImageAsWritten(s)) == s
  {
    if HasGallery(s) && 0 <= s.index < |s.selected.value.galleryImages.value| {
      NavigationInverse(s.index, |s.selected.value.galleryImages.value|);
    }
  }

  /** With the corrected step back the index never goes negative, whatever the gallery. */
  lemma CorrectedMovesKeepIndexInRange(s: Lightbox)
    requires s.index >= 0
    ensures NextImage(s).index >= 0 && PrevImage(s).index >= 0
    ensures HasGallery(s) && 0 <= s.index < |s.selected.value.galleryImages.value| ==>
      && PrevImage(NextImage(s)) == s
      && NextImage(PrevImage(s)) == s
  {
    if HasGallery(s) && 0 <= s.index < |s.selected.value.galleryImages.value| {
      NavigationInverse(s.index, |s.selected.value.galleryImages.value|);
    }
  }

  datatype Key = ArrowRight | ArrowLeft | Escape | OtherKey

  /**
   * The keyboard handler as written: nothing without an open item;
   * otherwise the right and left arrows move (the left one through the
   * unguarded `prevImage`) and Escape closes the modal.
   */
  function KeyDown(s: Lightbox, key: Key): (r: Lightbox)
    ensures s.selected.None? ==> r == s
    ensures s.selected.Some? && key.ArrowRight? ==> r == NextImage(s)
    ensures s.selected.Some? && key.ArrowLeft? ==> r == PrevImageAsWritten(s)
    ensures s.selected.Some? && key.Escape? ==> r.selected.None? && r.index == s.index
    ensures key.OtherKey? ==> r == s
  {
    if s.selected.None? then s
    else
      match key
      case ArrowRight => NextImage(s)
      case ArrowLeft => PrevImageAsWritten(s)
      case Escape => s.(selected := None)
      case OtherKey => s
  }

  /** The keyboard handler with the corrected step back: no key ever makes the index negative. */
  function KeyDownCorrected(s: Lightbox, key: Key): (r: Lightbox)
    ensures s.index >= 0 ==> r.index >= 0
    ensures key.ArrowLeft? && s.selected.Some? ==> r == PrevImage(s)
    ensures !key.ArrowLeft? ==> r == KeyDown(s, key)
    ensures s.selected.Some? && HasGallery(s) && s.selected.value.galleryImages.value != [] ==> r == KeyDown(s, key)
  {
    if s.selected.Some? && key.ArrowLeft? then PrevImage(s) else KeyDown(s, key)
  }

  /** The picture the modal shows: the gallery picture at the index, or the card image without a gallery. */
  function MainImage(item: PortfolioItem, index: int): (src: Option<string>)
    ensures item.galleryImages.None? ==> src == Some(item.image)
    ensures item.galleryImages.Some? && 0 <= index < |item.galleryImages.value| ==>
      src == Some(item.galleryImages.value[index])
    ensures item.galleryImages.Some? && !(0 <= index < |item.galleryImages.value|) ==> src.None?
  {
    match item.galleryImages
    case None => Some(item.image)
    case Some(g) => if 0 <= index < |g| then Some(g[index]) else None
  }
}
