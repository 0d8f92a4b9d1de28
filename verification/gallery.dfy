/**
 * The gallery: the photos and the plain images merged into one list with a
 * source and a caption each, and a lightbox over that list that opens at a
 * clicked picture, moves forwards and backwards around the list, and
 * closes. The fade animation and its timer are not modelled; only the index
 * update they delay is.
 */
module Gallery {
  import opened Common

  /** A photo or image record; every field may be absent. */
  datatype Photo = Photo(original: Option<string>, imageUrl: Option<string>, title: Option<string>, description: Option<string>)

  /** A picture as the grid and the lightbox show it. */
  datatype Shown = Shown(src: Option<string>, title: string)

  /** `{ src: original || image_url, title: title || description || "Photo" }` */
  function Normalize(p: Photo): (s: Shown)
    ensures s.src == (if Truthy(p.original) then p.original else p.imageUrl)
    ensures s.title != ""
    ensures Truthy(p.title) ==> s.title == p.title.value
    ensures !Truthy(p.title) && Truthy(p.description) ==> s.title == p.description.value
    ensures !Truthy(p.title) && !Truthy(p.description) ==> s.title == "Photo"
  {
    Shown(if Truthy(p.original) then p.original else p.imageUrl,
          if Truthy(p.title) then p.title.value
          else if Truthy(p.description) then p.description.value
          else "Photo")
  }

  function NormalizeAll(ps: seq<Photo>): (r: seq<Shown>)
    ensures |r| == |ps| && forall k :: 0 <= k < |ps| ==> r[k] == Normalize(ps[k])
  {
    seq(|ps|, k requires 0 <= k < |ps| => Normalize(ps[k]))
  }

  /** `allImages`: the photos first, then the plain images; an absent list counts as empty. */
  function AllImages(photos: Option<seq<Photo>>, normalImages: Option<seq<Photo>>): seq<Shown>
  {
    NormalizeAll(if photos.Some? then photos.value else []) +
    NormalizeAll(if normalImages.Some? then normalImages.value else [])
  }

  /**
   * The merged list has one picture per record, the photos' first and in
   * order, and every picture has a non-empty caption.
   */
  lemma AllImagesSpec(photos: seq<Photo>, normalImages: Option<seq<Photo>>)
    ensures var all := AllImages(Some(photos), normalImages);
      var normal := if normalImages.Some? then normalImages.value else [];
      && |all| == |photos| + |normal|
      && (forall k :: 0 <= k < |photos| ==> all[k] == Normalize(photos[k]))
      && (forall k :: 0 <= k < |normal| ==> all[|photos| + k] == Normalize(normal[k]))
      && (forall k :: 0 <= k < |all| ==> all[k].title != "")
  {
    var normal: seq<Photo> := if normalImages.Some? then normalImages.value else [];
    var front := NormalizeAll(photos);
    var back := NormalizeAll(normal);
    var all: seq<Shown> := front + back;
    assert AllImages(Some(photos), normalImages) == all;
    forall k | 0 <= k < |all| ensures all[k].title != "" {
      if k < |front| {
        assert all[k] == Normalize(photos[k]);
      } else {
        assert all[k] == Normalize(normal[k - |front|]);
      }
    }
  }

  /** The lightbox index, None while the lightbox is closed, in a list of `n` pictures. */
  predicate ValidIndex(index: Option<int>, n: nat) {
    index.None? || 0 <= index.value < n
  }

  /** `openLightbox(idx)`: a click on picture `idx` of the `n` shown opens the lightbox on it. */
  function Open(idx: int, n: nat): (r: Option<int>)
    ensures r.Some?
    ensures ValidIndex(r, n) <==> 0 <= idx < n
    ensures 0 <= idx < n ==> Next(Prev(r, n), n) == r
  {
    Some(idx)
  }

  /** `closeLightbox`: the lightbox closes, and next and previous then do nothing. */
  function Close(n: nat): (r: Option<int>)
    ensures r.None? && ValidIndex(r, n)
    ensures Next(r, n) == r && Prev(r, n) == r
  {
    None
  }

  /**
   * `nextImage`: `(prev + 1) % allImages.length`; nothing while closed. An
   * open lightbox has a picture at its index, so the length is positive;
   * the dividend is never negative, so JavaScript's remainder and Dafny's
   * agree.
   */
  function Next(index: Option<int>, n: nat): (r: Option<int>)
    requires ValidIndex(index, n)
    ensures ValidIndex(r, n)
    ensures index.None? <==> r.None?
    ensures index.Some? ==> r.value == (if index.value + 1 == n then 0 else index.value + 1)
  {
    if index.None? then None else Some((index.value + 1) % n)
  }

  /** `prevImage`: `(prev - 1 + allImages.length) % allImages.length`; nothing while closed. */
  function Prev(index: Option<int>, n: nat): (r: Option<int>)
    requires ValidIndex(index, n)
    ensures ValidIndex(r, n)
    ensures index.None? <==> r.None?
    ensures index.Some? ==> r.value == (if index.value == 0 then n - 1 else index.value - 1)
  {
    if index.None? then None else Some((index.value - 1 + n) % n)
  }

  /** Next and previous undo each other. */
  lemma NextPrevInverse(index: Option<int>, n: nat)
    requires ValidIndex(index, n)
    ensures Prev(Next(index, n), n) == index
    ensures Next(Prev(index, n), n) == index
  {
  }
}
