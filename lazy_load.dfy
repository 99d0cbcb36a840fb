/**
 * `initLazyLoad` (assets/js/main.js). With native lazy loading every
 * `img[data-src]` has its deferred source moved into `src`; without it the
 * page asks for the lazysizes polyfill instead and the images are left alone.
 */
module LazyLoad {
  import opened Dom

  const LazySizesUrl := "https://cdnjs.cloudflare.com/ajax/libs/lazysizes/5.3.2/lazysizes.min.js"

  /** An image's `src` and `data-src` attributes (None when absent). */
  datatype Image = Image(src: Option<string>, dataSrc: Option<string>)

  /** One image after the native branch. */
  function Loaded(img: Image): (r: Image)
    ensures r.dataSrc.None?
    ensures img.dataSrc.Some? ==> r.src == img.dataSrc
    ensures img.dataSrc.None? ==> r == img
  {
    if img.dataSrc.Some? then Image(img.dataSrc, None) else img
  }

  /** The native branch over the whole list, image by image. */
  function LoadedAll(images: seq<Image>): (r: seq<Image>)
    ensures |r| == |images|
  {
    if images == [] then [] else [Loaded(images[0])] + LoadedAll(images[1..])
  }

  lemma {:induction false} LoadedAllAt(images: seq<Image>, k: nat)
    requires k < |images|
    ensures LoadedAll(images)[k] == Loaded(images[k])
  {
    if k > 0 {
      LoadedAllAt(images[1..], k - 1);
    }
  }

  /** After the native branch no image is left with a `data-src`, so a second pass changes nothing. */
  lemma {:induction false} LoadedAllSettles(images: seq<Image>)
    ensures forall k :: 0 <= k < |images| ==> LoadedAll(images)[k].dataSrc.None?
    ensures LoadedAll(LoadedAll(images)) == LoadedAll(images)
  {
    var once := LoadedAll(images);
    forall k | 0 <= k < |images|
      ensures once[k].dataSrc.None? && LoadedAll(once)[k] == once[k]
    {
      LoadedAllAt(images, k);
      LoadedAllAt(once, k);
    }
  }

  /**
   * `initLazyLoad()`. `nativeLazyLoading` is the feature test on
   * `HTMLImageElement.prototype`; `polyfill` is the script the page then loads.
   */
  method InitLazyLoad(images: array<Image>, nativeLazyLoading: bool) returns (polyfill: Option<string>)
    modifies images
    ensures nativeLazyLoading ==> images[..] == LoadedAll(old(images[..])) && polyfill.None?
    ensures !nativeLazyLoading ==> images[..] == old(images[..]) && polyfill == Some(LazySizesUrl)
  {
    if !nativeLazyLoading {
      return Some(LazySizesUrl);
    }
    ghost var before := images[..];
    for i := 0 to images.Length
      invariant forall k :: 0 <= k < i ==> images[k] == Loaded(before[k])
      invariant forall k :: i <= k < images.Length ==> images[k] == before[k]
    {
      if images[i].dataSrc.Some? {
        images[i] := images[i].(src := images[i].dataSrc);
        images[i] := images[i].(dataSrc := None);
      }
    }
    forall k | 0 <= k < images.Length
      ensures images[..][k] == LoadedAll(before)[k]
    {
      LoadedAllAt(before, k);
    }
    polyfill := None;
  }
}
