/**
 * Navigation in the ImageLightbox component (src/components/ImageLightbox.tsx):
 * a cyclic index over the images and a zoom flag. The `isOpen` and
 * `initialIndex` props are fields the parent sets; `onClose` is reported to
 * the caller.
 */
module ImageLightbox {
  import opened Wrappers
  import opened Interface

  /** The step `goToNext` applies to the index, for n images. */
  function Next(i: int, n: nat): (r: int)
    ensures 0 <= i < n ==> 0 <= r < n
    ensures i >= n - 1 ==> r == 0
  {
    if i < n - 1 then i + 1 else 0
  }

  /** The step `goToPrevious` applies to the index, for n images. */
  function Previous(i: int, n: nat): (r: int)
    ensures 0 <= i < n ==> 0 <= r < n
    ensures i <= 0 ==> r == n - 1
  {
    if i > 0 then i - 1 else n - 1
  }

  /** Inside the range, a forward step is addition modulo n. */
  lemma NextIsModular(i: int, n: nat)
    requires 0 <= i < n
    ensures Next(i, n) == (i + 1) % n
  {
    if i == n - 1 {
      assert i + 1 == n;
    } else {
      assert (i + 1) % n == i + 1;
    }
  }

  /** Inside the range, a backward step is subtraction modulo n. */
  lemma PreviousIsModular(i: int, n: nat)
    requires 0 <= i < n
    ensures Previous(i, n) == (i - 1 + n) % n
  {
    if i == 0 {
      assert (n - 1) % n == n - 1;
    } else {
      assert (i - 1 + n) % n == i - 1;
    }
  }

  /** Next and previous undo each other inside the range. */
  lemma NextPreviousInverse(i: int, n: nat)
    requires 0 <= i < n
    ensures Previous(Next(i, n), n) == i
    ensures Next(Previous(i, n), n) == i
  {
  }

  /** k successive `goToNext` steps. */
  function NextTimes(i: int, n: nat, k: nat): int {
    if k == 0 then i else Next(NextTimes(i, n, k - 1), n)
  }

  /** Up to n forward steps move k places, wrapping past the last image once. */
  lemma {:induction false} NextTimesWraps(i: int, n: nat, k: nat)
    requires 0 <= i < n && k <= n
    ensures NextTimes(i, n, k) == if i + k < n then i + k else i + k - n
  {
    if k > 0 {
      NextTimesWraps(i, n, k - 1);
    }
  }

  /** n forward steps over n images come back to the start. */
  lemma FullCycle(i: int, n: nat)
    requires 0 <= i < n
    ensures NextTimes(i, n, n) == i
  {
    NextTimesWraps(i, n, n);
  }

  /** However many forward steps are taken, the index stays on an image. */
  lemma {:induction false} NextTimesInRange(i: int, n: nat, k: nat)
    requires 0 <= i < n
    ensures 0 <= NextTimes(i, n, k) < n
  {
    if k > 0 {
      NextTimesInRange(i, n, k - 1);
    }
  }

  class Lightbox {
    var images: seq<MediaItem>
    var isOpen: bool
    var currentIndex: int
    var isZoomed: bool

    /** `useState(initialIndex)` and `useState(false)`. */
    constructor (images: seq<MediaItem>, initialIndex: int, isOpen: bool)
      ensures this.images == images && this.isOpen == isOpen
      ensures currentIndex == initialIndex && !isZoomed
    {
      this.images := images;
      this.isOpen := isOpen;
      currentIndex := initialIndex;
      isZoomed := false;
    }

    /** `goToPrevious`: one step back around the circle, zoom off. */
    method GoToPrevious()
      modifies this
      ensures currentIndex == Previous(old(currentIndex), |images|) && !isZoomed
      ensures images == old(images) && isOpen == old(isOpen)
    {
      currentIndex := if currentIndex > 0 then currentIndex - 1 else |images| - 1;
      isZoomed := false;
    }

    /** `goToNext`: one step forward around the circle, zoom off. */
    method GoToNext()
      modifies this
      ensures currentIndex == Next(old(currentIndex), |images|) && !isZoomed
      ensures images == old(images) && isOpen == old(isOpen)
    {
      currentIndex := if currentIndex < |images| - 1 then currentIndex + 1 else 0;
      isZoomed := false;
    }

    /** A thumbnail click: that image, zoom off. */
    method SelectThumbnail(index: nat)
      requires index < |images|
      modifies this
      ensures currentIndex == index && !isZoomed
      ensures images == old(images) && isOpen == old(isOpen)
    {
      currentIndex := index;
      isZoomed := false;
    }

    /** The zoom button or a click on the image. */
    method ToggleZoom()
      modifies this
      ensures isZoomed == !old(isZoomed)
      ensures currentIndex == old(currentIndex) && images == old(images) && isOpen == old(isOpen)
    {
      isZoomed := !isZoomed;
    }

    /** The effect that follows a new `initialIndex` prop; zoom is left as it was. */
    method SyncInitialIndex(initialIndex: int)
      modifies this
      ensures currentIndex == initialIndex
      ensures isZoomed == old(isZoomed) && images == old(images) && isOpen == old(isOpen)
    {
      currentIndex := initialIndex;
    }

    /**
     * The `keydown` listener, installed only while the viewer is open:
     * Escape asks to close, ArrowLeft and ArrowRight step, anything else is ignored.
     */
    method HandleKeyDown(key: string) returns (closeRequested: bool)
      modifies this
      ensures closeRequested <==> isOpen && key == "Escape"
      ensures isOpen && key == "ArrowLeft" ==>
        currentIndex == Previous(old(currentIndex), |images|) && !isZoomed
      ensures isOpen && key == "ArrowRight" ==>
        currentIndex == Next(old(currentIndex), |images|) && !isZoomed
      ensures !isOpen || (key != "ArrowLeft" && key != "ArrowRight") ==>
        currentIndex == old(currentIndex) && isZoomed == old(isZoomed)
      ensures images == old(images) && isOpen == old(isOpen)
    {
      closeRequested := false;
      if !isOpen {
        return;
      }
      if key == "Escape" {
        closeRequested := true;
      } else if key == "ArrowLeft" {
        GoToPrevious();
      } else if key == "ArrowRight" {
        GoToNext();
      }
    }

    /** `images[currentIndex]` when the viewer renders; None when it renders nothing. */
    function CurrentImage(): (r: Option<MediaItem>)
      reads this
      ensures r.Some? <==> isOpen && 0 <= currentIndex < |images|
      ensures r.Some? ==> r.value == images[currentIndex]
    {
      if isOpen && 0 <= currentIndex < |images| then Some(images[currentIndex]) else None
    }
  }
}
