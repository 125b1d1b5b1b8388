/**
 * The project detail modal: a gallery index moved by arrow keys and arrow
 * buttons with wrap-around, Escape to close, and the "i / n" counter. The
 * modal reads each image through a field the serializer does not send, so
 * the shown picture is modelled as the selected image record itself.
 */
module ProjectModal {
  import opened Wrappers
  import opened CoreModels

  /** The index after "next": one on, wrapping from the last image to the first. */
  function NextIndex(i: int, n: int): (j: int)
    requires 0 <= i < n
    ensures 0 <= j < n
    ensures i == n - 1 ==> j == 0
    ensures i < n - 1 ==> j == i + 1
  {
    (i + 1) % n
  }

  /** The index after "previous": one back, wrapping from the first image to the last. */
  function PrevIndex(i: int, n: int): (j: int)
    requires 0 <= i < n
    ensures 0 <= j < n
    ensures i == 0 ==> j == n - 1
    ensures i > 0 ==> j == i - 1
  {
    (i - 1 + n) % n
  }

  /** "Next" and "previous" undo each other. */
  lemma NextPrevInverse(i: int, n: int)
    requires 0 <= i < n
    ensures PrevIndex(NextIndex(i, n), n) == i
    ensures NextIndex(PrevIndex(i, n), n) == i
  {
  }

  class Modal {
    /** How many gallery images the project has. */
    const imageCount: nat
    var imgIndex: int
    /** False once `onClose` has been called. */
    var open: bool

    ghost predicate Valid()
      reads this
    {
      (imageCount == 0 ==> imgIndex == 0) && (imageCount > 0 ==> 0 <= imgIndex < imageCount)
    }

    constructor (imageCount: nat)
      ensures Valid() && this.imageCount == imageCount && imgIndex == 0 && open
    {
      this.imageCount := imageCount;
      imgIndex := 0;
      open := true;
    }

    /** Arrows are shown and arrow keys are live only with more than one image. */
    predicate HasMultiple()
      reads this
    {
      imageCount > 1
    }

    method Next()
      requires Valid() && HasMultiple()
      modifies this
      ensures Valid() && imgIndex == NextIndex(old(imgIndex), imageCount) && open == old(open)
    {
      imgIndex := (imgIndex + 1) % imageCount;
    }

    method Prev()
      requires Valid() && HasMultiple()
      modifies this
      ensures Valid() && imgIndex == PrevIndex(old(imgIndex), imageCount) && open == old(open)
    {
      imgIndex := (imgIndex - 1 + imageCount) % imageCount;
    }

    /** The keydown handler: Escape closes, the arrows move only when there is more than one image. */
    method KeyDown(key: string)
      requires Valid()
      modifies this
      ensures Valid()
      ensures open == (old(open) && key != "Escape")
      ensures key == "ArrowRight" && HasMultiple() ==> imgIndex == NextIndex(old(imgIndex), imageCount)
      ensures key == "ArrowLeft" && HasMultiple() ==> imgIndex == PrevIndex(old(imgIndex), imageCount)
      ensures !(key in {"ArrowRight", "ArrowLeft"} && HasMultiple()) ==> imgIndex == old(imgIndex)
    {
      if key == "Escape" {
        open := false;
      }
      if key == "ArrowRight" && HasMultiple() {
        Next();
      }
      if key == "ArrowLeft" && HasMultiple() {
        Prev();
      }
    }

    /** The selected gallery image, or None when the project has none. */
    function CurrentImage(images: seq<ProjectImage>): (r: Option<ProjectImage>)
      requires Valid() && |images| == imageCount
      reads this
      ensures r.None? <==> images == []
      ensures r.Some? ==> r.value == images[imgIndex] && r.value in images
    {
      if |images| > 0 then Some(images[imgIndex]) else None
    }

    /** The "i / n" counter, shown only with more than one image. */
    function Counter(): (r: Option<(int, int)>)
      requires Valid()
      reads this
      ensures r.Some? <==> HasMultiple()
      ensures r.Some? ==> r.value.0 == imgIndex + 1 && 1 <= r.value.0 <= r.value.1 == imageCount
    {
      if HasMultiple() then Some((imgIndex + 1, imageCount)) else None
    }
  }
}
