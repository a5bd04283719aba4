/**
  The image gallery's modal viewer: a cursor over `n` images that opens on a
  thumbnail, steps cyclically forwards and backwards, and closes in two
  steps (the dialog closes at once; the cursor is cleared by a timer).
*/
module ImageGallery {
  import opened Wrappers

  /** The cursor after "next": one further on, wrapping from the last image to the first. */
  function NextIndex(i: int, n: int): (r: int)
    requires 0 <= i < n
    ensures 0 <= r < n
    ensures i < n - 1 ==> r == i + 1
    ensures i == n - 1 ==> r == 0
  {
    (i + 1) % n
  }

  /** The cursor after "previous": one back, wrapping from the first image to the last. */
  function PrevIndex(i: int, n: int): (r: int)
    ensures 0 <= i < n ==> 0 <= r < n && NextIndex(r, n) == i
  {
    if i == 0 then n - 1 else i - 1
  }

  /** "Previous" stays on an image and is the step back from the next image. */
  lemma PrevIndexInRange(i: int, n: int)
    requires 0 <= i < n
    ensures 0 <= PrevIndex(i, n) < n
    ensures i > 0 ==> PrevIndex(i, n) == i - 1
    ensures i == 0 ==> PrevIndex(i, n) == n - 1
  {
  }

  /** "Previous" undoes "next". */
  lemma PrevAfterNext(i: int, n: int)
    requires 0 <= i < n
    ensures PrevIndex(NextIndex(i, n), n) == i
  {
  }

  /** "Next" undoes "previous". */
  lemma NextAfterPrev(i: int, n: int)
    requires 0 <= i < n
    ensures NextIndex(PrevIndex(i, n), n) == i
  {
  }

  /** The cursor after `k` presses of "next". */
  function Advance(i: int, k: nat, n: int): (r: int)
    requires 0 <= i < n
    ensures 0 <= r < n
  {
    if k == 0 then i else NextIndex(Advance(i, k - 1, n), n)
  }

  /** Within one round, `k` presses of "next" move `k` places, wrapping once past the end. */
  lemma {:induction false} AdvanceWithinCycle(i: int, k: nat, n: int)
    requires 0 <= i < n && k <= n
    ensures Advance(i, k, n) == if i + k < n then i + k else i + k - n
  {
    if k > 0 {
      AdvanceWithinCycle(i, k - 1, n);
    }
  }

  /** Pressing "next" once per image comes back to the starting image. */
  lemma AdvanceFullCycle(i: int, n: int)
    requires 0 <= i < n
    ensures Advance(i, n, n) == i
  {
    AdvanceWithinCycle(i, n, n);
  }

  /**
    The gallery's state. `count` is the number of images (a prop, fixed);
    `pendingResets` counts the cursor-clearing timers that `closeModal` has
    scheduled and that have not fired yet.
  */
  class Gallery {
    const count: nat
    var selectedImage: Option<int>
    var isModalOpen: bool
    var pendingResets: nat

    /** A selected image is one of the gallery's images. */
    ghost predicate Valid()
      reads this
    {
      selectedImage.Some? ==> 0 <= selectedImage.value < count
    }

    /** While the modal is open it has an image to show. */
    predicate ShowsImageWhenOpen()
      reads this
    {
      isModalOpen ==> selectedImage.Some?
    }

    /** Nothing selected and the modal closed. */
    constructor (count: nat)
      ensures this.count == count
      ensures selectedImage == None && !isModalOpen && pendingResets == 0
      ensures Valid()
    {
      this.count := count;
      selectedImage := None;
      isModalOpen := false;
      pendingResets := 0;
    }

    /** `openModal(index)`, reached by clicking thumbnail `index`. */
    method OpenModal(index: int)
      requires 0 <= index < count
      modifies this
      ensures selectedImage == Some(index) && isModalOpen
      ensures pendingResets == old(pendingResets)
      ensures Valid()
      ensures old(ShowsImageWhenOpen()) ==> ShowsImageWhenOpen()
    {
      selectedImage := Some(index);
      isModalOpen := true;
    }

    /** `closeModal`: the dialog closes now; clearing the cursor is only scheduled. */
    method CloseModal()
      requires Valid()
      modifies this
      ensures !isModalOpen
      ensures selectedImage == old(selectedImage)
      ensures pendingResets == old(pendingResets) + 1
      ensures Valid()
      ensures old(ShowsImageWhenOpen()) ==> ShowsImageWhenOpen()
    {
      isModalOpen := false;
      pendingResets := pendingResets + 1;
    }

    /** One scheduled timer fires and clears the cursor, whether or not the modal has been reopened. */
    method ResetTimerFires()
      requires pendingResets > 0
      modifies this
      ensures selectedImage == None
      ensures isModalOpen == old(isModalOpen)
      ensures pendingResets == old(pendingResets) - 1
      ensures Valid()
    {
      selectedImage := None;
      pendingResets := pendingResets - 1;
    }

    /**
      The timer's reset as the comment beside it intends it: it clears the
      cursor only when the modal is still closed, so a modal reopened before
      the timer fires keeps its image.
    */
    method ResetTimerFiresGuarded()
      requires pendingResets > 0
      modifies this
      ensures !old(isModalOpen) ==> selectedImage == None
      ensures old(isModalOpen) ==> selectedImage == old(selectedImage)
      ensures isModalOpen == old(isModalOpen)
      ensures pendingResets == old(pendingResets) - 1
      ensures old(ShowsImageWhenOpen()) ==> ShowsImageWhenOpen()
      ensures old(Valid()) ==> Valid()
    {
      if !isModalOpen {
        selectedImage := None;
      }
      pendingResets := pendingResets - 1;
    }

    /** The dialog's own open-state callback, bound directly to the `isModalOpen` setter. */
    method SetModalOpen(open: bool)
      requires Valid()
      modifies this
      ensures isModalOpen == open
      ensures selectedImage == old(selectedImage) && pendingResets == old(pendingResets)
      ensures Valid()
    {
      isModalOpen := open;
    }

    /** `nextImage`: moves a selected cursor one image on, cyclically; does nothing with no selection. */
    method NextImage()
      requires Valid()
      modifies this
      ensures old(selectedImage).None? ==> selectedImage.None?
      ensures old(selectedImage).Some? ==> selectedImage == Some(NextIndex(old(selectedImage).value, count))
      ensures isModalOpen == old(isModalOpen) && pendingResets == old(pendingResets)
      ensures Valid()
      ensures old(ShowsImageWhenOpen()) ==> ShowsImageWhenOpen()
    {
      if selectedImage.Some? {
        selectedImage := Some((selectedImage.value + 1) % count);
      }
    }

    /** `prevImage`: moves a selected cursor one image back, cyclically; does nothing with no selection. */
    method PrevImage()
      requires Valid()
      modifies this
      ensures old(selectedImage).None? ==> selectedImage.None?
      ensures old(selectedImage).Some? ==> selectedImage == Some(PrevIndex(old(selectedImage).value, count))
      ensures isModalOpen == old(isModalOpen) && pendingResets == old(pendingResets)
      ensures Valid()
      ensures old(ShowsImageWhenOpen()) ==> ShowsImageWhenOpen()
    {
      if selectedImage.Some? {
        var i := selectedImage.value;
        selectedImage := Some(if i == 0 then count - 1 else i - 1);
      }
    }

    /**
      The window key handler: ignored while the modal is closed; Escape
      closes it; the arrow keys move the cursor only when there is more than
      one image.
    */
    method HandleKeyDown(key: string)
      requires Valid()
      modifies this
      ensures !old(isModalOpen) ==>
        selectedImage == old(selectedImage) && isModalOpen == old(isModalOpen) && pendingResets == old(pendingResets)
      ensures old(isModalOpen) && key == "Escape" ==>
        !isModalOpen && selectedImage == old(selectedImage) && pendingResets == old(pendingResets) + 1
      ensures old(isModalOpen) && key == "ArrowLeft" && count > 1 && old(selectedImage).Some? ==>
        selectedImage == Some(PrevIndex(old(selectedImage).value, count))
      ensures old(isModalOpen) && key == "ArrowRight" && count > 1 && old(selectedImage).Some? ==>
        selectedImage == Some(NextIndex(old(selectedImage).value, count))
      ensures old(isModalOpen) && key != "Escape" ==> isModalOpen && pendingResets == old(pendingResets)
      ensures old(selectedImage).None? ==> selectedImage.None?
      ensures old(isModalOpen) && key != "Escape" && (count <= 1 || (key != "ArrowLeft" && key != "ArrowRight")) ==>
        selectedImage == old(selectedImage) && isModalOpen && pendingResets == old(pendingResets)
      ensures Valid()
      ensures old(ShowsImageWhenOpen()) ==> ShowsImageWhenOpen()
    {
      if !isModalOpen {
        return;
      }
      if key == "Escape" {
        CloseModal();
      }
      if key == "ArrowLeft" && count > 1 {
        PrevImage();
      }
      if key == "ArrowRight" && count > 1 {
        NextImage();
      }
    }
  }

  /**
    Closing and reopening the modal before the first close's timer fires
    leaves the reopened modal with no image selected: the timer clears the
    cursor regardless of the modal's state.
  */
  method ReopenBeforeResetClearsSelection() returns (g: Gallery)
    ensures g.isModalOpen && g.selectedImage.None? && !g.ShowsImageWhenOpen()
  {
    g := new Gallery(2);
    g.OpenModal(0);
    g.CloseModal();
    g.OpenModal(1);
    g.ResetTimerFires();
  }

  /** The same sequence with the guarded reset: the reopened modal keeps the image it was opened on. */
  method ReopenBeforeResetKeepsSelection() returns (g: Gallery)
    ensures g.isModalOpen && g.selectedImage == Some(1) && g.ShowsImageWhenOpen()
  {
    g := new Gallery(2);
    g.OpenModal(0);
    g.CloseModal();
    g.OpenModal(1);
    g.ResetTimerFiresGuarded();
  }
}
