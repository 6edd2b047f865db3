/**
 * Model of the ruler navigation widget (scripts/navigation/ruler-navigation.js):
 * a drag session over a horizontal ruler that, on release, moves at most one
 * page, snaps to the page's fixed offset and tells the page-change listener.
 */
module Ruler {

  /** Minimum horizontal drag, in pixels, that commits a page change. */
  const DragThreshold: int := 150

  /** The snap offset of each page: Home, About, Contact. */
  const PageSnapPoints: seq<int> := [250, -300, -850]

  /** The last page index, `Object.keys(pageSnapPoints).length - 1`. */
  const MaxPage: int := |PageSnapPoints| - 1

  predicate ValidPage(page: int) {
    0 <= page < |PageSnapPoints|
  }

  /**
   * The page chosen when a drag ends with offset `delta`: one page forward for a
   * drag left beyond the threshold, one back for a drag right beyond it, clamped
   * at both ends; the threshold itself does not move.
   */
  function ReleasePage(page: int, delta: int): (p: int)
    requires ValidPage(page)
    ensures ValidPage(p)
    ensures p == page + 1 <==> delta < -DragThreshold && page < MaxPage
    ensures p == page - 1 <==> delta > DragThreshold && page > 0
    ensures p == page <==> !(delta < -DragThreshold && page < MaxPage) && !(delta > DragThreshold && page > 0)
  {
    if delta < -DragThreshold && page < MaxPage then page + 1
    else if delta > DragThreshold && page > 0 then page - 1
    else page
  }

  /** A drag no longer than the threshold, in either direction, never changes the page. */
  lemma ShortDragKeepsPage(page: int, delta: int)
    requires ValidPage(page)
    requires -DragThreshold <= delta <= DragThreshold
    ensures ReleasePage(page, delta) == page
  {
  }

  /** Dragging further left never yields an earlier page. */
  lemma ReleaseMonotone(page: int, d1: int, d2: int)
    requires ValidPage(page)
    requires d1 <= d2
    ensures ReleasePage(page, d1) >= ReleasePage(page, d2)
  {
  }

  /**
   * The page after `n` one-page steps forward (`navigateNext`) from `page`,
   * each clamped at the last page.
   */
  function NextTimes(page: int, n: nat): (p: int)
    requires ValidPage(page)
    ensures ValidPage(p)
    ensures page <= p
  {
    if n == 0 then page
    else
      var q := NextTimes(page, n - 1);
      if q < MaxPage then q + 1 else q
  }

  /** Enough forward steps always end on the last page, and never overshoot it. */
  lemma {:induction false} NextTimesReachesLast(page: int, n: nat)
    requires ValidPage(page)
    ensures NextTimes(page, n) == if page + n <= MaxPage then page + n else MaxPage
  {
    if n > 0 {
      NextTimesReachesLast(page, n - 1);
    }
  }

  /**
   * The widget. Pixel values are integers; the per-frame interpolated offset
   * `currentDeltaX` is not part of this model. The page-change listener is
   * recorded as the log `notified` of the indices it was called with, and only
   * while `hasListener` holds (the `onPageChange` slot is set).
   */
  class RulerNavigation {
    var isDragging: bool
    var startX: int
    var targetDeltaX: int
    var snapTargetX: int
    var currentPage: int
    var animating: bool
    var hasListener: bool
    var notified: seq<int>
    /** Whether the label of each page (home, about, contact) carries the `active` class. */
    const labels: array<bool>

    /** The page is a valid index and the snap target is that page's snap point. */
    ghost predicate Valid()
      reads this
    {
      ValidPage(currentPage) && snapTargetX == PageSnapPoints[currentPage] && labels.Length == |PageSnapPoints|
    }

    /** Exactly one label is active: the one of `page`. */
    ghost predicate LabelsShow(page: int)
      reads this, labels
    {
      forall k :: 0 <= k < labels.Length ==> labels[k] == (k == page)
    }

    /**
     * The labels' initial activity comes from the page's markup, which is not
     * part of this model; it is taken here to be none active until `Init`.
     */
    constructor ()
      ensures Valid() && fresh(labels)
      ensures !isDragging && startX == 0 && targetDeltaX == 0
      ensures currentPage == 0 && snapTargetX == 250
      ensures !animating && !hasListener && notified == []
    {
      isDragging := false;
      startX := 0;
      targetDeltaX := 0;
      snapTargetX := 250;
      currentPage := 0;
      animating := false;
      hasListener := false;
      notified := [];
      labels := new bool[3](_ => false);
    }

    /** `init`: starts the frame loop (each of whose frames is `Frame`) and renders the labels. */
    method Init()
      requires Valid()
      modifies this, labels
      ensures Valid() && animating && LabelsShow(currentPage)
      ensures currentPage == old(currentPage) && isDragging == old(isDragging)
      ensures startX == old(startX) && targetDeltaX == old(targetDeltaX)
      ensures hasListener == old(hasListener) && notified == old(notified)
    {
      animating := true;
      UpdateLabels();
    }

    method HandleDragStart(clientX: int)
      requires Valid()
      modifies this
      ensures Valid()
      ensures isDragging && startX == clientX && targetDeltaX == 0
      ensures currentPage == old(currentPage) && snapTargetX == old(snapTargetX)
      ensures animating == old(animating) && hasListener == old(hasListener) && notified == old(notified)
    {
      isDragging := true;
      startX := clientX;
      targetDeltaX := 0;
    }

    method HandleDragMove(clientX: int)
      requires Valid()
      modifies this
      ensures Valid()
      ensures targetDeltaX == if old(isDragging) then clientX - startX else old(targetDeltaX)
      ensures isDragging == old(isDragging) && startX == old(startX)
      ensures currentPage == old(currentPage) && snapTargetX == old(snapTargetX)
      ensures animating == old(animating) && hasListener == old(hasListener) && notified == old(notified)
    {
      if !isDragging {
        return;
      }
      targetDeltaX := clientX - startX;
    }

    /**
     * Ends the drag session: the page becomes `ReleasePage` of the old page and
     * the drag offset, the snap target follows it, and the listener is told the
     * page once, whether or not it changed. Outside a session nothing happens.
     */
    method HandleDragEnd()
      requires Valid()
      modifies this
      ensures Valid() && !isDragging
      ensures startX == old(startX) && targetDeltaX == old(targetDeltaX)
      ensures animating == old(animating) && hasListener == old(hasListener)
      ensures !old(isDragging) ==> currentPage == old(currentPage) && notified == old(notified)
      ensures old(isDragging) ==>
        && currentPage == ReleasePage(old(currentPage), targetDeltaX)
        && notified == old(notified) + (if hasListener then [currentPage] else [])
    {
      if !isDragging {
        return;
      }
      isDragging := false;
      if targetDeltaX < -DragThreshold && currentPage < MaxPage {
        currentPage := currentPage + 1;
      } else if targetDeltaX > DragThreshold && currentPage > 0 {
        currentPage := currentPage - 1;
      }
      snapTargetX := PageSnapPoints[currentPage];
      NotifyPageChange();
    }

    /** One page forward, notifying once; a no-op on the last page. */
    method NavigateNext()
      requires Valid()
      modifies this
      ensures Valid()
      ensures currentPage == NextTimes(old(currentPage), 1)
      ensures notified == old(notified) + (if currentPage != old(currentPage) && hasListener then [currentPage] else [])
      ensures isDragging == old(isDragging) && startX == old(startX) && targetDeltaX == old(targetDeltaX)
      ensures animating == old(animating) && hasListener == old(hasListener)
    {
      if currentPage < MaxPage {
        currentPage := currentPage + 1;
        snapTargetX := PageSnapPoints[currentPage];
        NotifyPageChange();
      }
    }

    /** One page back, notifying once; a no-op on the first page. */
    method NavigatePrev()
      requires Valid()
      modifies this
      ensures Valid()
      ensures currentPage == if old(currentPage) > 0 then old(currentPage) - 1 else old(currentPage)
      ensures notified == old(notified) + (if currentPage != old(currentPage) && hasListener then [currentPage] else [])
      ensures isDragging == old(isDragging) && startX == old(startX) && targetDeltaX == old(targetDeltaX)
      ensures animating == old(animating) && hasListener == old(hasListener)
    {
      if currentPage > 0 {
        currentPage := currentPage - 1;
        snapTargetX := PageSnapPoints[currentPage];
        NotifyPageChange();
      }
    }

    /** Clears every label's `active` mark, then marks the current page's label. */
    method UpdateLabels()
      requires Valid()
      modifies labels
      ensures LabelsShow(currentPage)
    {
      var i := 0;
      while i < labels.Length
        invariant 0 <= i <= labels.Length
        invariant forall k :: 0 <= k < i ==> !labels[k]
      {
        labels[i] := false;
        i := i + 1;
      }
      labels[currentPage] := true;
    }

    /**
     * One frame of the animation loop, as far as the model goes: while the
     * loop runs, the frame re-renders the labels, so the active label catches
     * up with a page changed by a release or by next and previous. Once the
     * loop is stopped no frame runs and the labels stay as they are.
     */
    method Frame()
      requires Valid()
      modifies labels
      ensures animating ==> LabelsShow(currentPage)
      ensures !animating ==> labels[..] == old(labels[..])
    {
      if animating {
        UpdateLabels();
      }
    }

    /**
     * Resynchronises the page from outside, without notifying; an index
     * outside the snap table is ignored.
     */
    method UpdateCurrentPage(pageIndex: int)
      requires Valid()
      modifies this, labels
      ensures Valid()
      ensures ValidPage(pageIndex) ==> currentPage == pageIndex && LabelsShow(pageIndex)
      ensures !ValidPage(pageIndex) ==> currentPage == old(currentPage) && labels[..] == old(labels[..])
      ensures notified == old(notified) && hasListener == old(hasListener) && animating == old(animating)
      ensures isDragging == old(isDragging) && startX == old(startX) && targetDeltaX == old(targetDeltaX)
    {
      if 0 <= pageIndex < |PageSnapPoints| {
        currentPage := pageIndex;
        snapTargetX := PageSnapPoints[currentPage];
        UpdateLabels();
      }
    }

    /** Calls the listener, if one is set, with the current page. */
    method NotifyPageChange()
      modifies this
      ensures notified == old(notified) + (if hasListener then [currentPage] else [])
      ensures isDragging == old(isDragging) && startX == old(startX) && targetDeltaX == old(targetDeltaX)
      ensures snapTargetX == old(snapTargetX) && currentPage == old(currentPage)
      ensures animating == old(animating) && hasListener == old(hasListener)
    {
      if hasListener {
        notified := notified + [currentPage];
      }
    }

    /** Cancels the frame loop; calling it again changes nothing. */
    method Destroy()
      modifies this
      ensures !animating
      ensures isDragging == old(isDragging) && startX == old(startX) && targetDeltaX == old(targetDeltaX)
      ensures snapTargetX == old(snapTargetX) && currentPage == old(currentPage)
      ensures hasListener == old(hasListener) && notified == old(notified)
    {
      if animating {
        animating := false;
      }
    }
  }

  /** Two `navigateNext` calls from a new widget reach Contact and report 1 then 2. */
  method NavigateTwiceScenario()
  {
    var nav := new RulerNavigation();
    nav.hasListener := true;
    nav.NavigateNext();
    nav.NavigateNext();
    assert nav.currentPage == 2 && nav.snapTargetX == -850;
    assert nav.notified == [1, 2];
    nav.NavigateNext();
    assert nav.notified == [1, 2];
  }

  /**
   * After a next-page step the labels still show the old page; the following
   * frame of the running loop moves the active label to the new one.
   */
  method FrameScenario()
  {
    var nav := new RulerNavigation();
    nav.Init();
    nav.NavigateNext();
    assert nav.currentPage == 1 && nav.animating;
    nav.Frame();
    assert nav.LabelsShow(1);
    assert nav.labels[1] && !nav.labels[0];
  }

  /** A drag from x = 500 to x = 300 advances one page and notifies once. */
  method DragScenario()
  {
    var nav := new RulerNavigation();
    nav.hasListener := true;
    nav.HandleDragStart(500);
    nav.HandleDragMove(300);
    nav.HandleDragEnd();
    assert nav.currentPage == 1 && nav.notified == [1];
    nav.HandleDragEnd();
    assert nav.notified == [1];
  }
}
