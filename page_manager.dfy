/**
 * Model of the page manager (scripts/navigation/page-manager.js) on the path
 * where no animation library is loaded: navigating shows the chosen page's
 * section and title at once, sets its background and blur mask, and tells the
 * page-change listener.
 */
module Pages {
  import opened Wrappers

  const Home: int := 0
  const About: int := 1
  const ContactPage: int := 2

  /** The number of pages with a section, a title and a background: home, about, contact. */
  const PageCount: int := 3

  /** The background image of each page, by index. */
  const Backgrounds: seq<string> := [
    "url('https://images.pexels.com/photos/1103970/pexels-photo-1103970.jpeg?auto=compress&cs=tinysrgb&w=1920&h=1080&fit=crop')",
    "linear-gradient(135deg, #0f1419 0%, #1a2332 50%, #0d1117 100%)",
    "linear-gradient(135deg, #0f1c2c 0%, #1e3a5f 50%, #0a141d 100%)"
  ]

  /** The blur layer's mask: none, or the radial spotlight that follows the cursor. */
  datatype Mask = NoMask | Spotlight

  /** Whether navigating from `current` to `target` does anything: the About page always re-runs. */
  function Navigates(current: int, target: int): (go: bool)
    ensures target == About ==> go
    ensures target != current ==> go
    ensures !go <==> target == current && target != About
  {
    !(target == current && target != About)
  }

  /** The mask for a page: no mask on the About page only. */
  function MaskFor(page: int): (m: Mask)
    ensures m == NoMask <==> page == About
  {
    if page == About then NoMask else Spotlight
  }

  /**
   * The background after `updateBackground` on `page`: the page's entry of the
   * table, or the previous background for an index outside it.
   */
  function BackgroundFor(page: int, previous: Option<string>): (b: Option<string>)
    ensures 0 <= page < PageCount ==> b == Some(Backgrounds[page])
    ensures !(0 <= page < PageCount) ==> b == previous
    ensures b != previous ==> b.Some? && b.value in Backgrounds
  {
    if 0 <= page < |Backgrounds| then Some(Backgrounds[page]) else previous
  }

  /** Different pages have different backgrounds, so the background identifies the page. */
  lemma BackgroundsDistinct(p: int, q: int)
    requires 0 <= p < PageCount && 0 <= q < PageCount && p != q
    ensures BackgroundFor(p, None) != BackgroundFor(q, None)
  {
    assert |Backgrounds[0]| != |Backgrounds[1]| && |Backgrounds[0]| != |Backgrounds[2]|;
    assert Backgrounds[1][28] != Backgrounds[2][28];
  }

  /** The background written for a page in the table tells which page it was. */
  lemma BackgroundIdentifiesPage(p: int, q: int, x: Option<string>, y: Option<string>)
    requires 0 <= p < PageCount && 0 <= q < PageCount
    ensures BackgroundFor(p, x) == BackgroundFor(q, y) <==> p == q
  {
    if p != q {
      BackgroundsDistinct(p, q);
    }
  }

  /**
   * The manager. `sections[k]` and `titles[k]` say whether page k's section and
   * title are displayed; `typingShown` whether the typing line is; `background`
   * and `mask` what was last written to the background and blur layers (`None`
   * before any write). The listener is recorded as the log `notified`, active
   * while `hasListener` holds (the `onPageChanged` slot is set).
   */
  class PageManager {
    var currentPage: int
    var isAboutDetailedView: bool
    var hasListener: bool
    var notified: seq<int>
    var typingShown: bool
    var background: Option<string>
    var mask: Option<Mask>
    const sections: array<bool>
    const titles: array<bool>

    ghost predicate Valid()
      reads this
    {
      sections.Length == PageCount && titles.Length == PageCount && sections != titles
    }

    /** Exactly the section and title of `page` are displayed; none when `page` has none. */
    ghost predicate Shows(page: int)
      reads this, sections, titles
    {
      && (forall k :: 0 <= k < sections.Length ==> sections[k] == (k == page))
      && (forall k :: 0 <= k < titles.Length ==> titles[k] == (k == page))
    }

    /**
     * The constructor only looks elements up. What they display at first is
     * set by the page's markup, which is not part of this model; it is taken
     * here to be nothing, with no background or mask written yet.
     */
    constructor ()
      ensures Valid() && fresh(sections) && fresh(titles)
      ensures currentPage == Home && !isAboutDetailedView && !hasListener && notified == []
      ensures !typingShown && background == None && mask == None
    {
      currentPage := 0;
      isAboutDetailedView := false;
      hasListener := false;
      notified := [];
      typingShown := false;
      background := None;
      mask := None;
      sections := new bool[3](_ => false);
      titles := new bool[3](_ => false);
    }

    /** `init` navigates to the home page, which a new manager is already on. */
    method Init()
      requires Valid()
      modifies this, sections, titles
      ensures Valid() && hasListener == old(hasListener)
      ensures old(currentPage) == Home ==>
        && currentPage == old(currentPage) && isAboutDetailedView == old(isAboutDetailedView)
        && notified == old(notified) && typingShown == old(typingShown)
        && background == old(background) && mask == old(mask)
        && sections[..] == old(sections[..]) && titles[..] == old(titles[..])
      ensures old(currentPage) != Home ==>
        && currentPage == Home && Shows(Home) && typingShown
        && isAboutDetailedView == old(isAboutDetailedView)
        && notified == old(notified) + (if hasListener then [Home] else [])
        && background == Some(Backgrounds[Home]) && mask == Some(Spotlight)
    {
      NavigateToPage(Home, true);
    }

    /**
     * `navigateToPage`: returns at once when `pageIndex` is already current,
     * except for the About page; otherwise stores the index unchecked, shows the
     * page and notifies the listener once. `isRulerNav` only matters for the
     * scroll reset the animation library performs, which is not on this path.
     */
    method NavigateToPage(pageIndex: int, isRulerNav: bool)
      requires Valid()
      modifies this, sections, titles
      ensures Valid() && hasListener == old(hasListener)
      ensures !Navigates(old(currentPage), pageIndex) ==>
        && currentPage == old(currentPage) && isAboutDetailedView == old(isAboutDetailedView)
        && notified == old(notified) && typingShown == old(typingShown)
        && background == old(background) && mask == old(mask)
        && sections[..] == old(sections[..]) && titles[..] == old(titles[..])
      ensures Navigates(old(currentPage), pageIndex) ==>
        && currentPage == pageIndex && Shows(pageIndex)
        && notified == old(notified) + (if hasListener then [pageIndex] else [])
        && typingShown == (pageIndex == Home)
        && isAboutDetailedView == (old(isAboutDetailedView) && pageIndex != About)
        && background == BackgroundFor(pageIndex, old(background))
        && mask == (if 0 <= pageIndex < PageCount then Some(MaskFor(pageIndex)) else old(mask))
    {
      if pageIndex == currentPage && pageIndex != About {
        return;
      }
      currentPage := pageIndex;
      UpdatePageContent();
      NotifyPageChanged();
    }

    /** With no animation library, updating the content is showing the current page at once. */
    method UpdatePageContent()
      requires Valid()
      modifies this, sections, titles
      ensures Valid() && Shows(currentPage)
      ensures currentPage == old(currentPage) && notified == old(notified) && hasListener == old(hasListener)
      ensures typingShown == (currentPage == Home)
      ensures isAboutDetailedView == (old(isAboutDetailedView) && currentPage != About)
      ensures background == BackgroundFor(currentPage, old(background))
      ensures mask == (if 0 <= currentPage < PageCount then Some(MaskFor(currentPage)) else old(mask))
    {
      ShowCurrentPage();
    }

    /**
     * Hides every section, title and the typing line, then shows the current
     * page's section and title with its content, background and mask; an index
     * with no section shows nothing and leaves background and mask alone.
     */
    method ShowCurrentPage()
      requires Valid()
      modifies this, sections, titles
      ensures Valid() && Shows(currentPage)
      ensures currentPage == old(currentPage) && notified == old(notified) && hasListener == old(hasListener)
      ensures typingShown == (currentPage == Home)
      ensures isAboutDetailedView == (old(isAboutDetailedView) && currentPage != About)
      ensures background == BackgroundFor(currentPage, old(background))
      ensures mask == (if 0 <= currentPage < PageCount then Some(MaskFor(currentPage)) else old(mask))
    {
      HideAll(sections);
      HideAll(titles);
      typingShown := false;
      if 0 <= currentPage < PageCount {
        sections[currentPage] := true;
        titles[currentPage] := true;
        SetPageSpecificContent(currentPage);
        UpdateBackground();
        UpdateBlurLayer();
      }
    }

    /** Clears the display flag of every element of `a`. */
    static method HideAll(a: array<bool>)
      modifies a
      ensures forall k :: 0 <= k < a.Length ==> !a[k]
    {
      var i := 0;
      while i < a.Length
        invariant 0 <= i <= a.Length
        invariant forall k :: 0 <= k < i ==> !a[k]
      {
        a[i] := false;
        i := i + 1;
      }
    }

    /** The state part of `setPageSpecificContent`: home shows the typing line, about leaves the detailed view. */
    method SetPageSpecificContent(page: int)
      modifies this
      ensures typingShown == (old(typingShown) || page == Home)
      ensures isAboutDetailedView == (old(isAboutDetailedView) && page != About)
      ensures currentPage == old(currentPage) && notified == old(notified) && hasListener == old(hasListener)
      ensures background == old(background) && mask == old(mask)
    {
      if page == Home {
        typingShown := true;
      } else if page == About {
        isAboutDetailedView := false;
      }
    }

    method UpdateBackground()
      modifies this
      ensures background == BackgroundFor(currentPage, old(background))
      ensures currentPage == old(currentPage) && notified == old(notified) && hasListener == old(hasListener)
      ensures typingShown == old(typingShown) && isAboutDetailedView == old(isAboutDetailedView) && mask == old(mask)
    {
      if 0 <= currentPage < |Backgrounds| {
        background := Some(Backgrounds[currentPage]);
      }
    }

    method UpdateBlurLayer()
      modifies this
      ensures mask == Some(MaskFor(currentPage))
      ensures currentPage == old(currentPage) && notified == old(notified) && hasListener == old(hasListener)
      ensures typingShown == old(typingShown) && isAboutDetailedView == old(isAboutDetailedView) && background == old(background)
    {
      if currentPage == About {
        mask := Some(NoMask);
      } else {
        mask := Some(Spotlight);
      }
    }

    /**
     * `scrollToAboutDetail`: only on the About page is a scroll to the detail
     * requested; the scroll and its effects belong to the animation library,
     * so on this path the state is unchanged either way.
     */
    method ScrollToAboutDetail() returns (requested: bool)
      ensures requested <==> currentPage == About
    {
      if currentPage != About {
        return false;
      }
      requested := true;
    }

    method NotifyPageChanged()
      modifies this
      ensures notified == old(notified) + (if hasListener then [currentPage] else [])
      ensures currentPage == old(currentPage) && hasListener == old(hasListener)
      ensures typingShown == old(typingShown) && isAboutDetailedView == old(isAboutDetailedView)
      ensures background == old(background) && mask == old(mask)
    {
      if hasListener {
        notified := notified + [currentPage];
      }
    }
  }

  /** `init` on a new manager shows nothing and notifies no one; About re-runs when current. */
  method InitScenario()
  {
    var pm := new PageManager();
    pm.hasListener := true;
    pm.Init();
    assert pm.notified == [] && pm.background == None;
    pm.NavigateToPage(About, true);
    pm.NavigateToPage(About, true);
    assert pm.notified == [About, About];
    assert pm.mask == Some(NoMask);
    pm.NavigateToPage(5, true);
    assert pm.currentPage == 5 && pm.Shows(5) && pm.mask == Some(NoMask);
  }
}
