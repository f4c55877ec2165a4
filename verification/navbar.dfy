/** Hiding the navigation bar while the reader scrolls down an article.

    The script remembers one value between scroll events, `lastScrollTop`,
    and toggles the `navbar-hidden` class on the bar. Whether the page is an
    article page (it holds a `.post-content` element) and the scroll
    position are inputs of each event. Positions are whole pixels here. */
module NavbarScroll {

  /** `scrollThreshold`: the bar never hides in the first 100 pixels. */
  const ScrollThreshold := 100

  /** `window.pageYOffset || document.documentElement.scrollTop`: the second
      reading is used only when the first is zero. */
  function ScrollPosition(pageYOffset: int, documentScrollTop: int): int {
    if pageYOffset != 0 then pageYOffset else documentScrollTop
  }

  /** The rule of `handleScroll`: the bar is hidden after an event exactly
      when the page is an article page, the position is past the threshold
      and the reader has moved down since the previous event. */
  predicate Hides(isArticlePage: bool, scrollTop: int, lastScrollTop: int) {
    isArticlePage && scrollTop > ScrollThreshold && scrollTop > lastScrollTop
  }

  /** The bar and the remembered position. */
  class Navbar {
    /** Whether the bar carries the `navbar-hidden` class. */
    var hidden: bool
    var lastScrollTop: int

    constructor (hidden: bool)
      ensures this.hidden == hidden && lastScrollTop == 0
    {
      this.hidden := hidden;
      lastScrollTop := 0;
    }

    /** `handleScroll`. */
    method HandleScroll(pageYOffset: int, documentScrollTop: int, isArticlePage: bool)
      modifies this
      ensures lastScrollTop == ScrollPosition(pageYOffset, documentScrollTop)
      ensures hidden <==> Hides(isArticlePage, lastScrollTop, old(lastScrollTop))
    {
      var scrollTop := ScrollPosition(pageYOffset, documentScrollTop);
      if isArticlePage && scrollTop > ScrollThreshold {
        if scrollTop > lastScrollTop {
          hidden := true;
        } else {
          hidden := false;
        }
      } else {
        hidden := false;
      }
      lastScrollTop := scrollTop;
    }
  }

  /** The bar's state and the remembered position after a series of scroll
      events at the given positions on one page. */
  function Replay(isArticlePage: bool, hidden: bool, lastScrollTop: int, positions: seq<int>): (bool, int)
    decreases |positions|
  {
    if positions == [] then (hidden, lastScrollTop)
    else Replay(isArticlePage, Hides(isArticlePage, positions[0], lastScrollTop), positions[0], positions[1..])
  }

  /** After any non-empty series of events, the remembered position is the
      last one and the bar is hidden exactly when the last move went down
      past the threshold on an article page: the earlier history is
      forgotten. In particular, an event at the same position as the one
      before it always shows the bar. */
  lemma {:induction false} ReplayDependsOnLastMove(isArticlePage: bool, hidden: bool, lastScrollTop: int, positions: seq<int>)
    requires positions != []
    ensures var n := |positions|;
      var previous := if n >= 2 then positions[n - 2] else lastScrollTop;
      && Replay(isArticlePage, hidden, lastScrollTop, positions).1 == positions[n - 1]
      && (Replay(isArticlePage, hidden, lastScrollTop, positions).0
          <==> Hides(isArticlePage, positions[n - 1], previous))
    decreases |positions|
  {
    var rest := positions[1..];
    if rest != [] {
      ReplayDependsOnLastMove(isArticlePage, Hides(isArticlePage, positions[0], lastScrollTop), positions[0], rest);
      if |positions| == 2 {
        assert rest[|rest| - 1] == positions[1];
      } else {
        assert rest[|rest| - 2] == positions[|positions| - 2];
      }
    }
  }

  /** Scrolling up, or not moving, never hides the bar; nor does any
      position within the threshold, nor any page that is not an article. */
  lemma ShownUnlessDescendingArticle(isArticlePage: bool, scrollTop: int, lastScrollTop: int)
    requires !isArticlePage || scrollTop <= ScrollThreshold || scrollTop <= lastScrollTop
    ensures !Hides(isArticlePage, scrollTop, lastScrollTop)
  {
  }
}
