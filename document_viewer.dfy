/**
 * components/document-viewer.tsx: the page counter and the zoom level of
 * the document viewer, each changed by guarded one-step handlers.
 */
module DocumentViewer {
  /** The lowest zoom level the zoom-out button steps down to. */
  const MinZoom := 50
  /** The highest zoom level the zoom-in button steps up to. */
  const MaxZoom := 200
  /** The zoom step. */
  const ZoomStep := 25

  /** The zoom after `handleZoomIn`: one step up while below the maximum. */
  function ZoomedIn(zoom: int): (z: int)
    ensures zoom < MaxZoom ==> z == zoom + ZoomStep
    ensures zoom >= MaxZoom ==> z == zoom
  {
    if zoom < MaxZoom then zoom + ZoomStep else zoom
  }

  /** The zoom after `handleZoomOut`: one step down while above the minimum. */
  function ZoomedOut(zoom: int): (z: int)
    ensures zoom > MinZoom ==> z == zoom - ZoomStep
    ensures zoom <= MinZoom ==> z == zoom
  {
    if zoom > MinZoom then zoom - ZoomStep else zoom
  }

  /** The page after `handlePrevPage`. */
  function PrevPage(page: int): (p: int)
    ensures page > 1 ==> p == page - 1
    ensures page <= 1 ==> p == page
  {
    if page > 1 then page - 1 else page
  }

  /** The page after `handleNextPage`. */
  function NextPage(page: int, totalPages: int): (p: int)
    ensures page < totalPages ==> p == page + 1
    ensures page >= totalPages ==> p == page
  {
    if page < totalPages then page + 1 else page
  }

  /** The zoom levels the viewer can show: multiples of 25 from 50 to 200. */
  predicate ZoomLevel(zoom: int) {
    MinZoom <= zoom <= MaxZoom && zoom % ZoomStep == 0
  }

  /** A zoom button is enabled exactly when its handler changes the zoom. */
  lemma ZoomButtonsEnabledIff(zoom: int)
    ensures zoom < MaxZoom <==> ZoomedIn(zoom) != zoom
    ensures zoom > MinZoom <==> ZoomedOut(zoom) != zoom
  {
  }

  /** Zooming in and then out from below the maximum returns to the same zoom. */
  lemma ZoomInThenOutRestores(zoom: int)
    requires ZoomLevel(zoom) && zoom < MaxZoom
    ensures ZoomedOut(ZoomedIn(zoom)) == zoom
  {
  }

  /** One zoom click, `true` for zoom in. */
  function ZoomClick(zoom: int, zoomIn: bool): int {
    if zoomIn then ZoomedIn(zoom) else ZoomedOut(zoom)
  }

  /** The zoom after a sequence of clicks. */
  function ZoomAfter(zoom: int, clicks: seq<bool>): int
    decreases |clicks|
  {
    if clicks == [] then zoom else ZoomAfter(ZoomClick(zoom, clicks[0]), clicks[1..])
  }

  /** Starting from any zoom level, and so from the initial 100, every click sequence stays on a zoom level. */
  lemma {:induction false} ZoomStaysOnLevels(zoom: int, clicks: seq<bool>)
    requires ZoomLevel(zoom)
    ensures ZoomLevel(ZoomAfter(zoom, clicks))
    decreases |clicks|
  {
    if clicks != [] {
      var next := ZoomClick(zoom, clicks[0]);
      assert ZoomLevel(next);
      ZoomStaysOnLevels(next, clicks[1..]);
    }
  }

  /** Every zoom level is reached from 100 by clicking one button repeatedly. */
  lemma {:induction false} EveryLevelReachable(zoom: int)
    requires ZoomLevel(zoom)
    ensures zoom >= 100 ==> ZoomAfter(100, seq((zoom - 100) / ZoomStep, _ => true)) == zoom
    ensures zoom < 100 ==> ZoomAfter(100, seq((100 - zoom) / ZoomStep, _ => false)) == zoom
  {
    if zoom >= 100 {
      ClimbFrom(100, (zoom - 100) / ZoomStep);
    } else {
      assert zoom == 50 || zoom == 75;
      var clicks := seq((100 - zoom) / ZoomStep, _ => false);
      if zoom == 75 {
        assert clicks[1..] == [];
      } else {
        assert clicks == [false, false];
        assert ZoomAfter(100, clicks) == ZoomAfter(75, [false]);
      }
    }
  }

  /** `n` zoom-in clicks climb `n` steps while they stay within the maximum. */
  lemma {:induction false} ClimbFrom(zoom: int, n: nat)
    requires zoom + n * ZoomStep <= MaxZoom
    ensures ZoomAfter(zoom, seq(n, _ => true)) == zoom + n * ZoomStep
    decreases n
  {
    if n > 0 {
      var clicks := seq(n, _ => true);
      assert clicks[0] && clicks[1..] == seq(n - 1, _ => true);
      assert ZoomClick(zoom, true) == zoom + ZoomStep;
      ClimbFrom(zoom + ZoomStep, n - 1);
    }
  }

  /** The viewer's state; nothing in the component ever changes `totalPages`. */
  class Viewer {
    var currentPage: int
    var totalPages: int
    var zoom: int

    /** The page lies within the document and the zoom is one of the levels. */
    predicate Valid()
      reads this
    {
      1 <= currentPage <= totalPages && ZoomLevel(zoom)
    }

    constructor()
      ensures Valid()
      ensures currentPage == 1 && totalPages == 1 && zoom == 100
    {
      currentPage := 1;
      totalPages := 1;
      zoom := 100;
    }

    /** `handlePrevPage`. */
    method HandlePrevPage()
      requires Valid()
      modifies this
      ensures Valid()
      ensures currentPage == PrevPage(old(currentPage))
      ensures totalPages == old(totalPages) && zoom == old(zoom)
    {
      if currentPage > 1 {
        currentPage := currentPage - 1;
      }
    }

    /** `handleNextPage`. */
    method HandleNextPage()
      requires Valid()
      modifies this
      ensures Valid()
      ensures currentPage == NextPage(old(currentPage), old(totalPages))
      ensures totalPages == old(totalPages) && zoom == old(zoom)
    {
      if currentPage < totalPages {
        currentPage := currentPage + 1;
      }
    }

    /** `handleZoomIn`. */
    method HandleZoomIn()
      requires Valid()
      modifies this
      ensures Valid()
      ensures zoom == ZoomedIn(old(zoom))
      ensures currentPage == old(currentPage) && totalPages == old(totalPages)
    {
      if zoom < MaxZoom {
        zoom := zoom + ZoomStep;
      }
    }

    /** `handleZoomOut`. */
    method HandleZoomOut()
      requires Valid()
      modifies this
      ensures Valid()
      ensures zoom == ZoomedOut(old(zoom))
      ensures currentPage == old(currentPage) && totalPages == old(totalPages)
    {
      if zoom > MinZoom {
        zoom := zoom - ZoomStep;
      }
    }
  }
}
