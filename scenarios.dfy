/** Whole sessions with the gallery, run through GallerySpec.Run. */
module GalleryScenarios {
  import opened Wrappers
  import opened GallerySpec

  /** "fox" has 24 hits in pages of 12: the first page replaces, the second
      appends, and a third click finds the end of the results and fetches nothing. */
  lemma {:induction false} FoxPagination(first: seq<Image>, second: seq<Image>, third: Outcome)
    requires |first| == 12 && |second| == 12
    ensures var g := Run(Initial(""), [QueryChange("fox", Ok(first, 24))]);
      g.data == first && g.totalHits == Some(24) && g.page == 1 && !g.loading
    ensures var g := Run(Initial(""), [QueryChange("fox", Ok(first, 24)), LoadMore(Ok(second, 24))]);
      g.data == first + second && |g.data| == 24 && g.page == 2
    ensures var g := Run(Initial(""), [QueryChange("fox", Ok(first, 24)), LoadMore(Ok(second, 24)), LoadMore(third)]);
      && g.data == first + second
      && g.requests == [Request("fox", 1), Request("fox", 2)]
      && g.notices == [Notice(Info, EndOfResultsMessage)]
  {
    var e1, e2, e3 := QueryChange("fox", Ok(first, 24)), LoadMore(Ok(second, 24)), LoadMore(third);
    var g0 := Initial("");
    var g1 := Step(g0, e1);
    var g2 := Step(g1, e2);
    var g3 := Step(g2, e3);
    assert Run(g1, []) == g1 && Run(g2, []) == g2 && Run(g3, []) == g3;
    assert [e1][1..] == [] && [e1, e2][1..] == [e2] && [e1, e2, e3][1..] == [e2, e3];
    assert Run(g2, [e3]) == g3 && Run(g1, [e2]) == g2;
    assert Run(g1, [e2, e3]) == Run(g2, [e3]) by { assert [e2, e3][1..] == [e3]; }
    assert EndOfResults(g2);
  }

  /** A query with no hits raises one error toast and leaves a fresh gallery
      empty with no total; before any load the load-more click only says
      that the results are exhausted. */
  lemma ZeroHitsOnFreshGallery(query: string, outcome: Outcome)
    requires query != "cats"
    ensures var g := ComponentDidUpdate(Initial("cats"), query, Ok([], 0));
      && g.data == [] && g.totalHits == None
      && g.notices == [Notice(Error, InvalidQueryMessage)]
      && g.requests == [Request(query, 1)]
    ensures var g := LoadMoreImages(Initial("cats"), outcome);
      g.requests == [] && g.notices == [Notice(Info, EndOfResultsMessage)]
  {
  }

  /** A new query with zero hits keeps the previous query's images, page and
      total on show; the next load-more click then asks the new query for the
      page after the old one. */
  lemma {:induction false} ZeroHitsKeepPreviousResults(cats: seq<Image>, later: Outcome)
    requires 0 < |cats| < 100
    ensures var g := Run(Initial(""), [QueryChange("cats", Ok(cats, 100)), QueryChange("xyzzy", Ok([], 0))]);
      && g.query == "xyzzy" && g.data == cats && g.page == 1 && g.totalHits == Some(100)
      && LoadMoreOffered(g)
      && LoadMoreImages(g, later).requests == [Request("cats", 1), Request("xyzzy", 1), Request("xyzzy", 2)]
  {
    var events := [QueryChange("cats", Ok(cats, 100)), QueryChange("xyzzy", Ok([], 0))];
    var g1 := Step(Initial(""), events[0]);
    var g2 := Step(g1, events[1]);
    assert events[1..] == [events[1]];
    assert Run(g2, []) == g2 && Run(g1, [events[1]]) == g2;
  }

  /** A failed fetch for a new query has the same stale effect as a zero-hit
      answer: the old query's images stay, and the next load-more click appends
      the new query's page after the old one to them. */
  lemma FailedFetchKeepsPreviousResults(cats: seq<Image>, owl: seq<Image>)
    requires 0 < |cats| < 50
    ensures var g := ComponentDidUpdate(ComponentDidUpdate(Initial(""), "cats", Ok(cats, 50)), "owl", Err);
      && g.query == "owl" && g.data == cats && g.page == 1 && g.totalHits == Some(50)
      && g.notices == [Notice(Error, FetchFailedMessage)]
    ensures var g := LoadMoreImages(ComponentDidUpdate(ComponentDidUpdate(Initial(""), "cats", Ok(cats, 50)), "owl", Err), Ok(owl, 50));
      && g.data == cats + owl && g.page == 2
      && g.requests == [Request("cats", 1), Request("owl", 1), Request("owl", 2)]
  {
  }

  /** After a new query whose fetch failed or found nothing, the gallery still
      holds the old query's images, page and total. The next load-more click
      then either finds the old results exhausted and fetches nothing, or asks
      the new query for the page after the old one and, on hits, appends them
      to the old images. */
  lemma StaleLoadMoreAfterKeptQuery(g: GalleryState, next: string, kept: Outcome, more: Outcome)
    requires g.query != next && KeepsContents(kept)
    requires g.page >= 1  // every reachable state has it (Consistent)
    ensures var h := ComponentDidUpdate(g, next, kept);
      && h.query == next && h.data == g.data && h.page == g.page && h.totalHits == g.totalHits
    ensures var r := LoadMoreImages(ComponentDidUpdate(g, next, kept), more);
      EndOfResults(g) ==> r.requests == g.requests + [Request(next, 1)]
    ensures var r := LoadMoreImages(ComponentDidUpdate(g, next, kept), more);
      !EndOfResults(g) ==>
        && r.requests == g.requests + [Request(next, 1), Request(next, g.page + 1)]
        && (!KeepsContents(more) ==> r.data == g.data + more.hits && r.page == g.page + 1)
  {
  }
}
