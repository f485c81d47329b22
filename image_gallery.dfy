/** The ImageGallery component as an object whose fields its handlers update in
    place, one `setState` at a time. Each handler is proved to end in the
    snapshot that the matching function of GallerySpec computes from the
    snapshot it started in; what those functions promise is proved there. */
module ImageGallery {
  import opened Wrappers
  import opened GallerySpec

  class Gallery {
    var searchQuery: string
    var data: seq<Image>
    var page: nat
    var totalHits: Option<nat>
    var loading: bool
    var loader: bool
    var showModal: bool
    var selectedImage: Option<Image>
    // What the collaborators observe: the toasts raised and the getData calls issued.
    ghost var notices: seq<Notice>
    ghost var requests: seq<Request>

    ghost function State(): GalleryState
      reads this
    {
      GalleryState(searchQuery, data, page, totalHits, loading, loader,
                   showModal, selectedImage, notices, requests)
    }

    ghost predicate Valid()
      reads this
    {
      Consistent(State())
    }

    /** The initial state of the component, mounted with its first searchQuery prop. */
    constructor (searchQuery: string)
      ensures State() == Initial(searchQuery)
      ensures data == [] && page == 1 && totalHits == None
      ensures !loading && !loader && !showModal && selectedImage == None
      ensures Valid()
    {
      this.searchQuery := searchQuery;
      data, page, totalHits := [], 1, None;
      loading, loader := false, false;
      showModal, selectedImage := false, None;
      notices, requests := [], [];
    }

    /** componentDidUpdate: the parent re-rendered with searchQuery `next`;
        `outcome` is how the getData call for page 1 settles if one is made. */
    method ComponentDidUpdate(next: string, outcome: Outcome)
      modifies this
      ensures State() == GallerySpec.ComponentDidUpdate(old(State()), next, outcome)
      ensures old(searchQuery) == next ==> unchanged(this)
      ensures old(Valid()) ==> Valid()
    {
      var prevSearchQuery := searchQuery;
      searchQuery := next;
      if prevSearchQuery != next {
        LoadImages(next, 1, outcome);
      }
    }

    /** loadMoreImages: `outcome` is how the getData call for the next page
        settles if one is made. */
    method LoadMoreImages(outcome: Outcome)
      modifies this
      ensures State() == GallerySpec.LoadMoreImages(old(State()), outcome)
      ensures old(EndOfResults(State())) ==>
        && notices == old(notices) + [Notice(Info, EndOfResultsMessage)]
        && requests == old(requests)
        && data == old(data) && page == old(page) && totalHits == old(totalHits)
      ensures old(Valid()) ==> Valid()
    {
      var total := match totalHits case None => 0 case Some(n) => n;
      if |data| >= total {
        notices := notices + [Notice(Info, EndOfResultsMessage)];
        return;
      }
      LoadImages(searchQuery, page + 1, outcome);
    }

    /** loadImages(query, requested): raise both busy flags, call getData, act
        on how it settles, and lower both flags whatever happened. */
    method LoadImages(query: string, requested: nat, outcome: Outcome)
      modifies this
      ensures State() == GallerySpec.LoadImages(old(State()), query, requested, outcome)
      ensures !loading && !loader
      ensures showModal == old(showModal) && selectedImage == old(selectedImage)
    {
      loading, loader := true, true;
      requests := requests + [Request(query, requested)];
      assert State() == InFlight(old(State()), query, requested);
      match outcome {
        case Err =>
          notices := notices + [Notice(Error, FetchFailedMessage)];
        case Ok(hits, total) =>
          if total == 0 {
            notices := notices + [Notice(Error, InvalidQueryMessage)];
          } else {
            if requested == 1 {
              data, totalHits := hits, Some(total);
            } else {
              data := data + hits;
            }
            page := requested;
          }
      }
      loading, loader := false, false;
    }

    /** toggleModal(image): a click on a gallery item or on the open overlay. */
    method ToggleModal(image: Option<Image>)
      modifies this
      ensures State() == GallerySpec.ToggleModal(old(State()), image)
      ensures showModal == !old(showModal) && selectedImage == image
      ensures old(Valid()) ==> Valid()
    {
      showModal, selectedImage := !showModal, image;
    }

    /** The condition under which render offers the load-more button. Between
        user actions it holds exactly when images are shown, and then a total
        is known. */
    function ShowsLoadMore(): (shown: bool)
      reads this
      ensures shown == LoadMoreOffered(State())
      ensures Valid() ==> (shown <==> |data| > 0)
      ensures Valid() && shown ==> totalHits.Some?
    {
      !loading && |data| > 0
    }
  }
}
