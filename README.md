# Image gallery state machine

A model of the `ImageGallery` component of an image-search viewer. The component
holds the search results for the `searchQuery` prop its parent passes in. It
loads page 1 when the prop changes, and later pages on "load more". It raises a
toast when there are no hits, when a fetch fails and when the results run out.
It opens one image in an overlay.

- `GallerySpec` (gallery_spec.dfy) describes the component on values. A
  `GalleryState` is a snapshot of the prop and the seven state fields
  (`data`, `page`, `totalHits`, `loading`, `loader`, `showModal`,
  `selectedImage`). It also holds two logs that collaborators observe: the
  toasts raised and the getData calls issued.
- Each handler is a function from one snapshot to the next. The search
  service's answer is an `Outcome` argument.
- `Consistent` is the invariant that every snapshot between two user actions
  satisfies.
- `Run` replays a sequence of user actions (`Event`s). Induction lemmas over
  runs state what holds however the user goes on.
- `ImageGallery.Gallery` (image_gallery.dfy) is the component as a class. Its
  fields are updated in place, one `setState` at a time, in the source's order.
  Every handler ensures `State() == GallerySpec.<handler>(old(State()), ...)`.
- `GalleryScenarios` (scenarios.dfy) holds whole sessions: pagination to the
  end, a zero-hit query, and a zero-hit or failed query that follows a
  successful one.

Behaviour kept as the code has it, where a tidier reading is possible:

- A zero-hit answer or a failed fetch for a new query keeps the previous
  query's `data`, `page` and `totalHits`. The gallery then shows the old
  query's images under the new query. Unless the old results were already
  exhausted, the next "load more" asks the new query for the page after the
  old one and appends its hits to the old images; if they were exhausted, it
  only raises the end-of-results toast (`StaleLoadMoreAfterKeptQuery`). The
  scenarios `ZeroHitsKeepPreviousResults` and `FailedFetchKeepsPreviousResults`
  start from page 1, so there that next request is for page 2.
- `toggleModal` compares nothing. It always flips `showModal` and stores its
  argument. Calling `toggleModal` twice with the same image closes the overlay
  and leaves that image in `selectedImage`; nothing is cleared by identity
  (`ToggleTwice`, `RunOfClicksAlternates`). In the app the second call
  usually comes from the overlay's own click handler, with an argument the
  model does not know.
- `data.length >= totalHits` with `totalHits` still `null` compares against 0.
  So "load more" before any stored page only raises the end-of-results toast.
- Re-rendering with the same `searchQuery` does nothing. This also covers the
  `componentDidUpdate` call that React makes after the component's own
  `setState`.

## Model

| member | source | states |
|---|---|---|
| GallerySpec.Initial | src/components/ImageGallery/ImageGallery.jsx:12-20 | The initial state has empty data, page 1, no total, both flags down, the overlay closed and nothing selected; it satisfies the between-actions invariant, has raised no toast, issued no fetch and offers no load-more button |
| GallerySpec.InFlight | src/components/ImageGallery/ImageGallery.jsx:45-49 | While getData is awaited both busy flags are up and exactly one call for (query, page) has been issued; nothing else has changed |
| GallerySpec.LoadImages | src/components/ImageGallery/ImageGallery.jsx:45-72 | Every outcome issues one call, ends with both flags down and leaves the overlay and prop alone. Failure and zero hits add one error toast (with the matching message) and keep data, page and total. Hits add no toast and make the requested page current. Page 1 replaces data and stores the total. A later page keeps the old data as a prefix, appends the hits after it (length is the sum) and keeps the total |
| GallerySpec.ComponentDidUpdate | src/components/ImageGallery/ImageGallery.jsx:24-31 | The prop becomes the new query. An unchanged query leaves the state identical (no fetch). A changed one issues exactly one call, for page 1 of the new query, and behaves as loadImages. The invariant is preserved |
| GallerySpec.LoadMoreImages | src/components/ImageGallery/ImageGallery.jsx:33-43 | With no total known no fetch is issued. At the end of results the only change is one info toast. Otherwise a total is known, fewer images than it are shown, and exactly one call for the current query's next page is made. The invariant is preserved |
| GallerySpec.ToggleModal | src/components/ImageGallery/ImageGallery.jsx:74-79 | The overlay flag is negated, the argument becomes the selected image, and no other field changes |
| GallerySpec.ToggleTwice | src/components/ImageGallery/ImageGallery.jsx:74-79 | Two toggles restore the overlay flag; the second argument stays selected and nothing else changes |
| GallerySpec.ResubmitIsNoOp | src/components/ImageGallery/ImageGallery.jsx:24-31 | Submitting the same query twice gives the state of the first submission and issues at most one call |
| GallerySpec.LoadMoreOfferedAtRest | src/components/ImageGallery/ImageGallery.jsx:115 | Between actions the load-more button is shown exactly when images are shown, and then a total is known |
| GallerySpec.Step | src/components/ImageGallery/ImageGallery.jsx:24-79 | Each user action preserves the invariant, adds at most one toast and one fetch to the logs, shows only images that were shown before or came back in that action, and leaves the overlay alone unless it is a click |
| GallerySpec.RunPreservesConsistent | src/components/ImageGallery/ImageGallery.jsx:12-79 | After any sequence of actions from a consistent state, both flags are down and equal, page is at least 1, no total means nothing shown on page 1, and a known total is positive |
| GallerySpec.RunLogsGrow | src/components/ImageGallery/ImageGallery.jsx:33-72 | Over any run the toast and fetch logs only grow by appending, by at most one entry per action |
| GallerySpec.RunDataProvenance | src/components/ImageGallery/ImageGallery.jsx:57-65 | Every image shown after a run was shown before or was returned by the search service during the run |
| GallerySpec.RunWithoutClicksKeepsOverlay | src/components/ImageGallery/ImageGallery.jsx:45-72 | A run of query changes and load-more clicks leaves showModal and selectedImage as they were |
| GallerySpec.RunOfClicksAlternates | src/components/ImageGallery/ImageGallery.jsx:74-79 | A run of n clicks flips the overlay n times, leaves the last click's argument selected and changes nothing else |
| ImageGallery.Gallery.constructor | src/components/ImageGallery/ImageGallery.jsx:12-20 | Fields start as empty data, page 1, null total, flags down, overlay closed, nothing selected; the object satisfies its invariant |
| ImageGallery.Gallery.ComponentDidUpdate | src/components/ImageGallery/ImageGallery.jsx:24-31 | Ends in the snapshot GallerySpec.ComponentDidUpdate gives. An unchanged prop changes no field. The invariant is preserved |
| ImageGallery.Gallery.LoadMoreImages | src/components/ImageGallery/ImageGallery.jsx:33-43 | Ends in the snapshot GallerySpec.LoadMoreImages gives. At the end of results it adds one info toast, issues no fetch and leaves data, page and total. The invariant is preserved |
| ImageGallery.Gallery.LoadImages | src/components/ImageGallery/ImageGallery.jsx:45-72 | Ends in the snapshot GallerySpec.LoadImages gives, with both flags down and the overlay untouched (its body also asserts that it passes through the in-flight snapshot) |
| ImageGallery.Gallery.ToggleModal | src/components/ImageGallery/ImageGallery.jsx:74-79 | Ends in the snapshot GallerySpec.ToggleModal gives: overlay negated, argument selected. The invariant is preserved |
| ImageGallery.Gallery.ShowsLoadMore | src/components/ImageGallery/ImageGallery.jsx:115 | The render condition for the load-more button, equal to GallerySpec.LoadMoreOffered on the object's snapshot: on a valid object it is true exactly when images are shown, and when true a total is known |
| GalleryScenarios.FoxPagination | src/components/ImageGallery/ImageGallery.jsx:24-72 | Query "fox" with 24 hits in pages of 12: page 1 replaces and stores the total, page 2 appends to 24 images, a third click fetches nothing and raises one info toast |
| GalleryScenarios.ZeroHitsOnFreshGallery | src/components/ImageGallery/ImageGallery.jsx:33-55 | A zero-hit query on a fresh gallery raises one error toast and leaves no images and no total. "Load more" before any load only raises the end-of-results toast |
| GalleryScenarios.ZeroHitsKeepPreviousResults | src/components/ImageGallery/ImageGallery.jsx:24-65 | After a successful query, a zero-hit query leaves the old images, page and total on show under the new query. The next "load more" requests page 2 of the new query |
| GalleryScenarios.FailedFetchKeepsPreviousResults | src/components/ImageGallery/ImageGallery.jsx:24-68 | After a successful query, a failed fetch for a new query keeps the old images, page and total and raises one error toast; the next "load more" requests page 2 of the new query and appends it after the old images |
| GalleryScenarios.StaleLoadMoreAfterKeptQuery | src/components/ImageGallery/ImageGallery.jsx:24-68 | After a new query whose fetch failed or found nothing, the old images, page and total stay under the new query; the next load-more fetches nothing if the old results were exhausted, otherwise it requests the new query's page old-page + 1 and, on hits, appends them to the old images |

## Left out

- The getData HTTP call is not part of this model. Its answer is the `Outcome` argument of each handler, and the model records only which (query, page) it was asked for.
- Toast rendering and `console.error` are left out. Toasts are kept as a ghost log of (level, message).
- Asynchrony is left out. Each loadImages is one atomic step that takes its outcome. Racing "load more" clicks, stale answers for an older query and React's batching of `setState` are not modelled. The code has no request-generation counter, and the model adds none.
- JSX rendering, the spinner, the `Modal`, `ImageGalleryItem` and `Button` markup, and the CSS modules are left out. Only the load-more condition of `render` is modelled.
- src/components/App.jsx is left out. Its `handleFormSubmit` only sets the prop, and the prop change is modelled by `ComponentDidUpdate`.
- PropTypes validation is left out. The prop is a `string` by type.
- The Modal component is not part of this model. It receives `toggleModal` as its click handler (src/components/ImageGallery/ImageGallery.jsx:100), so what it passes is taken as an arbitrary `Option<Image>`.
- The bound `|data| <= totalHits` is not claimed: it depends on the search service returning consistent pages, which the model does not assume.
