# IGD India website: a verified model of its client-side logic

The site is a small React application for a development organisation. Most of
it is markup. The logic it does hold is modelled here, one Dafny module per
source file:

- **OrganizationChart** (`org_chart.dfy`): the organisation tree. A forest of
  `{id, title, expanded, children}` nodes, and the `toggleNode` rewrite that
  negates `expanded` on the nodes whose id matches. The search does not descend
  below a match. The component state is a class.
- **OrgChartNode** (`org_chart_node.dfy`): what the chart draws. There is one
  card per visible node, in depth-first order, each with:
  - its level and that level's style;
  - its toggle button;
  - its stem;
  - its connector ticks.
- **ContactForm** (`contact_form.dfy`):
  - JavaScript `trim()`;
  - the e-mail regular expression, as a string predicate;
  - `validateForm` and its error messages;
  - the form state class with `handleChange` and the two halves of
    `handleSubmit`.
- **Blog** (`blog.dfy`):
  - six-per-page pagination through `Array.prototype.slice`;
  - the page controls;
  - the two category tables with their defaults;
  - author initials through `split(' ')`;
  - the `currentPage` state.
- **HeroSlider** (`hero_slider.dfy`): the cyclic `currentSlide` index. It has
  next, previous, go-to and the auto-play tick. It also models when the
  fallback, the arrows and dots, and the active slide are drawn; the handlers
  run only when their controls exist.
- **PhotoGallery** (`photo_gallery.dfy`): the lightbox `selectedPhoto`. It has
  open and close, and next and previous through `findIndex`.
- **HomeService** (`home_service.dfy`): the three home-page getters, without
  their delays.
- **AppUser** (`app_user.dfy`): the Redux `user` slice. It has `setUser` with
  its `JSON.parse(JSON.stringify(...))` copy, `clearUser`, and the
  `isAuthenticated` selector.
- **Header** (`header.dfy`): the mobile-menu flag.

Shared helpers: `Wrappers` (an `Option` type), `JsSemantics` and `CyclicIndex`.
- `JsSemantics` covers three JavaScript behaviours the components rely on:
  - `slice` with clamped and negative bounds;
  - `%`, which truncates toward zero;
  - the whitespace set of `\s` and `trim()`.
- `CyclicIndex` holds the `(i + 1) % n` / `(i - 1 + n) % n` stepping shared
  by the slider and the lightbox.

## Model

| member | source | states |
|---|---|---|
| OrganizationChart.ToggleInTree | src/components/organisms/OrganizationChart.jsx:31-41 | The rewrite maps the forest root by root, giving as many roots as it was given |
| OrganizationChart.ToggleAt | src/components/organisms/OrganizationChart.jsx:32-40 | The `map` callback for one node; ToggleAtKeepsShape, ToggleAtTwice and ToggleAtIsFlipAllAtIff state what it keeps, undoes and flips |
| OrganizationChart.ToggleKeepsShape | src/components/organisms/OrganizationChart.jsx:31-41 | Toggling preserves the whole shape recursively: ids, titles, children counts and order. It also preserves the pre-order id list and the number of flags; only `expanded` can differ |
| OrganizationChart.ToggleAbsentId | src/components/organisms/OrganizationChart.jsx:36-39 | When no node of the forest has the id, the result equals the input |
| OrganizationChart.LeafUnchanged | src/components/organisms/OrganizationChart.jsx:36-39 | A non-matching leaf is returned as it is |
| OrganizationChart.ToggleTwice | src/components/organisms/OrganizationChart.jsx:32-41 | Toggling the same id twice gives back the original forest, with or without duplicate ids |
| OrganizationChart.FlipWhere | src/components/organisms/OrganizationChart.jsx:33-34 | Reference definition: position k's flag is negated exactly when position k's id is the target |
| OrganizationChart.FlipAllFlags | src/components/organisms/OrganizationChart.jsx:33-34 | The reference rewrite, which flips every match and always descends, flips exactly the matching pre-order positions |
| OrganizationChart.ToggleIsFlipAll | src/components/organisms/OrganizationChart.jsx:32-41 | With ids unique across the forest, the toggle equals the reference rewrite |
| OrganizationChart.ToggleFlipsOnlyTarget | src/components/organisms/OrganizationChart.jsx:33-34 | With unique ids, every node keeps its id. The node whose id matches has `expanded` negated; every other node keeps its flag. At most one node matches |
| OrganizationChart.ToggleIsFlipAllIff | src/components/organisms/OrganizationChart.jsx:32-40 | For every forest, duplicate ids included: the toggle flips every node carrying the id exactly when no such node has a descendant carrying it too. Otherwise the two differ; ExampleDuplicateIdNotSearchedBelowMatch shows a nested match keeping its flag |
| OrganizationChart.ToggleAtIsFlipAllAtIff | src/components/organisms/OrganizationChart.jsx:33-38 | The same for one node: a matching node is handled like the reference exactly when the id does not occur below it |
| OrganizationChart.FlipAllFixedIsAbsent | src/components/organisms/OrganizationChart.jsx:33-34 | The reference rewrite leaves a forest unchanged only when no node carries the id |
| OrganizationChart.ExampleDuplicateIdNotSearchedBelowMatch | src/components/organisms/OrganizationChart.jsx:33-35 | With a duplicate id, only the ancestor flips; its descendant with the same id is not reached |
| OrganizationChart.ExampleToggleDeep | src/components/organisms/OrganizationChart.jsx:36-37 | A match two levels down is found and flipped, and everything else is copied |
| OrganizationChart.ExampleUnknownId | src/components/organisms/OrganizationChart.jsx:36-39 | An id that is not in the tree leaves it unchanged |
| OrganizationChart.ExampleToggleRoot | src/components/organisms/OrganizationChart.jsx:33-34 | A matching root is flipped and its subtree is kept |
| OrganizationChart.ChartState.constructor | src/components/organisms/OrganizationChart.jsx:9-11 | Starts with an empty forest, loading, and no error |
| OrganizationChart.ChartState.ToggleNode | src/components/organisms/OrganizationChart.jsx:30-44 | Replaces the stored forest with exactly the toggled forest; shape and id uniqueness are kept, and loading and error are untouched |
| OrgChartNode.HasChildren | src/components/molecules/OrgChartNode.jsx:6 | A node has children when its list is non-empty; ToggleOfferedIffChildren and LeafFlagInvisible state what follows from it |
| OrgChartNode.LevelStyle | src/components/molecules/OrgChartNode.jsx:8-16 | `getLevelStyles`; LevelStylesDistinct and LevelStyleClamps state its table and its fallback |
| OrgChartNode.CardOf | src/components/molecules/OrgChartNode.jsx:25-50 | One node's own card; ToggleOfferedIffChildren and ConnectorTicks state its toggle, icon and ticks |
| OrgChartNode.RenderNode | src/components/molecules/OrgChartNode.jsx:18-89 | One node and, when shown, its children one level down; ChildrenOneLevelDown and RenderNodeBounds state this |
| OrgChartNode.RenderForest | src/components/molecules/OrgChartNode.jsx:78-84 | The children drawn in order; RenderForestBounds, TopLevelIsRoots and FullyExpandedShowsAll state this |
| OrgChartNode.RenderChart | src/components/organisms/OrganizationChart.jsx:71-76 | Every root at level 0; ChartView states what it draws |
| OrgChartNode.ChartView | src/components/organisms/OrganizationChart.jsx:71-76 | The chart's level-0 cards are the roots' cards in order, and a fully expanded chart draws every node in depth-first pre-order |
| OrgChartNode.LevelStylesDistinct | src/components/molecules/OrgChartNode.jsx:9-14 | Levels 0, 1, 2 and 3 each have their own, pairwise different, style |
| OrgChartNode.LevelStyleClamps | src/components/molecules/OrgChartNode.jsx:8-16 | A level gets level 3's style exactly when it is outside 0-2, so every unknown level falls back to level 3's entry |
| OrgChartNode.ChevronIcon | src/components/molecules/OrgChartNode.jsx:37-40 | ChevronUp for an expanded node, ChevronDown otherwise; ToggleOfferedIffChildren states when it is drawn |
| OrgChartNode.ShowsChildren | src/components/molecules/OrgChartNode.jsx:47-53 | The stem and the children block are drawn for an expanded node with children; ChildrenOneLevelDown and ConnectorTicks state what they hold |
| OrgChartNode.ToggleOfferedIffChildren | src/components/molecules/OrgChartNode.jsx:32-41 | A toggle is offered exactly for a node with non-empty children. Its icon is ChevronUp exactly when the children are shown, and ChevronDown when they are collapsed |
| OrgChartNode.RenderForestBounds | src/components/molecules/OrgChartNode.jsx:78-84 | Every card drawn for a forest at level l is at level l or deeper and belongs to a node of it, and no more cards are drawn than there are nodes |
| OrgChartNode.RootCards | src/components/organisms/OrganizationChart.jsx:71-76 | One card per root, in order, each being that root's card at the given level |
| OrgChartNode.TopLevelIsRoots | src/components/organisms/OrganizationChart.jsx:71-76 | The cards at a forest's own level are exactly its roots' cards, in order |
| OrgChartNode.ChildrenOneLevelDown | src/components/molecules/OrgChartNode.jsx:47-88 | When children are shown, the cards at level + 1 are exactly the children's cards, in order. A node whose children are hidden contributes only its own card |
| OrgChartNode.ConnectorTicks | src/components/molecules/OrgChartNode.jsx:62-73 | The horizontal connector has ticks exactly when the children are shown and there are more than one; then there is one tick per drawn child |
| OrgChartNode.FullyExpandedShowsAll | src/components/molecules/OrgChartNode.jsx:47-88 | In a fully expanded tree, the drawn card ids are all node ids in depth-first pre-order |
| OrgChartNode.LeafFlagInvisible | src/components/molecules/OrgChartNode.jsx:32-53 | A leaf draws the same single card whatever its `expanded` flag |
| JsSemantics.Slice | src/components/pages/Blog.jsx:125 | `slice` with in-range bounds is the sub-sequence between them, and never longer than the input |
| JsSemantics.JsRem | src/components/organisms/PhotoGallery.jsx:19 | `%` with a positive divisor takes the dividend's sign: the result is in [0, n) for a non-negative dividend and in (-n, 0] for a negative one |
| CyclicIndex.JsRemSmall | src/components/organisms/PhotoGallery.jsx:19-25 | For every dividend the slider and the lightbox compute, from -n up to 2n: 0 at -n, the dividend itself inside (-n, n), and the dividend minus n from n on |
| JsSemantics.IsWhitespace | src/components/organisms/ContactForm.jsx:38 | The characters `trim()` removes and `\s` matches; TrimStart, TrimEnd and BlankIffAllWhitespace state what follows from it |
| ContactForm.TrimStart | src/components/organisms/ContactForm.jsx:38 | The result is a suffix of the input, everything dropped is whitespace, and the result does not start with whitespace |
| ContactForm.TrimEnd | src/components/organisms/ContactForm.jsx:38 | The result is a prefix of the input, everything dropped is whitespace, and the result does not end with whitespace |
| ContactForm.Trim | src/components/organisms/ContactForm.jsx:38 | `trim()`; TrimStart and TrimEnd state what each side removes |
| ContactForm.IsBlank | src/components/organisms/ContactForm.jsx:38-44 | `!value.trim()`; BlankIffAllWhitespace states which values are blank |
| ContactForm.BlankIffAllWhitespace | src/components/organisms/ContactForm.jsx:38-44 | A value is empty after `trim()` exactly when all its characters are whitespace |
| ContactForm.MatchesEmailPattern | src/components/organisms/ContactForm.jsx:40 | The regular expression as a string predicate; EmailPatternIff states which strings it accepts |
| ContactForm.PatternIsWellFormed | src/components/organisms/ContactForm.jsx:40 | Every string the pattern accepts has no whitespace, exactly one '@' that is not first, and a '.' strictly inside the domain part |
| ContactForm.WellFormedMatchesPattern | src/components/organisms/ContactForm.jsx:40 | Every such string is accepted by the pattern |
| ContactForm.EmailPatternIff | src/components/organisms/ContactForm.jsx:40 | The pattern `^[^\s@]+@[^\s@]+\.[^\s@]+$` matches exactly these strings: no whitespace, exactly one '@' that is not first, and a '.' after the '@' that neither directly follows it nor is last |
| ContactForm.With | src/components/organisms/ContactForm.jsx:20-24 | Editing one field sets it to the value and leaves the other three unchanged |
| ContactForm.ValidateForm | src/components/organisms/ContactForm.jsx:35-47 | Name, subject and message errors are present exactly when the trimmed field is empty. The e-mail error is present exactly when it is blank or fails the pattern: "Email is required" if blank, the format message otherwise. Every message is exact |
| ContactForm.ErrorsFor | src/components/organisms/ContactForm.jsx:36-46 | Given the outcome of each check, the map has one entry per failed check with that check's exact message; for the e-mail, blankness takes precedence over the format |
| ContactForm.NoErrorsIff | src/components/organisms/ContactForm.jsx:35-53 | Validation returns no errors exactly when name, subject and message have a non-whitespace character and the e-mail is well formed |
| ContactForm.EmptyFormFailsEveryField | src/components/organisms/ContactForm.jsx:35-47 | The initial empty form gets the four "required" messages and nothing else |
| ContactForm.FormState.constructor | src/components/organisms/ContactForm.jsx:10-17 | Starts with four empty fields, no errors, and not submitting |
| ContactForm.FormState.HandleChange | src/components/organisms/ContactForm.jsx:19-33 | Sets only the named field. The field's error is blanked only if it was truthy; other errors are untouched |
| ContactForm.SubmitAllowed | src/components/organisms/ContactForm.jsx:53 | Submitting may go ahead, that is the error object has no keys, exactly when the error map is empty |
| ContactForm.FormState.SetErrors | src/components/organisms/ContactForm.jsx:54 | Replaces the errors and changes nothing else |
| ContactForm.FormState.SetIsSubmitting | src/components/organisms/ContactForm.jsx:58-74 | Sets the submitting flag and changes nothing else |
| ContactForm.FormState.BeginSubmit | src/components/organisms/ContactForm.jsx:49-59 | Runs only outside the submitting state, as the submit button is disabled during a send. Proceeds to sending exactly when validation finds no errors. Otherwise the errors are replaced by the new ones and the form is unchanged; when sending, the form is marked as submitting |
| ContactForm.FormState.FinishSubmit | src/components/organisms/ContactForm.jsx:60-74 | Submitting ends either way. On success the four fields are emptied and the errors are cleared; on failure both are unchanged |
| Blog.TotalPages | src/components/pages/Blog.jsx:126 | The page count is the ceiling of count / 6: enough pages for every post, and no page beyond the last post |
| Blog.CurrentPosts | src/components/pages/Blog.jsx:123-125 | `posts.slice(first, last)` for the current page; PageContents, PageSize and AllPagesGiveAllPosts state what it shows |
| Blog.PageContents | src/components/pages/Blog.jsx:123-125 | Page p shows exactly the posts at indices [6(p-1), min(6p, len)), in order |
| Blog.PageSize | src/components/pages/Blog.jsx:123-126 | Every page from 1 to the page count holds between 1 and 6 posts |
| Blog.AllPagesGiveAllPosts | src/components/pages/Blog.jsx:123-126 | Concatenating pages 1 to the page count gives back the full post list |
| Blog.PrevDisabled | src/components/pages/Blog.jsx:219 | The previous button is disabled on page 1; BlogState.ClickPrevious states that it then leaves the page as it is |
| Blog.NextDisabled | src/components/pages/Blog.jsx:244 | The next button is disabled on the last page; BlogState.ClickNext states that it then leaves the page as it is |
| Blog.ShowPaginationIff | src/components/pages/Blog.jsx:214 | The pagination controls appear exactly when there are more than 6 posts |
| Blog.PageNumbers | src/components/pages/Blog.jsx:225-226 | There is one numbered button per page, numbered 1 to the page count in order |
| Blog.CategoryIcon | src/components/pages/Blog.jsx:98-108 | `getCategoryIcon`; CategoryDefaults states its table and default |
| Blog.CategoryColor | src/components/pages/Blog.jsx:110-120 | `getCategoryColor`; CategoryDefaults states its table and default |
| Blog.CategoryDefaults | src/components/pages/Blog.jsx:98-120 | The six known categories get their table entries. Any other category, and only such a category, gets 'FileText' and 'bg-gray-100 text-gray-600' |
| Blog.Split | src/components/pages/Blog.jsx:194 | `split(' ')` gives at least one word, and no word contains a space |
| Blog.JoinCons | src/components/pages/Blog.jsx:194 | Joining a word in front of a non-empty list puts one space between it and the rest |
| Blog.SplitJoin | src/components/pages/Blog.jsx:194 | Joining the split words with single spaces gives back the author string |
| Blog.WordThenRest | src/components/pages/Blog.jsx:194 | A word followed by a space contributes only its first character to the word starts, and the rest starts afresh |
| Blog.LastWord | src/components/pages/Blog.jsx:194 | A word without spaces contributes exactly its first character, or nothing when empty |
| Blog.FirstChar | src/components/pages/Blog.jsx:194 | `n[0]`, with an empty word giving nothing (`undefined` joins as ""); LastWord and WordThenRest state what it contributes |
| Blog.Initials | src/components/pages/Blog.jsx:194 | `split(' ').map(n => n[0]).join('')`; InitialsAreWordStarts states which characters it keeps |
| Blog.InitialsAreWordStarts | src/components/pages/Blog.jsx:194 | The initials are exactly the characters that start the string or follow a space; an empty word contributes nothing |
| Blog.BlogState.constructor | src/components/pages/Blog.jsx:10-13 | Starts on page 1 |
| Blog.BlogState.Visible | src/components/pages/Blog.jsx:123-125 | On a valid page, at most 6 posts are shown, all of them from the list, and at least one if there are any posts |
| Blog.BlogState.HandlePageChange | src/components/pages/Blog.jsx:128-131 | Stores the requested page number as given, with no clamping |
| Blog.BlogState.ClickPrevious | src/components/pages/Blog.jsx:217-219 | Moves back one page, except on page 1 where the button is disabled; the page stays valid |
| Blog.BlogState.ClickNext | src/components/pages/Blog.jsx:242-244 | Moves forward one page, except on the last page where the button is disabled; the page stays valid |
| Blog.BlogState.ClickPageNumber | src/components/pages/Blog.jsx:225-230 | A numbered button stores its own page number, which is always a valid page |
| CyclicIndex.Next | src/components/organisms/HeroSlider.jsx:19 | `(i + 1) % n`; StepsInRange, NextNShifts and FullCycle state where it leads |
| CyclicIndex.Prev | src/components/organisms/HeroSlider.jsx:23 | `(i - 1 + n) % n`; StepsInRange and PrevNextInverse state where it leads |
| CyclicIndex.StepsInRange | src/components/organisms/HeroSlider.jsx:18-24 | From an index in [0, n), next gives i + 1, or 0 from the last index; previous gives i - 1, or n - 1 from 0. Both stay in [0, n) |
| CyclicIndex.PrevNextInverse | src/components/organisms/HeroSlider.jsx:18-24 | Previous after next, and next after previous, give back the index |
| CyclicIndex.NextNShifts | src/components/organisms/HeroSlider.jsx:11-13 | k ≤ n forward steps from i land on i + k, wrapped once past n |
| CyclicIndex.FullCycle | src/components/organisms/HeroSlider.jsx:19 | n forward steps return to the starting index |
| HeroSlider.ActiveFlags | src/components/organisms/HeroSlider.jsx:45-57 | Slide i is marked active exactly when i is the current index |
| HeroSlider.ExactlyOneActive | src/components/organisms/HeroSlider.jsx:45-57 | Exactly one slide is marked active when the index is in range |
| HeroSlider.ShowFallback | src/components/organisms/HeroSlider.jsx:30-39 | The welcome fallback is drawn for an empty list; FallbackSlidesControls states its relation to the slides and controls |
| HeroSlider.ShowControls | src/components/organisms/HeroSlider.jsx:61-93 | The arrows and dots are drawn only for more than one slide; NextSlide, PrevSlide and GoToSlide require it, and AutoAdvance is guarded by it |
| HeroSlider.FallbackSlidesControls | src/components/organisms/HeroSlider.jsx:30-93 | The fallback is drawn exactly when no slide is, the arrows and dots exactly when there is more than one dot, and never together with the fallback |
| HeroSlider.DotsTargetSlides | src/components/organisms/HeroSlider.jsx:81-84 | Every dot button passes a valid slide index |
| HeroSlider.SliderState.constructor | src/components/organisms/HeroSlider.jsx:6-7 | Starts at slide 0 |
| HeroSlider.SliderState.NextSlide | src/components/organisms/HeroSlider.jsx:18-20 | Runs only with more than one slide, the only case where its arrow and the timer exist. Sets the index to `(i + 1) % n`, which wraps from the last slide to the first and stays valid |
| HeroSlider.SliderState.PrevSlide | src/components/organisms/HeroSlider.jsx:22-24 | Runs only with more than one slide, the only case where its arrow exists. Sets the index to `(i - 1 + n) % n`, which wraps from the first slide to the last and stays valid |
| HeroSlider.SliderState.GoToSlide | src/components/organisms/HeroSlider.jsx:26-28 | Called only from a dot, so with more than one slide and a dot's index. Sets the index to exactly that slide |
| HeroSlider.SliderState.AutoAdvance | src/components/organisms/HeroSlider.jsx:9-16 | A timer tick takes the next-slide step only when auto-play is on and there is more than one slide; otherwise nothing changes |
| PhotoGallery.IndexOfId | src/components/organisms/PhotoGallery.jsx:18 | `findIndex` gives the first index holding the id, or -1 exactly when no photo has it |
| PhotoGallery.FindIndex | src/components/organisms/PhotoGallery.jsx:18 | The linear scan returns the first matching index, or -1 |
| PhotoGallery.IndexOfOwnId | src/components/organisms/PhotoGallery.jsx:18 | With unique ids, a photo's id is found at that photo's index |
| PhotoGallery.NextSelection | src/components/organisms/PhotoGallery.jsx:17-21 | There is a next photo exactly when the list is non-empty, so the lightbox stays open, and it is one of the photos |
| PhotoGallery.PrevSelection | src/components/organisms/PhotoGallery.jsx:23-27 | There is a previous photo exactly when the list is non-empty, and it is one of the photos |
| PhotoGallery.SelectionSteps | src/components/organisms/PhotoGallery.jsx:17-27 | For the photo at index k, with unique ids, next selects `photos[(k + 1) % n]` and previous selects `photos[(k - 1 + n) % n]` |
| PhotoGallery.SelectionNotFound | src/components/organisms/PhotoGallery.jsx:17-27 | When the id is not found, next selects the first photo. Previous selects the second-to-last photo, or the only one when n = 1 |
| PhotoGallery.PrevNextRestore | src/components/organisms/PhotoGallery.jsx:17-27 | With unique ids and the selection among the photos, previous after next (and next after previous) gives back the selection |
| PhotoGallery.NextsCycle | src/components/organisms/PhotoGallery.jsx:17-21 | With unique ids, n presses of next come back to the selected photo |
| PhotoGallery.GalleryState.constructor | src/components/organisms/PhotoGallery.jsx:6-7 | Starts with the lightbox closed |
| PhotoGallery.GalleryState.OpenLightbox | src/components/organisms/PhotoGallery.jsx:9-11 | Selects the given photo |
| PhotoGallery.GalleryState.CloseLightbox | src/components/organisms/PhotoGallery.jsx:13-15 | Clears the selection |
| PhotoGallery.GalleryState.NextPhoto | src/components/organisms/PhotoGallery.jsx:17-21 | Stores the next selection; the lightbox stays open for a non-empty list |
| PhotoGallery.GalleryState.PrevPhoto | src/components/organisms/PhotoGallery.jsx:23-27 | Stores the previous selection; the lightbox stays open for a non-empty list |
| HomeService.WithDefaultCta | src/services/api/homeService.js:9-10 | The call-to-action text is always truthy. A truthy source text is kept, a falsy one becomes "Learn More", and every other field is the source's |
| HomeService.SliderImagesHaveCta | src/services/api/homeService.js:8-11 | Every returned slide has a truthy call-to-action and otherwise equals its source slide |
| HomeService.SliderImagesUnchangedIff | src/services/api/homeService.js:8-11 | The transform changes nothing exactly when every source slide already has a truthy call-to-action |
| HomeService.SliderImagesIdempotent | src/services/api/homeService.js:8-11 | Applying the transform twice equals applying it once |
| HomeService.GetSliderImages | src/services/api/homeService.js:8-11 | One slide per source slide, in the same order |
| HomeService.GetHomePhotos | src/services/api/homeService.js:16 | The first min(6, len) photos, a prefix of the source list |
| HomeService.GetStats | src/services/api/homeService.js:21 | The stats data, unchanged |
| AppUser.Stringify | src/App.jsx:24 | `JSON.stringify` as a token stream that starts with a value token; ParseStringify states its inverse |
| AppUser.ParseValue | src/App.jsx:24 | `JSON.parse` of one value, consuming tokens; ParseStringify states that it undoes Stringify |
| AppUser.ParseStringify | src/App.jsx:24 | Parsing the serialised form of a JSON value gives back that value and leaves any following tokens untouched |
| AppUser.JsonCopy | src/App.jsx:24 | The deep copy equals the payload |
| AppUser.SetUserReducer | src/App.jsx:23-26 | Stores the payload and sets the flag to its truthiness, leaving a consistent state |
| AppUser.ClearUserReducer | src/App.jsx:27-30 | Gives the initial state from any state |
| AppUser.ReducersKeepConsistent | src/App.jsx:14-30 | The initial state, and every state either reducer produces, has the flag equal to the user's truthiness |
| AppUser.ClearUserLaws | src/App.jsx:14-30 | Clearing is idempotent, and logging in and then out gives the initial state |
| AppUser.AuthenticatedIffTruthyPayload | src/App.jsx:23-30 | A login authenticates unless the payload is null, false, 0 or ""; a logout never authenticates |
| AppUser.IsAuthenticated | src/App.jsx:158-159 | The stored flag, or false when the slice is missing; SelectorReadsReducers states what it reads after each reducer |
| AppUser.SelectorReadsReducers | src/App.jsx:158-159 | The selector gives false with no slice and in the initial state, the payload's truthiness after `setUser`, and false after `clearUser` |
| AppUser.UserSlice.constructor | src/App.jsx:14-17 | Starts with no user and not authenticated |
| AppUser.UserSlice.SetUser | src/App.jsx:23-26 | Its in-place assignments give exactly the `setUser` reducer's state |
| AppUser.UserSlice.ClearUser | src/App.jsx:27-30 | Its in-place assignments give exactly the `clearUser` reducer's state, the initial one |
| Header.DesktopNavItems | src/components/organisms/Header.jsx:41-45 | The desktop bar draws the site's three links in order, none of them closing the menu |
| Header.MobileNavItems | src/components/organisms/Header.jsx:60-82 | Nothing is drawn while the menu is closed. While it is open, the panel draws the site's three links in order, each one closing the menu |
| Header.MobileMirrorsDesktop | src/components/organisms/Header.jsx:41-79 | The open mobile panel offers exactly the desktop links in the same order, and only its items close the menu |
| Header.MenuIcon | src/components/organisms/Header.jsx:52-55 | The button's icon; IconMatchesPanel states how it agrees with the panel |
| Header.IconMatchesPanel | src/components/organisms/Header.jsx:52-61 | The button shows "X" exactly when the mobile links are drawn, and "Menu" exactly when they are not |
| Header.HeaderState.constructor | src/components/organisms/Header.jsx:8 | The menu starts closed |
| Header.HeaderState.ToggleMobileMenu | src/components/organisms/Header.jsx:10-12 | Negates the flag |
| Header.HeaderState.CloseMobileMenu | src/components/organisms/Header.jsx:14-16 | Closes the menu from any state, so closing twice is closing once |
| Header.HeaderState.FollowMobileLink | src/components/organisms/Header.jsx:70-78 | A click on any link of the open mobile panel leaves the menu closed |

## Left out

- Data loading is not modelled. This covers `loadOrganizationData`, the blog post loader, the page loaders, the mock services and their `setTimeout` delays, and the loading and error flags around them. It is asynchronous I/O over JSON files that are not part of this model.
- `OrganizationChart.Node`: an absent `children` field and an empty one are both modelled as the empty sequence. The toggle copies a missing `children` field as it is and recurses into an empty one. Both results equal the input, and `hasChildren` is false either way.
- `ContactForm.FormState.BeginSubmit` and `ContactForm.FormState.FinishSubmit`: `handleSubmit` is split at its `await`. Whether `submitMessage` succeeded is the `sent` parameter; the toast messages are left out.
- `HeroSlider.SliderState`: the `!slides` guard for a missing prop is not modelled; slides are always a sequence. The interval length and the clearing of the timer are timing and are left out, and a timer tick is one atomic step.
- `HeroSlider.SliderState.NextSlide`: requires more than one slide, as do `PrevSlide` and `GoToSlide`. Their only callers are the arrows, the dots and the timer, and none of them exists otherwise. With no slides the source would compute `NaN`; that case is not modelled.
- `PhotoGallery.GalleryState.NextPhoto`: requires an open lightbox, as the buttons exist only inside it. The same holds for `PrevPhoto`.
- `PhotoGallery.PhotoId`: photo ids are integers and compared with `===`. Missing ids and ids of other types are not modelled.
- `AppUser.Json`: JSON data is modelled with integral numbers only. The following are not modelled:
  - floating-point and `NaN` payloads;
  - `undefined` (`JSON.parse` would throw);
  - values that `JSON.stringify` drops or converts, such as functions and dates;
  - duplicate object keys, which a JavaScript object cannot have.
- `Blog.CategoryIcon` and `Blog.CategoryColor`: inherited object keys such as `constructor` or `toString` are not modelled. In JavaScript these keys would find a truthy property on `Object.prototype` instead of the default.
- Blog.FirstChar: a word's first character is a Unicode code point, while JavaScript's `n[0]` is a UTF-16 code unit. The two differ for a name that starts outside the Basic Multilingual Plane: `n[0]` gives a lone high surrogate there.
- Blog.Initials: built from `FirstChar`, so it inherits the same code-point reading of `n[0]`.
- `window.scrollTo`, toast notifications, routing, the ApperSDK login, signup and logout calls, and the Redux store wiring are foreign calls and side effects.
- framer-motion animation parameters and the percentage offsets of the connector ticks are floating-point presentation.
- Date formatting with `toLocaleDateString` is left out. Posts are an abstract record.
- Presentational components and class-name atoms (Footer, HeroSlide, the loading/empty/error views, gallery items, buttons, cards and form fields) carry no logic beyond markup.
