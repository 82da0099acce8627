# Moon River training portal: the rules under the pages

The Moon River portal is a React site for training staff of a sign company.
Most of it is markup. Under the markup are a few small, pure rules, and this
project writes each of them in Dafny as immutable records and pure
transition or derivation functions, with proved contracts:

- **Catalog** (`catalog.dfy`): the document record, the fixed list of 18
  documents and the category list, with their data invariants.
- **CatalogFilter** (`catalog_filter.dfy`): the examples page.
  - The free-text and category filter, and adoption of the `category` URL parameter.
  - The header statistics and "Clear all filters".
- **Session** (`session.dfy`): the session gate.
  - One shared password, and a flag persisted under the storage key `moonriver_auth`.
  - Login, logout, the re-read of storage on mount, and the `useAuth` guard.
- **LoginPage** (`login_page.dfy`) and **ProtectedRoute**
  (`protected_route.dfy`): the two consumers of the gate.
- **Flashcards** (`flashcards.dfy`): the post-parse row filter, and the
  bounded card index with its flip flag.
- **ProjectManagement** (`project_management.dfy`):
  - the cyclic 11-slide blueprint slideshow and its zero-padded image names;
  - the stage lookup and the cyclic "Continue" stepper;
  - chapter labels, the "Step n: " prefix stripping, and section anchors.
- **DocumentCard** (`document_card.dfy`): the office-viewer URL, the preview
  image path, the `"#"` placeholder path, and tag truncation.
- **Layout** (`layout.dfy`): the sidebar table, its "active" prefix rule,
  the mobile sidebar toggle and overlay, and the Log Out wiring.
- **PlaceholderPage** (`placeholder_page.dfy`): the title derived from the location.
- **Estimator** (`estimator.dfy`): the quick-estimate pricing formula over exact reals.
- **Strings** (`strings.dfy`): shared string helpers.
  - The JavaScript `includes`, `indexOf`, `lastIndexOf`, `split(..)[0]`,
    `split(..).pop()`, `padStart` and `toString`.
  - ASCII `toLowerCase` and `toUpperCase`.

Browser facilities become data or parameters:

- `localStorage` is a `map<string, string>`.
- A query string is a sequence of key/value pairs.
- `new URL(path, origin).href` and `encodeURIComponent` are function parameters of `DocumentCard.ViewUrl`.
- The CSV parser's output is a sequence of rows.

Where the code and its description differ, the model follows the code:

- `PlaceholderPage`: a location without any '/' makes the source fail
  (`split("/")[1]` is undefined). The model returns `None` there instead of
  assuming every location starts with '/'.
- `Estimator`: an unlisted sign type makes the source fail reading the
  material's base price. The model returns `None`.
- `DocumentCard.BaseName`: a file name without '.' has an empty base name,
  because `substring(0, -1)` clamps to `substring(0, 0)`.
- `ProjectManagement.ActiveStage`: with an empty stage list,
  `stages.find(..) || stages[0]` is undefined and the render then fails.
  The model returns `None`.

## Model

| member | source | states |
|---|---|---|
| Catalog.CatalogCounts | src/lib/data.ts:16-234 | the catalog has 18 documents: 8 templates, 9 examples and 1 guide |
| Catalog.IdsUnique | src/lib/data.ts:16-234 | document ids are pairwise distinct |
| Catalog.CategoriesValid | src/lib/data.ts:16-243 | every document's category is in the category list and is never "All" |
| Catalog.CategoriesShape | src/lib/data.ts:236-243 | the category list starts with "All" and has no duplicates |
| Catalog.PathsUnderDocumentsDir | src/lib/data.ts:27-232 | every path starts with "/documents/" and none is "" or the "#" placeholder |
| Catalog.FileTypeIndependentOfPath | src/lib/data.ts:116-124 | the declared file type is independent of the extension: warranty-info is docx with a ".txt" path |
| Catalog.TypeCountsPartition | src/lib/data.ts:8 | every document has exactly one of the three types, so the three type counts add up to the list length |
| Catalog.CountOfType | src/pages/Examples.tsx:39-40 | the length of the filter by type, at most the list length; `Catalog.TypeCountsPartition` adds the three up to the length |
| Catalog.Tally | src/pages/Examples.tsx:37-41 | one pass computes all three per-type counts, each equal to its separate count |
| CatalogFilter.Query | src/pages/Examples.tsx:26-34 | a document is in the result iff it is in the list and matches both the text filter and the category; each occurs as often as in the list; the result is no longer than the list |
| CatalogFilter.MatchesSearch | src/pages/Examples.tsx:27-29 | definition: the lowered query is contained in the lowered title, description or some tag; `CatalogFilter.QueryIgnoresQueryCase` and `CatalogFilter.TagMatch` are its properties |
| CatalogFilter.MatchesCategory | src/pages/Examples.tsx:31 | definition: category "All" or the document's own category |
| CatalogFilter.Matches | src/pages/Examples.tsx:27-33 | definition: both the text and the category filter hold; `CatalogFilter.QueryIsConjunction` splits the two |
| CatalogFilter.ClearedQueryIsIdentity | src/pages/Examples.tsx:26-34 | the empty query under "All" returns every list unchanged, in order |
| CatalogFilter.QueryIsSubsequence | src/pages/Examples.tsx:26 | the result keeps the catalog order: it is a subsequence of the input |
| CatalogFilter.QueryIdempotent | src/pages/Examples.tsx:26 | filtering the result again with the same query changes nothing |
| CatalogFilter.EmptyQueryMatches | src/pages/Examples.tsx:27-29 | the empty query matches every document |
| CatalogFilter.QueryIsConjunction | src/pages/Examples.tsx:26-34 | text-only filtering followed by category-only filtering gives the combined result |
| CatalogFilter.QueryIgnoresQueryCase | src/pages/Examples.tsx:27-29 | lower-casing the query does not change the result |
| CatalogFilter.UnknownCategoryIsEmpty | src/pages/Examples.tsx:31 | a category other than "All" that no document carries gives the empty list |
| CatalogFilter.CatalogUnknownCategory | src/pages/Examples.tsx:31 | on the catalog, any category outside the category list gives the empty list |
| CatalogFilter.GetParam | src/pages/Examples.tsx:17-18 | the value of the first pair with the key is returned, no earlier pair has the key; there is no value iff no pair has the key |
| CatalogFilter.AdoptCategory | src/pages/Examples.tsx:16-24 | a listed `category` value is adopted; a missing or unlisted one selects "All"; the selection is always a listed category |
| CatalogFilter.GetParamSkipsOtherKeys | src/pages/Examples.tsx:17-18 | inserting a pair under another key never changes what the lookup returns |
| CatalogFilter.OtherParamsIgnored | src/pages/Examples.tsx:16-24 | parameters under any key other than `category`, such as `type`, never change the selection |
| CatalogFilter.ClearFilters | src/pages/Examples.tsx:116 | after "Clear all filters" the page shows the whole catalog in its original order |
| CatalogFilter.PageStats | src/pages/Examples.tsx:37-41 | total is the list length, and the template and example figures are the numbers of documents of those types; templates + examples equals the total iff there is no guide |
| CatalogFilter.CatalogStats | src/pages/Examples.tsx:37-41 | the header figures for the catalog are 18, 8 and 9 |
| CatalogFilter.TagMatch | src/pages/Examples.tsx:29 | a tag equal to the query up to case makes the document match |
| CatalogFilter.SovFinancial | src/pages/Examples.tsx:26-34 | the query "sov" under "Financial" finds both SOV documents |
| CatalogFilter.SovEstimating | src/pages/Examples.tsx:31 | the query "sov" under "Estimating" finds neither SOV document |
| CatalogFilter.SovAffidavitMatches | src/pages/Examples.tsx:26-34 | the SOV affidavit template matches "sov" under "Financial" through its tag |
| CatalogFilter.SovExampleMatches | src/pages/Examples.tsx:26-34 | the SOV example matches "sov" under "Financial" through its tag |
| Session.Mount | src/contexts/AuthContext.tsx:18-19 | a mounted provider starts unauthenticated and loading, with the storage unchanged |
| Session.Startup | src/contexts/AuthContext.tsx:21-28 | the mount effect raises the flag iff the stored value under the key is exactly "true"; loading ends; storage is only read |
| Session.Restart | src/contexts/AuthContext.tsx:17-28 | after a reload the flag is set iff storage holds exactly "true" under the key |
| Session.Rendered | src/contexts/AuthContext.tsx:44-52 | the provider renders nothing while loading, and otherwise a context carrying its flag |
| Session.Login | src/contexts/AuthContext.tsx:30-37 | login answers true iff the password equals the site password; success sets the flag and stores "true" and leaves every other key alone; failure changes nothing |
| Session.Logout | src/contexts/AuthContext.tsx:39-42 | logout removes the key and lowers the flag; every other key is unchanged |
| Session.UseAuth | src/contexts/AuthContext.tsx:55-60 | outside a provider the result is the error "useAuth must be used within an AuthProvider"; inside, the provider's context |
| Session.LogoutIdempotent | src/contexts/AuthContext.tsx:39-42 | logging out twice is the same as logging out once |
| Session.LoginSurvivesReload | src/contexts/AuthContext.tsx:23-25 | a reload after a successful login comes back authenticated |
| Session.LogoutSurvivesReload | src/contexts/AuthContext.tsx:23-25 | a reload after a logout comes back unauthenticated |
| Session.OnlyExactTrueAuthenticates | src/contexts/AuthContext.tsx:24 | any stored value other than exactly "true" reads back as logged out |
| Session.PasswordIsExact | src/contexts/AuthContext.tsx:15 | the password comparison is case-sensitive and does not trim |
| Session.FailedAttemptsChangeNothing | src/contexts/AuthContext.tsx:30-37 | any run of wrong passwords leaves the provider unchanged |
| Session.NoLockout | src/contexts/AuthContext.tsx:30-37 | after any number of failed attempts the correct password still logs in |
| Session.UseAuthInsideProvider | src/contexts/AuthContext.tsx:48-60 | inside a loaded provider `useAuth` succeeds and reports the stored flag |
| Session.NothingRenderedWhileLoading | src/contexts/AuthContext.tsx:44-46 | a freshly mounted provider renders nothing |
| LoginPage.InitialForm | client/src/pages/Login.tsx:10-11 | the form starts with an empty password and no error |
| LoginPage.Render | client/src/pages/Login.tsx:16-19 | an authenticated visitor is sent to "/" and sees nothing; anyone else sees the form |
| LoginPage.Submit | client/src/pages/Login.tsx:21-28 | submitting navigates to "/" iff the password is the site password; failure raises the error flag, stays and leaves the provider unchanged |
| LoginPage.Edit | client/src/pages/Login.tsx:53-57 | an edit replaces the password and clears the error |
| LoginPage.ErrorUntilNextEdit | client/src/pages/Login.tsx:26-27 | a failed submission shows the error until the next edit clears it |
| LoginPage.SuccessThenRedirect | client/src/pages/Login.tsx:16-25 | after a successful submission the page, rendered again, redirects home |
| LoginPage.FailureStaysOnForm | client/src/pages/Login.tsx:16-28 | after a failed submission by a logged-out visitor the form is shown again with the error |
| ProtectedRoute.Guard | client/src/components/ProtectedRoute.tsx:4-11 | the guard redirects to "/login" iff unauthenticated; otherwise it renders the route with its props unchanged |
| ProtectedRoute.DecisionIgnoresProps | client/src/components/ProtectedRoute.tsx:5-11 | the decision depends on the flag alone, not on the route's props |
| ProtectedRoute.LogoutLocksEveryRoute | client/src/components/ProtectedRoute.tsx:7-9 | after a logout every protected route redirects to the login page |
| ProtectedRoute.LoginUnlocksEveryRoute | client/src/components/ProtectedRoute.tsx:11 | after a successful login every protected route renders |
| ProtectedRoute.ReloadFollowsStorage | client/src/components/ProtectedRoute.tsx:5-11 | after a reload a protected route renders iff storage holds exactly "true" under the key |
| Flashcards.CardOf | src/components/Flashcards.tsx:88-91 | a card takes the row's first field as question and its second as answer |
| Flashcards.Keep | src/components/Flashcards.tsx:87 | definition: a row is kept iff it has two or more fields and a non-empty first field; `Flashcards.CardsOf` uses it both ways |
| Flashcards.CardsOf | src/components/Flashcards.tsx:86-91 | every card comes from a kept row (two or more fields, non-empty first field), and every kept row gives a card; no card has an empty question |
| Flashcards.CardsOfAppend | src/components/Flashcards.tsx:86-91 | the cards of two row lists joined are the two card lists joined, so row order is kept |
| Flashcards.ParseExample | src/components/Flashcards.tsx:87-91 | short rows and rows with an empty question are dropped, and extra fields are ignored |
| Flashcards.Initial | src/components/Flashcards.tsx:77-80 | the deck starts with no cards at index 0, question side up, with no direction |
| Flashcards.Load | src/components/Flashcards.tsx:92 | the parsed cards replace the deck's cards and the index and flip flag are kept |
| Flashcards.Next | src/components/Flashcards.tsx:97-103 | next moves right only when not on the last card; a move shows the question and sets direction +1; otherwise nothing changes |
| Flashcards.Prev | src/components/Flashcards.tsx:105-111 | prev moves left only when not on the first card; a move shows the question and sets direction -1; otherwise nothing changes |
| Flashcards.Flip | src/components/Flashcards.tsx:113-115 | definition: flip negates the flip flag and changes nothing else; `Flashcards.FlipTwice` is its property |
| Flashcards.CurrentCard | src/components/Flashcards.tsx:117-119 | there is no current card iff the deck is empty; otherwise it is the card at the current index |
| Flashcards.StepKeepsValid | src/components/Flashcards.tsx:97-115 | every click keeps the index in range |
| Flashcards.RunKeepsValid | src/components/Flashcards.tsx:97-115 | any sequence of clicks keeps the index in range |
| Flashcards.LoadedDeckStaysInRange | src/components/Flashcards.tsx:78-115 | from a loaded non-empty deck, any clicks keep 0 <= index < length |
| Flashcards.DisabledMatchesGuards | src/components/Flashcards.tsx:193-204 | a control is disabled exactly when its click would change nothing |
| Flashcards.PrevUndoesNext | src/components/Flashcards.tsx:97-111 | a move right followed by a move left returns to the same card, question side up |
| Flashcards.FlipTwice | src/components/Flashcards.tsx:113-115 | flipping twice is the identity |
| ProjectManagement.JsRem | src/pages/ProjectManagement.tsx:17 | JavaScript `%`: the remainder of truncating division, a == b x JsQuot(a, b) + r, with the sign of the dividend and magnitude below b |
| ProjectManagement.JsQuot | src/pages/ProjectManagement.tsx:17 | truncating division: the quotient has the sign of the dividend (zero allowed) |
| ProjectManagement.JsRemOfNegative | src/pages/ProjectManagement.tsx:17-21 | JavaScript's -1 % 11 is -1, not the 10 of floored division, which is why prev adds 11 first |
| ProjectManagement.InitialSlideshow | src/pages/ProjectManagement.tsx:12-13 | the slideshow starts on the first slide, not fullscreen |
| ProjectManagement.NextSlide | src/pages/ProjectManagement.tsx:16-18 | next advances by one and wraps from the last slide to the first; the index stays in [0, 11) |
| ProjectManagement.PrevSlide | src/pages/ProjectManagement.tsx:20-22 | prev goes back by one and wraps from the first slide to the last; the index stays in [0, 11) |
| ProjectManagement.ToggleFullscreen | src/pages/ProjectManagement.tsx:24-26 | the fullscreen flag is negated and the slide is unchanged |
| ProjectManagement.NextPrevInverse | src/pages/ProjectManagement.tsx:16-22 | prev undoes next and next undoes prev |
| ProjectManagement.NextTimesAdvances | src/pages/ProjectManagement.tsx:14-18 | n clicks on next advance the slide by n modulo 11 |
| ProjectManagement.FullCyclesReturn | src/pages/ProjectManagement.tsx:14-18 | any multiple of eleven clicks on next, eleven in particular, returns to the starting slide |
| ProjectManagement.SlidePath | src/pages/ProjectManagement.tsx:29-32 | a slide path has the blueprint prefix and ".png" suffix, with exactly two digits for slides below 100 |
| ProjectManagement.SlidePathRoundTrip | src/pages/ProjectManagement.tsx:29-32 | reading the number back out of slide i's path gives i + 1 |
| ProjectManagement.SlidePathInjective | src/pages/ProjectManagement.tsx:29-32 | distinct slides have distinct image paths |
| ProjectManagement.SlidePathExamples | src/pages/ProjectManagement.tsx:29-32 | slides 0 and 10 are slide-01.png and slide-11.png |
| ProjectManagement.FindStage | src/pages/ProjectManagement.tsx:89 | the first stage with the id is found; there is none iff no stage has that id |
| ProjectManagement.ActiveStage | src/pages/ProjectManagement.tsx:89 | when some stage has the selected id the active stage is the first such stage, as `FindStage` finds it; otherwise it is the first stage; any active stage is one of the listed stages, and there is none only for an empty list |
| ProjectManagement.InitialStepper | src/pages/ProjectManagement.tsx:86 | the stepper starts at stage 1 |
| ProjectManagement.SelectStage | src/pages/ProjectManagement.tsx:150 | clicking a stage selects its id |
| ProjectManagement.ContinueStage | src/pages/ProjectManagement.tsx:315 | "Continue" advances ids below 5 by one and sends anything else to 1 |
| ProjectManagement.ContinueStaysInRange | src/pages/ProjectManagement.tsx:315 | the ids 1 to 5 are closed under "Continue" |
| ProjectManagement.ContinueCycles | src/pages/ProjectManagement.tsx:315 | five clicks on "Continue" return to the same stage |
| ProjectManagement.ChapterLabel | src/pages/ProjectManagement.tsx:200 | the chapter label is a colon-free prefix of the title, the whole title when it has no ':' |
| ProjectManagement.ChapterLabelOfColonTitle | src/pages/ProjectManagement.tsx:200 | "Name: subtitle" is labelled "Name" |
| ProjectManagement.StripStepPrefix | src/pages/ProjectManagement.tsx:213 | the shown heading is a suffix of the heading; a heading not starting with "Step " is unchanged |
| ProjectManagement.StripNumberedHeading | src/pages/ProjectManagement.tsx:213 | "Step <digits>: title" becomes exactly "title" |
| ProjectManagement.StripOnlyNumbered | src/pages/ProjectManagement.tsx:213 | a heading is changed only when it is "Step ", one or more digits, ": " and a title; every other heading is shown unchanged |
| ProjectManagement.StripOnlyOnce | src/pages/ProjectManagement.tsx:213 | only one anchored prefix is removed |
| ProjectManagement.StripNeedsADigit | src/pages/ProjectManagement.tsx:213 | without a digit the prefix does not match and the heading is unchanged |
| ProjectManagement.AnchorId | src/pages/ProjectManagement.tsx:278 | every anchor id starts with "section-" |
| ProjectManagement.SidebarHref | src/pages/ProjectManagement.tsx:206 | every sidebar link is a fragment link starting with '#' |
| ProjectManagement.LinksReachAnchors | src/pages/ProjectManagement.tsx:206-210 | a sidebar link names the anchor id that the content gives the same section |
| ProjectManagement.AnchorIdInjective | src/pages/ProjectManagement.tsx:278 | distinct (chapter, section) pairs get distinct anchor ids |
| DocumentCard.IsOfficeFile | src/components/DocumentCard.tsx:16 | definition: the file type is one of doc, docx, xls, xlsx, ppt and pptx; `DocumentCard.OfficeCatalogTypes` applies it to the catalog |
| DocumentCard.OfficeCatalogTypes | src/components/DocumentCard.tsx:16 | of the catalog's file types, all but pdf open in the office viewer |
| DocumentCard.ViewUrl | src/components/DocumentCard.tsx:19-32 | the view URL is "#" iff the path is empty or "#"; an office file gets the viewer prefix and suffix; any other file keeps its path |
| DocumentCard.ViewerGetsEncodedUrl | src/components/DocumentCard.tsx:25-27 | the viewer URL carries exactly the encoded absolute URL of the file |
| DocumentCard.BaseName | src/components/DocumentCard.tsx:48 | the base name is the prefix before the last '.', and empty when there is no '.' |
| DocumentCard.ReplaceImageExtension | src/components/DocumentCard.tsx:45 | a trailing .jpeg, .jpg or .png in any case becomes ".jpg"; any other name is unchanged |
| DocumentCard.PreviewPath | src/components/DocumentCard.tsx:38-50 | there is no preview iff the path is empty or "#" or ends in '/'; any preview lies under "/documents/previews/" |
| DocumentCard.ActionsDisabled | src/components/DocumentCard.tsx:127-139 | download and view are disabled iff the path is empty or "#" |
| DocumentCard.DownloadAttribute | src/components/DocumentCard.tsx:129 | definition: the download attribute is set iff the path is not "#"; `DocumentCard.DisabledIffNoView` ties the controls to the view URL |
| DocumentCard.VisibleTags | src/components/DocumentCard.tsx:114 | at most the first three tags are shown, in order |
| DocumentCard.DisabledIffNoView | src/components/DocumentCard.tsx:20-139 | the actions are disabled exactly when the view URL is "#" |
| DocumentCard.PlaceholderHasNothing | src/components/DocumentCard.tsx:19-41 | a placeholder path has neither a view URL nor a preview |
| DocumentCard.PreviewOfDocument | src/components/DocumentCard.tsx:38-50 | a non-Infographic file in "/documents/" previews as its base name plus ".jpg" |
| DocumentCard.PreviewOfInfographic | src/components/DocumentCard.tsx:43-46 | an "Infographic" file in "/documents/" previews under "/documents/previews/" as its own name with the image extension normalised |
| DocumentCard.BaseNameKeepsInnerDots | src/components/DocumentCard.tsx:48 | only the last extension is removed: "a.b.pdf" has base name "a.b" |
| DocumentCard.NoDotGivesEmptyBase | src/components/DocumentCard.tsx:48-49 | a file name without '.' previews as just ".jpg" |
| DocumentCard.InfographicExtension | src/components/DocumentCard.tsx:44-46 | ".PNG" and ".jpeg" become ".jpg" |
| DocumentCard.NonImageKept | src/components/DocumentCard.tsx:44-46 | a ".pdf" name is not renamed by the image rule |
| Layout.IsActive | src/components/Layout.tsx:68 | definition: the location equals the item's path, or the item is not the root and its path is a raw prefix of the location; the lemmas below state its consequences |
| Layout.ActiveItems | src/components/Layout.tsx:67-68 | the highlighted items are exactly the items whose path satisfies the active rule |
| Layout.ActiveAtOwnPath | src/components/Layout.tsx:68 | every item is active at its own path |
| Layout.RootOnlyOnExactMatch | src/components/Layout.tsx:68 | the root item is active only at "/" |
| Layout.NonRootIsPrefixRule | src/components/Layout.tsx:68 | any other item is active iff its path is a raw prefix of the location |
| Layout.PrefixIsNotSegmentAware | src/components/Layout.tsx:68 | "/examples" is active at "/examples-x" |
| Layout.TwoItemsActive | src/components/Layout.tsx:30-31 | at "/examples?category=Financial" both "Examples" and "Financial" are active |
| Layout.NavPathsDistinct | src/components/Layout.tsx:28-36 | the sidebar paths, used as list keys, are pairwise distinct |
| Layout.InitialFrame | src/components/Layout.tsx:25 | the sidebar starts closed |
| Layout.ToggleSidebar | src/components/Layout.tsx:112 | definition: the menu button flips the sidebar; `Layout.ToggleTwice` and `Layout.ToggleThenOverlay` are its properties |
| Layout.OverlayShown | src/components/Layout.tsx:41 | definition: the overlay is shown iff the sidebar is open; `Layout.ToggleThenOverlay` relates it to the clicks |
| Layout.OverlayClick | src/components/Layout.tsx:44 | an overlay click closes the sidebar |
| Layout.ToggleThenOverlay | src/components/Layout.tsx:44-112 | opening the sidebar and then clicking the overlay returns to the closed frame |
| Layout.ToggleTwice | src/components/Layout.tsx:112 | two clicks on the menu button change nothing |
| Layout.LogOutClick | src/components/Layout.tsx:92 | "Log Out" lowers the flag and removes the stored key; every other storage key keeps its value |
| Layout.LogOutLocksTheSite | src/components/Layout.tsx:92 | after "Log Out" every protected route redirects, before and after a reload |
| PlaceholderPage.Segment | src/pages/PlaceholderPage.tsx:9 | there is a segment iff the location has a '/'; it is the '/'-free text that starts right after the first '/' and runs to the next '/' or the end |
| PlaceholderPage.SegmentAfterLeadingSlash | src/pages/PlaceholderPage.tsx:9 | for a location "/x" the segment is the part of x before its first '/' |
| PlaceholderPage.ReplaceFirstHyphen | src/pages/PlaceholderPage.tsx:9 | definition: the first '-' becomes a space and the length is kept; `PlaceholderPage.OnlyFirstHyphenReplaced` states that later hyphens stay |
| PlaceholderPage.CapitalizeFirst | src/pages/PlaceholderPage.tsx:9 | a leading word character is upper-cased; every other character is unchanged |
| PlaceholderPage.Title | src/pages/PlaceholderPage.tsx:9 | there is a title iff the location has a '/', and it is as long as the segment |
| PlaceholderPage.TitleOfTopLevel | src/pages/PlaceholderPage.tsx:9 | for "/seg" with no further '/', the title is seg with its first '-' made a space and a leading word character upper-cased |
| PlaceholderPage.Heading | src/pages/PlaceholderPage.tsx:20 | the heading is the title, or "Page" when it is empty, followed by " Under Construction" |
| PlaceholderPage.OnlyFirstHyphenReplaced | src/pages/PlaceholderPage.tsx:9 | in "a-b" with no '-' in a, only that first '-' becomes a space; hyphens in b are kept |
| PlaceholderPage.LaterSegmentsIgnored | src/pages/PlaceholderPage.tsx:9 | anything after the second '/' does not affect the title |
| PlaceholderPage.RootFallsBackToPage | src/pages/PlaceholderPage.tsx:9-20 | at "/" the title is empty and the heading reads "Page Under Construction" |
| PlaceholderPage.NoSlashNoTitle | src/pages/PlaceholderPage.tsx:9 | a location without '/' has no title |
| PlaceholderPage.HyphenatedTitle | src/pages/PlaceholderPage.tsx:9 | "/w1-w2" is titled with w1 capitalised, then a space, then w2 |
| PlaceholderPage.LeadingNonWordKept | src/pages/PlaceholderPage.tsx:9 | "/-x" is titled " x": a space is not a word character and is kept |
| Estimator.SignTypeOf | src/components/EstimatorCalculator.tsx:14-18 | a select value is unlisted iff it is none of the four keys of the materials table, and an unlisted value is kept as it is; "ada-sign" reads as the ADA sign |
| Estimator.BasePrice | src/components/EstimatorCalculator.tsx:14-19 | the four listed sign types have a positive base price; any other value has none |
| Estimator.InitialInputs | src/components/EstimatorCalculator.tsx:24-27 | the calculator starts with one 8 x 8 inch ADA sign and half an hour to install |
| Estimator.MaterialCost | src/components/EstimatorCalculator.tsx:36-49 | definition: a cost exists iff the sign type is listed; `Estimator.PricingRules` states the per-type values |
| Estimator.PricingRules | src/components/EstimatorCalculator.tsx:39-49 | cast aluminum is 120 times height/12 per piece, ADA 35 per piece, acrylic 45 and vinyl 15 per square foot |
| Estimator.Estimate | src/components/EstimatorCalculator.tsx:35-56 | the total exists iff the material cost does, and equals (material + hours x 85) x 1.4 |
| Estimator.Reset | src/components/EstimatorCalculator.tsx:157-160 | reset sets quantity 1 and hours 0.5 and keeps the sign type and dimensions |
| Estimator.InitialEstimate | src/components/EstimatorCalculator.tsx:24-53 | the initial inputs are estimated at exactly 108.5 |
| Estimator.ResetRestoresInitialEstimate | src/components/EstimatorCalculator.tsx:157-160 | reset on an 8 x 8 ADA sign gives 108.5 again |
| Estimator.AdaIgnoresDimensions | src/components/EstimatorCalculator.tsx:42-44 | an ADA sign's estimate does not depend on width or height |
| Estimator.CastAluminumIgnoresWidth | src/components/EstimatorCalculator.tsx:39-41 | a cast aluminum estimate does not depend on width |
| Estimator.HourAddsMarkedUpRate | src/components/EstimatorCalculator.tsx:51-53 | one more install hour adds 119 to the total, whatever else is chosen |
| Estimator.UnknownTypeHasNoEstimate | src/components/EstimatorCalculator.tsx:37 | an unlisted sign type has no estimate |
| Estimator.EstimateNonNegative | src/components/EstimatorCalculator.tsx:35-53 | non-negative inputs give a non-negative total |
| Estimator.EstimateMonotoneInQuantity | src/components/EstimatorCalculator.tsx:35-53 | with non-negative sizes, more signs never cost less |
| Strings.Contains | src/pages/Examples.tsx:27-29 | definition of `includes` as a left-to-right scan; `Strings.ContainsIffOccurs` relates it to positions |
| Strings.Lower | src/pages/Examples.tsx:27-29 | lower-casing keeps the length and lowers each character (ASCII) |
| Strings.ContainsIffOccurs | src/pages/Examples.tsx:27-29 | `includes` holds iff the pattern occurs at some position |
| Strings.IndexOf | src/pages/PlaceholderPage.tsx:9 | `indexOf` is -1 iff the character is absent; otherwise it marks the first occurrence, with none before it |
| Strings.BeforeFirst | src/pages/ProjectManagement.tsx:200 | `split(sep)[0]` is the separator-free prefix before the first separator, or the whole string |
| Strings.AfterLast | src/components/DocumentCard.tsx:40 | `split(sep).pop()` is the separator-free suffix after the last separator, or the whole string |
| Strings.LastIndexOf | src/components/DocumentCard.tsx:48 | `lastIndexOf` is -1 iff the character is absent; otherwise it marks the last occurrence |
| Strings.DecimalString | src/pages/ProjectManagement.tsx:30 | `toString` of a natural number is a non-empty digit string, one digit long iff the number is below 10, with no leading '0' except for 0 itself; `Strings.DecimalRoundTrip` is its inverse |
| Strings.CanonicalNumeral | src/pages/ProjectManagement.tsx:30 | every digit string without a leading zero is printed back unchanged from its value, so `toString` output is the one canonical numeral |
| Strings.PadStart | src/pages/ProjectManagement.tsx:30 | `padStart` keeps a long enough string, and otherwise pads it on the left to the width |
| Strings.DecimalRoundTrip | src/pages/ProjectManagement.tsx:30 | reading back a printed number gives the number |

## Left out

- Rendering: JSX, styling, framer-motion animations, scrolling, and the
  static content pages. They hold presentation, not rules.
- MindMap: its zoom and pan canvas is presentation.
- Route matching in `src/App.tsx`: it depends on the router library's
  `Switch` semantics, which are not visible here.
- `generate_placeholders.py`: file I/O through document libraries.
- `client/src/lib/data.ts`: a near-duplicate of the catalog. It is not a second fixture here; the `"#"` branches of DocumentCard are covered for every path.
- Library calls:
  - `Papa.parse`, a foreign library: only its output rows are modelled.
  - `localStorage` is a map.
  - `URLSearchParams` is a list of key/value pairs.
  - `new URL(..).href` and `encodeURIComponent` are parameters.
- Unicode case mapping: `toLowerCase` and `toUpperCase` are ASCII only.
- Floating point: the estimate uses exact reals. IEEE rounding, the
  `Intl.NumberFormat` currency display and the flashcard progress-bar
  percentage are not modelled.
- Estimator inputs:
  - The input widgets' bounds (sliders and number fields) are not modelled; inputs are any reals.
  - The sign-type select is a datatype with one constructor per listed value plus `Unlisted`, which stands for a value that is none of the four. `Estimator.SignTypeOf` reads a select value into it, so `Unlisted("ada-sign")` never arises from a value.
  - The total shown before the first effect run (0) is not modelled.
- The shared password is a plaintext client-side constant. Nothing here claims it is a security boundary.
- CatalogFilter.SovFinancial: proves that both SOV documents are in the result for ("sov", "Financial"), not that they are the whole result. Proving that no other Financial document contains "sov" needs per-character reasoning over long string literals, which the verifier does not carry out.
- CatalogFilter.SovEstimating: proves that neither SOV document is in the result for ("sov", "Estimating"), not that the result is empty, for the same reason.
- Estimator.CastAluminumIgnoresWidth: compares the two totals' values. Both exist by `Estimate`'s contract, but the verifier does not close the equality of the two optional values on nonlinear real terms.
