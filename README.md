# neon-dream-visuals: a verified model of the front-end's logic

This project models, in Dafny, the logic of the neon-dream-visuals front-end, an
AI image-generation site. The site is a React application backed by a hosted
database. The model covers:

- **The credit ledger.** The hook behind it holds the user's balance row and the newest fifty credit transactions. It has a deduction that a stored procedure decides, and a crediting that inserts a transaction and then updates one balance field.
- **The credit figures.** These are the dashboard card, the static credit card, the usage calculator, the pricing table, the API form's usage statistics and the rate-limit panel.
- **The three table hooks.** They cover image interactions (like/bookmark toggles, view tracking), collections and collection links, and the panel that creates collections.
- **The list filters.** These are the advanced gallery (search, category and style), the community gallery, the prompt suggestions, the model search and the unread count of the notification bell.
- **The small state machines.** These are gallery pagination, the lightbox (navigation, zoom, info panel, keys, like/bookmark), the showcase dialog's cyclic index and the pull-to-refresh gesture.

Each source file has one module. The shared helper modules are:

- `Wrappers`: `Option`.
- `Backend`: how a call to the hosted database ended. `Applied` means it went through. `Rejected` means the client returned an error or no data. `Raised` means an exception reached the `catch`.
- `Text`: ASCII lower-casing, substring search, the `\s+` replacement, `trim` and `split`.
- `Decimal`: number-to-text.
- `Sequences`: order-preserving filter, subsequence and a stable descending sort.

State that the source updates in place is modelled as classes with `modifies` clauses:

- hook state and React component state;
- the database tables, held in an in-memory store class.

Pure derivations are functions. Where the source's outcome depends on the database, a clock or a random draw, the outcome is a parameter.

## Model

| member | source | states |
|---|---|---|
| EnhancedCredits.RecentTransactions | src/hooks/useEnhancedCredits.tsx:57-61 | at most 50 rows, newest `created_at` first, each ledger row at most as often as it is stored (a sub-multiset); every row (as a permutation) when there are fewer; no row left out is newer than a kept one |
| EnhancedCredits.ApplyCredit | src/hooks/useEnhancedCredits.tsx:111-118 | a bonus adds the amount to `bonus_credits`, a credit or refund to `credits_remaining`; `updated_at` is set; every other field (used, lifetime used, monthly limit, reset date, the other balance) is unchanged |
| EnhancedCredits.ApplyCreditAvailable | src/hooks/useEnhancedCredits.tsx:111-115 | whatever the type, remaining plus bonus rises by exactly the amount |
| EnhancedCredits.NetAppend | src/hooks/useEnhancedCredits.tsx:101-108 | appending a transaction moves the ledger's signed net by that transaction's signed amount |
| EnhancedCredits.CreditKeepsReconciled | src/hooks/useEnhancedCredits.tsx:101-118 | when both writes of a crediting take effect, available credits minus the ledger's net stay the same |
| EnhancedCredits.InsertOnlyDrifts | src/hooks/useEnhancedCredits.tsx:101-118 | when only the ledger insert lands, available credits minus the ledger's net fall by the amount |
| EnhancedCredits.CreditsHook.constructor | src/hooks/useEnhancedCredits.tsx:33-35 | no balance, no transactions, not loading |
| EnhancedCredits.CreditsHook.FetchCredits | src/hooks/useEnhancedCredits.tsx:37-53 | `credits` is replaced only when a row comes back; otherwise it is kept; `loading` ends false |
| EnhancedCredits.CreditsHook.FetchTransactions | src/hooks/useEnhancedCredits.tsx:55-67 | the newest fifty rows on success, `[]` when no data is returned, the old list when the call throws |
| EnhancedCredits.CreditsHook.Refresh | src/hooks/useEnhancedCredits.tsx:140-143 | both reads, credits and transactions, with the outcomes above |
| EnhancedCredits.CreditsHook.DeductCredits | src/hooks/useEnhancedCredits.tsx:69-94 | returns true iff the procedure answered `true` without error; only then are balance and ledger read back; otherwise hook state is unchanged |
| EnhancedCredits.CreditsHook.AddCredits | src/hooks/useEnhancedCredits.tsx:96-127 | one transaction with the given user, type (default `credit`), amount and description is appended; the user's row gets `ApplyCredit`; an error the client returns does not stop the next step; an exception stops everything after it; after both writes, both reads |
| EnhancedCredits.CreditsHook.AddCreditsAsWritten | src/hooks/useEnhancedCredits.tsx:96-127 | as written, the update throws while its object is built: the row is inserted when the insert applies, the balance row never changes, and credits, transactions and loading stay as they were |
| CreditDisplay.Category | src/components/EnhancedCreditDisplay.tsx:96 | a missing or empty reference type reads `General`, any other is shown as is |
| CreditDisplay.LineOf | src/components/EnhancedCreditDisplay.tsx:100-103 | a debit shows `-` in red, every other type `+`; the signed value shown equals the ledger's signed amount |
| CreditDisplay.Lines | src/components/EnhancedCreditDisplay.tsx:91-110 | one line per transaction, in the order received |
| CreditDisplay.Render | src/components/EnhancedCreditDisplay.tsx:12-91 | skeleton iff loading or no balance; available = remaining + bonus; the other figures come from the row; the transactions card iff the list is non-empty, with its first min(n, 10) rows in order |
| CreditDisplay.ListsNewest | src/components/EnhancedCreditDisplay.tsx:91 | fed by the hook, no ledger row missing from the card is newer than a listed one |
| ApiForm.Issues | src/components/ApiIntegrationForm.tsx:17-27 | each field is reported exactly when its schema rule is broken |
| ApiForm.AcceptedIff | src/components/ApiIntegrationForm.tsx:17-27 | accepted iff prompt ≥ 5 characters, model non-empty, width/height in [256,2048], quality in [1,100], steps in [1,50], guidance in [1,20] |
| ApiForm.DefaultsOnlyLackPrompt | src/components/ApiIntegrationForm.tsx:50-60 | every default is within bounds except the empty prompt, so an untouched form is refused |
| ApiForm.AfterGeneration | src/components/ApiIntegrationForm.tsx:122-127 | one more image, 5 more credits used, 5 fewer remaining; used + remaining unchanged |
| ApiForm.GenerationsClosedForm | src/components/ApiIntegrationForm.tsx:122-127 | n generations add n images and move 5n credits from remaining to used |
| ApiForm.CreditsConserved | src/components/ApiIntegrationForm.tsx:42-46 | used + remaining stays 1000 from the initial statistics |
| ApiForm.RemainingGoesNegative | src/components/ApiIntegrationForm.tsx:122-127 | nothing guards the balance: the 175th generation leaves −3 |
| ApiForm.GeneratorForm.constructor | src/components/ApiIntegrationForm.tsx:39-46 | idle, no images, statistics 42/128/872 |
| ApiForm.GeneratorForm.Submit | src/components/ApiIntegrationForm.tsx:86-136 | no key: nothing changes; success: the image is prepended and charged; exception: list and statistics kept; after either, idle with progress 0; the statistics stay consistent with the image count |
| ApiForm.DownloadName | src/components/ApiIntegrationForm.tsx:141 | `generated-`, the first 20 prompt characters with each whitespace run replaced by `-`, then `.png`; no whitespace, at most 34 characters |
| ApiForm.DownloadNameIgnoresTail | src/components/ApiIntegrationForm.tsx:141 | characters past the twentieth never change the name |
| ApiForm.DownloadNameOfLong | src/components/ApiIntegrationForm.tsx:141 | a prompt is named as its first twenty characters are |
| ApiForm.DownloadNameKeepsWord | src/components/ApiIntegrationForm.tsx:141 | a short prompt without whitespace appears verbatim |
| ApiForm.DownloadNameJoinsWords | src/components/ApiIntegrationForm.tsx:141 | a whitespace run between words becomes one `-` |
| UsageCalculator.TotalCredits | src/components/UsageCalculator.tsx:30-37 | the need is at least the number of items |
| UsageCalculator.TotalMonotone | src/components/UsageCalculator.tsx:30-37 | raising any slider never lowers the total |
| UsageCalculator.TotalAddsPrice | src/components/UsageCalculator.tsx:16-21 | one more basic/HD/ultra-HD/batch item adds 1/2/5/8 credits |
| UsageCalculator.FindIndex | src/components/UsageCalculator.tsx:41 | `find` stops at the first package with enough credits; all before it fall short |
| UsageCalculator.Recommend | src/components/UsageCalculator.tsx:39-42 | the recommendation is one of the packages |
| UsageCalculator.PackagesIncreasing | src/components/UsageCalculator.tsx:23-28 | package sizes strictly increase |
| UsageCalculator.RecommendSmallestSufficient | src/components/UsageCalculator.tsx:39-42 | the smallest sufficient package when one exists, otherwise the 2500 package |
| UsageCalculator.SlidersNeverNeedFallback | src/components/UsageCalculator.tsx:66-114 | within the sliders' maxima and steps the need is ≤ 1310 and always covered |
| UsageCalculator.InitialRecommendation | src/components/UsageCalculator.tsx:11-14 | the start values need 139 credits and get the 500-credit package |
| UsageCalculator.AdvertisedSavingsMatchUnitPrice | src/components/UsageCalculator.tsx:23-28 | each advertised saving is the per-credit price saving against the 100 package, rounded up |
| CreditSystem.LowCreditsIff | src/components/CreditSystem.tsx:12-54 | the warning (percentage < 20) shows iff 5·available < total |
| CreditSystem.Summarize | src/components/CreditSystem.tsx:41-54 | available + used = total; warning iff 5·available < total |
| CreditSystem.InitialSummary | src/components/CreditSystem.tsx:10-11 | 150 of 1000: 850 used, warning on |
| CreditSystem.CostLabel | src/components/CreditSystem.tsx:73 | the cost, then `Credit` iff the cost is 1, else `Credits` |
| CreditSystem.GuideAgreesWithCalculator | src/components/CreditSystem.tsx:14-21 | the guide's prices equal the usage calculator's |
| CreditSystem.OnlyBasicIsSingular | src/components/CreditSystem.tsx:73 | only the first guide entry is singular |
| Pricing.Price | src/components/Pricing.tsx:133 | the yearly price when yearly billing is on, the monthly price otherwise |
| Pricing.Suffix | src/components/Pricing.tsx:135-139 | a period iff the plan is paid; `/year` or `/month` by mode |
| Pricing.Savings | src/components/Pricing.tsx:142-146 | shown iff yearly and paid |
| Pricing.SavingsComplementsPrice | src/components/Pricing.tsx:142-146 | yearly price + saving = twelve monthly payments |
| Pricing.FreeCostsNothing | src/components/Pricing.tsx:14 | Free is 0 either way, without period or saving |
| Pricing.YearlyCheaper | src/components/Pricing.tsx:29-46 | every paid plan is cheaper yearly; Pro saves 58, Enterprise 198 |
| Pricing.BadgeOverstatesSaving | src/components/Pricing.tsx:98 | yearly is ten months, a saving of one sixth, below the advertised 20% |
| RateLimits.TimeUntilReset | src/components/ApiRateLimits.tsx:32-44 | `Reset now` iff diff ≤ 0; hours shown only when positive; minutes < 60 |
| RateLimits.CountdownBracketsDiff | src/components/ApiRateLimits.tsx:39-43 | the countdown is the remaining time rounded down to a minute |
| RateLimits.CountdownMonotone | src/components/ApiRateLimits.tsx:39-43 | a later reset never shows a shorter countdown |
| RateLimits.Render | src/components/ApiRateLimits.tsx:37-43 | the text ends in `w` only for `Reset now` |
| RateLimits.ReadRender | src/components/ApiRateLimits.tsx:37-43 | reading the text back (`Reset now`, digits `h ` digits `m`, or digits `m`) gives the same countdown, hours and minutes included |
| RateLimits.RenderInjective | src/components/ApiRateLimits.tsx:37-43 | different countdowns never show the same text |
| RateLimits.ResetNowIff | src/components/ApiRateLimits.tsx:37 | the text is `Reset now` iff diff ≤ 0 |
| RateLimits.UsageColorIff | src/components/ApiRateLimits.tsx:46-51 | red iff 10·used ≥ 9·limit, yellow iff 7·limit ≤ 10·used < 9·limit, green otherwise |
| RateLimits.UsageColorMonotone | src/components/ApiRateLimits.tsx:46-51 | more usage never shows a milder colour |
| RateLimits.ApproachingLimitIff | src/components/ApiRateLimits.tsx:167 | the banner shows iff 5·used > 4·limit |
| RateLimits.ShownFiguresCalm | src/components/ApiRateLimits.tsx:18-23 | the displayed counters are all green and the banner is hidden |
| ImageInteractions.Matches | src/hooks/useImageInteractions.tsx:21-25 | exactly the rows for that image and type |
| ImageInteractions.Single | src/hooks/useImageInteractions.tsx:21-26 | a row comes back iff exactly one matches |
| ImageInteractions.WithoutId | src/hooks/useImageInteractions.tsx:30-33 | every row but the one with that id |
| ImageInteractions.ToggleFlips | src/hooks/useImageInteractions.tsx:28-48 | with at most one row per image and type, a toggle flips whether the row exists and keeps ids unique |
| ImageInteractions.ToggleTwiceRestores | src/hooks/useImageInteractions.tsx:28-48 | two toggles restore whether the image is liked or bookmarked |
| ImageInteractions.DuplicatesOnlyGrow | src/hooks/useImageInteractions.tsx:21-48 | once two rows exist, `.single()` finds none and each toggle adds another |
| ImageInteractions.InteractionsHook.constructor | src/hooks/useImageInteractions.tsx:16 | not loading |
| ImageInteractions.InteractionsHook.ToggleInteraction | src/hooks/useImageInteractions.tsx:18-57 | an existing row is deleted and false returned; otherwise a row is inserted and true returned unless an exception occurs; an exception returns false; loading ends false |
| ImageInteractions.InteractionsHook.TrackView | src/hooks/useImageInteractions.tsx:59-71 | at most one `view` row is added; other kinds are untouched |
| ImageInteractions.InteractionsHook.GetInteractions | src/hooks/useImageInteractions.tsx:73-85 | exactly the image's rows in table order, or `[]` when no data comes back |
| Collections.NewestFirst | src/hooks/useCollections.tsx:25-28 | a permutation, newest `created_at` first |
| Collections.Unlink | src/hooks/useCollections.tsx:81-85 | no row of that pair remains; every other link keeps its number of copies; order is kept |
| Collections.LinkTwiceKeepsBoth | src/hooks/useCollections.tsx:65-70 | no duplicate check: two adds leave two rows |
| Collections.UnlinkAfterLink | src/hooks/useCollections.tsx:79-85 | removing undoes adding a pair the list did not hold |
| Collections.CollectionsHook.constructor | src/hooks/useCollections.tsx:19-20 | no collections, not loading |
| Collections.CollectionsHook.FetchCollections | src/hooks/useCollections.tsx:22-37 | newest first on success, `[]` on no data, old list on exception; loading ends false |
| Collections.CollectionsHook.CreateCollection | src/hooks/useCollections.tsx:39-61 | on success the new collection (private by default) is first in the list and returned; otherwise nothing changes and nothing is returned |
| Collections.CollectionsHook.AddImageToCollection | src/hooks/useCollections.tsx:63-77 | one more link row, whatever exists |
| Collections.CollectionsHook.RemoveImageFromCollection | src/hooks/useCollections.tsx:79-92 | no link of that pair remains; other links stay |
| CollectionManager.DescriptionArgument | src/components/CollectionManager.tsx:33 | the trimmed description, or none iff it is all whitespace |
| CollectionManager.EnabledCreateIsNotBlank | src/components/CollectionManager.tsx:139 | an enabled Create button means the name has a non-space character |
| CollectionManager.Manager.constructor | src/components/CollectionManager.tsx:20-26 | dialog closed, fields empty, private, nothing selected |
| CollectionManager.Manager.HandleCreateCollection | src/components/CollectionManager.tsx:28-46 | a blank name changes nothing; otherwise the trimmed name and description are created, the image is filed if created and present, the hook's list gains the new collection first exactly when the insert applied, and the dialog resets even on failure; a created collection with an image present leaves the add-to-collection picker (`PickerShown`, the `imageId && collections.length > 0` guard of line 59) on screen |
| CollectionManager.Manager.CreateAndReset | src/components/CollectionManager.tsx:31-45 | the part past the guard, with the same outcomes on the tables, the hook's list, the dialog and the picker |
| CollectionManager.Manager.HandleAddToExisting | src/components/CollectionManager.tsx:48-54 | no-op without selection or image; otherwise one link and the selection clears |
| AdvancedGallery.ImageIdInjective | src/components/AdvancedImageGallery.tsx:53 | different positions get different ids |
| AdvancedGallery.MockImage | src/components/AdvancedImageGallery.tsx:47-67 | id `img-i`, category and style `i mod 5`, width 400, height 300 + i mod 200, likes in [10, 510) |
| AdvancedGallery.Generate | src/components/AdvancedImageGallery.tsx:43-69 | `count` images, image k placed at `start + k` |
| AdvancedGallery.PlacedIdsUnique | src/components/AdvancedImageGallery.tsx:53 | images placed by position have distinct ids |
| AdvancedGallery.FilteredSpec | src/components/AdvancedImageGallery.tsx:79-98 | the three filters keep exactly the images passing all three, as an order-preserving subsequence |
| AdvancedGallery.FilteredIsKeep | src/components/AdvancedImageGallery.tsx:79-98 | the chain equals one filter on the conjunction |
| AdvancedGallery.FilterIfIsFilter | src/components/AdvancedImageGallery.tsx:82-95 | a skipped filter keeps everything |
| AdvancedGallery.NoFilterShowsAll | src/components/AdvancedImageGallery.tsx:79-98 | no search and both filters `all` give the whole list |
| AdvancedGallery.Act | src/components/AdvancedImageGallery.tsx:136-143 | the id stays; a like flips `isLiked` and moves `likes` one step toward the new state; a bookmark flips `isBookmarked`; the other action's fields stay |
| AdvancedGallery.ApplyAction | src/components/AdvancedImageGallery.tsx:133-148 | same length; images with the id are acted on, others kept |
| AdvancedGallery.ActKeepsPlace | src/components/AdvancedImageGallery.tsx:133-148 | acting keeps the fields derived from the position |
| AdvancedGallery.LikeCounts | src/components/AdvancedImageGallery.tsx:136-141 | a like flips `isLiked` and moves `likes` by ±1 |
| AdvancedGallery.BookmarkOnlyFlips | src/components/AdvancedImageGallery.tsx:142-143 | a bookmark flips only `isBookmarked` |
| AdvancedGallery.ActionTwiceRestores | src/components/AdvancedImageGallery.tsx:133-148 | the same action twice restores the list |
| AdvancedGallery.PlacedAppend | src/components/AdvancedImageGallery.tsx:121-122 | a batch generated from the current length continues the positions |
| AdvancedGallery.Gallery.constructor | src/components/AdvancedImageGallery.tsx:72-76 | the first twenty images, no filters, page 1, more to load |
| AdvancedGallery.Gallery.Bounded | src/components/AdvancedImageGallery.tsx:126-129 | at most 100 images, all ids distinct |
| AdvancedGallery.Gallery.RequestMore | src/components/AdvancedImageGallery.tsx:114-117 | ignored while loading or without more; keeps the pagination invariant |
| AdvancedGallery.Gallery.FinishLoad | src/components/AdvancedImageGallery.tsx:120-130 | appends images `page·20 …`, increments the page, stops at page ≥ 4, keeps the invariant |
| AdvancedGallery.Gallery.HandleImageAction | src/components/AdvancedImageGallery.tsx:133-148 | the list becomes `ApplyAction`; invariant kept |
| AdvancedGallery.Gallery.SetSearchTerm | src/components/AdvancedImageGallery.tsx:170 | the search box sets the term |
| AdvancedGallery.Gallery.SetCategory | src/components/AdvancedImageGallery.tsx:189 | the category control sets the category |
| AdvancedGallery.Gallery.SetStyle | src/components/AdvancedImageGallery.tsx:190 | the style control sets the style |
| Lightbox.IndexOf | src/components/GalleryLightbox.tsx:31 | the first position with the id, −1 iff none |
| Lightbox.IndexOfUnique | src/components/GalleryLightbox.tsx:31 | with distinct ids, each image is found at its own position |
| Lightbox.ShownListUnique | src/components/AdvancedImageGallery.tsx:245 | the filtered list handed to the lightbox has distinct ids |
| Lightbox.ActKeepsFilters | src/components/AdvancedImageGallery.tsx:133-148 | an action changes neither id nor whether the filters keep an image |
| Lightbox.FilterThenAct | src/components/AdvancedImageGallery.tsx:79-148 | filtering then acting equals acting then filtering |
| Lightbox.ShownListAfterAction | src/components/AdvancedImageGallery.tsx:245-248 | a like/bookmark reaches the lightbox's list as the same action; nothing enters, leaves or moves |
| Lightbox.IndexOfAfterAction | src/components/GalleryLightbox.tsx:31 | an action never changes where an id is found |
| Lightbox.Latest | src/components/GalleryLightbox.tsx:188-223 | the current version of the image: the list's image with its id, or the image itself if absent |
| Lightbox.SelectedCopyGoesStale | src/components/AdvancedImageGallery.tsx:244-248 | after a like/bookmark the selected copy no longer matches the gallery's image; a like leaves the heart wrong |
| Lightbox.LatestFollowsAction | src/components/AdvancedImageGallery.tsx:247-248 | the image read back by id shows every action |
| Lightbox.ZoomedIn | src/components/GalleryLightbox.tsx:49 | at most 3; never lower; from a valid level a valid quarter-step level |
| Lightbox.ZoomedOut | src/components/GalleryLightbox.tsx:52 | at least 0.5; never higher; from a valid level a valid quarter-step level |
| Lightbox.ZoomStepsUndo | src/components/GalleryLightbox.tsx:47-53 | in then out (below the cap) or out then in (above the floor) returns the level |
| Lightbox.ZoomPercent | src/components/GalleryLightbox.tsx:102 | the badge is a multiple of 25 from 50 to 300, equal to zoom·100 |
| Lightbox.Slug | src/components/GalleryLightbox.tsx:84 | no whitespace, no longer than the title |
| Lightbox.DownloadName | src/components/GalleryLightbox.tsx:81-84 | slug, `.`, then the format (default `jpg`) |
| Lightbox.SlugOfWord | src/components/GalleryLightbox.tsx:84 | a one-word title is only lower-cased |
| Lightbox.SlugJoinsWords | src/components/GalleryLightbox.tsx:84 | words separated by any whitespace run are joined by one `-` |
| Lightbox.KeyCommandKeys | src/components/GalleryLightbox.tsx:36-60 | `+` and `=` zoom in; only the eight listed keys do anything |
| Lightbox.Lightbox.constructor | src/components/GalleryLightbox.tsx:28-29 | zoom 1, info shown |
| Lightbox.Lightbox.UnlistedNextIsFirst | src/components/GalleryLightbox.tsx:31-33 | an unlisted image sits at −1: no previous, next leads to the first |
| Lightbox.Lightbox.Counter | src/components/GalleryLightbox.tsx:99 | the badge shows a position no greater than its second number, which is the length of the list the lightbox walks |
| Lightbox.Lightbox.CounterNamesShown | src/components/GalleryLightbox.tsx:99 | the badge's position is 0 exactly for an unlisted image and otherwise is the shown image's place counted from 1 |
| Lightbox.Lightbox.Next | src/components/GalleryLightbox.tsx:67-72 | when allowed, the next image and zoom 1; with distinct ids the index and the badge's position go up by one, the length stays; otherwise nothing |
| Lightbox.Lightbox.Previous | src/components/GalleryLightbox.tsx:74-79 | when allowed, the previous image and zoom 1; with distinct ids the index and the badge's position go down by one, the length stays; otherwise nothing |
| Lightbox.Lightbox.ZoomIn | src/components/GalleryLightbox.tsx:126 | `ZoomedIn`, zoom stays valid |
| Lightbox.Lightbox.ZoomOut | src/components/GalleryLightbox.tsx:110 | `ZoomedOut`, zoom stays valid |
| Lightbox.Lightbox.Fit | src/components/GalleryLightbox.tsx:118 | zoom 1 |
| Lightbox.Lightbox.ToggleInfo | src/components/GalleryLightbox.tsx:134 | flips the info panel |
| Lightbox.Lightbox.Close | src/components/GalleryLightbox.tsx:142 | the lightbox closes |
| Lightbox.Lightbox.HandleKey | src/components/GalleryLightbox.tsx:36-60 | each key's effect on image, zoom, info and open state |
| Lightbox.Lightbox.Act | src/components/GalleryLightbox.tsx:204-222 | the gallery acts on the image's id; the list keeps its order and the current index; the image shown follows the action; the gallery invariant holds |
| GalleryModal.JsRem | src/components/ImageGalleryModal.tsx:52 | JavaScript `%`: Euclidean for non-negative operands, sign of the dividend otherwise |
| GalleryModal.StepsStayInRange | src/components/ImageGalleryModal.tsx:51-57 | from a valid index both arrows land on a valid index, wrapping at the ends |
| GalleryModal.PrevUndoesNext | src/components/ImageGalleryModal.tsx:51-57 | back after forward and forward after back are the identity |
| GalleryModal.NextTimesAdvances | src/components/ImageGalleryModal.tsx:51-53 | k forward presses give (i + k) mod n |
| GalleryModal.FullRoundIsIdentity | src/components/ImageGalleryModal.tsx:51-53 | n forward presses are the identity |
| GalleryModal.ShowcaseDialog.constructor | src/components/ImageGalleryModal.tsx:17-18 | index 0, closed |
| GalleryModal.ShowcaseDialog.OpenCard | src/components/ImageGalleryModal.tsx:77-80 | card k: index k, open |
| GalleryModal.ShowcaseDialog.NextImage | src/components/ImageGalleryModal.tsx:51-53 | (i + 1) mod 4, in range |
| GalleryModal.ShowcaseDialog.PrevImage | src/components/ImageGalleryModal.tsx:55-57 | (i − 1 + 4) mod 4, in range |
| GalleryModal.ShowcaseDialog.SetOpen | src/components/ImageGalleryModal.tsx:73 | the dialog's open request sets the flag |
| CommunityGallery.FilteredImages | src/components/CommunityGallery.tsx:54-58 | kept iff the prompt contains the term and the chip is `all` or the style, ignoring case; order-preserving |
| CommunityGallery.NoFilterShowsAll | src/components/CommunityGallery.tsx:54-58 | empty search under `all` shows everything |
| CommunityGallery.LongerTermKeepsFewer | src/components/CommunityGallery.tsx:55 | extending the search term never brings an image back |
| CommunityGallery.EmptySearchMatches | src/components/CommunityGallery.tsx:55 | the empty term matches every prompt |
| CommunityGallery.ChipsPickOneEach | src/components/CommunityGallery.tsx:56 | each lower-case chip picks exactly the image of that capitalised style |
| CommunityGallery.BadgeCountsUnfiltered | src/components/CommunityGallery.tsx:69 | the badge counts all 3 images while the `fantasy` chip shows 1 |
| PromptSuggestions.SuggestionsAsWritten | src/components/PromptSuggestions.tsx:27-37 | none for prompts of ≤ 2 characters; at most 3, each passing the written test, a prefix of the passing list in order |
| PromptSuggestions.FirstMatches | src/components/PromptSuggestions.tsx:29-32 | at most 3 passing entries, a prefix of the filter, in list order |
| PromptSuggestions.ShowsFirstPassing | src/components/PromptSuggestions.tsx:29-32 | exactly the first three passing; all of them when three or fewer pass |
| PromptSuggestions.EmptyWordMatchesAll | src/components/PromptSuggestions.tsx:31 | an empty word makes every suggestion pass |
| PromptSuggestions.AllPassShowsFirstThree | src/components/PromptSuggestions.tsx:29-32 | when all pass, the first three of the list are shown |
| PromptSuggestions.TrailingSpaceShowsFirstThree | src/components/PromptSuggestions.tsx:31-32 | a trailing space yields the first three suggestions |
| PromptSuggestions.DoubleSpaceShowsFirstThree | src/components/PromptSuggestions.tsx:31-32 | a doubled space yields the first three suggestions |
| PromptSuggestions.TrailingSpaceIgnoresWords | src/components/PromptSuggestions.tsx:31 | past a trailing space the words typed make no difference |
| PromptSuggestions.SuggestionsFor | src/components/PromptSuggestions.tsx:27-37 | none for short prompts; at most 3, in list order, each holding a non-empty piece of the prompt ignoring case |
| PromptSuggestions.SharedPieces | src/components/PromptSuggestions.tsx:29-31 | every suggestion passing the intended test holds a non-empty piece of the prompt |
| PromptSuggestions.IntendedAgreesWithoutEmptyWords | src/components/PromptSuggestions.tsx:29-31 | without empty words the intended and written filters agree |
| PromptSuggestions.ShortPromptRendersNothing | src/components/PromptSuggestions.tsx:28-39 | a prompt of ≤ 2 characters renders nothing, as written or corrected |
| PromptSuggestions.TrailingSpaceRendersAsWritten | src/components/PromptSuggestions.tsx:28-39 | as written, a prompt of at least 2 characters followed by a space always opens the panel (`"zzz "` shows three badges) |
| SearchBar.Matching | src/components/SearchBar.tsx:19-21 | listed iff the name contains the query ignoring case; order-preserving |
| SearchBar.EmptyQueryListsAll | src/components/SearchBar.tsx:19-21 | the empty query lists every model |
| SearchBar.OwnNameMatches | src/components/SearchBar.tsx:70-73 | a model's own name matches it |
| SearchBar.Body | src/components/SearchBar.tsx:65-80 | `No models found` iff nothing matches; otherwise the non-empty listing |
| SearchBar.SearchPanel.constructor | src/components/SearchBar.tsx:7-17 | the six models, closed, empty query |
| SearchBar.SearchPanel.Toggle | src/components/SearchBar.tsx:29 | the icon flips the panel |
| SearchBar.SearchPanel.Close | src/components/SearchBar.tsx:36-50 | the backdrop and X close it |
| SearchBar.SearchPanel.SetQuery | src/components/SearchBar.tsx:59 | typing sets the query |
| SearchBar.SearchPanel.Select | src/components/SearchBar.tsx:70-73 | the query becomes the model, the panel closes, the model is still listed |
| NotificationBell.UnreadCount | src/components/NotificationBell.tsx:39 | the number of unread notifications, ≤ the length, 0 iff none unread |
| NotificationBell.AllUnreadIff | src/components/NotificationBell.tsx:39 | the count equals the length iff all are unread |
| NotificationBell.Badge | src/components/NotificationBell.tsx:50-54 | shown iff some notification is unread, with the (positive) count |
| NotificationBell.RowsOf | src/components/NotificationBell.tsx:61-83 | one row per notification, in order |
| NotificationBell.MenuOf | src/components/NotificationBell.tsx:60-88 | `No new notifications` iff the list is empty |
| NotificationBell.DotsMatchBadge | src/components/NotificationBell.tsx:50-72 | the dots in the menu add up to the badge's count |
| NotificationBell.SampleBadge | src/components/NotificationBell.tsx:15-39 | the sample data shows a badge of 2 |
| PullToRefresh.Shown | src/components/PullToRefresh.tsx:38 | clamped to 1.5·threshold, within [0, pull] |
| PullToRefresh.ShownKeepsThresholdSide | src/components/PullToRefresh.tsx:38-46 | clamping keeps the pull's side of the threshold |
| PullToRefresh.Progress | src/components/PullToRefresh.tsx:77 | in [0, 1], 1 iff the distance reaches the threshold |
| PullToRefresh.Gesture.constructor | src/components/PullToRefresh.tsx:15-23 | at rest, idle, with the given threshold and disabled flag, 100 and false by default |
| PullToRefresh.Gesture.PullProgress | src/components/PullToRefresh.tsx:77 | in [0, 1], full iff a release would refresh |
| PullToRefresh.Gesture.CaptionTracksArming | src/components/PullToRefresh.tsx:101-106 | the caption (`CaptionShown`) reads "Release to refresh" only over a full indicator, "Refreshing..." whenever a refresh runs (also over a full indicator), and "Pull to refresh" only while neither armed nor refreshing |
| PullToRefresh.Gesture.ArmedIsVisible | src/components/PullToRefresh.tsx:88 | with a threshold above 20 pixels, as the default 100 is, the indicator's opacity (`IndicatorVisible`) is 1 whenever the caption is not "Pull to refresh" |
| PullToRefresh.Gesture.TouchStart | src/components/PullToRefresh.tsx:25-28 | records the start unless disabled or scrolled |
| PullToRefresh.Gesture.TouchMove | src/components/PullToRefresh.tsx:30-41 | ignored while disabled, refreshing or scrolled; a downward pull sets the clamped distance and arms iff pull ≥ threshold; invariant kept |
| PullToRefresh.Gesture.TouchEnd | src/components/PullToRefresh.tsx:43-60 | starts a refresh iff armed on an enabled idle control; otherwise springs back; ignored while disabled or refreshing |
| PullToRefresh.Gesture.RefreshSettled | src/components/PullToRefresh.tsx:47-59 | success or failure, the control ends idle and at rest |

## Left out

- The hosted database client, `auth.getUser`, row-level security, toasts and console logging are not modelled. A call's outcome (`Backend.Reply`) and the rows it returns are parameters. The tables are an in-memory store class.
- EnhancedCredits.CreditsHook.DeductCredits: the `deduct_credits_v2` procedure body is not part of this model (src/integrations/supabase/types.ts:461-474 only declares it). Its answer and the tables it leaves are an oracle parameter. No draw order, atomicity or reference deduplication is assumed.
- EnhancedCredits.CreditsHook.AddCredits: models the evident intent of the update, field + amount. As written, the update object calls `supabase.sql`, which the client does not have, so it throws before the update is sent; that behaviour is `AddCreditsAsWritten` (see Findings). The two writes are not atomic, and concurrent tabs are outside a sequential model.
- EnhancedCredits.CreditsHook.Refresh: `refetch` starts both reads without awaiting either. The model runs them in sequence, credits first.
- `bonus_credits` is nullable in the database types but modelled as an integer. Timestamps are integer milliseconds, and ISO string order is assumed to agree with them.
- The API form's progress interval, its 3-second delay, and the random progress increments are left out. Only the final values the `finally` block sets are modelled. The SVG data URL of the mock image is reduced to the prompt, model, quality and timestamp it is drawn from. JavaScript counts UTF-16 code units where the model counts characters, so a character past U+FFFF counts twice in the source and once in the model: in Zod's length bounds, in `prompt.slice(0, 20)` of the download name, and in the `prompt.length > 2` guard of the suggestions.
- Floating point: the model computes percentages, pull distances and zoom levels in exact reals.
  - Zoom quarter steps are exact in binary floating point.
  - The usage-colour and banner thresholds are compared on exact rationals, stated as integer cross-multiplications. Where `used / limit` lands exactly on 70%, 80% or 90%, JavaScript's rounding of `(used / limit) * 100` may fall on either side of the threshold; the model does not capture that.
  - Dollar prices are in cents.
  - The dashboard's usage bar percentage is not modelled.
- `toLowerCase` is modelled on ASCII letters only. `\s` and `trim` use JavaScript's whitespace set: tab, line feed, vertical tab, form feed, carriage return, space, U+00A0, U+1680, U+2000–U+200A, U+2028, U+2029, U+202F, U+205F, U+3000 and U+FEFF.
- Random draws (likes, liked, bookmarked, age in `generateMockImages`) are a parameter function. The `setTimeout` in `loadMoreImages` is split into the request and the callback. The IntersectionObserver that triggers loading is left out.
- Date formatting (`toLocaleDateString`, the reset date) and the clock read in `getTimeUntilReset` are left out. The millisecond difference is a parameter.
- DOM work is left out: anchor downloads, the clipboard, the keyboard listener registration, styles (the pull indicator's height, translation, rotation and opacity beyond the visibility test) and animation.
- GalleryModal.ShowcaseDialog: the four card dialogs share one `isOpen` flag and are modelled as one dialog.
- PullToRefresh.Gesture.constructor: a threshold of 0 or less is excluded (at 0 the progress is `NaN`).
- SearchBar.SearchPanel.constructor: it states the model list but not that the initial listing is all six models. That is stated for any list by `SearchBar.EmptyQueryListsAll`.
- UsageCalculator.TotalCredits: its own contract only bounds the total from below. The weights are stated by `TotalAddsPrice` and the start value by `InitialRecommendation`.
- Lightbox.Lightbox: the `image` field is the gallery's selection, and `Shown` reads it back by id (the corrected display). `image` itself follows the source's snapshot, as stated by `SelectedCopyGoesStale`.

## Findings

| source | as written | input that shows it | evidently intended | confidence | as-written member | corrected member |
|---|---|---|---|---|---|---|
| src/components/AdvancedImageGallery.tsx:244-248 | the lightbox gets `image={selectedImage}`, a copy taken at selection; like and bookmark update `images` but not `selectedImage` | open `img-0` with `isLiked` false and press the heart: the gallery's image is liked, the lightbox still shows an empty heart and the old count | the lightbox shows the gallery's current version of the selected image | not executed | Lightbox.SelectedCopyGoesStale | Lightbox.Lightbox.Act |
| src/components/PromptSuggestions.tsx:31 | `split(' ')` of a prompt with a trailing or doubled space yields an empty word, and every suggestion `includes('')` | prompt `"vintage "`: the first three suggestions are shown, and the vintage-car suggestion is not | only non-empty words of the prompt select suggestions | not executed | PromptSuggestions.TrailingSpaceIgnoresWords | PromptSuggestions.SuggestionsFor |
| src/hooks/useEnhancedCredits.tsx:114-115 | the update object's value is built with `supabase.sql`, which the client does not have; the call throws inside the `try`, after the insert has landed | `addCredits(100, 'gift')` on a row with 50 remaining: the ledger gains a +100 credit row, `credits_remaining` stays 50, nothing is refetched and the error toast shows | the chosen field grows by the amount, so the balance and the ledger move together | not executed | EnhancedCredits.InsertOnlyDrifts | EnhancedCredits.CreditKeepsReconciled |
