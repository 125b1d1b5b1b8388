# Portfolio core, modelled in Dafny

This project models the logic of a personal portfolio site. The site has a
Django back end and a React front end. The model covers these parts:

- **Visitor analytics (back end).**
  - The tracking middleware creates or refreshes one visitor row per session.
    Refreshes are debounced by 30 seconds, the visit count goes up once per
    new UTC day, and the client address is updated.
  - The public track endpoint looks visitors up by client address and logs
    one page view per call.
  - The dashboard aggregates: totals, visitors active in the last 24 hours,
    page views per day over the last seven days, and the five most viewed paths.
  - The visitor list is ordered by last visit.
  - The record types carry their defaults, a unique session key and the
    cascade from a visitor to its page views.
  - Client-address resolution from proxy headers, and the location lookup's
    local-address short cut and error mapping.
- **Red-channel steganography (back end).** The secret text becomes a string
  of binary digits. Those digits are written, in row-major order, into the
  lowest bit of the red component of a copy of the pixel grid.
- **Chat assistant post-processing (back end).** The system prompt is built
  from the database. The reply is stripped, a related page is chosen from
  keywords, and any failure gives a fixed fallback.
- **Contact form (back end).** The form is validated, the mail settings are
  checked, and the message is built. The send outcome decides the response
  status.
- **Other back-end helpers.**
  - The home payload's project and skill selection.
  - The blog slug default and the cover-image URL.
  - The vault file URL.
- **Front-end logic.**
  - The projects page filter: text search plus category buttons.
  - The Devicon logo URL built from a skill name. It exists in two copies
    whose tables differ.
  - The project modal's gallery index and keyboard handling.
  - The project card's picture, auto-advance, dots, tags and badge.
  - The keyboard easter egg's ten-character buffer and its trigger words.
  - The journey timeline's icon rules and scroll step.

Time is whole seconds since the epoch in UTC. The calendar date of `t` is
`t / 86400`. The database tables are a `map` from uuid to row, plus a `seq`
of page views in insertion order. Both live in the class
`AnalyticsModels.Tables`, which the middleware and the track endpoint update
in place.

Everything outside the process is a parameter, supplied by the caller:

- the GeoIP provider's answer;
- the language model's reply;
- the mail service's send outcome;
- Django's `slugify`;
- the storage backend's `url()`;
- `build_absolute_uri`;
- the key a new session gets;
- the uuid a new row gets;
- the order the database returns rows in.

Two behaviours of the code are kept as written:

- **Track endpoint lookup field.** The endpoint looks visitors up under the
  keyword `ip_address`. The record's field is `remote_ip`. The lookup
  keyword is therefore a parameter of `AnalyticsViews.TrackPageView`: with
  the keyword as written every call fails (see Findings), and the corrected
  keyword gives the intended behaviour.
- **Missing `User-Agent` header.** The middleware fills `user_agent` from the
  header, but that column is NOT NULL. A first request without that header
  therefore fails on insert. The model reports this as the outcome
  `NotNullViolation`, with the table unchanged.

## Model

| member | source | states |
|---|---|---|
| TrackingMiddleware.MiddlewareClientIp | backend/analytics/middleware.py:11-18 | With a non-empty X-Forwarded-For the address is its first comma-separated hop, stripped; otherwise REMOTE_ADDR, or "0.0.0.0" when that is absent or empty |
| TrackingMiddleware.MiddlewareIpAgreesWithClientIp | backend/analytics/middleware.py:11-18 | The middleware and the track endpoint resolve the same address, except that the middleware turns an absent or empty REMOTE_ADDR into "0.0.0.0" |
| TrackingMiddleware.MiddlewareIpNonEmptyWithoutProxy | backend/analytics/middleware.py:17-18 | Without a proxy header the middleware's address is never empty |
| TrackingMiddleware.SessionKeyAfterEnsure | backend/analytics/middleware.py:32-35 | An existing non-empty session key is kept; otherwise the freshly created key is used |
| TrackingMiddleware.CreatedVisitor | backend/analytics/middleware.py:40-52 | A new row carries the session key, the resolved address (NULL when it is blank) and the User-Agent, with visits 1, online, last and first visit now, and the model defaults for device type and location |
| TrackingMiddleware.Debounced | backend/analytics/middleware.py:55-76 | Within 30 seconds of the last visit the row is unchanged. Otherwise last_visit is now, the visitor is online and the address is the resolved one, or NULL when that is blank. Visits go up by one exactly when the last visit was on an earlier UTC date. No other field changes |
| TrackingMiddleware.VisitsMonotone | backend/analytics/middleware.py:62-64 | The visit count never decreases and rises by at most one per request |
| TrackingMiddleware.SaveFields | backend/analytics/middleware.py:59-76 | Saving with update_fields writes exactly the listed columns from the in-memory object; all other columns keep their stored values |
| TrackingMiddleware.AfterRequest | backend/analytics/middleware.py:25-79 | A request is passed through untouched exactly when its path is excluded; a tracked request is tracked under the ensured session key |
| TrackingMiddleware.ExcludedPathLeavesTable | backend/analytics/middleware.py:28-29 | Paths under /admin or /api/v1/features/status/ leave the table unchanged |
| TrackingMiddleware.UnseenSessionCreatesOne | backend/analytics/middleware.py:40-52 | An unseen session key adds exactly one visitor, with that key, visits 1, online, last_visit now and the resolved address as the column stores it; every other row is unchanged |
| TrackingMiddleware.KnownSessionUpdatesOnlyItsRow | backend/analytics/middleware.py:54-76 | A known session changes only its own row, exactly as Debounced says; inside the debounce window the table is unchanged |
| TrackingMiddleware.AfterRequestKeepsUnique | backend/analytics/models.py:9 | Every request keeps session keys unique |
| TrackingMiddleware.AfterRequestStoresNoBlankIp | backend/analytics/models.py:15 | No request leaves a blank address in the visitor table, whatever the proxy header holds |
| TrackingMiddleware.HandleRequest | backend/analytics/middleware.py:25-79 | The in-place update of the tables: the visitor table and outcome are those of AfterRequest, page views are untouched, and the tables stay valid |
| TrackingMiddleware.RefreshVisitor | backend/analytics/middleware.py:55-76 | For a row read from the table (so its address is not blank), building the update-field list step by step and saving just those fields yields the Debounced row |
| AnalyticsModels.NewVisitor | backend/analytics/models.py:4-27 | A visitor from defaults: no session key or address, offline, "Desktop", empty location, visits 1, both timestamps now, empty user agent |
| AnalyticsModels.NewPageView | backend/analytics/models.py:32-40 | A page view carries its visitor, path and referrer, method "GET", status 200 and the creation time |
| AnalyticsModels.SessionKeyIdentifiesVisitor | backend/analytics/models.py:9 | With unique session keys at most one visitor carries a given key |
| AnalyticsModels.StoredIp | backend/analytics/models.py:15 | The nullable address column never holds a blank address: a blank one is stored as NULL, any other value as it is |
| AnalyticsModels.WithIp | backend/analytics/views.py:21 | The lookup by address finds exactly the rows holding that address; a blank address finds no row |
| AnalyticsModels.KeepPageViews | backend/analytics/models.py:33 | Keeps exactly the page views that do not reference the deleted visitor |
| AnalyticsModels.KeepPageViewsCounts | backend/analytics/models.py:33 | Every page view that does not reference the deleted visitor is kept as often as it occurs, and no other is kept |
| AnalyticsModels.KeepPageViewsAppend | backend/analytics/models.py:33 | The cascade works row by row, so the surviving page views keep their table order |
| AnalyticsModels.CascadeDelete | backend/analytics/models.py:33 | Deleting a visitor removes it, keeps every other visitor as it was, and removes exactly its page views; every other page view stays, as often as it occurred |
| AnalyticsModels.CascadeDeleteKeepsValid | backend/analytics/models.py:33 | After a delete no page view references a missing visitor, and session keys stay unique |
| Ordering.SortDesc | backend/analytics/views.py:76 | `order_by('-…')`: a permutation of the input in non-increasing key order |
| AnalyticsModels.NewestFirst | backend/analytics/models.py:42-43 | The default page-view order is a permutation sorted by timestamp, newest first |
| AnalyticsModels.Tables.DeleteVisitor | backend/analytics/models.py:33 | The in-place delete equals CascadeDelete and keeps the tables valid |
| AnalyticsUtils.FirstHop | backend/analytics/utils.py:7-9 | The first X-Forwarded-For hop contains no comma and has no whitespace at either end |
| AnalyticsUtils.ClientIp | backend/analytics/utils.py:3-12 | With a non-empty X-Forwarded-For the address is its first hop; otherwise REMOTE_ADDR as it is, absent included |
| AnalyticsUtils.FirstHopIgnoresLaterHops | backend/analytics/utils.py:9 | Appending further proxy hops never changes the resolved address |
| AnalyticsUtils.FromLookup | backend/analytics/utils.py:28-45 | An exception or an "error" payload gives an empty location; otherwise exactly the six keys, each taken from its provider field or null |
| AnalyticsUtils.IpLocation | backend/analytics/utils.py:14-45 | Local addresses get the fixed placeholder; every other address gets the provider's answer mapped by FromLookup |
| AnalyticsUtils.LocalIpNeverLooksUp | backend/analytics/utils.py:19-25 | For a local address the result is the placeholder whatever the provider would answer |
| AnalyticsUtils.TenNetIsLookedUp | backend/analytics/utils.py:19-29 | A 10.x address is not special-cased and goes to the provider |
| AnalyticsUtils.LocationShapes | backend/analytics/utils.py:14-45 | Every location is empty, the placeholder, or has exactly the six location keys |
| AnalyticsViews.PathOf | backend/analytics/views.py:32 | A missing path defaults to "/" |
| AnalyticsViews.ReferrerOf | backend/analytics/views.py:36 | A missing referrer defaults to "" |
| AnalyticsViews.WithUserAgent | backend/analytics/views.py:27-28 | The user agent is replaced only by a non-empty value sent in the body; nothing else changes |
| AnalyticsViews.AfterTrack | backend/analytics/views.py:18-39 | A call that does not answer 201 leaves both tables unchanged |
| AnalyticsViews.TrackAsWrittenAlwaysFails | backend/analytics/views.py:21 | With the keyword as written every call raises FieldError and writes nothing |
| AnalyticsViews.TrackAppendsOnePageView | backend/analytics/views.py:20-37 | A successful call appends exactly one page view, with the defaulted path and referrer, for a visitor that has the client's address as the column stores it and last_visit now. Earlier page views and all other visitors are unchanged |
| AnalyticsViews.TrackReusesKnownAddress | backend/analytics/views.py:21-29 | A known address reuses its visitor: no visitor is created, and the new page view references it |
| AnalyticsViews.TrackCreatesForUnknownAddress | backend/analytics/views.py:21-29 | An address no row holds creates exactly one visitor from the defaults with that address (NULL when blank), and the page view references it |
| AnalyticsViews.TrackBlankAddressAlwaysCreates | backend/analytics/views.py:21-29 | A blank client address never finds a row, so every such call creates a new visitor with a NULL address |
| AnalyticsViews.TrackAmbiguousAddressFails | backend/analytics/views.py:21 | Two visitors with the same address make the lookup raise, and nothing is written |
| AnalyticsViews.TrackKeepsValid | backend/analytics/views.py:18-39 | Every track call keeps session keys unique, no address blank, and every page view referencing an existing visitor |
| AnalyticsViews.TrackPageView | backend/analytics/views.py:18-39 | The in-place update of the tables equals AfterTrack and keeps them valid |
| AnalyticsViews.ActiveVisitors | backend/analytics/views.py:51-56 | Exactly the visitors whose last visit is at most 24 hours ago |
| AnalyticsViews.ActiveToday | backend/analytics/views.py:56 | active_today counts those visitors and never exceeds the number of visitors |
| AnalyticsViews.OverviewOf | backend/analytics/views.py:55-57 | The totals are the table sizes, and active_today is at most total_visitors |
| AnalyticsViews.InWindow | backend/analytics/views.py:63 | Keeps exactly the page views at or after the window start |
| AnalyticsViews.InWindowCounts | backend/analytics/views.py:63 | Every page view at or after the window start is kept as often as it occurs in the table, and no other is |
| AnalyticsViews.InWindowAppend | backend/analytics/views.py:63 | The window is taken view by view, so it keeps table order |
| AnalyticsViews.Tally | backend/analytics/views.py:64-68 | The per-day grouping is strictly ascending by day, has no zero entries, counts each day's occurrences, covers exactly the days present, and its counts sum to the input length |
| AnalyticsViews.DailyStats | backend/analytics/views.py:61-68 | The per-day counts are strictly ascending by day, none is zero, and they sum to the number of page views in the last seven days |
| AnalyticsViews.DailyStatsCorrect | backend/analytics/views.py:52-68 | daily_stats has one entry per UTC day with views in the last 7 days, in ascending day order, each counting that day's views; the counts sum to the number of such views |
| AnalyticsViews.TopPages | backend/analytics/views.py:72-77 | At most five entries |
| AnalyticsViews.TopPagesCorrect | backend/analytics/views.py:72-77 | At most five entries, with distinct paths and non-increasing counts, each count equal to that path's number of page views. No path left out has more views than the last entry shown |
| AnalyticsViews.DashboardOf | backend/analytics/views.py:48-87 | The dashboard's totals are the table sizes, active_today is at most total_visitors, the daily counts sum to at most the page views, and there are at most five top pages |
| AnalyticsViews.VisitorList | backend/analytics/views.py:93 | The visitor list is a permutation of the rows, ordered by last visit, most recent first |
| Steganography.Binary | backend/features/steganography.py:15 | The binary digits of a number, without leading zeros |
| Steganography.BinaryRoundTrip | backend/features/steganography.py:15 | Reading the digits back gives the number |
| Steganography.CharBits | backend/features/steganography.py:15 | A character's digits are at least eight, denote its code point, and are exactly eight below 256 |
| Steganography.Bits | backend/features/steganography.py:15-16 | The bit string is binary digits, at least eight per character |
| Steganography.BitsLength | backend/features/steganography.py:15-16 | For code points below 256 the bit string is exactly 8 × the number of characters long |
| Steganography.DecodeBitsRoundTrip | backend/features/steganography.py:15 | Reading the bit string back eight digits at a time recovers text whose code points are below 256 |
| Steganography.SetRedLsb | backend/features/steganography.py:29-35 | The red LSB becomes the digit, the other red bits and green and blue are kept |
| Steganography.RedMovesAtMostOne | backend/features/steganography.py:29-33 | The red value changes by at most one |
| Steganography.EncodedPixel | backend/features/steganography.py:24-38 | Pixel k carries digit k when k is below the digit count and is unchanged otherwise; green and blue never change |
| Steganography.RowMajor | backend/features/steganography.py:22-23 | Row-major positions are distinct and lie below width × height |
| Steganography.EncodeTextIntoImage | backend/features/steganography.py:9-38 | A fresh image of the same size. The pixel at row-major position k is the original with digit k in its red LSB when k is below the digit count, and is unchanged otherwise. The input image is not written |
| Steganography.EncodeRow | backend/features/steganography.py:23-38 | One pass of the inner loop writes the next digits into the row and stops when they run out |
| Steganography.EncodedCarriesBits | backend/features/steganography.py:21-38 | Digit k sits in the red LSB of the k-th pixel for every k below both counts; digits beyond the pixel count are dropped; green and blue are kept |
| CoreModels.FeaturedProjects | backend/features/ai_chat.py:9 | Exactly the featured projects, no more than the input |
| CoreModels.FeaturedSkills | backend/core/views.py:56 | Exactly the featured skills, no more than the input |
| CoreModels.FeaturedProjectsCounts | backend/features/ai_chat.py:9 | Each featured project is kept as often as it occurs, and no other project is kept |
| CoreModels.FeaturedProjectsAppend | backend/features/ai_chat.py:9 | The filter works row by row, so it keeps table order |
| CoreModels.FeaturedSkillsCounts | backend/core/views.py:56 | Each featured skill is kept as often as it occurs, and no other skill is kept |
| CoreModels.FeaturedSkillsAppend | backend/core/views.py:56 | The filter works row by row, so it keeps table order |
| AiChat.ProjectLines | backend/features/ai_chat.py:10 | One "- title: tagline" line per project, in order |
| AiChat.SkillNames | backend/features/ai_chat.py:12-13 | The names of the first ten skills, in order |
| AiChat.PromptContainsParts | backend/features/ai_chat.py:23-38 | Whatever occurs in the project or skill text occurs in the prompt |
| AiChat.PromptListsFeaturedProjects | backend/features/ai_chat.py:9-10 | Every featured project's "- title: tagline" line occurs in the prompt |
| AiChat.PromptListsFirstSkills | backend/features/ai_chat.py:12-13 | Each of the first ten skill names occurs in the prompt |
| AiChat.RelatedLink | backend/features/ai_chat.py:64-69 | "/projects" whenever "project" occurs; otherwise "/contact" for "contact" or "email"; "/blog" exactly when only "blog" occurs; no link exactly when none occurs |
| AiChat.RelatedLinkIgnoresCase | backend/features/ai_chat.py:66 | Upper- or lower-casing the reply picks the same link |
| AiChat.SmartResponse | backend/features/ai_chat.py:40-81 | Any failure, including a null content, gives the fixed fallback with "/contact"; otherwise the text is the stripped reply and the link is chosen from it. The text never has whitespace at either end |
| AiChat.ReplyIsStable | backend/features/ai_chat.py:62-74 | Post-processing a reply's own text again gives the same reply |
| CoreViews.MailFor | backend/core/views.py:112-141 | The message goes from the configured sender as "Portfolio Bot" to the receiver as "Govardhan", with reply-to the submitter and subject "New Contact: " + name |
| CoreViews.Contact | backend/core/views.py:90-152 | A missing field gives 400 and a missing setting gives 503, in that order. Otherwise a send status of 200 gives "sent"; any other status gives 500 when the failure body decodes as JSON, and 503 like a connection failure when it does not. The status is always one of 200, 400, 500, 503 |
| CoreViews.FieldsCheckedFirst | backend/core/views.py:95-96 | A missing field gives 400 whatever the configuration and the mail service |
| CoreViews.NoSendWithoutConfig | backend/core/views.py:105-107 | With a setting missing the result is 503 whatever the mail service would do |
| CoreViews.SentOnlyOnSuccess | backend/core/views.py:143-149 | "sent" is answered exactly when fields and settings are present and the send returned 200 |
| CoreViews.FailedSendStatus | backend/core/views.py:143-152 | A send that returns a status other than 200 answers 500 when its body is JSON; otherwise reading the body for the log raises, and the answer is 503 |
| CoreViews.TextPartRoundTrip | backend/core/views.py:130 | The text part parses back into name, e-mail and message when name and e-mail are single lines |
| CoreViews.HtmlCarriesMessage | backend/core/views.py:131-138 | The HTML part contains the message verbatim inside one paragraph |
| CoreViews.HomeProjects | backend/core/views.py:53 | At most three projects: the first three of the shuffled list's featured projects, in shuffled order, or all of them when there are fewer; no project more often than in the table |
| CoreViews.HomeSkills | backend/core/views.py:56-58 | The featured skills, each as often as in the table, when there are any; otherwise the first eight skills in order |
| CoreViews.HomeDataOf | backend/core/views.py:51-82 | At most three projects and the fixed hero and about texts |
| Blog.SlugAfterSave | backend/blog/models.py:18-21 | An empty slug becomes slugify(title); a non-empty slug is kept |
| Blog.SaveIdempotent | backend/blog/models.py:19-20 | Saving twice gives the slug that saving once gave |
| Blog.BlogPost.Save | backend/blog/models.py:18-21 | The post's slug becomes SlugAfterSave of its old slug and title; no other field changes |
| Blog.CoverImageUrl | backend/blog/models.py:25-40 | No cover gives None; a storage URL starting "http" is returned as is; otherwise the Cloudinary delivery prefix plus the stored name |
| Blog.CoverImageUrlIsAbsolute | backend/blog/models.py:25-40 | Every cover URL handed out starts with "http" |
| Vault.FileUrl | backend/vault/serializers.py:11-23 | An "http" URL is returned as is; otherwise the request's absolute form when there is a request, else the URL unchanged |
| Vault.AbsoluteUrlIgnoresRequest | backend/vault/serializers.py:14-16 | For an "http" URL the request is never consulted |
| Vault.FileUrlAbsoluteWithRequest | backend/vault/serializers.py:19-21 | With a request that makes URLs absolute every file URL starts with "http" |
| ProjectsPage.FilterProjects | frontend/src/pages/Projects.jsx:39-59 | A project is kept exactly when it matches both the search and the category test |
| ProjectsPage.FilterAppend | frontend/src/pages/Projects.jsx:39-59 | Filtering distributes over concatenation, so relative order is kept |
| ProjectsPage.FilterIdempotent | frontend/src/pages/Projects.jsx:39-59 | Filtering a filtered list again removes nothing more |
| ProjectsPage.EmptyQueryMatches | frontend/src/pages/Projects.jsx:40-41 | The empty query matches every project |
| ProjectsPage.SearchIgnoresQueryCase | frontend/src/pages/Projects.jsx:40-41 | The search ignores the case of the query |
| ProjectsPage.NoFilterListsAll | frontend/src/pages/Projects.jsx:43-57 | ALL with an empty query lists every project, in order |
| ProjectsPage.UnknownFilterIsAll | frontend/src/pages/Projects.jsx:43-57 | An unrecognised filter id behaves exactly like ALL |
| Devicon.ModalTableIsSmaller | frontend/src/features/portfolio/components/ProjectModal.jsx:7 | The modal's table is the badge's without "postgresql" and "restapi" |
| Devicon.BadgeValuesArePlain | frontend/src/features/portfolio/components/SkillBadge.jsx:14-27 | The table's values are lower-case letters and digits |
| Devicon.TablesAreClosed | frontend/src/features/portfolio/components/SkillBadge.jsx:14-27 | In both tables, a value that is also a key maps to itself |
| Devicon.MappingsAreClosed | frontend/src/features/portfolio/components/SkillBadge.jsx:14-29 | Each table's values are slugs, and looking a value up again gives the same value |
| Devicon.CleanName | frontend/src/features/portfolio/components/SkillBadge.jsx:11 | The cleaned name has no capital, dot or whitespace |
| Devicon.IconSlug | frontend/src/features/portfolio/components/SkillBadge.jsx:11-29 | The cleaned name is swapped through the table once when it is a key and kept otherwise; the result has no capital, dot or whitespace |
| Devicon.IconUrl | frontend/src/features/portfolio/components/SkillBadge.jsx:10-33 | The URL is exactly the CDN base, the slug, "/", the slug again and "-original.svg"; the slot after the base is the slug IconSlug gives |
| Devicon.UrlDeterminesSlug | frontend/src/features/portfolio/components/SkillBadge.jsx:32 | Two slugs with the same URL are equal |
| Devicon.CleanSlug | frontend/src/features/portfolio/components/SkillBadge.jsx:11 | A slug is its own cleaned form |
| Devicon.SlugIdempotent | frontend/src/features/portfolio/components/SkillBadge.jsx:29 | Feeding a slug back in gives the same slug |
| Devicon.IconUrlIgnoresCase | frontend/src/features/portfolio/components/SkillBadge.jsx:11 | Upper-casing a name does not change its URL |
| Devicon.IconUrlIgnoresDotsAndSpaces | frontend/src/features/portfolio/components/SkillBadge.jsx:11 | Inserting a dot or whitespace character anywhere in a name does not change its URL |
| ProjectModal.NextIndex | frontend/src/features/portfolio/components/ProjectModal.jsx:34-37 | The next index stays in range and wraps from the last image to the first |
| ProjectModal.PrevIndex | frontend/src/features/portfolio/components/ProjectModal.jsx:39-42 | The previous index stays in range and wraps from the first image to the last |
| ProjectModal.NextPrevInverse | frontend/src/features/portfolio/components/ProjectModal.jsx:36-41 | Next then previous, and previous then next, return the original index |
| ProjectModal.Modal.constructor | frontend/src/features/portfolio/components/ProjectModal.jsx:13 | The modal opens on the first image |
| ProjectModal.Modal.Next | frontend/src/features/portfolio/components/ProjectModal.jsx:34-37 | The index moves to NextIndex and the modal stays open |
| ProjectModal.Modal.Prev | frontend/src/features/portfolio/components/ProjectModal.jsx:39-42 | The index moves to PrevIndex and the modal stays open |
| ProjectModal.Modal.KeyDown | frontend/src/features/portfolio/components/ProjectModal.jsx:20-29 | Escape closes. The arrow keys move the index only with more than one image, and every other key leaves it unchanged |
| ProjectModal.Modal.CurrentImage | frontend/src/features/portfolio/components/ProjectModal.jsx:44 | None exactly when there are no images; otherwise the image at the current index |
| ProjectModal.Modal.Counter | frontend/src/features/portfolio/components/ProjectModal.jsx:60-66 | The counter shows only with more than one image, as (index + 1) / n, with 1 ≤ index + 1 ≤ n |
| ProjectCard.CardImage | frontend/src/features/portfolio/components/ProjectCard.jsx:21-26 | The current gallery image when there is one; else a non-empty featured URL; else the stock photo |
| ProjectCard.CardImageNeverEmpty | frontend/src/features/portfolio/components/ProjectCard.jsx:21-26 | With non-empty stored URLs the card never shows an empty source |
| ProjectCard.Dots | frontend/src/features/portfolio/components/ProjectCard.jsx:49-53 | No dots for a single picture; otherwise one per image, lit exactly at the current index |
| ProjectCard.OneDotLit | frontend/src/features/portfolio/components/ProjectCard.jsx:51-52 | Exactly one dot is lit, the current one |
| ProjectCard.Tags | frontend/src/features/portfolio/components/ProjectCard.jsx:69 | The first two skills, in order, or all of them when there are fewer |
| ProjectCard.Badge | frontend/src/features/portfolio/components/ProjectCard.jsx:61 | "Featured" exactly when the project is featured, else "Dev" |
| ProjectCard.Card.constructor | frontend/src/features/portfolio/components/ProjectCard.jsx:6-7 | A card starts at the first image, not hovered |
| ProjectCard.Card.SetHovered | frontend/src/features/portfolio/components/ProjectCard.jsx:32-33 | Mouse enter and leave set the hover flag and keep the index |
| ProjectCard.Card.Tick | frontend/src/features/portfolio/components/ProjectCard.jsx:10-18 | A tick advances to NextIndex only with more than one image and no hover; otherwise nothing changes |
| EasterEgg.LastChars | frontend/src/hooks/useEasterEgg.js:11 | The last k characters, or all of a shorter string |
| EasterEgg.TriggersExclusive | frontend/src/hooks/useEasterEgg.js:20-30 | A buffer of at most ten characters never contains both trigger words |
| EasterEgg.LastCharsIsSuffix | frontend/src/hooks/useEasterEgg.js:11 | What the slice keeps is a suffix of the string |
| EasterEgg.StepSettles | frontend/src/hooks/useEasterEgg.js:9-31 | After any key and its effect the buffer is at most ten characters and holds neither trigger word, because a trigger empties it
| EasterEgg.BufferEndsWithKey | frontend/src/hooks/useEasterEgg.js:11 | The buffer ends with the last up to ten characters of the key just pressed |
| EasterEgg.OneTriggerPerPress | frontend/src/hooks/useEasterEgg.js:18-31 | A key press never both navigates and toggles |
| EasterEgg.TypingDevModeTogglesOnce | frontend/src/hooks/useEasterEgg.js:9-31 | Typing the seven keys of "devmode" from any settled buffer toggles dev mode exactly once and navigates nowhere; from an empty buffer it leaves the buffer empty |
| EasterEgg.TypingDevModeTwiceRestores | frontend/src/hooks/useEasterEgg.js:26-30 | Typing "devmode" twice restores dev mode and navigates nowhere
| EasterEgg.Listener.constructor | frontend/src/hooks/useEasterEgg.js:5 | The buffer starts empty |
| EasterEgg.Listener.KeyDown | frontend/src/hooks/useEasterEgg.js:8-31 | The handler and its effect move the state exactly as Step says, and keep the buffer settled |
| JourneyTimeline.FirstMatch | frontend/src/features/portfolio/components/JourneyTimeline.jsx:15-24 | The icon of the first rule with a keyword in the title, or Flag when no rule matches |
| JourneyTimeline.GetIcon | frontend/src/features/portfolio/components/JourneyTimeline.jsx:15-24 | The chain of tests is the rule table read top to bottom on the lower-cased title: the first rule with a keyword wins, and Flag when none has |
| JourneyTimeline.FlagIffNoKeyword | frontend/src/features/portfolio/components/JourneyTimeline.jsx:23 | A title gets the Flag exactly when it holds none of the keywords |
| JourneyTimeline.GetIconIgnoresCase | frontend/src/features/portfolio/components/JourneyTimeline.jsx:16 | Upper-casing a title does not change its icon |
| JourneyTimeline.WorkBeatsCode | frontend/src/features/portfolio/components/JourneyTimeline.jsx:17-19 | A title with "intern" and no school keyword gets the briefcase, even when a later rule also matches |
| JourneyTimeline.ScrollOffset | frontend/src/features/portfolio/components/JourneyTimeline.jsx:10-11 | −320 exactly for "left", +320 for every other direction |
| JourneyTimeline.Timeline | frontend/src/features/portfolio/components/JourneyTimeline.jsx:26-46 | Nothing for a missing or empty list; otherwise one icon per item, in order |
| Text.Strip | backend/analytics/middleware.py:16 | Python's strip: the result is an infix of the input with only whitespace cut from either end, and it has no whitespace at either end |
| Text.StripIdempotent | backend/features/ai_chat.py:62 | Stripping twice is stripping once |
| Text.FirstField | backend/analytics/middleware.py:16 | split(sep)[0]: the longest prefix without the separator |

## Left out

- Text.Lower: the model maps case for ASCII letters only. Python's `lower()` and JavaScript's `toLowerCase`/`toUpperCase` also map other letters. Every case-insensitivity property here is stated for this ASCII mapping.
- Devicon.IconSlug: the JavaScript lookup `mappings[cleanName]` also finds keys inherited from `Object.prototype`, such as "constructor". The model looks up only the table's own keys.
- Steganography.DecodeBitsRoundTrip: the round trip is proved only for text whose code points are below 256. Larger code points take more than eight digits, and the bit string does not mark where they end.
- Steganography.EncodeTextIntoImage: opening, converting and saving the image through PIL, and the PNG byte stream, are left out. The method works on the decoded pixel grid.
- AnalyticsViews.TopPages: the order of paths with equal counts is not stated by any lemma, and the database does not specify it either.
- AnalyticsViews.VisitorList: the order in which the database scans rows is a parameter. The order of visitors with equal last visits is not stated by any lemma.
- AnalyticsModels.StoredIp: address text is kept verbatim. The model does not canonicalise IPv6 text, as `GenericIPAddressField` does on save and lookup, so two spellings of one IPv6 address are different addresses here. It also does not model PostgreSQL's `inet` column, which rejects text that is not an address (such as a first proxy hop "unknown") and makes that write raise.
- AnalyticsViews.AfterTrack: a null path, and on PostgreSQL a path over 255 characters or a referrer over 500, make the page-view insert raise after the visitor row is already saved. The request body here cannot hold those values, so that failure, and the visitor write it leaves behind, are not modelled.
- CoreViews.HomeProjects: the random order of `order_by('?')` is a parameter, the shuffled list.
- The print calls in the chat, contact and location code are left out. So is the alert the easter egg shows with dev mode.
- The code never reads the online-expiry window constant in the middleware, so the model has no expiry.
- ProjectModal.Modal.CurrentImage: the modal reads each image through a field (`image`) that the serializer does not send. The model returns the selected image record rather than the value of that missing field.
- Transactions, concurrent requests, and races between two `get_or_create` calls are left out. The SQLite-specific date extraction is replaced by UTC day numbers.
- The serializers' field lists and the certificate, journey and achievement lists of the home payload are left out. They are declarations, not logic.
- Open Graph and image generation (`core/og_generator.py`, `features/image_generator.py`) are not part of this model. Neither are the signals that call them (`core/signals.py`), the vault file model's size formatting (`vault/models.py`), or the status and wrapper views (`features/views.py`). All of these are drawing, floating point or storage I/O.
- The configuration, URL routing, admin registrations and front-end service wrappers are not part of this model. Neither are the pages and components outside the ones listed above: they are rendering, timers and HTTP calls.
- ProjectModal.NextIndex: no lemma states that n steps of "next" return to the start. The model proves only the single-step wrap and the inverse with "previous".

## Findings

| source | as written | input that shows it | evidently intended | confidence | as-written member | corrected member |
|---|---|---|---|---|---|---|
| backend/analytics/views.py:21 | `get_or_create(ip_address=ip)` names a field the Visitor model does not have (the address column is `remote_ip`), so the lookup raises FieldError before anything is written | any POST to the track endpoint, e.g. body `{"path": "/"}` from REMOTE_ADDR 1.2.3.4 | look the visitor up by `remote_ip`, stamp it and log one page view | not executed | AnalyticsViews.TrackAsWrittenAlwaysFails | AnalyticsViews.TrackAppendsOnePageView |
