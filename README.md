# sorteaio core, modelled in Dafny

sorteaio is a giveaway platform for brands that run giveaways on social
networks. A brand (a company account) publishes a giveaway for one of its
posts and sets requirements on it: follow a profile, like the post, comment
on it, or mention friends. Participants enter the giveaway. Their entries are
then checked against the requirements through the Instagram Graph API, or
through a deterministic mock.

This project models the core of that system and proves properties of it:

- **Participation verification** (`Verification`). The `SocialVerifier`
  class holds its network adapter as a field. Its `VerifyParticipation`
  loop builds one check record per requirement, then reduces the records to
  approved or rejected. The adapter is a value of function type. The mock
  adapter and the Meta bridge are two concrete instances of it.
- **Graph API scanning** (`Meta`). The module covers three things:
  - the mention counter behind the regular expression `@[A-Za-z0-9_.]+`;
  - the bounded page walks that find the post's media id (at most 10 pages)
    and the participant's comment (at most 20 pages);
  - the lookup of the company's access token and Instagram business id.

  A paged collection is the sequence of answers the Graph API would give,
  page by page. Page `k + 1` exists exactly when page `k` carries a `next`
  link.
- **Route handlers over a record store** (`Store`, `GiveawaysRoute`,
  `ParticipationsRoute`, `CompaniesRoute`, `RegisterRoute`). The store is a
  class whose tables are maps keyed by row id. Its invariant says six
  things:
  - at most one entry per (giveaway, user);
  - at most one user per e-mail;
  - every giveaway ends after it starts;
  - requirement rows exist only for stored giveaways;
  - every giveaway's company exists;
  - every participation's giveaway exists.

  Each handler has two parts:
  - a validation function that runs the handler's checks in their order and
    returns either the error reply or the row to insert;
  - a method that changes the store. On error the store is unchanged. On
    success exactly the computed rows are added.
- **The access gate** (`Middleware`). It decides whether a path under
  `/empresas` needs a session, and it tests the `cookie` header for an
  Auth.js or NextAuth session cookie.
- **Client components**:
  - `Countdown`: splits the remaining milliseconds into days, hours,
    minutes and seconds;
  - `Carousel`: moves a wrap-around index over a fixed list of items;
  - `ParticipateButton`: a four-state machine driven by a click and by a
    one-second timer.

External collaborators become parameters of the model:

- the signed-in user id, the current time and parsed dates;
- `normalizeUrl` and password hashing;
- the `MOCK_VERIFICATION` setting;
- the Graph API's answers;
- the ids the database assigns to new rows. These must be unused.

## Model

| member | source | states |
|---|---|---|
| Meta.CountMentions | src/lib/meta/MetaAdapter.ts:143-146 | The number of global matches: an '@' followed by the longest run of handle characters, with scanning resuming after the run. `CountMentionsIsMentionStarts` characterises it. |
| Meta.CountMentionsIsMentionStarts | src/lib/meta/MetaAdapter.ts:143-146 | The number of matches of `@[A-Za-z0-9_.]+` equals the number of '@' characters immediately followed by a letter, digit, '_' or '.'. The empty text has none. |
| Meta.SearchFoundIsFirst | src/lib/meta/MetaAdapter.ts:111-124 | A found item is the first match on an ok page within the page budget. Every page before that page was fetched, answered ok and held no match. |
| Meta.SearchNoneExhausts | src/lib/meta/MetaAdapter.ts:61-73 | Finding nothing means that every existing page within the budget was fetched, answered ok and held no match. |
| Meta.SearchFailureIsFirstBadPage | src/lib/meta/MetaAdapter.ts:61-64 | A failure carries the body of the first non-ok page within the budget. Every page before it was passed over. |
| Meta.SearchIgnoresPagesPastBudget | src/lib/meta/MetaAdapter.ts:61 | Pages beyond the budget are never requested, so removing them does not change the result. |
| Meta.MediaIdFor | src/lib/meta/MetaAdapter.ts:54-74 | The id of the first media item, within ten pages, whose normalised permalink is the post's. It is null when there is none, and a failure for a non-ok page. `MediaIdIsMatchingItem` and `MediaIdAbsentMeansNoMatch` characterise it. |
| Meta.ResolveInstagramMediaId | src/lib/meta/MetaAdapter.ts:54-74 | The page loop returns the first media id whose normalised permalink equals the post's, within ten pages, or null. A non-ok page fails with "IG media fetch failed: " and the body. |
| Meta.MediaIdIsMatchingItem | src/lib/meta/MetaAdapter.ts:61-66 | A returned media id belongs to an item on one of the first ten pages, and that item's normalised permalink equals the post's. |
| Meta.MediaIdAbsentMeansNoMatch | src/lib/meta/MetaAdapter.ts:61-73 | A null media id means that no item on the pages searched has the post's normalised permalink. |
| Meta.VerifyLike | src/lib/meta/MetaAdapter.ts:76-83 | A like is never confirmed, on any network. |
| Meta.CommentScan | src/lib/meta/MetaAdapter.ts:109-127 | The outcome of the comment walk over at most twenty pages: ok with the mention count of the participant's first comment, not ok with zero mentions, or a failure for a non-ok page. |
| Meta.ScanCommentPages | src/lib/meta/MetaAdapter.ts:109-127 | The nested page and comment loops over at most twenty pages return one of two things: ok with the mention count of the participant's first comment, or not ok with zero mentions. A non-ok page fails with "IG comments fetch failed: " and the body. |
| Meta.CompanyMetaContext | src/lib/meta/MetaAdapter.ts:16-52 | It takes the company's first Facebook account. A missing account or a falsy token fails with "Company Meta access token not found". Otherwise the token returned is that account's. With a stored page id and business id, the stored id is returned without a Graph API request. Without them, a non-ok `me/accounts` answer fails with "Meta accounts fetch failed: " and the body. The business id then comes from the first page that has an Instagram account, falling back to the stored one. It fails with "instagramBusinessId not available for company Page" exactly when that id is falsy. On success the token and the business id are both non-empty. |
| Meta.CommentOutcome | src/lib/meta/MetaAdapter.ts:85-128 | `verifyComment` as a value. The early returns come in the source's order: wrong network, no linked Instagram id, company context, media lookup (a null or empty id gives not ok), then the comment scan. |
| Meta.VerifyComment | src/lib/meta/MetaAdapter.ts:85-128 | The method follows the source's early returns, including `if (!mediaId)` for a null or empty media id. It agrees with `CommentOutcome`. |
| Meta.EmptyMediaIdStopsComment | src/lib/meta/MetaAdapter.ts:100-101 | A matching media item with an empty id gives `{ ok: false }`, and no comment page is consulted. |
| Meta.CommentNeedsInstagramAndLinkedId | src/lib/meta/MetaAdapter.ts:87-96 | Off Instagram, or for a participant without a linked Instagram id, the answer is `{ ok: false }`. It is the same whatever the Graph API would answer. |
| Meta.CommentFailsWithoutCompanyToken | src/lib/meta/MetaAdapter.ts:20-22 | When the company's Facebook account has no access token, the check throws "Company Meta access token not found". |
| Meta.CommentNotOkHasNoMentions | src/lib/meta/MetaAdapter.ts:85-127 | A negative answer carries no mention count, or zero. |
| Meta.CommentOkMeansParticipantComment | src/lib/meta/MetaAdapter.ts:99-127 | An ok answer means the post is on Instagram, the participant has a linked id, and the company context and a non-empty media id resolved. The answer is the scan of exactly that media item's comment pages. Its mention count is that of the participant's first comment on the first page, within twenty, that holds one. Every earlier page was ok and held no comment by the participant. |
| Verification.MockAdapter | src/lib/verification/SocialVerifier.ts:22-44 | Mode "fail" gives false for follow and like and `{ ok: false }` for comments. Mode "pass" gives true, with two mentions. Any other mode gives true, with one mention. |
| Verification.SocialVerifier.constructor | src/lib/verification/SocialVerifier.ts:49-66 | An injected adapter is used if there is one. Otherwise the mock is used when `MOCK_VERIFICATION` is non-empty, and the Meta bridge when it is not. |
| Verification.MetaBridge | src/lib/verification/SocialVerifier.ts:58-64 | The production adapter: follow is never confirmed, like is `verifyLike`, and comment is `verifyComment`. `MetaBridgeFailsFollowAndLike` states its consequence. |
| Verification.CheckRequirement | src/lib/verification/SocialVerifier.ts:91-111 | For each type, an adapter throw is passed on, and otherwise the record is fixed by the adapter's answer. A follow without a profile gives "Missing profileToFollow" without calling the adapter. A follow with a profile is ok exactly when `verifyFollow` is, with reason "Not following". A like is ok exactly when `verifyLike` is, with reason "No like". A comment is ok exactly when `verifyComment` is, with reason "No comment". Mentions are ok exactly when the comment check is ok and `(mentions ?? 0) >= (mentionsCount ?? 1)`, with reason "Needs N mentions". The record keeps the type, and it has a reason exactly when it is not ok. |
| Verification.CheckAll | src/lib/verification/SocialVerifier.ts:89-112 | One record per requirement, in order, each one the check of its requirement. The loop succeeds exactly when no adapter call throws. |
| Verification.CheckAllPrefixFailure | src/lib/verification/SocialVerifier.ts:91-112 | When an adapter call throws, the requirements after it are never checked. |
| Verification.Verify | src/lib/verification/SocialVerifier.ts:69-121 | The verification as a value: the 404 and 403 guards, then the record loop, then the decision. `GuardsPrecedeAdapter`, `NoRequirementsApproves` and `VerifiedRecordsAndStatus` characterise it. |
| Verification.SocialVerifier.VerifyParticipation | src/lib/verification/SocialVerifier.ts:69-121 | The guards, the loop that pushes records, and the decision together agree with `Verify`. |
| Verification.GuardsPrecedeAdapter | src/lib/verification/SocialVerifier.ts:75-80 | A missing participation gives 404 and another user's participation gives 403, whatever the adapter. |
| Verification.NoRequirementsApproves | src/lib/verification/SocialVerifier.ts:84-87 | A giveaway without requirements is approved with an empty record list. |
| Verification.VerifiedRecordsAndStatus | src/lib/verification/SocialVerifier.ts:114-120 | There is one record per requirement, of the same type. The status is approved exactly when every required requirement's record is ok, and it is never pending. |
| Verification.OptionalOutcomeIrrelevant | src/lib/verification/SocialVerifier.ts:115-118 | Changing the record of a requirement that is not required never changes the decision. |
| Verification.StatusDependsOnlyOnRequired | src/lib/verification/SocialVerifier.ts:114-119 | Two adapters that agree on the required requirements lead to the same status. |
| Verification.MockPassApproves | src/lib/verification/SocialVerifier.ts:23-41 | Under "pass", every requirement the mock can satisfy is ok, so the entry is approved. |
| Verification.MockFailRejects | src/lib/verification/SocialVerifier.ts:24-39 | Under "fail", every record fails, so any required requirement rejects the entry. |
| Verification.MetaBridgeFailsFollowAndLike | src/lib/verification/SocialVerifier.ts:60-64 | With the production bridge, follow and like requirements are never ok. |
| Text.Trim | src/app/api/auth/register/route.ts:30 | `trim()` returns the slice of the input with the leading and trailing whitespace removed. It is empty exactly when the input is all whitespace. |
| Text.BeforeFirstAt | src/app/api/auth/register/route.ts:59 | `split("@")[0]` is the prefix before the first '@', or the whole string, and contains no '@'. |
| Text.DecimalRoundTrip | src/lib/verification/SocialVerifier.ts:110 | The decimal rendering of a count reads back as the same count. |
| Text.IntToDecimalInjective | src/lib/verification/SocialVerifier.ts:110 | Different minimums render differently in "Needs N mentions". |
| Domain.ParseRequirementType | src/app/api/giveaways/route.ts:134-136 | A string is one of the four requirement types exactly when it is that type's name. |
| GiveawaysRoute.NormalizeRequirements | src/app/api/giveaways/route.ts:133-141 | The requirements keep their input order, with `order` set to the input index. An unknown or missing type becomes follow, and `required` defaults to true. `mentionsCount` and `profileToFollow` pass through. |
| GiveawaysRoute.NormalizeStoredIsIdentity | src/app/api/giveaways/route.ts:133-141 | Stored requirements that are sent back are stored unchanged, so normalisation is a projection. |
| GiveawaysRoute.ValidateGiveaway | src/app/api/giveaways/route.ts:71-151 | Each guard gives its own reply, in the source's order: 401 without a caller; 500 for an unreadable body; 400 "Missing required fields"; 400 "Invalid date format"; 400 "endsAt must be after startsAt"; 403 for a missing or unowned company; and 500 when the store refuses a network outside its enum or a `mentionsCount` outside its `Int` column. Success holds exactly when every check passes. The giveaway is then the draft built from the body, with the parsed dates and the description defaulting to "". |
| GiveawaysRoute.PostGiveaway | src/app/api/giveaways/route.ts:120-148 | On error the tables are unchanged. On success exactly the giveaway and its normalised requirements are added, with reply 201. The store invariant is kept. |
| GiveawaysRoute.BuildFilters | src/app/api/giveaways/route.ts:25-28 | A filter key is set exactly when its query parameter is present and non-empty, and it is set to that parameter. |
| GiveawaysRoute.Filtered | src/app/api/giveaways/route.ts:30-31 | Every listed giveaway matches the filters, and a giveaway is listed exactly when the table holds it and it matches. |
| GiveawaysRoute.FilteredAppend | src/app/api/giveaways/route.ts:30-37 | Filtering a concatenation gives the concatenation of the filtered parts, so the result keeps the table's (newest-first) order. |
| GiveawaysRoute.FilteredMultiplicity | src/app/api/giveaways/route.ts:30-31 | A matching giveaway is listed as often as the table holds it, and a non-matching one never. |
| GiveawaysRoute.ListGiveaways | src/app/api/giveaways/route.ts:30-39 | At most 50 giveaways, all matching and all from the table, as a prefix of the newest-first matches. When fewer than 50 are returned, none is missing. |
| Store.InsertKeepsEntriesUnique | src/app/api/participations/route.ts:43-62 | Inserting an entry for a (giveaway, user) pair that has none keeps the pairs unique. |
| Store.InsertKeepsEmailsUnique | src/app/api/auth/register/route.ts:35-53 | Inserting a user whose address is not yet taken keeps addresses unique. |
| ParticipationsRoute.ValidateEntry | src/app/api/participations/route.ts:9-67 | Each guard gives its own reply, in the source's order: 401 without a caller; 500 for an unreadable body or a missing id; 404 "Giveaway not found"; 400 "Giveaway is not active"; 400 "not within participation period" outside [startsAt, endsAt] inclusive; 400 "You already participated" for an existing (giveaway, user) pair; and 500 when `entries` does not fit the store's `Int` column. Success holds exactly when every check passes. The new row is then pending, not a winner, owned by the caller, with `entries` defaulting to 1. |
| ParticipationsRoute.PostParticipation | src/app/api/participations/route.ts:55-64 | On error the entry table is unchanged. On success exactly one row is added, with reply 201. The store invariant is kept. |
| ParticipationsRoute.SecondEntryRejected | src/app/api/participations/route.ts:43-52 | After a successful entry, a second entry of the same user in the same giveaway always fails. It fails with "You already participated in this giveaway" while the giveaway is open. |
| ParticipationsRoute.ListEntries | src/app/api/participations/route.ts:74-95 | The listing holds exactly the caller's entries, each with its giveaway's id, title, end and status. |
| ParticipationsRoute.EntryListedForAuthorOnly | src/app/api/participations/route.ts:80-81 | A new entry appears in its author's listing and in no one else's. |
| CompaniesRoute.ValidateCompany | src/app/api/companies/route.ts:17-41 | No caller gives 401, whatever the body. A falsy legalName, taxId or contactEmail gives the 400 reply. Otherwise the company carries the given fields, owned by the caller. |
| CompaniesRoute.PostCompany | src/app/api/companies/route.ts:33-43 | On error the tables are unchanged. On success exactly the company is added, with reply 201. |
| CompaniesRoute.ListCompanies | src/app/api/companies/route.ts:53-66 | The listing holds exactly the caller's companies, each with its number of giveaways. |
| CompaniesRoute.CreatedCompanyListedForOwner | src/app/api/companies/route.ts:59-64 | After a creation, the creator's listing gains exactly the new company, with no giveaways. Other users' listings are unchanged. |
| RegisterRoute.NormalizeEmail | src/app/api/auth/register/route.ts:30 | `email.trim().toLowerCase()`. `NormalizeEmailIdempotent` states its property. |
| RegisterRoute.NormalizeEmailIdempotent | src/app/api/auth/register/route.ts:30 | Normalising an address a second time changes nothing. |
| RegisterRoute.ParseAccountType | src/app/api/auth/register/route.ts:31-33 | Only "PARTICIPANT" and "BRAND" are account types. |
| RegisterRoute.Conflict | src/app/api/auth/register/route.ts:35-41 | There is no conflict exactly when the address is free. Otherwise the reply is 409: "Usuario ya existe" exactly when the address is registered with the requested account type, and "Este correo ya está registrado con otro tipo de cuenta" exactly when it is not. |
| RegisterRoute.ValidateRegistration | src/app/api/auth/register/route.ts:22-41 | Each guard gives its own reply, in the source's order: 400 "Invalid body" for a non-object; 400 "Email y password requeridos" without string credentials, a non-blank e-mail and a non-empty password; then 400 "Tipo de cuenta inválido" for any other account type. Success requires all of these and an unused normalised address, and carries the normalised, non-empty address. A 409 is returned exactly when the address is taken. It is "Usuario ya existe" exactly when the address is taken with the requested account type, and "otro tipo de cuenta" otherwise. |
| RegisterRoute.CompanyLegalName | src/app/api/auth/register/route.ts:57-59 | The legal name is empty exactly when no legal name and no user name were given and the normalised address is empty or starts with '@'. A given legal name is stored non-empty and without surrounding whitespace. Otherwise the user name is used, and failing that the whole part of the address before its first '@' (`split("@")[0]`). |
| RegisterRoute.CompanyTaxId | src/app/api/auth/register/route.ts:63 | The given tax id when it is a string, otherwise "TEMP". |
| RegisterRoute.Register | src/app/api/auth/register/route.ts:45-70 | On error no row is added. A participant adds one user. A brand also adds one company, with the fallback legal name, tax id or "TEMP", the normalised e-mail and the new user as owner. The store invariant is kept. |
| RegisterRoute.SecondRegistrationConflicts | src/app/api/auth/register/route.ts:35-41 | Registering an address that normalises to a registered one gives 409. The message is "Usuario ya existe" for the same account type and "otro tipo de cuenta" for the other. |
| Middleware.IsProtected | src/middleware.ts:9-10 | A path needs a session when it starts with `/empresas` and is neither `/empresas` nor `/empresas/registro`. |
| Middleware.MatchFrom | src/middleware.ts:14-15 | The regular expression's left-to-right search from a position. `MatchFromIff` characterises it. |
| Middleware.MatchAtIffCookieStart | src/middleware.ts:14 | Matching with greedy `\s*` at one position agrees with the declarative reading: the header start, or ';' followed by any run of whitespace, then a session cookie name. |
| Middleware.MatchFromIff | src/middleware.ts:14-15 | The left-to-right scan from a position finds a match exactly when a cookie starts at or after it. |
| Middleware.SessionTestIff | src/middleware.ts:14-15 | `sessionPattern.test` holds exactly when the header carries one of the four session cookie names at a cookie boundary. |
| Middleware.Gate | src/middleware.ts:5-22 | Paths outside `/empresas`, and exactly `/empresas` and `/empresas/registro`, pass. A protected path without a session cookie redirects to login with `next` set to the path. |
| Middleware.MatchedPathsAreProtected | src/middleware.ts:24-30 | Every path the middleware is configured to run on is a protected path. |
| Countdown.Remaining | src/components/Countdown.tsx:13 | The remaining time is never negative. It is zero once the end has passed and the exact difference before. |
| Countdown.Decompose | src/components/Countdown.tsx:14-17 | Seconds and minutes are below 60 and hours below 24. Together with the days they give exactly the whole seconds remaining. |
| Countdown.DecomposeExact | src/components/Countdown.tsx:14-17 | `d*86400 + h*3600 + m*60 + s == diff / 1000`. |
| Countdown.Display | src/components/Countdown.tsx:13-21 | A date that does not parse shows nothing numeric. Otherwise the shown parts add up to the whole seconds remaining. |
| Countdown.ZeroAfterTarget | src/components/Countdown.tsx:13-17 | After the end the display reads 0d 0h 0m 0s. |
| Countdown.DisplayNonIncreasing | src/components/Countdown.tsx:13-17 | As the clock advances, the displayed time never grows. |
| Countdown.Ticker.Tick | src/components/Countdown.tsx:9 | A tick replaces `now`. When the clock moved forward, the display has not grown. |
| Carousel.NextIndex | src/components/Carousel.tsx:33 | The next index stays in range and wraps from the last item to the first. |
| Carousel.PrevIndex | src/components/Carousel.tsx:25 | The previous index stays in range and wraps from the first item to the last. |
| Carousel.PrevUndoesNext | src/components/Carousel.tsx:25-33 | Back then forward, and forward then back, both return to the same index. |
| Carousel.AdvanceIsModular | src/components/Carousel.tsx:33 | k forward steps from i land on `(i + k) % n`. |
| Carousel.FullTurnIsIdentity | src/components/Carousel.tsx:33 | n forward steps return to the starting index. |
| Carousel.CarouselState.constructor | src/components/Carousel.tsx:11 | The index starts at 0. |
| Carousel.CarouselState.Current | src/components/Carousel.tsx:12-13 | Nothing is shown for an empty list. Otherwise the item at the index is shown. |
| Carousel.CarouselState.Position | src/components/Carousel.tsx:20 | The caption number is between 1 and the item count, and it is the one-based position of the item on show. |
| Carousel.CarouselState.Prev | src/components/Carousel.tsx:25 | The index moves one step back with wrap-around and stays in range. |
| Carousel.CarouselState.Next | src/components/Carousel.tsx:33 | The index moves one step forward with wrap-around and stays in range. |
| ParticipateButton.Label | src/components/ParticipateButton.tsx:15-22 | The label of each state, with the entry count in decimal when ready. `LabelDistinguishesStates` and `ReadyLabelInjective` state its properties. |
| ParticipateButton.IsDisabled | src/components/ParticipateButton.tsx:26 | The button is disabled while disabled or submitting. |
| ParticipateButton.LabelDistinguishesStates | src/components/ParticipateButton.tsx:15-22 | Different states never show the same label. |
| ParticipateButton.ReadyLabelInjective | src/components/ParticipateButton.tsx:19 | The ready label determines the entry count it shows. |
| ParticipateButton.ClickActsOnlyWhenEnabled | src/components/ParticipateButton.tsx:26-28 | A click that changes anything was on an enabled button that was not done. |
| ParticipateButton.Step | src/components/ParticipateButton.tsx:27-30 | A click changes the state exactly when it is ready, and then to submitting with the timer armed. The timer changes something exactly when armed, and then moves to done. |
| ParticipateButton.RunMonotone | src/components/ParticipateButton.tsx:27-30 | No run goes backwards. Disabled and done are never left, and ready is never re-entered. |
| ParticipateButton.ClickThenTimerCompletes | src/components/ParticipateButton.tsx:27-30 | From ready, a click followed by the timer ends in done, labelled "¡Participación confirmada!". |
| ParticipateButton.Button.constructor | src/components/ParticipateButton.tsx:6-13 | The state starts at `initialState` (default disabled), and `totalEntries` defaults to 0. |
| ParticipateButton.Button.OnClick | src/components/ParticipateButton.tsx:27-29 | The click handler performs exactly one click step of `Step`. |
| ParticipateButton.Button.OnTimer | src/components/ParticipateButton.tsx:30 | The timer callback performs exactly one timer step of `Step`. |

## Left out

- Prisma and the database. The tables are maps. The ids of new rows are
  parameters and must be unused. The ordering of `findMany` by `createdAt`
  is modelled only for the giveaway listing, whose input is the table
  listed newest first. The participation and company listings are maps
  without order.
- `ParticipationsRoute.PostParticipation`: entry uniqueness holds only for
  calls made one after another. The source has no transaction between the
  duplicate check and the insert, so concurrent requests are not modelled.
- HTTP, the `URL` class, JSON parsing and the Graph API transport:
  - page answers are given sequences;
  - `normalizeUrl` is an opaque function;
  - `safeText` becomes the body string;
  - the text of a JSON-parser exception is the constant "Invalid JSON
    body", and the text of a store refusal is a fixed constant. Both have
    status 500.
- The SocialAccount cache write in `ensureCompanyMetaContext`, because it
  is a database write. The page id is not returned, because no caller uses
  it.
- Authentication (`auth`, `requireAuth`, NextAuth, bcrypt). The caller is an
  optional user id. Password hashing is a function parameter.
- `Date` parsing, `Date.now`, `setInterval`, `setTimeout` and
  `process.env`. They are integers, optional integers or option parameters.
  The URL-encoding of the login redirect's `next` parameter is not
  modelled.
- `Text.ToLowerAscii`: `toLowerCase` is modelled for the ASCII letters only,
  because Dafny strings carry no Unicode case tables.
- The giveaway listing compares the `status` filter with the status's
  stored name. An invalid status or network value makes Prisma throw (500).
  The model returns no matches for it instead.
- Response extras are not modelled: the company and participation counts
  included in the giveaway listing, and the requirement rows of the
  verifier's giveaway beyond what the loop reads.
- Giveaway status transitions (PATCH/DELETE), winner selection, the verify
  route's persistence of the result, OAuth flows, UI pages and
  presentational styling. These are not part of this model.
- `Verification.CheckRequirement`: a stored requirement type is one of the
  four enum values. The source's fall-through for any other type (no
  record) therefore cannot arise and is not modelled.
- ValidateGiveaway, NormalizeRequirements, ValidateEntry: JSON numbers are
  whole numbers in the model. A fractional `mentionsCount` or `entries`,
  which the store's `Int` columns refuse with a 500, cannot be expressed.
  The 32-bit range check is modelled. Other JSON type mismatches, such as a
  non-boolean `required`, are not modelled.
- `Verification.MetaBridge`: the Graph API is a fixed function of its
  request. In the source, a giveaway with both a comment and a mentions
  requirement calls `verifyComment` twice, as two independent Graph API
  walks whose answers could differ. In the model both calls see the same
  pages.
- `ParticipateButton.Button`: `totalEntries` is an integer. A fractional
  JavaScript number, for example in a label like `Participar (1.5)`, is not
  modelled.
- `Carousel.CarouselState`: the item list is fixed for the component's
  lifetime. A re-render with fewer items than the current index is not
  modelled.
