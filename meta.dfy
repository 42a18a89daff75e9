/**
 * The Instagram side of participation checks (`MetaAdapter`): counting the
 * mentions in a comment, finding the giveaway's post among the business
 * account's media, and finding the participant's comment on that post.
 *
 * The Graph API is given as data: each paged collection is the sequence of
 * responses its successive requests receive (page `k + 1` is requested only
 * when page `k` carries a `next` link, which it does exactly when `k + 1` is
 * an index of the sequence; an empty sequence answers with one empty page).
 * The linked social accounts are the store's rows in lookup order, and URL
 * normalisation is a parameter.
 */
module Meta {
  import opened Wrappers
  import opened Domain

  /** `resolveInstagramMediaId` requests at most this many media pages. */
  const MediaPageLimit: nat := 10
  /** `verifyComment` requests at most this many comment pages. */
  const CommentPageLimit: nat := 20

  const MissingTokenMessage := "Company Meta access token not found"
  const MissingBusinessIdMessage := "instagramBusinessId not available for company Page"

  // ---------------------------------------------------------------------
  // countMentions: the number of matches of /@([A-Za-z0-9_.]+)/g
  // ---------------------------------------------------------------------

  predicate IsHandleChar(c: char) {
    ('A' <= c <= 'Z') || ('a' <= c <= 'z') || ('0' <= c <= '9') || c == '_' || c == '.'
  }

  /** The end of the (greedy) run of handle characters starting at `i`. */
  function HandleEnd(t: string, i: nat): (j: nat)
    requires i <= |t|
    ensures i <= j <= |t|
    ensures forall k :: i <= k < j ==> IsHandleChar(t[k])
    ensures j == |t| || !IsHandleChar(t[j])
    decreases |t| - i
  {
    if i < |t| && IsHandleChar(t[i]) then HandleEnd(t, i + 1) else i
  }

  /**
   * The global match scanning from `i`: a match is an '@' followed by the
   * longest non-empty run of handle characters; scanning resumes after it.
   */
  function MatchesFrom(t: string, i: nat): nat
    requires i <= |t|
    decreases |t| - i
  {
    if i + 1 >= |t| then 0
    else if t[i] == '@' && IsHandleChar(t[i + 1]) then 1 + MatchesFrom(t, HandleEnd(t, i + 1))
    else MatchesFrom(t, i + 1)
  }

  function CountMentions(text: string): nat {
    MatchesFrom(text, 0)
  }

  /** Position `i` holds an '@' immediately followed by a handle character. */
  predicate IsMentionAt(t: string, i: int) {
    0 <= i && i + 1 < |t| && t[i] == '@' && IsHandleChar(t[i + 1])
  }

  /** The number of positions at or after `i` where a mention starts. */
  function MentionStartsFrom(t: string, i: nat): nat
    requires i <= |t|
    decreases |t| - i
  {
    if i == |t| then 0 else (if IsMentionAt(t, i) then 1 else 0) + MentionStartsFrom(t, i + 1)
  }

  lemma {:induction false} MentionStartsSkip(t: string, a: nat, b: nat)
    requires a <= b <= |t|
    requires forall k :: a <= k < b ==> t[k] != '@'
    ensures MentionStartsFrom(t, a) == MentionStartsFrom(t, b)
    decreases b - a
  {
    if a < b {
      MentionStartsSkip(t, a + 1, b);
    }
  }

  lemma {:induction false} MatchesAreMentionStarts(t: string, i: nat)
    requires i <= |t|
    ensures MatchesFrom(t, i) == MentionStartsFrom(t, i)
    decreases |t| - i
  {
    if i + 1 >= |t| {
      if i < |t| {
        assert !IsMentionAt(t, i);
        assert MentionStartsFrom(t, i + 1) == 0;
      }
    } else if t[i] == '@' && IsHandleChar(t[i + 1]) {
      var j := HandleEnd(t, i + 1);
      MentionStartsSkip(t, i + 1, j);
      MatchesAreMentionStarts(t, j);
    } else {
      MatchesAreMentionStarts(t, i + 1);
    }
  }

  /**
   * The regular expression's match count equals the number of '@' characters
   * immediately followed by a letter, digit, '_' or '.'; none in "".
   */
  lemma CountMentionsIsMentionStarts(text: string)
    ensures CountMentions(text) == MentionStartsFrom(text, 0)
    ensures text == "" ==> CountMentions(text) == 0
  {
    MatchesAreMentionStarts(text, 0);
  }

  // ---------------------------------------------------------------------
  // Paged Graph API collections
  // ---------------------------------------------------------------------

  /** The response to one page request: the page's items, or a non-ok answer with its body text. */
  datatype Response<T> = Ok(data: seq<T>) | NotOk(body: string)

  datatype Media = Media(id: string, permalink: string)

  datatype IgComment = IgComment(id: string, text: Option<string>, userId: Option<string>)

  datatype FbPage = FbPage(id: string, instagramBusinessId: Option<string>)

  /** The answer of `verifyComment`: `mentions` is absent on the early `{ ok: false }` returns. */
  datatype CommentCheck = CommentCheck(ok: bool, mentions: Option<int>)

  /**
   * The Graph API as data: the `me/accounts` answer for an access token, the
   * media pages of a business account (by business id and token), and the
   * comment pages of a media item (by media id and token).
   */
  datatype GraphApi = GraphApi(
    accounts: string -> Response<FbPage>,
    media: (string, string) -> seq<Response<Media>>,
    comments: (string, string) -> seq<Response<IgComment>>)

  /** Everything `MetaAdapter` consults: the stored social accounts, the Graph API and `normalizeUrl`. */
  datatype MetaEnv = MetaEnv(
    socialAccounts: seq<SocialAccount>,
    graph: GraphApi,
    normalizeUrl: string -> string)

  function Fetch<T>(pages: seq<Response<T>>, k: nat): Response<T> {
    if k < |pages| then pages[k] else Ok([])
  }

  predicate HasNext<T>(pages: seq<Response<T>>, k: nat) {
    k + 1 < |pages|
  }

  /**
   * The bounded page walk both searches share: fetch page `k`; a non-ok
   * answer fails with its body; the first matching item of a page ends the
   * walk; otherwise follow `next` while the budget of pages lasts.
   */
  function SearchPages<T>(pages: seq<Response<T>>, k: nat, matches: T -> bool, budget: nat): Result<Option<T>, string>
    decreases budget
  {
    if budget == 0 then Success(None)
    else match Fetch(pages, k)
      case NotOk(body) => Failure(body)
      case Ok(items) =>
        var hit := FirstWhere(items, matches);
        if hit.Some? then Success(hit)
        else if HasNext(pages, k) then SearchPages(pages, k + 1, matches, budget - 1)
        else Success(None)
  }

  /** Page `q` was fetched, answered ok and held no matching item. */
  predicate PassedOver<T>(pages: seq<Response<T>>, q: int, matches: T -> bool)
    requires 0 <= q < |pages|
  {
    pages[q].Ok? && forall i :: 0 <= i < |pages[q].data| ==> !matches(pages[q].data[i])
  }

  /** A found item is the first match on the first page, within the budget, that has one. */
  lemma {:induction false} SearchFoundIsFirst<T>(pages: seq<Response<T>>, k: nat, matches: T -> bool, budget: nat, x: T)
    requires SearchPages(pages, k, matches, budget) == Success(Some(x))
    ensures exists p :: k <= p < k + budget && p < |pages| && pages[p].Ok?
                        && FirstWhere(pages[p].data, matches) == Some(x)
                        && forall q :: k <= q < p ==> PassedOver(pages, q, matches)
    decreases budget
  {
    var hit := FirstWhere(Fetch(pages, k).data, matches);
    if hit.Some? {
      assert k < |pages|;
    } else {
      SearchFoundIsFirst(pages, k + 1, matches, budget - 1, x);
      var p :| k + 1 <= p < k + budget && p < |pages| && pages[p].Ok?
               && FirstWhere(pages[p].data, matches) == Some(x)
               && forall q :: k + 1 <= q < p ==> PassedOver(pages, q, matches);
      assert PassedOver(pages, k, matches);
    }
  }

  /** Finding nothing means every page within the budget was fetched, ok and without a match. */
  lemma {:induction false} SearchNoneExhausts<T>(pages: seq<Response<T>>, k: nat, matches: T -> bool, budget: nat)
    requires SearchPages(pages, k, matches, budget) == Success(None)
    ensures forall q :: k <= q < k + budget && q < |pages| ==> PassedOver(pages, q, matches)
    decreases budget
  {
    if budget > 0 && k < |pages| {
      assert PassedOver(pages, k, matches);
      if HasNext(pages, k) {
        SearchNoneExhausts(pages, k + 1, matches, budget - 1);
      }
    }
  }

  /** A failure is the body of the first non-ok page, every page before it having been passed over. */
  lemma {:induction false} SearchFailureIsFirstBadPage<T>(pages: seq<Response<T>>, k: nat, matches: T -> bool, budget: nat)
    requires SearchPages(pages, k, matches, budget).Failure?
    ensures exists p :: k <= p < k + budget && p < |pages|
                        && pages[p] == NotOk(SearchPages(pages, k, matches, budget).error)
                        && forall q :: k <= q < p ==> PassedOver(pages, q, matches)
    decreases budget
  {
    if Fetch(pages, k).Ok? {
      SearchFailureIsFirstBadPage(pages, k + 1, matches, budget - 1);
      var p :| k + 1 <= p < k + budget && p < |pages|
               && pages[p] == NotOk(SearchPages(pages, k + 1, matches, budget - 1).error)
               && forall q :: k + 1 <= q < p ==> PassedOver(pages, q, matches);
      assert PassedOver(pages, k, matches);
    }
  }

  /** Pages past the budget are never requested: dropping them changes nothing. */
  lemma {:induction false} SearchIgnoresPagesPastBudget<T>(pages: seq<Response<T>>, k: nat, matches: T -> bool, budget: nat)
    requires k + budget <= |pages|
    ensures SearchPages(pages, k, matches, budget) == SearchPages(pages[..k + budget], k, matches, budget)
    decreases budget
  {
    if budget > 0 {
      var cut := pages[..k + budget];
      assert Fetch(cut, k) == Fetch(pages, k);
      if budget > 1 {
        assert HasNext(cut, k) == HasNext(pages, k);
        SearchIgnoresPagesPastBudget(pages, k + 1, matches, budget - 1);
        assert pages[..k + 1 + (budget - 1)] == cut;
      }
    }
  }

  // ---------------------------------------------------------------------
  // resolveInstagramMediaId
  // ---------------------------------------------------------------------

  /** `normalizeUrl(m.permalink) === normalizeUrl(permalink)`. */
  function PermalinkMatcher(normalizeUrl: string -> string, permalink: string): Media -> bool {
    (m: Media) => normalizeUrl(m.permalink) == normalizeUrl(permalink)
  }

  /** The id of the first media item, over at most ten pages, whose normalised permalink is the post's. */
  function MediaIdFor(pages: seq<Response<Media>>, permalink: string, normalizeUrl: string -> string): Result<Option<string>, string> {
    match SearchPages(pages, 0, PermalinkMatcher(normalizeUrl, permalink), MediaPageLimit)
    case Failure(body) => Failure("IG media fetch failed: " + body)
    case Success(None) => Success(None)
    case Success(Some(m)) => Success(Some(m.id))
  }

  method ResolveInstagramMediaId(pages: seq<Response<Media>>, permalink: string, normalizeUrl: string -> string)
    returns (r: Result<Option<string>, string>)
    ensures r == MediaIdFor(pages, permalink, normalizeUrl)
  {
    var matcher := PermalinkMatcher(normalizeUrl, permalink);
    var cursor := 0;
    var i := 0;
    while i < MediaPageLimit
      invariant 0 <= i <= MediaPageLimit && cursor == i
      invariant SearchPages(pages, 0, matcher, MediaPageLimit) == SearchPages(pages, cursor, matcher, MediaPageLimit - i)
    {
      var res := Fetch(pages, cursor);
      if res.NotOk? {
        return Failure("IG media fetch failed: " + res.body);
      }
      var hit := FirstWhere(res.data, matcher);
      if hit.Some? {
        return Success(Some(hit.value.id));
      }
      if HasNext(pages, cursor) {
        cursor := cursor + 1;
      } else {
        break;
      }
      i := i + 1;
    }
    return Success(None);
  }

  /** A resolved media id belongs to a fetched item whose normalised permalink is the post's. */
  lemma MediaIdIsMatchingItem(pages: seq<Response<Media>>, permalink: string, normalizeUrl: string -> string, id: string)
    requires MediaIdFor(pages, permalink, normalizeUrl) == Success(Some(id))
    ensures exists p, i :: 0 <= p < MediaPageLimit && p < |pages| && pages[p].Ok? && 0 <= i < |pages[p].data|
                           && pages[p].data[i].id == id
                           && normalizeUrl(pages[p].data[i].permalink) == normalizeUrl(permalink)
  {
    var matcher := PermalinkMatcher(normalizeUrl, permalink);
    var found := SearchPages(pages, 0, matcher, MediaPageLimit).value.value;
    SearchFoundIsFirst(pages, 0, matcher, MediaPageLimit, found);
    var p :| 0 <= p < MediaPageLimit && p < |pages| && pages[p].Ok?
             && FirstWhere(pages[p].data, matcher) == Some(found)
             && forall q :: 0 <= q < p ==> PassedOver(pages, q, matcher);
    var i :| 0 <= i < |pages[p].data| && pages[p].data[i] == found && matcher(pages[p].data[i]);
  }

  /** No media id means no item of the first ten pages has the post's normalised permalink. */
  lemma MediaIdAbsentMeansNoMatch(pages: seq<Response<Media>>, permalink: string, normalizeUrl: string -> string)
    requires MediaIdFor(pages, permalink, normalizeUrl) == Success(None)
    ensures forall p, i :: 0 <= p < MediaPageLimit && p < |pages| && pages[p].Ok? && 0 <= i < |pages[p].data|
                           ==> normalizeUrl(pages[p].data[i].permalink) != normalizeUrl(permalink)
  {
    var matcher := PermalinkMatcher(normalizeUrl, permalink);
    SearchNoneExhausts(pages, 0, matcher, MediaPageLimit);
    forall p, i | 0 <= p < MediaPageLimit && p < |pages| && pages[p].Ok? && 0 <= i < |pages[p].data|
      ensures normalizeUrl(pages[p].data[i].permalink) != normalizeUrl(permalink)
    {
      assert PassedOver(pages, p, matcher);
      assert !matcher(pages[p].data[i]);
    }
  }

  // ---------------------------------------------------------------------
  // verifyLike and verifyComment
  // ---------------------------------------------------------------------

  /** Likes cannot be listed through the Graph API, on Instagram or elsewhere. */
  function VerifyLike(g: Giveaway): (ok: bool)
    ensures !ok
  {
    if g.network == "instagram" then false else false
  }

  /** `c.user?.id === participantIgId`. */
  function CommenterMatcher(participantIgId: string): IgComment -> bool {
    (c: IgComment) => c.userId == Some(participantIgId)
  }

  /** The outcome of the comment scan over at most twenty pages of comments. */
  function CommentScan(pages: seq<Response<IgComment>>, participantIgId: string): Result<CommentCheck, string> {
    match SearchPages(pages, 0, CommenterMatcher(participantIgId), CommentPageLimit)
    case Failure(body) => Failure("IG comments fetch failed: " + body)
    case Success(None) => Success(CommentCheck(false, Some(0)))
    case Success(Some(c)) => Success(CommentCheck(true, Some(CountMentions(c.text.GetOr("")))))
  }

  method ScanCommentPages(pages: seq<Response<IgComment>>, participantIgId: string) returns (r: Result<CommentCheck, string>)
    ensures r == CommentScan(pages, participantIgId)
  {
    ghost var matcher := CommenterMatcher(participantIgId);
    var cursor := 0;
    var found := false;
    var mentions := 0;
    var i := 0;
    while i < CommentPageLimit && !found
      invariant 0 <= i <= CommentPageLimit && cursor == i
      invariant !found ==> SearchPages(pages, 0, matcher, CommentPageLimit)
                           == SearchPages(pages, cursor, matcher, CommentPageLimit - i)
      invariant found ==> exists c: IgComment :: SearchPages(pages, 0, matcher, CommentPageLimit) == Success(Some(c))
                                      && mentions == CountMentions(c.text.GetOr(""))
    {
      var res := Fetch(pages, cursor);
      if res.NotOk? {
        return Failure("IG comments fetch failed: " + res.body);
      }
      var items := res.data;
      var j := 0;
      while j < |items|
        invariant 0 <= j <= |items| && !found
        invariant forall q :: 0 <= q < j ==> items[q].userId != Some(participantIgId)
      {
        if items[j].userId == Some(participantIgId) {
          found := true;
          mentions := CountMentions(items[j].text.GetOr(""));
          assert FirstWhere(items, matcher) == Some(items[j]);
          break;
        }
        j := j + 1;
      }
      if found {
        break;
      }
      assert FirstWhere(items, matcher).None?;
      if HasNext(pages, cursor) {
        cursor := cursor + 1;
      } else {
        break;
      }
      i := i + 1;
    }
    r := Success(CommentCheck(found, Some(if found then mentions else 0)));
  }

  /** Whether the company's first `facebook` social account is this one. */
  function CompanyFacebookAccount(companyId: Id): SocialAccount -> bool {
    (a: SocialAccount) => a.companyId == Some(companyId) && a.network == "facebook"
  }

  /** Whether the participant's first `instagram` social account is this one. */
  function ParticipantInstagramAccount(userId: Id): SocialAccount -> bool {
    (a: SocialAccount) => a.userId == Some(userId) && a.network == "instagram"
  }

  /** `p.instagram_business_account?.id` is truthy. */
  function PageWithBusinessAccount(): FbPage -> bool {
    (p: FbPage) => Truthy(p.instagramBusinessId)
  }

  datatype MetaContext = MetaContext(accessToken: string, instagramBusinessId: string)

  /**
   * `ensureCompanyMetaContext`: the company's Facebook access token and its
   * Instagram business id, looked up through `me/accounts` when the stored
   * account lacks the page id or the business id.
   */
  function CompanyMetaContext(accounts: seq<SocialAccount>, companyId: Id, graph: GraphApi): (r: Result<MetaContext, string>)
    ensures r.Success? ==> r.value.accessToken != "" && r.value.instagramBusinessId != ""
    ensures var account := FirstWhere(accounts, CompanyFacebookAccount(companyId));
            account.None? || !Truthy(account.value.accessToken) ==> r == Failure(MissingTokenMessage)
    ensures var account := FirstWhere(accounts, CompanyFacebookAccount(companyId));
            account.Some? && Truthy(account.value.accessToken) ==>
              var a := account.value;
              var token := a.accessToken.value;
              && (r.Success? ==> r.value.accessToken == token)
              && (Truthy(a.pageId) && Truthy(a.instagramBusinessId)
                  ==> r == Success(MetaContext(token, a.instagramBusinessId.value)))
              && (!(Truthy(a.pageId) && Truthy(a.instagramBusinessId)) ==>
                    match graph.accounts(token)
                    case NotOk(body) => r == Failure("Meta accounts fetch failed: " + body)
                    case Ok(pages) =>
                      var withIg := FirstWhere(pages, PageWithBusinessAccount());
                      var businessId := if withIg.Some? then withIg.value.instagramBusinessId else a.instagramBusinessId;
                      && (r == Failure(MissingBusinessIdMessage) <==> !Truthy(businessId))
                      && (Truthy(businessId) ==> r == Success(MetaContext(token, businessId.value))))
  {
    var account := FirstWhere(accounts, CompanyFacebookAccount(companyId));
    if account.None? || !Truthy(account.value.accessToken) then Failure(MissingTokenMessage)
    else
      var a := account.value;
      var token := a.accessToken.value;
      if Truthy(a.pageId) && Truthy(a.instagramBusinessId) then Success(MetaContext(token, a.instagramBusinessId.value))
      else match graph.accounts(token)
        case NotOk(body) => Failure("Meta accounts fetch failed: " + body)
        case Ok(pages) =>
          var withIg := FirstWhere(pages, PageWithBusinessAccount());
          var businessId := if withIg.Some? then withIg.value.instagramBusinessId else a.instagramBusinessId;
          if !Truthy(businessId) then Failure(MissingBusinessIdMessage)
          else Success(MetaContext(token, businessId.value))
  }

  /** The Instagram user id the participant linked, if any. */
  function ParticipantIgId(accounts: seq<SocialAccount>, userId: Id): Option<string> {
    var account := FirstWhere(accounts, ParticipantInstagramAccount(userId));
    if account.Some? then account.value.providerUserId else None
  }

  /** `verifyComment` as a value: did the participant comment on the post, and with how many mentions. */
  function CommentOutcome(env: MetaEnv, userId: Id, postUrl: string, g: Giveaway): Result<CommentCheck, string> {
    if g.network != "instagram" then Success(CommentCheck(false, None))
    else
      var igId := ParticipantIgId(env.socialAccounts, userId);
      if !Truthy(igId) then Success(CommentCheck(false, None))
      else match CompanyMetaContext(env.socialAccounts, g.companyId, env.graph)
        case Failure(e) => Failure(e)
        case Success(ctx) =>
          match MediaIdFor(env.graph.media(ctx.instagramBusinessId, ctx.accessToken), postUrl, env.normalizeUrl)
          case Failure(e) => Failure(e)
          case Success(mediaId) =>
            if !Truthy(mediaId) then Success(CommentCheck(false, None))
            else CommentScan(env.graph.comments(mediaId.value, ctx.accessToken), igId.value)
  }

  method VerifyComment(env: MetaEnv, userId: Id, postUrl: string, g: Giveaway) returns (r: Result<CommentCheck, string>)
    ensures r == CommentOutcome(env, userId, postUrl, g)
  {
    if g.network != "instagram" {
      return Success(CommentCheck(false, None));
    }
    var igId := ParticipantIgId(env.socialAccounts, userId);
    if !Truthy(igId) {
      return Success(CommentCheck(false, None));
    }
    var context := CompanyMetaContext(env.socialAccounts, g.companyId, env.graph);
    if context.Failure? {
      return Failure(context.error);
    }
    var ctx := context.value;
    var mediaId := ResolveInstagramMediaId(env.graph.media(ctx.instagramBusinessId, ctx.accessToken), postUrl, env.normalizeUrl);
    if mediaId.Failure? {
      return Failure(mediaId.error);
    }
    if !Truthy(mediaId.value) {
      return Success(CommentCheck(false, None));
    }
    r := ScanCommentPages(env.graph.comments(mediaId.value.value, ctx.accessToken), igId.value);
  }

  /**
   * Off Instagram, and for a participant without a linked Instagram id, the
   * answer is `{ ok: false }` whatever the Graph API would have said: no
   * request is made.
   */
  lemma CommentNeedsInstagramAndLinkedId(env: MetaEnv, graph: GraphApi, userId: Id, postUrl: string, g: Giveaway)
    requires g.network != "instagram" || !Truthy(ParticipantIgId(env.socialAccounts, userId))
    ensures CommentOutcome(env, userId, postUrl, g) == Success(CommentCheck(false, None))
    ensures CommentOutcome(env.(graph := graph), userId, postUrl, g) == CommentOutcome(env, userId, postUrl, g)
  {
  }

  /** A company without a stored access token makes the check fail rather than answer. */
  lemma CommentFailsWithoutCompanyToken(env: MetaEnv, userId: Id, postUrl: string, g: Giveaway)
    requires g.network == "instagram" && Truthy(ParticipantIgId(env.socialAccounts, userId))
    requires forall i :: 0 <= i < |env.socialAccounts| && CompanyFacebookAccount(g.companyId)(env.socialAccounts[i])
               ==> !Truthy(env.socialAccounts[i].accessToken)
    ensures CommentOutcome(env, userId, postUrl, g) == Failure(MissingTokenMessage)
  {
  }

  /**
   * A media item found with an empty id is treated as no media item
   * (`if (!mediaId)`): the answer is `{ ok: false }` and no comment is fetched.
   */
  lemma EmptyMediaIdStopsComment(env: MetaEnv, userId: Id, postUrl: string, g: Giveaway, ctx: MetaContext)
    requires g.network == "instagram" && Truthy(ParticipantIgId(env.socialAccounts, userId))
    requires CompanyMetaContext(env.socialAccounts, g.companyId, env.graph) == Success(ctx)
    requires MediaIdFor(env.graph.media(ctx.instagramBusinessId, ctx.accessToken), postUrl, env.normalizeUrl) == Success(Some(""))
    ensures CommentOutcome(env, userId, postUrl, g) == Success(CommentCheck(false, None))
  {
  }

  /** A negative answer carries no mention count, or a zero one. */
  lemma CommentNotOkHasNoMentions(env: MetaEnv, userId: Id, postUrl: string, g: Giveaway)
    requires CommentOutcome(env, userId, postUrl, g).Success? && !CommentOutcome(env, userId, postUrl, g).value.ok
    ensures CommentOutcome(env, userId, postUrl, g).value.mentions in {None, Some(0)}
  {
  }

  /**
   * A positive answer comes from the comment pages of the post's media item:
   * the check got past the Instagram, linked-id, company-context and media-id
   * steps, its answer is the scan of exactly those pages, and its mention
   * count is that of the participant's first comment on the first page,
   * within twenty, that holds one, every earlier page having been ok and
   * without such a comment.
   */
  lemma CommentOkMeansParticipantComment(env: MetaEnv, userId: Id, postUrl: string, g: Giveaway)
    requires CommentOutcome(env, userId, postUrl, g).Success? && CommentOutcome(env, userId, postUrl, g).value.ok
    ensures g.network == "instagram" && Truthy(ParticipantIgId(env.socialAccounts, userId))
    ensures CompanyMetaContext(env.socialAccounts, g.companyId, env.graph).Success?
    ensures var ctx := CompanyMetaContext(env.socialAccounts, g.companyId, env.graph).value;
            var m := MediaIdFor(env.graph.media(ctx.instagramBusinessId, ctx.accessToken), postUrl, env.normalizeUrl);
            && m.Success? && Truthy(m.value)
            && CommentOutcome(env, userId, postUrl, g)
               == CommentScan(env.graph.comments(m.value.value, ctx.accessToken), ParticipantIgId(env.socialAccounts, userId).value)
    ensures var ctx := CompanyMetaContext(env.socialAccounts, g.companyId, env.graph).value;
            var m := MediaIdFor(env.graph.media(ctx.instagramBusinessId, ctx.accessToken), postUrl, env.normalizeUrl).value.value;
            var pages := env.graph.comments(m, ctx.accessToken);
            var matcher := CommenterMatcher(ParticipantIgId(env.socialAccounts, userId).value);
            exists p :: 0 <= p < CommentPageLimit && p < |pages| && pages[p].Ok?
                        && (forall q :: 0 <= q < p ==> PassedOver(pages, q, matcher))
                        && FirstWhere(pages[p].data, matcher).Some?
                        && CommentOutcome(env, userId, postUrl, g).value.mentions
                           == Some(CountMentions(FirstWhere(pages[p].data, matcher).value.text.GetOr("")))
  {
    var igId := ParticipantIgId(env.socialAccounts, userId);
    var ctx := CompanyMetaContext(env.socialAccounts, g.companyId, env.graph).value;
    var mediaId := MediaIdFor(env.graph.media(ctx.instagramBusinessId, ctx.accessToken), postUrl, env.normalizeUrl).value.value;
    var pages := env.graph.comments(mediaId, ctx.accessToken);
    var matcher := CommenterMatcher(igId.value);
    var comment := SearchPages(pages, 0, matcher, CommentPageLimit).value.value;
    SearchFoundIsFirst(pages, 0, matcher, CommentPageLimit, comment);
  }
}
