/** The image-search endpoint (`GET /api/images?q=…&per_page=…`): a proxy to
    the Pixabay search API that checks its configuration and its query, asks
    Pixabay, and reshapes the answer. */
module ImagesRoute {
  import opened Wrappers
  import opened JsString
  import opened UriComponent

  /** One hit as Pixabay returns it. (`imageType` is Pixabay's `type`.) */
  datatype PixabayImage = PixabayImage(
    id: int, pageURL: string, imageType: string, tags: string,
    previewURL: string, previewWidth: int, previewHeight: int,
    webformatURL: string, webformatWidth: int, webformatHeight: int,
    largeImageURL: string, imageWidth: int, imageHeight: int, imageSize: int,
    views: int, downloads: int, collections: int, likes: int, comments: int,
    user_id: int, user: string, userImageURL: string)

  datatype PixabayResponse = PixabayResponse(total: int, totalHits: int, hits: seq<PixabayImage>)

  /** One hit as this endpoint returns it: Pixabay's hit without `type`,
      `imageSize` and `user_id`. */
  datatype ImageResult = ImageResult(
    id: int, pageURL: string, tags: string,
    previewURL: string, previewWidth: int, previewHeight: int,
    webformatURL: string, webformatWidth: int, webformatHeight: int,
    largeImageURL: string, imageWidth: int, imageHeight: int,
    views: int, downloads: int, collections: int, likes: int, comments: int,
    user: string, userImageURL: string)

  /** The outbound request: the values the handler puts in the query string
      of the Pixabay URL. The handler writes them into it as
      `QueryAsWritten`; `Query` is the encoding that keeps them intact. */
  datatype PixabayRequest = PixabayRequest(
    key: string, q: string, imageType: string, perPage: string, pretty: bool, safeSearch: bool)

  /** What Pixabay's side of the exchange turns out to be. */
  datatype Upstream =
    | TransportError               // `fetch` rejects
    | HttpError(statusText: string) // `response.ok` is false
    | MalformedBody                // `response.json()` rejects, or the body has no `hits`
    | Body(data: PixabayResponse)

  /** The JSON body this endpoint answers with, and its HTTP status. */
  datatype Response =
    | Images(total: int, totalHits: int, hits: seq<ImageResult>)
    | Error(status: int, error: string)

  function Status(r: Response): int
  {
    if r.Images? then 200 else r.status
  }

  /** The endpoint's answer together with the request it sent to Pixabay, if any. */
  datatype Exchange = Exchange(request: Option<PixabayRequest>, response: Response)

  const DefaultPerPage: string := "20"
  const NotConfigured: Response := Error(500, "API key not configured")
  const QueryRequired: Response := Error(400, "Search query is required")
  const NoImages: Response := Error(404, "No images found")
  const FetchFailed: Response := Error(500, "Failed to fetch images")

  /** `!PIXABAY_API_KEY`: the variable is unset or empty. */
  predicate KeyMissing(apiKey: Option<string>)
  {
    apiKey.None? || apiKey.value == ""
  }

  /** `!query?.trim()`: the parameter is absent or blank. */
  predicate QueryMissing(query: Option<string>)
  {
    query.None? || Trim(query.value) == ""
  }

  /** `searchParams.get('per_page') || '20'`. */
  function PerPage(perPageParam: Option<string>): (p: string)
    ensures perPageParam.None? || perPageParam.value == "" ==> p == DefaultPerPage
    ensures perPageParam.Some? && perPageParam.value != "" ==> p == perPageParam.value
  {
    if perPageParam.None? || perPageParam.value == "" then DefaultPerPage else perPageParam.value
  }

  /** The field-by-field copy of one hit. */
  function Project(img: PixabayImage): ImageResult
  {
    ImageResult(img.id, img.pageURL, img.tags,
                img.previewURL, img.previewWidth, img.previewHeight,
                img.webformatURL, img.webformatWidth, img.webformatHeight,
                img.largeImageURL, img.imageWidth, img.imageHeight,
                img.views, img.downloads, img.collections, img.likes, img.comments,
                img.user, img.userImageURL)
  }

  /** Puts the three dropped fields back: the inverse of `Project`. */
  function Restore(r: ImageResult, imageType: string, imageSize: int, user_id: int): PixabayImage
  {
    PixabayImage(r.id, r.pageURL, imageType, r.tags,
                 r.previewURL, r.previewWidth, r.previewHeight,
                 r.webformatURL, r.webformatWidth, r.webformatHeight,
                 r.largeImageURL, r.imageWidth, r.imageHeight, imageSize,
                 r.views, r.downloads, r.collections, r.likes, r.comments,
                 user_id, r.user, r.userImageURL)
  }

  /** `hits.map(image => ({ … }))`. */
  function {:induction false} ProjectHits(hits: seq<PixabayImage>): (out: seq<ImageResult>)
    ensures |out| == |hits|
    ensures forall i :: 0 <= i < |hits| ==> out[i] == Project(hits[i])
  {
    if hits == [] then [] else [Project(hits[0])] + ProjectHits(hits[1..])
  }

  /** The handler. `apiKey` is the `PIXABAY_API_KEY` environment variable,
      `query` and `perPageParam` the `q` and `per_page` parameters of the
      request URL, and `upstream` what Pixabay's side of the request turns
      out to be (consulted only when a request is made). */
  function Get(apiKey: Option<string>, query: Option<string>, perPageParam: Option<string>,
               upstream: Upstream): (ex: Exchange)
  {
    if KeyMissing(apiKey) then Exchange(None, NotConfigured)
    else if QueryMissing(query) then Exchange(None, QueryRequired)
    else
      var request := PixabayRequest(apiKey.value, query.value, "photo", PerPage(perPageParam), true, true);
      Exchange(Some(request), Relay(upstream))
  }

  /** The `try` block after the request: how Pixabay's side becomes the answer. */
  function Relay(upstream: Upstream): (r: Response)
    ensures !upstream.Body? ==> r == FetchFailed
    ensures upstream.Body? && upstream.data.hits == [] ==> r == NoImages
    ensures Status(r) == 200 <==> upstream.Body? && upstream.data.hits != []
  {
    match upstream
    case TransportError => FetchFailed
    case HttpError(_) => FetchFailed
    case MalformedBody => FetchFailed
    case Body(data) =>
      if |data.hits| == 0 then NoImages
      else Images(data.total, data.totalHits, ProjectHits(data.hits))
  }

  /** A boolean as a template literal writes it. */
  function Flag(b: bool): string
  {
    if b then "true" else "false"
  }

  /** One `name=value` parameter. */
  function Param(name: string, value: string): string
  {
    name + ['='] + value
  }

  /** A parameter holds a delimiter only if its name or value does. */
  lemma ParamAvoids(name: string, value: string, c: char)
    requires c !in name && c != '=' && c !in value
    ensures c !in Param(name, value)
  {
  }

  /** Cutting a parameter inside its value. */
  lemma ParamCut(name: string, value: string, c: char)
    requires c !in name && c != '=' && c in value
    ensures c in Param(name, value) && Before(Param(name, value), c) == Param(name, Before(value, c))
  {
    BeforeAppend(name + ['='], value, c);
  }

  /** The parameters of the Pixabay URL as the handler writes them: only
      `q` goes through `encodeURIComponent`; the key and `per_page` are
      pasted in as they are. */
  function ParametersAsWritten(req: PixabayRequest): seq<string>
  {
    [Param("key", req.key), Param("q", Encode(req.q)), Param("image_type", req.imageType),
     Param("per_page", req.perPage), Param("pretty", Flag(req.pretty)), Param("safesearch", Flag(req.safeSearch))]
  }

  /** The query string of the Pixabay URL as written: the parameters joined
      by `&`. */
  function QueryAsWritten(req: PixabayRequest): string
  {
    Join(ParametersAsWritten(req), '&')
  }

  /** The parameters with every value encoded. */
  function Parameters(req: PixabayRequest): seq<string>
  {
    [Param("key", Encode(req.key)), Param("q", Encode(req.q)), Param("image_type", Encode(req.imageType)),
     Param("per_page", Encode(req.perPage)), Param("pretty", Flag(req.pretty)), Param("safesearch", Flag(req.safeSearch))]
  }

  /** The query string the request is meant to send. */
  function Query(req: PixabayRequest): string
  {
    Join(Parameters(req), '&')
  }

  /** What `fetch` sends of a query string: everything before the first `#`,
      which starts the fragment. */
  function Sent(query: string): (r: string)
    ensures r <= query && '#' !in r
    ensures '#' !in query ==> r == query
  {
    Before(query, '#')
  }

  /** The parameters Pixabay receives: the sent part, split at `&`. */
  function Received(query: string): seq<string>
  {
    Split(Sent(query), '&')
  }

  /** No encoded parameter holds `&` or `#`. */
  lemma ParametersHaveNoDelimiter(req: PixabayRequest)
    ensures SeparatorFree(Parameters(req), '&') && SeparatorFree(Parameters(req), '#')
  {
    ParametersAvoid(req, '&');
    ParametersAvoid(req, '#');
  }

  lemma ParametersAvoid(req: PixabayRequest, c: char)
    requires c == '&' || c == '#'
    ensures SeparatorFree(Parameters(req), c)
  {
    EncodedParamAvoids("key", req.key, c);
    EncodedParamAvoids("q", req.q, c);
    EncodedParamAvoids("image_type", req.imageType, c);
    EncodedParamAvoids("per_page", req.perPage, c);
    FlagParamAvoids("pretty", req.pretty, c);
    FlagParamAvoids("safesearch", req.safeSearch, c);
    SixAvoid(Param("key", Encode(req.key)), Param("q", Encode(req.q)),
             Param("image_type", Encode(req.imageType)), Param("per_page", Encode(req.perPage)),
             Param("pretty", Flag(req.pretty)), Param("safesearch", Flag(req.safeSearch)), c);
  }

  lemma SixAvoid(a: string, b: string, d: string, e: string, f: string, g: string, c: char)
    requires c !in a && c !in b && c !in d && c !in e && c !in f && c !in g
    ensures SeparatorFree([a, b, d, e, f, g], c)
  {
  }

  lemma EncodedParamAvoids(name: string, value: string, c: char)
    requires c == '&' || c == '#'
    requires c !in name
    ensures c !in Param(name, Encode(value))
  {
    EncodedHasNoDelimiter(value);
    ParamAvoids(name, Encode(value), c);
  }

  lemma FlagParamAvoids(name: string, b: bool, c: char)
    requires c == '&' || c == '#'
    requires c !in name
    ensures c !in Param(name, Flag(b))
  {
    ParamAvoids(name, Flag(b), c);
  }

  /** With every value encoded, Pixabay receives exactly the six parameters,
      in order, with `safesearch` as the request has it. */
  lemma QueryKeepsItsParameters(req: PixabayRequest)
    ensures Received(Query(req)) == Parameters(req)
  {
    var ps := Parameters(req);
    ParametersHaveNoDelimiter(req);
    JoinAvoids(ps, '&', '#');
    SplitJoin(ps, '&');
  }

  /** Every request the handler builds asks for photos, pretty-printed and
      safe-searched. Only written with every value encoded (`Query`, not the
      handler's `QueryAsWritten`) does Pixabay receive exactly those
      parameters, whatever `q` and `per_page` hold. */
  lemma EncodedRequestKeepsSafeSearch(apiKey: Option<string>, query: Option<string>, perPageParam: Option<string>,
                                 upstream: Upstream)
    ensures var ex := Get(apiKey, query, perPageParam, upstream);
            ex.request.Some? ==>
              && ex.request.value.imageType == "photo"
              && ex.request.value.pretty && ex.request.value.safeSearch
              && Received(Query(ex.request.value)) == Parameters(ex.request.value)
  {
    var ex := Get(apiKey, query, perPageParam, upstream);
    if ex.request.Some? {
      QueryKeepsItsParameters(ex.request.value);
    }
  }

  /** As written, a `#` in `per_page` (sent to the handler as `%23`) ends
      the query string inside the `per_page` parameter: Pixabay receives the
      first three parameters, `per_page` cut at the `#`, and neither `pretty`
      nor `safesearch`. */
  lemma FragmentInPerPageDropsSafeSearch(req: PixabayRequest)
    requires '#' in req.perPage
    requires '#' !in req.key && '&' !in req.key
    requires '#' !in req.imageType && '&' !in req.imageType
    requires '&' !in Before(req.perPage, '#')
    ensures Received(QueryAsWritten(req)) ==
              [Param("key", req.key), Param("q", Encode(req.q)), Param("image_type", req.imageType),
               Param("per_page", Before(req.perPage, '#'))]
  {
    var cut := Before(req.perPage, '#');
    var kept := [Param("key", req.key), Param("q", Encode(req.q)), Param("image_type", req.imageType),
                 Param("per_page", cut)];
    KeptAvoid(req, cut, '#');
    ParamCut("per_page", req.perPage, '#');
    CutFourth(kept[0], kept[1], kept[2], Param("per_page", req.perPage),
              Param("pretty", Flag(req.pretty)), Param("safesearch", Flag(req.safeSearch)), '&', '#');
    KeptAvoid(req, cut, '&');
    SplitJoin(kept, '&');
  }

  /** Cutting six joined pieces at a `c` that first occurs in the fourth. */
  lemma CutFourth(a: string, b: string, d: string, e: string, f: string, g: string, sep: char, c: char)
    requires sep != c && c !in a && c !in b && c !in d && c in e
    ensures Before(Join([a, b, d, e, f, g], sep), c) == Join([a, b, d, Before(e, c)], sep)
  {
    var ps := [a, b, d, e, f, g];
    BeforeJoin(ps, sep, c, 3);
    assert ps[..3] + [Before(ps[3], c)] == [a, b, d, Before(e, c)];
  }

  /** `?q=…&per_page=20%23` reaches the handler as the `per_page` value
      `20#`, which it puts in the request unchanged. */
  lemma PerPageTwentyHashIsSent(key: string, q: string, upstream: Upstream)
    requires key != "" && !IsBlank(q)
    ensures Get(Some(key), Some(q), Some("20#"), upstream).request ==
              Some(PixabayRequest(key, q, "photo", "20#", true, true))
  {
    TrimEmptyIffBlank(q);
  }

  /** For that request, the written query string stops at `per_page=20`:
      Pixabay is asked without safe search. */
  lemma PerPageTwentyHashDropsSafeSearch(key: string, q: string)
    requires '#' !in key && '&' !in key
    ensures Received(QueryAsWritten(PixabayRequest(key, q, "photo", "20#", true, true))) ==
              [Param("key", key), Param("q", Encode(q)), Param("image_type", "photo"), Param("per_page", "20")]
  {
    TwentyHashCut();
    FragmentInPerPageDropsSafeSearch(PixabayRequest(key, q, "photo", "20#", true, true));
  }

  lemma TwentyHashCut()
    ensures '#' in "20#" && Before("20#", '#') == "20"
  {
    assert "20#"[2] == '#';
    assert IndexOf("20#", '#') == 2;
  }

  /** The four parameters that reach Pixabay hold no delimiter. */
  lemma KeptAvoid(req: PixabayRequest, cut: string, c: char)
    requires c == '#' || c == '&'
    requires c !in cut && c !in req.key && c !in req.imageType
    ensures SeparatorFree([Param("key", req.key), Param("q", Encode(req.q)), Param("image_type", req.imageType),
                           Param("per_page", cut)], c)
  {
    EncodedHasNoDelimiter(req.q);
    ParamAvoids("key", req.key, c);
    ParamAvoids("q", Encode(req.q), c);
    ParamAvoids("image_type", req.imageType, c);
    ParamAvoids("per_page", cut, c);
    FourAvoid(Param("key", req.key), Param("q", Encode(req.q)), Param("image_type", req.imageType),
              Param("per_page", cut), c);
  }

  lemma FourAvoid(a: string, b: string, d: string, e: string, c: char)
    requires c !in a && c !in b && c !in d && c !in e
    ensures SeparatorFree([a, b, d, e], c)
  {
  }

  /** The projection keeps every field but `type`, `imageSize` and `user_id`:
      restoring those three gives the hit back, so two hits project alike
      exactly when they differ at most in the dropped fields. */
  lemma ProjectDropsExactlyThreeFields(a: PixabayImage, b: PixabayImage)
    ensures Restore(Project(a), a.imageType, a.imageSize, a.user_id) == a
    ensures Project(a) == Project(b) <==>
              a.(imageType := b.imageType, imageSize := b.imageSize, user_id := b.user_id) == b
  {
  }

  /** A missing key answers 500 before anything else is looked at: the query,
      `per_page` and Pixabay play no part and no request is sent. */
  lemma MissingKeyComesFirst(apiKey: Option<string>, query: Option<string>, perPageParam: Option<string>,
                             upstream: Upstream)
    requires KeyMissing(apiKey)
    ensures Get(apiKey, query, perPageParam, upstream) == Exchange(None, NotConfigured)
    ensures Status(Get(apiKey, query, perPageParam, upstream).response) == 500
  {
  }

  /** With a key, a missing or blank query answers 400 and sends no request. */
  lemma BlankQueryRejected(apiKey: Option<string>, query: Option<string>, perPageParam: Option<string>,
                           upstream: Upstream)
    requires !KeyMissing(apiKey)
    requires query.None? || IsBlank(query.value)
    ensures Get(apiKey, query, perPageParam, upstream) == Exchange(None, QueryRequired)
    ensures Status(Get(apiKey, query, perPageParam, upstream).response) == 400
  {
  }

  /** A request goes to Pixabay exactly when the key is set and the query is
      not blank; it carries the query as given (untrimmed) and `per_page`
      defaulting to 20. Whenever no request is sent, Pixabay cannot affect the
      answer. */
  lemma RequestSentIffValid(apiKey: Option<string>, query: Option<string>, perPageParam: Option<string>,
                            upstream: Upstream, other: Upstream)
    ensures var ex := Get(apiKey, query, perPageParam, upstream);
            && (ex.request.Some? <==> !KeyMissing(apiKey) && query.Some? && !IsBlank(query.value))
            && (ex.request.Some? ==>
                  && ex.request.value.key == apiKey.value
                  && ex.request.value.q == query.value
                  && ex.request.value.perPage == PerPage(perPageParam))
            && (ex.request.None? ==> Get(apiKey, query, perPageParam, other) == ex)
  {
  }

  /** Once the request is sent, every failure on Pixabay's side answers 500
      with "Failed to fetch images", and an empty hit list answers 404. */
  lemma UpstreamOutcomes(apiKey: Option<string>, query: Option<string>, perPageParam: Option<string>,
                         upstream: Upstream)
    requires !KeyMissing(apiKey) && !QueryMissing(query)
    ensures Get(apiKey, query, perPageParam, upstream).response == Relay(upstream)
    ensures !upstream.Body? ==> Get(apiKey, query, perPageParam, upstream).response == FetchFailed
    ensures upstream.Body? && upstream.data.hits == [] ==>
              Get(apiKey, query, perPageParam, upstream).response == NoImages
  {
  }

  /** The answer is 200 exactly when the key is set, the query is not blank
      and Pixabay returns at least one hit; then `total` and `totalHits` are
      Pixabay's and the hits are Pixabay's, in order, each projected. */
  lemma SuccessIff(apiKey: Option<string>, query: Option<string>, perPageParam: Option<string>,
                   upstream: Upstream)
    ensures var r := Get(apiKey, query, perPageParam, upstream).response;
            Status(r) == 200 <==>
              !KeyMissing(apiKey) && query.Some? && !IsBlank(query.value)
              && upstream.Body? && upstream.data.hits != []
    ensures var r := Get(apiKey, query, perPageParam, upstream).response;
            Status(r) == 200 ==>
              && r.Images?
              && r.total == upstream.data.total && r.totalHits == upstream.data.totalHits
              && |r.hits| == |upstream.data.hits|
              && forall i :: 0 <= i < |r.hits| ==>
                   Restore(r.hits[i], upstream.data.hits[i].imageType, upstream.data.hits[i].imageSize,
                           upstream.data.hits[i].user_id) == upstream.data.hits[i]
  {
    if query.Some? {
      TrimEmptyIffBlank(query.value);
    }
    var r := Get(apiKey, query, perPageParam, upstream).response;
    if Status(r) == 200 {
      var hits := upstream.data.hits;
      assert r == Images(upstream.data.total, upstream.data.totalHits, ProjectHits(hits));
      forall i | 0 <= i < |r.hits|
        ensures Restore(r.hits[i], hits[i].imageType, hits[i].imageSize, hits[i].user_id) == hits[i]
      {
        ProjectDropsExactlyThreeFields(hits[i], hits[i]);
      }
    }
  }
}
