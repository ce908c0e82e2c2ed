/**
 * The read-only REST API of "WP Text to Speech" (`includes/class-wp-tts-rest-api.php`):
 * the text shaping behind `/speech/{id}` (the clean-up tail of `html_to_plain_text`,
 * `split_into_sentences`, `estimate_duration`), `format_settings`, the route validators,
 * and the decisions of the three handlers: which request is refused with which status,
 * the cap on `per_page`, the query that is run and the summary built for each post.
 */
module RestApi {
  import opened Wrappers
  import opened Text
  import opened Php
  import opened Settings

  /** The namespace every route is registered under. */
  const Namespace: string := "wp-tts/v1"

  /** The largest page size `/posts` serves. */
  const MaxPerPage: int := 50

  /** Words per minute at rate 1. */
  const WordsPerMinute: real := 150.0

  // ---------------------------------------------------------------------------
  // Plain text and sentences
  // ---------------------------------------------------------------------------

  /**
   * The last three steps of `html_to_plain_text`: every run of two or more dots becomes one
   * dot, every run of white space (PCRE `\s`) one space, and PHP's `trim` removes what is
   * left at either end.
   */
  function CleanupTail(text: string): string {
    Trim(CollapseRuns(CollapseRuns(text, IsDot, '.'), PcreSpace, ' '), PhpTrimmable)
  }

  /**
   * The cleaned text has no two neighbouring dots, no two neighbouring white-space
   * characters, every white-space character is a plain space, and it neither begins nor
   * ends with white space.
   */
  lemma {:induction false} CleanupShape(text: string)
    ensures NoAdjacent(CleanupTail(text), IsDot)
    ensures Collapsed(CleanupTail(text), PcreSpace, ' ')
    ensures CleanupTail(text) != [] ==> !PcreSpace(CleanupTail(text)[0]) && !PcreSpace(CleanupTail(text)[|CleanupTail(text)| - 1])
  {
    var d := CollapseRuns(text, IsDot, '.');
    var c := CollapseRuns(d, PcreSpace, ' ');
    CollapseRunsCollapsed(text, IsDot, '.');
    CollapseRunsCollapsed(d, PcreSpace, ' ');
    assert Disjoint(d, IsDot, PcreSpace);
    CollapseRunsKeepsNoAdjacent(d, PcreSpace, ' ', IsDot);
    var i, j := TrimSlice(c, PhpTrimmable);
    NoAdjacentSlice(c, i, j, IsDot);
    CollapsedSlice(c, i, j, PcreSpace, ' ');
  }

  /** Running the clean-up tail a second time changes nothing. */
  lemma {:induction false} CleanupIdempotent(text: string)
    ensures CleanupTail(CleanupTail(text)) == CleanupTail(text)
  {
    var r := CleanupTail(text);
    CleanupShape(text);
    assert Collapsed(r, IsDot, '.');
    CollapseRunsFixpoint(r, IsDot, '.');
    CollapseRunsFixpoint(r, PcreSpace, ' ');
    TrimFixpoint(r, PhpTrimmable);
  }

  /**
   * `split_into_sentences`: `preg_split('/(?<=[.!?])\s+/')`, then `trim` on every piece,
   * the empty pieces dropped and the rest renumbered from zero.
   */
  function SplitSentences(text: string): seq<string> {
    Tidy(Pieces([], text, PcreSpace), PhpTrimmable)
  }

  /** Every sentence is non-empty and trimmed, and every one but the last ends with `.`, `!` or `?`. */
  lemma {:induction false} SplitSentencesShape(text: string)
    ensures forall k :: 0 <= k < |SplitSentences(text)| ==> Trimmed(SplitSentences(text)[k], PhpTrimmable)
    ensures AllButLastEnd(SplitSentences(text))
  {
    var pieces := Pieces([], text, PcreSpace);
    TidyTrimmed(pieces, PhpTrimmable);
    PiecesEndings([], text, PcreSpace);
    TidyKeepsEndings(pieces, PhpTrimmable);
  }

  lemma {:induction false} NoNulWithin(s: string)
    requires All(s, NotNul)
    ensures Within(s, PhpTrimmable, PcreSpace)
  {
    forall i | 0 <= i < |s| && PhpTrimmable(s[i])
      ensures PcreSpace(s[i])
    {
      assert NotNul(s[i]);
    }
  }

  /**
   * Splitting the cleaned text of an article loses and reorders nothing: joined with single
   * spaces the sentences give the cleaned text back. The text must hold no NUL character,
   * which `trim` removes but `\s` does not match.
   */
  lemma {:induction false} SplitCleanRoundTrip(text: string)
    requires All(text, NotNul)
    ensures Join(SplitSentences(CleanupTail(text)), " ") == CleanupTail(text)
  {
    var d := CollapseRuns(text, IsDot, '.');
    var c := CollapseRuns(d, PcreSpace, ' ');
    var r := CleanupTail(text);
    CollapseRunsKeepsAll(text, IsDot, '.', NotNul);
    CollapseRunsKeepsAll(d, PcreSpace, ' ', NotNul);
    var i, j := TrimSlice(c, PhpTrimmable);
    AllSlice(c, i, j, NotNul);
    NoNulWithin(r);
    CleanupShape(text);
    JoinTidyPieces([], r, PcreSpace, PhpTrimmable);
    assert [] + r == r;
    TrimFixpoint(r, PhpTrimmable);
  }

  // ---------------------------------------------------------------------------
  // Duration
  // ---------------------------------------------------------------------------

  /** The speaking speed `estimate_duration` assumes: 150 words a minute times the rate, or 150 when that is not positive. */
  function Wpm(rate: real): (r: real)
    ensures r > 0.0
    ensures rate > 0.0 ==> r == WordsPerMinute * rate
  {
    var wpm := WordsPerMinute * rate;
    if wpm <= 0.0 then WordsPerMinute else wpm
  }

  /**
   * `estimate_duration`: the seconds `words` words take at `rate`, rounded to the nearest
   * integer with halves rounded up. The word count is what `str_word_count` returns.
   */
  function EstimateDuration(words: nat, rate: real): (r: int)
    ensures r >= 0
  {
    RoundHalfUp(words as real / Wpm(rate) * 60.0)
  }

  /** The estimate is the nearest whole number of seconds, a half rounded up. */
  lemma EstimateNearest(words: nat, rate: real)
    ensures var r := EstimateDuration(words, rate);
            r as real - 0.5 <= words as real / Wpm(rate) * 60.0 < r as real + 0.5
  {
  }

  /** A rate that is zero or negative is estimated as normal speed. */
  lemma NonPositiveRate(words: nat, rate: real)
    requires rate <= 0.0
    ensures EstimateDuration(words, rate) == EstimateDuration(words, 1.0)
  {
  }

  lemma EstimateExamples()
    ensures EstimateDuration(0, 1.0) == 0
    ensures EstimateDuration(5, 1.0) == 2
    ensures EstimateDuration(5, 2.0) == 1
    ensures EstimateDuration(150, 1.0) == 60
  {
    assert 5.0 / 150.0 * 60.0 == 2.0;
    assert 5.0 / 300.0 * 60.0 == 1.0;
    assert 150.0 / 150.0 * 60.0 == 60.0;
  }

  /** More words never take less time at the same rate. */
  lemma {:induction false} EstimateMonotone(w1: nat, w2: nat, rate: real)
    requires w1 <= w2
    ensures EstimateDuration(w1, rate) <= EstimateDuration(w2, rate)
  {
    var wpm := Wpm(rate);
    var x1 := w1 as real / wpm * 60.0;
    var x2 := w2 as real / wpm * 60.0;
    assert w1 as real / wpm <= w2 as real / wpm by {
      DivMono(w1 as real, w2 as real, wpm);
    }
    assert x1 <= x2;
  }

  lemma DivMono(a: real, b: real, d: real)
    requires a <= b && d > 0.0
    ensures a / d <= b / d
  {
    assert b / d - a / d == (b - a) / d;
  }

  // ---------------------------------------------------------------------------
  // Settings
  // ---------------------------------------------------------------------------

  /** The `tts_settings` object of the responses. */
  datatype TtsSettings = TtsSettings(speechRate: real, pitch: real, volume: real, voiceName: Value)

  /**
   * `format_settings($options)`: rate, pitch and volume cast to float, or 1.0 when the
   * option does not set them; the voice name as stored, or `''`.
   */
  function FormatSettings(host: Host, options: map<string, Value>): (r: TtsSettings)
    ensures r.speechRate == (if IsSet(options, "speech_rate") then ToFloat(host, options["speech_rate"]) else 1.0)
    ensures r.pitch == (if IsSet(options, "pitch") then ToFloat(host, options["pitch"]) else 1.0)
    ensures r.volume == (if IsSet(options, "volume") then ToFloat(host, options["volume"]) else 1.0)
    ensures r.voiceName == (if IsSet(options, "voice_name") then options["voice_name"] else Str(""))
  {
    TtsSettings(
      if IsSet(options, "speech_rate") then ToFloat(host, options["speech_rate"]) else 1.0,
      if IsSet(options, "pitch") then ToFloat(host, options["pitch"]) else 1.0,
      if IsSet(options, "volume") then ToFloat(host, options["volume"]) else 1.0,
      if IsSet(options, "voice_name") then options["voice_name"] else Str(""))
  }

  /**
   * The post types the API serves: the stored list (a scalar taken as a one-element list),
   * or just `'post'` when the option has no such key.
   */
  function EnabledTypes(options: map<string, Value>): (r: seq<(Key, Value)>)
    ensures !IsSet(options, "enabled_post_types") ==> r == [(IntKey(0), Str("post"))]
  {
    if IsSet(options, "enabled_post_types") then ToArray(options["enabled_post_types"])
    else [(IntKey(0), Str("post"))]
  }

  /**
   * Once the settings form has been saved, the API serves exactly what it stored: the
   * clamped rate, pitch and volume, the sanitised voice name and the sanitised post types.
   */
  lemma {:induction false} ServesStoredSettings(host: Host, input: map<string, Value>)
    ensures var s := SanitizeSettings(host, input);
            FormatSettings(host, s.AsArray()) == TtsSettings(s.speechRate, s.pitch, s.volume, Str(s.voiceName))
    ensures var s := SanitizeSettings(host, input);
            EnabledTypes(s.AsArray()) == s.enabledPostTypes
    ensures 0.5 <= FormatSettings(host, SanitizeSettings(host, input).AsArray()).speechRate <= 2.0
  {
    StoredEntries(SanitizeSettings(host, input));
  }

  /** With no option saved, only posts are served, at default settings. */
  lemma NoOptionDefaults(host: Host)
    ensures FormatSettings(host, map[]) == TtsSettings(1.0, 1.0, 1.0, Str(""))
    ensures InArrayStrict(Str("post"), EnabledTypes(map[]))
    ensures !InArrayStrict(Str("page"), EnabledTypes(map[]))
  {
    assert EnabledTypes(map[])[0].1 == Str("post");
  }

  // ---------------------------------------------------------------------------
  // Routes and their validators
  // ---------------------------------------------------------------------------

  /** The `id` validator of `/speech/{id}`: numeric and positive after `(int)`. */
  predicate ValidId(host: Host, v: Value) {
    IsNumeric(host, v) && ToInt(host, v) > 0
  }

  /** The `per_page` validator of `/posts`: numeric and between 1 and 50 after `(int)`. */
  predicate ValidPerPage(host: Host, v: Value) {
    IsNumeric(host, v) && 0 < ToInt(host, v) <= MaxPerPage
  }

  /** The `page` validator of `/posts`: numeric and positive after `(int)`. */
  predicate ValidPage(host: Host, v: Value) {
    IsNumeric(host, v) && ToInt(host, v) > 0
  }

  /** `absint`, the sanitiser of the three integer parameters. */
  function AbsInt(host: Host, v: Value): (r: nat)
    ensures ToInt(host, v) >= 0 ==> r == ToInt(host, v)
  {
    var i := ToInt(host, v);
    if i < 0 then -i else i
  }

  /** `min($per_page, 50)`. */
  function CapPerPage(perPage: int): (r: int)
    ensures r <= MaxPerPage && r <= perPage
    ensures r == perPage || r == MaxPerPage
  {
    if perPage <= MaxPerPage then perPage else MaxPerPage
  }

  /**
   * A `per_page` that passes its validator reaches the handler unchanged by `absint` and is
   * left alone by the cap; every value the handler uses lies between 1 and 50.
   */
  lemma ValidPerPageKept(host: Host, v: Value)
    requires ValidPerPage(host, v)
    ensures AbsInt(host, v) == ToInt(host, v)
    ensures CapPerPage(AbsInt(host, v)) == AbsInt(host, v)
    ensures 0 < CapPerPage(AbsInt(host, v)) <= MaxPerPage
  {
  }

  /** A validated id or page reaches the handler as the same positive integer. */
  lemma ValidIdKept(host: Host, v: Value)
    requires ValidId(host, v) || ValidPage(host, v)
    ensures AbsInt(host, v) == ToInt(host, v) > 0
  {
  }

  /** The decimal digits of `n`, as PHP writes an integer into a string. */
  function Decimal(n: nat): (r: string)
    ensures r != [] && AllDigits(r)
  {
    if n < 10 then [Digit(n)] else Decimal(n / 10) + [Digit(n % 10)]
  }

  function Digit(d: nat): (c: char)
    requires d < 10
    ensures IsDigit(c) && DigitValue(c) == d
  {
    ('0' as int + d) as char
  }

  predicate IsDigit(c: char) {
    '0' <= c <= '9'
  }

  function DigitValue(c: char): nat
    requires IsDigit(c)
  {
    c as int - '0' as int
  }

  predicate AllDigits(s: string) {
    forall i :: 0 <= i < |s| ==> IsDigit(s[i])
  }

  /** The number a run of decimal digits denotes. */
  function ParseDecimal(s: string): nat
    requires AllDigits(s)
  {
    if s == [] then 0 else ParseDecimal(s[..|s| - 1]) * 10 + DigitValue(s[|s| - 1])
  }

  lemma {:induction false} DecimalRoundTrip(n: nat)
    ensures ParseDecimal(Decimal(n)) == n
  {
    if n >= 10 {
      DecimalRoundTrip(n / 10);
      var s := Decimal(n);
      assert s[..|s| - 1] == Decimal(n / 10);
    } else {
      assert Decimal(n)[..0] == [];
    }
  }

  /** The path of a post's speech data, as `get_tts_enabled_posts` hands it to `rest_url`. */
  function SpeechPath(id: nat): string {
    Namespace + "/speech/" + Decimal(id)
  }

  /** The route `/speech/(?P<id>\d+)` under the namespace: the id it captures from `path`, if it matches. */
  function MatchSpeechRoute(path: string): Option<nat> {
    var prefix := Namespace + "/speech/";
    if |path| > |prefix| && path[..|prefix|] == prefix && AllDigits(path[|prefix|..]) then
      Some(ParseDecimal(path[|prefix|..]))
    else None
  }

  /** The endpoint a listed post advertises is matched by the speech route, which captures that post's id. */
  lemma {:induction false} SpeechPathRoutes(id: nat)
    ensures MatchSpeechRoute(SpeechPath(id)) == Some(id)
  {
    var prefix := Namespace + "/speech/";
    var path := SpeechPath(id);
    assert path[..|prefix|] == prefix;
    assert path[|prefix|..] == Decimal(id);
    DecimalRoundTrip(id);
  }

  // ---------------------------------------------------------------------------
  // The handlers
  // ---------------------------------------------------------------------------

  /** A `WP_Error` reduced to its code and HTTP status. */
  datatype ApiError = ApiError(code: string, status: nat)

  const NotFound: ApiError := ApiError("wp_tts_post_not_found", 404)
  const NotEnabled: ApiError := ApiError("wp_tts_not_enabled", 403)

  /** The fields of a `WP_Post` the handlers read. */
  datatype Post = Post(id: nat, status: string, postType: string, content: string)

  /** The arguments `get_tts_enabled_posts` gives `WP_Query`; `search` is the `s` key, present or not. */
  datatype QueryArgs = QueryArgs(postType: string, postStatus: string, postsPerPage: int, paged: int, search: Option<string>)

  /** What `WP_Query` returns: the posts of the page, `found_posts` and `max_num_pages`. */
  datatype QueryResult = QueryResult(posts: seq<Post>, found: int, maxPages: int)

  /**
   * The WordPress side of the handlers, whose definitions are not part of this model:
   * `the_content` filters followed by the markup steps of `html_to_plain_text` (removing
   * the player, scripts and styles, turning block ends into dots, stripping tags, decoding
   * entities), `str_word_count`, `rest_url` and `WP_Query`.
   */
  datatype Site = Site(
    markupToText: string -> string,
    wordCount: string -> nat,
    restUrl: string -> string,
    query: QueryArgs -> QueryResult)

  /** `html_to_plain_text(apply_filters('the_content', $content))`. */
  function PlainText(site: Site, content: string): string {
    CleanupTail(site.markupToText(content))
  }

  /** The text-shaping part of the `/speech/{id}` response. */
  datatype SpeechData = SpeechData(
    postId: nat,
    plainText: string,
    sentences: seq<string>,
    sentenceCount: nat,
    wordCount: nat,
    estimatedDuration: int,
    ttsSettings: TtsSettings)

  /**
   * `get_speech_data` for the post `get_post` found for `id` (`None` when there is none):
   * 404 for a missing or unpublished post, 403 for a post type the option does not enable,
   * and otherwise the cleaned text, its sentences and their count, and the estimated
   * duration at the stored rate.
   */
  function GetSpeechData(host: Host, site: Site, options: map<string, Value>, id: nat, post: Option<Post>): (r: Result<SpeechData, ApiError>)
    ensures (post.None? || post.value.status != "publish") <==> r == Err(NotFound)
    ensures (post.Some? && post.value.status == "publish" && !InArrayStrict(Str(post.value.postType), EnabledTypes(options)))
              <==> r == Err(NotEnabled)
    ensures r.Ok? ==> r.value.sentenceCount == |r.value.sentences| && r.value.postId == id
    ensures r.Ok? ==> r.value.plainText == PlainText(site, post.value.content)
                      && r.value.sentences == SplitSentences(r.value.plainText)
    ensures r.Ok? ==> r.value.wordCount == site.wordCount(r.value.plainText)
    ensures r.Ok? ==> r.value.ttsSettings == FormatSettings(host, options)
                      && r.value.estimatedDuration == EstimateDuration(r.value.wordCount, r.value.ttsSettings.speechRate)
  {
    if post.None? || post.value.status != "publish" then Err(NotFound)
    else if !InArrayStrict(Str(post.value.postType), EnabledTypes(options)) then Err(NotEnabled)
    else
      var plain := PlainText(site, post.value.content);
      var sentences := SplitSentences(plain);
      var settings := FormatSettings(host, options);
      var words := site.wordCount(plain);
      Ok(SpeechData(id, plain, sentences, |sentences|, words, EstimateDuration(words, settings.speechRate), settings))
  }

  /**
   * What a client of `/speech/{id}` receives: non-empty trimmed sentences, all but the last
   * ending a sentence, which joined with single spaces give back the plain text (for content
   * whose text holds no NUL character).
   */
  lemma {:induction false} SpeechDataSentences(host: Host, site: Site, options: map<string, Value>, id: nat, post: Option<Post>)
    requires GetSpeechData(host, site, options, id, post).Ok?
    requires All(site.markupToText(post.value.content), NotNul)
    ensures var d := GetSpeechData(host, site, options, id, post).value;
            Join(d.sentences, " ") == d.plainText
            && AllButLastEnd(d.sentences)
            && (forall k :: 0 <= k < |d.sentences| ==> Trimmed(d.sentences[k], PhpTrimmable))
  {
    var t := site.markupToText(post.value.content);
    SplitCleanRoundTrip(t);
    SplitSentencesShape(CleanupTail(t));
  }

  /** `get_tts_settings`: the formatted settings and the enabled post types. */
  function GetTtsSettings(host: Host, options: map<string, Value>): (r: (TtsSettings, seq<(Key, Value)>))
    ensures r.0 == FormatSettings(host, options) && r.1 == EnabledTypes(options)
    ensures options == map[] ==> r == (TtsSettings(1.0, 1.0, 1.0, Str("")), [(IntKey(0), Str("post"))])
  {
    (FormatSettings(host, options), EnabledTypes(options))
  }

  /**
   * Once the settings form has been saved, `/settings` returns the stored rate, pitch,
   * volume, voice and post types, with every number within the range the form clamps it to.
   */
  lemma SettingsEndpointStored(host: Host, input: map<string, Value>)
    ensures var s := SanitizeSettings(host, input);
            GetTtsSettings(host, s.AsArray())
            == (TtsSettings(s.speechRate, s.pitch, s.volume, Str(s.voiceName)), s.enabledPostTypes)
    ensures var r := GetTtsSettings(host, SanitizeSettings(host, input).AsArray()).0;
            0.5 <= r.speechRate <= 2.0 && 0.0 <= r.pitch <= 2.0 && 0.0 <= r.volume <= 1.0
  {
    ServesStoredSettings(host, input);
  }

  /**
   * The query `get_tts_enabled_posts` runs: published posts of the type, the capped page
   * size, the page, and a search only when the search string is not empty (`"0"` counts as
   * empty, as PHP's `empty` has it).
   */
  function PostsQuery(postType: string, perPage: int, page: int, search: string): (q: QueryArgs)
    ensures q.postStatus == "publish" && q.postType == postType && q.paged == page
    ensures q.postsPerPage == CapPerPage(perPage)
    ensures q.search.Some? <==> search != "" && search != "0"
    ensures q.search.Some? ==> q.search.value == search
  {
    QueryArgs(postType, "publish", CapPerPage(perPage), page, if Truthy(Str(search)) then Some(search) else None)
  }

  /** One entry of the `/posts` listing. */
  datatype Summary = Summary(id: nat, wordCount: nat, estimatedDuration: int, speechEndpoint: string)

  /** The entry `get_tts_enabled_posts` builds for one post of the page. */
  function Summarize(host: Host, site: Site, options: map<string, Value>, p: Post): (s: Summary)
    ensures s.id == p.id && s.estimatedDuration >= 0
    ensures s.wordCount == site.wordCount(PlainText(site, p.content))
    ensures s.estimatedDuration == EstimateDuration(s.wordCount, FormatSettings(host, options).speechRate)
    ensures s.speechEndpoint == site.restUrl(SpeechPath(p.id))
  {
    var plain := PlainText(site, p.content);
    var words := site.wordCount(plain);
    Summary(p.id, words, EstimateDuration(words, FormatSettings(host, options).speechRate), site.restUrl(SpeechPath(p.id)))
  }

  /**
   * A listed post agrees with its own `/speech/{id}` response: the endpoint's path routes
   * to that post, and when the post can be served the word count and the duration are the
   * ones `get_speech_data` reports.
   */
  lemma ListingAgreesWithSpeech(host: Host, site: Site, options: map<string, Value>, p: Post)
    ensures exists path :: Summarize(host, site, options, p).speechEndpoint == site.restUrl(path)
                           && MatchSpeechRoute(path) == Some(p.id)
    ensures var d := GetSpeechData(host, site, options, p.id, Some(p));
            d.Ok? ==> d.value.wordCount == Summarize(host, site, options, p).wordCount
                      && d.value.estimatedDuration == Summarize(host, site, options, p).estimatedDuration
  {
    SpeechPathRoutes(p.id);
  }

  /** The `/posts` response. */
  datatype Listing = Listing(posts: seq<Summary>, total: int, totalPages: int, page: int, perPage: int)

  /**
   * `get_tts_enabled_posts` with the sanitised request parameters: 403 for a post type the
   * option does not enable; otherwise one summary per post of the queried page, in the
   * query's order, with the query's totals, the page and the capped page size.
   */
  method GetEnabledPosts(host: Host, site: Site, options: map<string, Value>,
                         postType: string, perPage: int, page: int, search: string)
    returns (r: Result<Listing, ApiError>)
    ensures !InArrayStrict(Str(postType), EnabledTypes(options)) <==> r == Err(NotEnabled)
    ensures r.Ok? ==> r.value.perPage == CapPerPage(perPage) && r.value.page == page
    ensures r.Ok? ==>
              var q := site.query(PostsQuery(postType, perPage, page, search));
              && r.value.total == q.found && r.value.totalPages == q.maxPages
              && |r.value.posts| == |q.posts|
              && forall k :: 0 <= k < |q.posts| ==> r.value.posts[k] == Summarize(host, site, options, q.posts[k])
  {
    var types := EnabledTypes(options);
    var cap := CapPerPage(perPage);
    if !InArrayStrict(Str(postType), types) {
      return Err(NotEnabled);
    }
    var args := QueryArgs(postType, "publish", cap, page, None);
    if Truthy(Str(search)) {
      args := args.(search := Some(search));
    }
    var q := site.query(args);
    var posts := SummarizePosts(host, site, options, q.posts);
    r := Ok(Listing(posts, q.found, q.maxPages, page, cap));
  }

  /** `posts` holds the summaries of `ps`, entry by entry. */
  ghost predicate Summarizes(host: Host, site: Site, options: map<string, Value>, ps: seq<Post>, posts: seq<Summary>) {
    |posts| == |ps| && forall k :: 0 <= k < |ps| ==> posts[k] == Summarize(host, site, options, ps[k])
  }

  /** Appending the next post's summary extends the correspondence by one. */
  lemma SummarizesSnoc(host: Host, site: Site, options: map<string, Value>, ps: seq<Post>, posts: seq<Summary>, i: nat)
    requires i < |ps| && Summarizes(host, site, options, ps[..i], posts)
    ensures Summarizes(host, site, options, ps[..i + 1], posts + [Summarize(host, site, options, ps[i])])
  {
    var posts' := posts + [Summarize(host, site, options, ps[i])];
    forall k | 0 <= k < i + 1
      ensures posts'[k] == Summarize(host, site, options, ps[..i + 1][k])
    {
      if k < i {
        assert posts'[k] == posts[k] && ps[..i + 1][k] == ps[..i][k];
      }
    }
  }

  /** The `foreach` of `get_tts_enabled_posts`: one summary appended per post, in order. */
  method SummarizePosts(host: Host, site: Site, options: map<string, Value>, ps: seq<Post>)
    returns (posts: seq<Summary>)
    ensures |posts| == |ps|
    ensures forall k :: 0 <= k < |ps| ==> posts[k] == Summarize(host, site, options, ps[k])
  {
    posts := [];
    var i := 0;
    while i < |ps|
      invariant 0 <= i <= |ps|
      invariant Summarizes(host, site, options, ps[..i], posts)
    {
      var entry := Summarize(host, site, options, ps[i]);
      SummarizesSnoc(host, site, options, ps, posts, i);
      posts := posts + [entry];
      i := i + 1;
    }
    assert ps[..i] == ps;
  }
}
