/**
 * The TikTok clipboard parser: the `test` probe that decides whether a clipboard string is a
 * TikTok video link, the resolution of short links through the fetched page's metadata, and
 * the assembly of the video record and the note.
 *
 * Everything the parser reaches outside itself is a parameter: the URL validity check, the
 * HTTP request (a fetch oracle from URL to page), the two date formatters and the template
 * renderer (all in `Env`), and the plugin settings (`Settings`). An `async` function of the
 * source is an ordinary function here, and a thrown error is a `Failure`.
 */
module TikTokParser {
  import opened Wrappers
  import opened Patterns

  // ---------------------------------------------------------------------------------------
  // Data model
  // ---------------------------------------------------------------------------------------

  /** A fetched page as the parser reads it: the `href` of `<link rel="canonical">`, and the
      `content` of `<meta property="og:url">` and `<meta property="og:description">`. Each is
      None when the element is missing or lacks the attribute (both are `null` to the source). */
  datatype Page = Page(canonicalHref: Option<string>, ogUrl: Option<string>, ogDescription: Option<string>)

  /** The outcome of one GET request: the parsed page, or a rejected request. */
  datatype Response = Received(page: Page) | RequestFailed

  /** Why resolution or record assembly fails (what the source throws). */
  datatype Failure =
    | RequestError(url: string)       // the GET request for url was rejected
    | CanonicalNotFound(url: string)  // the page of short link url names no canonical URL
    | NoCanonicalMatch(url: string)   // url does not match CANONICAL_PATTERN, so exec gave null

  /** A point in time; the parser only passes it on. */
  type Instant = int

  /** The collaborators the parser calls and does not define. */
  datatype Env = Env(
    isValidUrl: string -> bool,
    fetch: string -> Response,
    formatContentDate: Instant -> string,
    formatFilenameDate: Instant -> string,
    render: (string, map<string, string>) -> string)

  /** The TikTok part of the plugin settings. */
  datatype Settings = Settings(
    embedWidth: string,
    embedHeight: string,
    noteTemplate: string,
    titleTemplate: string,
    contentTypeSlug: string)

  /** The record the note template is rendered from (`TiktokNoteData`). */
  datatype NoteData = NoteData(
    date: string,
    videoId: string,
    videoURL: string,
    videoDescription: string,
    videoPlayer: string,
    authorName: string,
    authorURL: string)

  /** The note handed to the vault writer. */
  datatype Note = Note(fileName: string, extension: string, content: string, contentType: string, createdAt: Instant)

  const ProfileBase := "https://www.tiktok.com/"
  const EmbedBase := "https://www.tiktok.com/embed/v2/"
  const EmbedClose := "\"></iframe>"

  // ---------------------------------------------------------------------------------------
  // resolveShortUrl
  // ---------------------------------------------------------------------------------------

  /** JavaScript truthiness of an attribute value: present and not the empty string. */
  predicate Truthy(a: Option<string>) {
    a.Some? && a.value != ""
  }

  /** The URL a short link's page names as canonical: the canonical link's `href` when it is
      truthy, else the `og:url` content when that is truthy, else none. */
  function SelectCanonical(page: Page): (r: Option<string>)
    ensures r.None? <==> !Truthy(page.canonicalHref) && !Truthy(page.ogUrl)
    ensures r.Some? ==> r.value != "" && (r == page.canonicalHref || r == page.ogUrl)
    ensures Truthy(page.canonicalHref) ==> r == page.canonicalHref
  {
    if Truthy(page.canonicalHref) then page.canonicalHref
    else if Truthy(page.ogUrl) then page.ogUrl
    else None
  }

  /** `resolveShortUrl`: one GET of url, then the canonical URL its page names. */
  function ResolveShortUrl(fetch: string -> Response, url: string): (r: Result<string, Failure>)
    ensures fetch(url).RequestFailed? ==> r == Failure(RequestError(url))
    ensures fetch(url).Received? ==> match SelectCanonical(fetch(url).page)
      case Some(u) => r == Success(u)
      case None => r == Failure(CanonicalNotFound(url))
    ensures r.Success? ==> r.value != ""
  {
    match fetch(url)
    case RequestFailed => Failure(RequestError(url))
    case Received(page) =>
      match SelectCanonical(page)
      case Some(u) => Success(u)
      case None => Failure(CanonicalNotFound(url))
  }

  // ---------------------------------------------------------------------------------------
  // test
  // ---------------------------------------------------------------------------------------

  /** `test`: is the clipboard content a TikTok video link? Fails closed: every failure,
      resolution failures included, is `false`. */
  function Test(env: Env, s: string): (accepted: bool)
    ensures !env.isValidUrl(s) ==> !accepted
    ensures env.isValidUrl(s) && CanonicalMatches(s) ==> accepted
    ensures env.isValidUrl(s) && !CanonicalMatches(s) && !ShortMatches(s) ==> !accepted
    ensures env.isValidUrl(s) && !CanonicalMatches(s) && ShortMatches(s) ==>
      (accepted <==> ResolveShortUrl(env.fetch, s).Success? && CanonicalMatches(ResolveShortUrl(env.fetch, s).value))
  {
    if !env.isValidUrl(s) then false
    else if CanonicalTest(s) then true
    else if ShortTest(s) then
      match ResolveShortUrl(env.fetch, s)
      case Success(canonicalUrl) => CanonicalTest(canonicalUrl)
      case Failure(_) => false
    else false
  }

  /** `test` fetches only a valid URL that is a short link and not canonical: in every other
      case two different networks give the same answer. */
  lemma TestFetchesOnlyShortLinks(env1: Env, env2: Env, s: string)
    requires env1.isValidUrl == env2.isValidUrl
    requires !(env1.isValidUrl(s) && !CanonicalMatches(s) && ShortMatches(s))
    ensures Test(env1, s) == Test(env2, s)
  {
  }

  /** With the same validity check, `test` depends on the network only through the one
      response for the input itself. */
  lemma TestDependsOnOneResponse(env1: Env, env2: Env, s: string)
    requires env1.isValidUrl == env2.isValidUrl
    requires env1.fetch(s) == env2.fetch(s)
    ensures Test(env1, s) == Test(env2, s)
  {
  }

  // ---------------------------------------------------------------------------------------
  // parseHtml
  // ---------------------------------------------------------------------------------------

  /** The `<iframe>` embedding the video with the configured size. */
  function EmbedPlayer(width: string, height: string, videoId: string): string {
    "<iframe width=\"" + width + "\" height=\"" + height + "\" src=\"" + EmbedBase + videoId + EmbedClose
  }

  /** The player names its video: with the size fixed, different ids give different players,
      and the id stands just before the closing of the `src` attribute. */
  lemma {:induction false} EmbedPlayerIdentifiesVideo(width: string, height: string, id1: string, id2: string)
    ensures var p := EmbedPlayer(width, height, id1);
      |p| >= |id1| + |EmbedClose| && p[|p| - |EmbedClose| - |id1|..|p| - |EmbedClose|] == id1
    ensures EmbedPlayer(width, height, id1) == EmbedPlayer(width, height, id2) ==> id1 == id2
  {
    var head := "<iframe width=\"" + width + "\" height=\"" + height + "\" src=\"" + EmbedBase;
    assert EmbedPlayer(width, height, id1) == head + id1 + EmbedClose;
    assert EmbedPlayer(width, height, id2) == head + id2 + EmbedClose;
    var p1 := head + id1 + EmbedClose;
    assert p1[|head|..|head| + |id1|] == id1;
    if head + id1 + EmbedClose == head + id2 + EmbedClose {
      assert |id1| == |id2|;
      assert id1 == (head + id1 + EmbedClose)[|head|..|head| + |id1|];
    }
  }

  /** The URL `parseHtml` fetches: a short link is resolved first (the short pattern is
      checked here, before the canonical one). */
  function FetchTarget(fetch: string -> Response, url: string): (r: Result<string, Failure>)
    ensures !ShortMatches(url) ==> r == Success(url)
    ensures ShortMatches(url) ==> r == ResolveShortUrl(fetch, url)
  {
    if ShortTest(url) then ResolveShortUrl(fetch, url) else Success(url)
  }

  /** `parseHtml`: resolve a short link, fetch the page, take the handle and id from the
      canonical match of the fetched URL and the rest from the page's metadata. */
  function ParseHtml(env: Env, settings: Settings, url: string, createdAt: Instant): (r: Result<NoteData, Failure>)
    ensures FetchTarget(env.fetch, url).Failure? ==> r == Failure(FetchTarget(env.fetch, url).error)
    ensures FetchTarget(env.fetch, url).Success? ==>
      var target := FetchTarget(env.fetch, url).value;
      && (env.fetch(target).RequestFailed? ==> r == Failure(RequestError(target)))
      && (env.fetch(target).Received? && !CanonicalMatches(target) ==> r == Failure(NoCanonicalMatch(target)))
      && (env.fetch(target).Received? && CanonicalMatches(target) ==> r.Success?)
    ensures r.Success? ==>
      var target := FetchTarget(env.fetch, url).value;
      var page := env.fetch(target).page;
      var d := r.value;
      && FetchTarget(env.fetch, url).Success? && env.fetch(target).Received?
      && (exists m :: IsCanonicalExec(target, m) && d.videoId == m.id && d.authorName == m.handle)
      && |d.videoId| > 0 && (forall k | 0 <= k < |d.videoId| :: IsDigit(d.videoId[k]))
      && |d.authorName| > 0 && (forall k | 0 <= k < |d.authorName| :: !IsWhitespace(d.authorName[k]))
      && d.authorURL == ProfileBase + d.authorName
      && d.videoPlayer == EmbedPlayer(settings.embedWidth, settings.embedHeight, d.videoId)
      && d.videoURL == page.ogUrl.GetOr(target)
      && d.videoDescription == page.ogDescription.GetOr("")
      && d.date == env.formatContentDate(createdAt)
  {
    match FetchTarget(env.fetch, url)
    case Failure(f) => Failure(f)
    case Success(target) =>
      match env.fetch(target)
      case RequestFailed => Failure(RequestError(target))
      case Received(page) =>
        match CanonicalExec(target)
        case None => Failure(NoCanonicalMatch(target))
        case Some(m) =>
          GroupsOfGreedyMatch(target, m);
          Success(NoteData(
            date := env.formatContentDate(createdAt),
            videoId := m.id,
            videoURL := page.ogUrl.GetOr(target),
            videoDescription := page.ogDescription.GetOr(""),
            videoPlayer := EmbedPlayer(settings.embedWidth, settings.embedHeight, m.id),
            authorName := m.handle,
            authorURL := ProfileBase + m.handle))
  }

  // ---------------------------------------------------------------------------------------
  // prepareNote
  // ---------------------------------------------------------------------------------------

  /** The fields the note template sees: every field of the record, by its name. */
  function ContentFields(d: NoteData): (fields: map<string, string>)
    ensures fields.Keys == {"date", "videoId", "videoURL", "videoDescription", "videoPlayer", "authorName", "authorURL"}
    ensures fields["date"] == d.date && fields["videoId"] == d.videoId && fields["videoURL"] == d.videoURL
    ensures fields["videoDescription"] == d.videoDescription && fields["videoPlayer"] == d.videoPlayer
    ensures fields["authorName"] == d.authorName && fields["authorURL"] == d.authorURL
  {
    map[
      "date" := d.date,
      "videoId" := d.videoId,
      "videoURL" := d.videoURL,
      "videoDescription" := d.videoDescription,
      "videoPlayer" := d.videoPlayer,
      "authorName" := d.authorName,
      "authorURL" := d.authorURL]
  }

  /** The fields the filename template sees: the author and the date, nothing else. */
  function TitleFields(authorName: string, date: string): (fields: map<string, string>)
    ensures fields.Keys == {"authorName", "date"}
    ensures fields["authorName"] == authorName && fields["date"] == date
  {
    map["authorName" := authorName, "date" := date]
  }

  /** `prepareNote`: the record rendered through the note template, a filename rendered from
      the author and the date, a Markdown extension and the TikTok category. Failures of
      `parseHtml` are passed on unchanged. */
  function PrepareNote(env: Env, settings: Settings, s: string, createdAt: Instant): (r: Result<Note, Failure>)
    ensures r.Failure? <==> ParseHtml(env, settings, s, createdAt).Failure?
    ensures r.Failure? ==> r.error == ParseHtml(env, settings, s, createdAt).error
    ensures r.Success? ==>
      var d := ParseHtml(env, settings, s, createdAt).value;
      var note := r.value;
      && note.extension == "md"
      && note.contentType == settings.contentTypeSlug
      && note.createdAt == createdAt
      && note.content == env.render(settings.noteTemplate, ContentFields(d))
      && ContentFields(d)["date"] == env.formatContentDate(createdAt)
      && note.fileName == env.render(settings.titleTemplate, TitleFields(d.authorName, env.formatFilenameDate(createdAt)))
  {
    match ParseHtml(env, settings, s, createdAt)
    case Failure(f) => Failure(f)
    case Success(data) =>
      var content := env.render(settings.noteTemplate, ContentFields(data));
      var fileName := env.render(settings.titleTemplate, TitleFields(data.authorName, env.formatFilenameDate(createdAt)));
      Success(Note(fileName, "md", content, settings.contentTypeSlug, createdAt))
  }

  // ---------------------------------------------------------------------------------------
  // How `test` and `parseHtml` relate
  // ---------------------------------------------------------------------------------------

  /** A link of both shapes: "tiktok.com/t/" starts a short link, and "t/abc" is a handle
      followed by "/video/1". */
  const MixedLink := "https://" + ("tiktok.com/" + ("t/abc" + ("/video/" + "1")))

  /** Where the pieces of the mixed link stand. */
  ghost predicate MixedLayout(s: string) {
    && |s| == 32
    && s[8..14] == "tiktok" && s[14] == '.' && s[15..18] == "com" && s[18] == '/'
    && s[8..21] == "tiktok.com/t/"
    && s[19..24] == "t/abc" && s[24..31] == "/video/" && s[31] == '1'
  }

  lemma MixedLinkPieces()
    ensures MixedLayout(MixedLink)
  {
    var s := MixedLink;
    assert s[8..] == "tiktok.com/" + ("t/abc" + ("/video/" + "1"));
    assert s[19..] == "t/abc" + ("/video/" + "1");
    assert s[24..] == "/video/" + "1";
    var host := s[8..19];
    assert host == "tiktok.com/";
    assert s[8..14] == host[..6] && s[14] == host[6];
    assert s[15..18] == host[7..10] && s[18] == host[10];
    assert s[8..21] == host + s[19..21];
  }

  lemma MixedLinkIsCanonical(s: string)
    requires MixedLayout(s)
    ensures CanonicalMatches(s)
  {
    forall p | 19 <= p < 24 ensures !IsWhitespace(s[p]) {
      assert s[p] == s[19..24][p - 19];
    }
    assert CanonicalDecomposition(s, 8, 24, 32);
  }

  lemma MixedLinkIsShort(s: string)
    requires MixedLayout(s)
    ensures ShortMatches(s)
  {
    assert s[8..8] == "";
    assert ShortDecomposition(s, 8, 8, 22);
  }

  /** A link matching both patterns is accepted by `test` without any request, but
      `parseHtml` checks the short pattern first and resolves it, so with the network down
      the link `test` accepted fails to parse. */
  lemma BothShapesResolvedOnlyByParseHtml(env: Env, settings: Settings, createdAt: Instant)
    requires env.isValidUrl(MixedLink)
    requires env.fetch(MixedLink).RequestFailed?
    ensures Test(env, MixedLink)
    ensures ParseHtml(env, settings, MixedLink, createdAt) == Failure(RequestError(MixedLink))
  {
    MixedLinkPieces();
    MixedLinkIsCanonical(MixedLink);
    MixedLinkIsShort(MixedLink);
  }

  /** A canonical video link. */
  const ExampleLink := "https://www." + ("tiktok.com/" + ("@someuser" + ("/video/" + "1234567890123456789")))

  /** Where the pieces of the example stand: any string laid out this way is the example. */
  ghost predicate ExampleLayout(s: string) {
    && |s| == 58
    && s[..12] == "https://www."
    && s[12..22] == "tiktok.com" && s[12..18] == "tiktok" && s[18] == '.' && s[19..22] == "com"
    && s[22] == '/'
    && s[23..32] == "@someuser"
    && s[32..39] == "/video/"
    && s[39..] == "1234567890123456789"
  }

  lemma ExampleLinkPieces()
    ensures ExampleLayout(ExampleLink)
  {
    var head, host, handle, marker, id := "https://www.", "tiktok.com/", "@someuser", "/video/", "1234567890123456789";
    var s := ExampleLink;
    assert s[..12] == head && s[12..] == host + (handle + (marker + id));
    assert s[12..23] == host && s[23..] == handle + (marker + id);
    assert s[23..32] == handle && s[32..] == marker + id;
    assert s[32..39] == marker && s[39..] == id;
    assert s[12..22] == host[..10] && s[12..18] == host[..6] && s[19..22] == host[7..10];
  }

  lemma ExampleLinkDecomposition(s: string)
    requires ExampleLayout(s)
    ensures CanonicalDecomposition(s, 12, 32, 58)
  {
    forall k | 23 <= k < 32 ensures !IsWhitespace(s[k]) {
      assert s[k] == s[23..32][k - 23];
    }
    forall k | 39 <= k < 58 ensures IsDigit(s[k]) {
      assert s[k] == s[39..][k - 39];
    }
  }

  lemma ExampleLinkLeftmost(s: string)
    requires ExampleLayout(s)
    ensures forall i: nat, j: nat, e: nat :: i < 12 ==> !CanonicalDecomposition(s, i, j, e)
  {
  }

  lemma ExampleLinkGreedy(s: string)
    requires ExampleLayout(s)
    ensures forall j: nat, e: nat :: 32 < j ==> !CanonicalDecomposition(s, 12, j, e)
  {
    forall j: nat, e: nat | 32 < j ensures !CanonicalDecomposition(s, 12, j, e) {
      if j + 7 <= |s| {
        assert s[j..j + 7][0] == s[j] && s[j..j + 7][1] == s[j + 1];
        if j < 39 {
          assert s[j] == s[32..39][j - 32];
          assert s[j + 1] == if j == 38 then s[39..][0] else s[32..39][j + 1 - 32];
        } else {
          assert s[j] == s[39..][j - 39];
        }
      }
    }
  }

  /** `exec` on the example reads the handle "@someuser" and the id "1234567890123456789". */
  lemma ExampleLinkGroups(s: string)
    requires ExampleLayout(s)
    ensures CanonicalExec(s) == Some(CanonicalMatch(12, "tiktok.com", "@someuser", "1234567890123456789"))
  {
    var m := CanonicalMatch(12, "tiktok.com", "@someuser", "1234567890123456789");
    ExampleLinkDecomposition(s);
    ExampleLinkLeftmost(s);
    ExampleLinkGreedy(s);
    assert m.HandleEnd() == 32 && m.End() == 58;
    assert GreedyAt(s, m);
    assert IsCanonicalExec(s, m);
    CanonicalExecUnique(s, m, CanonicalExec(s).value);
  }

  /** The example is not a short link. */
  lemma ExampleLinkIsNotShort(s: string)
    requires ExampleLayout(s)
    ensures !ShortMatches(s)
  {
    // "tiktok.com/t/" holds "/t", which the example does not
    forall k | 0 <= k < 57 ensures s[k] != '/' || s[k + 1] != 't' {
      if k < 11 {
        assert s[k] == s[..12][k] && s[k + 1] == s[..12][k + 1];
      } else if k < 22 {
        assert k == 11 || s[k] == s[12..22][k - 12];
      } else if k == 22 {
        assert s[k + 1] == s[23..32][0];
      } else if k < 32 {
        assert s[k] == s[23..32][k - 23];
      } else if k < 39 {
        assert s[k + 1] == if k == 38 then s[39..][0] else s[32..39][k + 1 - 32];
      } else {
        assert s[k] == s[39..][k - 39];
      }
    }
    ShortPrefixIrrelevant(s);
    forall p: nat ensures !ShortCoreAt(s, p) {
      if p + 14 <= |s| {
        assert s[p..p + 13][10] == s[p + 10] && s[p..p + 13][11] == s[p + 11];
      }
    }
  }

  /** `test` accepts the canonical example without a request. */
  lemma ExampleLinkAccepted(env: Env)
    requires env.isValidUrl(ExampleLink)
    ensures Test(env, ExampleLink)
  {
    ExampleLinkPieces();
    ExampleLinkGroups(ExampleLink);
  }

  /** The canonical example end to end: a page whose description is "desc" gives the record
      with the link's handle "@someuser" and id "1234567890123456789". */
  lemma ExampleLinkRecord(env: Env, settings: Settings, createdAt: Instant, canonicalHref: Option<string>, ogUrl: Option<string>)
    requires env.fetch(ExampleLink) == Received(Page(canonicalHref, ogUrl, Some("desc")))
    ensures ParseHtml(env, settings, ExampleLink, createdAt) == Success(NoteData(
      date := env.formatContentDate(createdAt),
      videoId := "1234567890123456789",
      videoURL := ogUrl.GetOr(ExampleLink),
      videoDescription := "desc",
      videoPlayer := EmbedPlayer(settings.embedWidth, settings.embedHeight, "1234567890123456789"),
      authorName := "@someuser",
      authorURL := ProfileBase + "@someuser"))
  {
    ExampleLinkPieces();
    ExampleLinkGroups(ExampleLink);
    ExampleLinkIsNotShort(ExampleLink);
    var m := CanonicalMatch(12, "tiktok.com", "@someuser", "1234567890123456789");
    CanonicalLinkRecord(env, settings, ExampleLink, createdAt, m, Page(canonicalHref, ogUrl, Some("desc")));
  }

  /** A "vm." link whose token follows the domain directly, without "/t/". */
  const VmTokenLink := "https://" + "vm." + "tiktok.com/" + "ABCDEFG/"

  lemma VmTokenLinkPieces()
    ensures |VmTokenLink| == 30
    ensures VmTokenLink[..8] == "https://" && VmTokenLink[8..11] == "vm."
    ensures VmTokenLink[11..22] == "tiktok.com/" && VmTokenLink[22..] == "ABCDEFG/"
  {
  }

  /** The `vm`/`vt` prefix of SHORT_PATTERN does not make such a link a short link: without
      "/t/" it matches neither pattern, and `test` rejects it whatever the network says. */
  lemma VmTokenLinkRejected(env: Env)
    ensures !CanonicalMatches(VmTokenLink) && !ShortMatches(VmTokenLink)
    ensures !Test(env, VmTokenLink)
  {
    var s := VmTokenLink;
    VmTokenLinkPieces();
    // neither "/t" (in "tiktok.com/t/") nor "/vi" (in "/video/") occurs
    forall k | 0 <= k < 6 ensures s[k] != '/' {
      assert s[k] == s[..8][k];
    }
    assert s[7] == s[..8][7] && s[8] == s[8..11][0] && s[9] == s[8..11][1];
    forall k | 8 <= k < 21 ensures s[k] != '/' {
      assert s[k] == if k < 11 then s[8..11][k - 8] else s[11..22][k - 11];
    }
    assert s[22] == s[22..][0];
    forall k | 22 <= k < 29 ensures s[k] != '/' {
      assert s[k] == s[22..][k - 22];
    }
    forall i: nat, j: nat, e: nat ensures !CanonicalDecomposition(s, i, j, e) {
      if j + 7 <= |s| {
        assert s[j..j + 7][0] == s[j] && s[j..j + 7][1] == s[j + 1] && s[j..j + 7][2] == s[j + 2];
      }
    }
    ShortPrefixIrrelevant(s);
    forall p: nat ensures !ShortCoreAt(s, p) {
      if p + 14 <= |s| {
        assert s[p..p + 13][10] == s[p + 10] && s[p..p + 13][11] == s[p + 11];
      }
    }
  }

  /** A canonical link that is not also a short link: `test` accepts it without a request
      (when it is a valid URL), and `parseHtml` fetches it as it is and builds the record from
      its handle H and id D: `videoId` D, `authorName` H, the profile URL of H, a player for
      D, and the page's metadata with its fallbacks. */
  lemma CanonicalLinkRecord(env: Env, settings: Settings, s: string, createdAt: Instant, m: CanonicalMatch, page: Page)
    requires CanonicalExec(s) == Some(m) && !ShortMatches(s)
    requires env.fetch(s) == Received(page)
    ensures env.isValidUrl(s) ==> Test(env, s)
    ensures ParseHtml(env, settings, s, createdAt) == Success(NoteData(
      date := env.formatContentDate(createdAt),
      videoId := m.id,
      videoURL := page.ogUrl.GetOr(s),
      videoDescription := page.ogDescription.GetOr(""),
      videoPlayer := EmbedPlayer(settings.embedWidth, settings.embedHeight, m.id),
      authorName := m.handle,
      authorURL := ProfileBase + m.handle))
  {
    var d := ParseHtml(env, settings, s, createdAt).value;
    var m' :| IsCanonicalExec(s, m') && d.videoId == m'.id && d.authorName == m'.handle;
    CanonicalExecUnique(s, m, m');
  }

  /** A short link `test` accepted yields a note whenever the network answers `parseHtml`'s
      two requests as it answered `test`'s. With `ShortLinkParsedIsAccepted`: `test` approves
      exactly the valid short links `parseHtml` can read the handle and id from. */
  lemma AcceptedShortLinkParses(env: Env, settings: Settings, s: string, createdAt: Instant)
    requires Test(env, s) && !CanonicalMatches(s) && ShortMatches(s)
    requires env.fetch(ResolveShortUrl(env.fetch, s).value).Received?
    ensures ParseHtml(env, settings, s, createdAt).Success?
    ensures PrepareNote(env, settings, s, createdAt).Success?
  {
  }

  /** The converse: a valid short link that `parseHtml` reads a record from is one `test`
      accepts, under the same network. */
  lemma ShortLinkParsedIsAccepted(env: Env, settings: Settings, s: string, createdAt: Instant)
    requires env.isValidUrl(s) && !CanonicalMatches(s) && ShortMatches(s)
    requires ParseHtml(env, settings, s, createdAt).Success?
    ensures Test(env, s)
  {
  }
}
