// The webhook handler of src/app.js: the same dispatch as index.js except that its
// `follow` branch sits behind the type guard and there is no `clearPhotoCache`
// keyword; images are served from NGROK_URL, photos without a length check and
// table images under /tables/.

module AppHandler {
  import opened Wrappers
  import opened JsString
  import opened LineMessages
  import GuestService
  import PhotoService
  import IndexHandler

  const DefaultNgrokUrl: string := "https://your-ngrok-url.ngrok-free.app"

  /** `handleEvent` of src/app.js. The `follow` test comes after the guard that already returned null for it. */
  function Route(e: Event): (r: LineMessages.Route)
    ensures r != Welcome && r != ClearPhotoCache
    ensures r == NoReply <==>
              || (e.eventType != "message" && e.eventType != "postback")
              || (e.eventType == "postback" && PostbackRoute(e.postbackData) == NoReply)
    ensures r == Menu <==>
              && e.eventType == "message"
              && (e.message.messageType != "text" || IsMenuKeyword(Trim(e.message.text)))
    ensures r == ClearGuestCache <==>
              e.eventType == "message" && e.message.messageType == "text" && Trim(e.message.text) == "cleancache"
    ensures r == SeatInstructions <==>
              || (e.eventType == "postback" && e.postbackData == SeatLookupData)
              || (e.eventType == "message" && e.message.messageType == "text" && IsSeatKeyword(Trim(e.message.text)))
    ensures r == PhotoRequest <==>
              || (e.eventType == "postback" && e.postbackData == WeddingPhotoData)
              || (e.eventType == "message" && e.message.messageType == "text" && IsPhotoKeyword(Trim(e.message.text)))
    ensures r.SeatQuery? <==>
              && e.eventType == "message" && e.message.messageType == "text"
              && (Trim(e.message.text) == "clearPhotoCache" || !IndexHandler.IsCommand(Trim(e.message.text)))
    ensures r.SeatQuery? ==> r.name == Trim(e.message.text)
  {
    if e.eventType != "message" && e.eventType != "postback" then NoReply
    else if e.eventType == "follow" then Welcome
    else if e.eventType == "postback" then PostbackRoute(e.postbackData)
    else if e.message.messageType == "text" then
      var text := Trim(e.message.text);
      if text == "cleancache" then ClearGuestCache else KeywordRoute(text)
    else
      Menu
  }

  /** `url.endsWith('/') ? url.slice(0, -1) : url`: exactly one trailing slash is removed. */
  function StripTrailingSlash(url: string): (r: string)
    ensures EndsWith(url, "/") ==> r + "/" == url
    ensures !EndsWith(url, "/") ==> r == url
  {
    if EndsWith(url, "/") then url[..|url| - 1] else url
  }

  /** Only one slash goes: `https://host//` becomes `https://host/`. */
  lemma StripsOneSlashOnly(base: string)
    ensures StripTrailingSlash(base + "/") == base
  {
    assert (base + "/")[..|base|] == base;
  }

  /** NGROK_URL, or the placeholder when it is unset or empty, without its trailing slash. */
  function BaseUrl(ngrokUrl: Option<string>): (base: string)
    ensures ngrokUrl.None? || ngrokUrl.value == [] ==> base == DefaultNgrokUrl
    ensures ngrokUrl.Some? && ngrokUrl.value != [] && !EndsWith(ngrokUrl.value, "/") ==> base == ngrokUrl.value
    ensures ngrokUrl.Some? && EndsWith(ngrokUrl.value, "/") ==> base + "/" == ngrokUrl.value
  {
    StripTrailingSlash(EnvOr(ngrokUrl, DefaultNgrokUrl))
  }

  /**
   * `handlePhotoRequest`: a failure sends its message; otherwise the photo's URL under
   * the base, with no length check, or the fallback text when encoding throws.
   */
  function PhotoReply(photo: PhotoService.PhotoResult, base: string, encode: string -> Option<string>): (r: Reply)
    ensures photo.PhotoFailure? ==> r == TextReply(photo.message)
    ensures photo.PhotoSuccess? && encode(photo.fileName).None? ==> r == TextReply(PhotoErrorMessage)
    ensures photo.PhotoSuccess? && encode(photo.fileName).Some? ==>
              r == Image(base + "/pictures/" + encode(photo.fileName).value)
  {
    match photo
    case PhotoFailure(message) => TextReply(message)
    case PhotoSuccess(_, fileName, _, _, _) =>
      match encode(fileName)
      case None => TextReply(PhotoErrorMessage)
      case Some(name) => Image(base + "/pictures/" + name)
  }

  /**
   * `handleSeatQuery`: a miss sends its message; a hit sends the seat text, followed by
   * the table image under /tables/ when it exists and its URL fits LINE's limit. An
   * encoding error is caught inside and leaves only the text.
   */
  function SeatReplies(result: GuestService.SeatResult, base: string, encode: string -> Option<string>): (r: seq<Reply>)
    ensures 1 <= |r| <= 2 && r[0] == TextReply(result.message)
    ensures |r| == 2 <==>
              && result.SeatFound? && result.imageExists
              && encode(result.imageFileName).Some?
              && Utf16Length(base + "/tables/" + encode(result.imageFileName).value) <= MaxUrlLength
    ensures |r| == 2 ==> r[1] == Image(base + "/tables/" + encode(result.imageFileName).value)
  {
    match result
    case SeatNotFound(message) => [TextReply(message)]
    case SeatFound(message, _, _, imageExists, _, imageFileName) =>
      if imageExists then
        match encode(imageFileName)
        case None => [TextReply(message)]
        case Some(name) =>
          var url := base + "/tables/" + name;
          if Utf16Length(url) > MaxUrlLength then [TextReply(message)]
          else [TextReply(message), Image(url)]
      else
        [TextReply(message)]
  }

  /** The messages of one route; src/app.js has no `clearPhotoCache` branch, and its `Route` never yields one. */
  function Respond(route: LineMessages.Route, w: World): (r: Option<seq<Reply>>)
    requires ValidWorld(w)
    ensures r.None? <==> route == NoReply || route == ClearPhotoCache
    ensures route == Welcome ==> r == Some([WelcomeMessage])
    ensures route == SeatInstructions ==> r == Some([SeatLookupInstructions])
    ensures route == PhotoRequest ==> r == Some([PhotoReply(PhotoLookup(w), BaseUrl(w.ngrokUrl), w.encode)])
    ensures route == Menu ==> r == Some([MenuMessage])
    ensures route == ClearGuestCache ==> r == Some([TextReply(ClearCacheFailure)])
    ensures route.SeatQuery? ==> r == Some(SeatReplies(SeatLookup(w, route.name), BaseUrl(w.ngrokUrl), w.encode))
  {
    match route
    case NoReply => None
    case Welcome => Some([WelcomeMessage])
    case SeatInstructions => Some([SeatLookupInstructions])
    case PhotoRequest => Some([PhotoReply(PhotoLookup(w), BaseUrl(w.ngrokUrl), w.encode)])
    case Menu => Some([MenuMessage])
    case ClearGuestCache => Some([TextReply(ClearCacheFailure)])
    case ClearPhotoCache => None
    case SeatQuery(name) => Some(SeatReplies(SeatLookup(w, name), BaseUrl(w.ngrokUrl), w.encode))
  }

  /** `handleEvent` of src/app.js answered against the world. */
  function HandleEvent(e: Event, w: World): (r: Option<seq<Reply>>)
    requires ValidWorld(w)
    ensures r.None? <==> Route(e) == NoReply
    ensures r.Some? ==> |r.value| >= 1
    ensures Route(e) != Welcome
    ensures Route(e) == SeatInstructions ==> r == Some([SeatLookupInstructions])
    ensures Route(e) == PhotoRequest ==> r == Some([PhotoReply(PhotoLookup(w), BaseUrl(w.ngrokUrl), w.encode)])
    ensures Route(e) == Menu ==> r == Some([MenuMessage])
    ensures Route(e).SeatQuery? ==> r == Some(SeatReplies(SeatLookup(w, Route(e).name), BaseUrl(w.ngrokUrl), w.encode))
  {
    Respond(Route(e), w)
  }

  /** `cleancache` always fails here too: `guestService` has no `clearCache`. */
  lemma CleanCacheAlwaysFails(e: Event, w: World)
    requires ValidWorld(w) && e.eventType == "message" && e.message.messageType == "text"
    requires Trim(e.message.text) == "cleancache"
    ensures HandleEvent(e, w) == Some([TextReply(ClearCacheFailure)])
  {
  }

  /** A user who adds the bot gets no welcome from src/app.js. */
  lemma FollowGetsNoReply(e: Event, w: World)
    requires ValidWorld(w) && e.eventType == "follow"
    ensures HandleEvent(e, w).None?
  {
  }

  /**
   * The two dispatch trees agree except on `follow` events, which only index.js
   * welcomes, and on the text `clearPhotoCache`, which src/app.js treats as a name.
   */
  lemma RoutesDiffer(e: Event)
    ensures IndexHandler.Route(e) != Route(e) <==>
              || e.eventType == "follow"
              || (e.eventType == "message" && e.message.messageType == "text" && Trim(e.message.text) == "clearPhotoCache")
    ensures e.eventType == "message" && e.message.messageType == "text" && Trim(e.message.text) == "clearPhotoCache" ==>
              Route(e) == SeatQuery("clearPhotoCache")
  {
    if e.eventType == "message" && e.message.messageType == "text" {
      var text := Trim(e.message.text);
      assert IndexHandler.Route(e) == IndexHandler.TextRoute(text);
      if text == "clearPhotoCache" {
        assert !IsSeatKeyword(text) && !IsPhotoKeyword(text) && !IsMenuKeyword(text);
      }
    }
  }

  /** Unlike index.js, src/app.js sends a photo whose URL is longer than LINE accepts. */
  lemma PhotoUrlUnchecked(photo: PhotoService.PhotoResult, base: string, encode: string -> Option<string>)
    requires photo.PhotoSuccess? && encode(photo.fileName).Some?
    requires Utf16Length(base) > MaxUrlLength
    ensures var r := PhotoReply(photo, base, encode);
            r.ImageReply? && Utf16Length(r.originalContentUrl) > MaxUrlLength
  {
    var name := encode(photo.fileName).value;
    Utf16LengthAppend(base, "/pictures/" + name);
    assert base + "/pictures/" + name == base + ("/pictures/" + name);
  }

  /** The table images of src/app.js do stay within the limit. */
  lemma TableImageWithinLimit(e: Event, w: World)
    requires ValidWorld(w) && Route(e).SeatQuery?
    requires |HandleEvent(e, w).value| == 2
    ensures var r := HandleEvent(e, w).value[1];
            r.ImageReply? && Utf16Length(r.originalContentUrl) <= MaxUrlLength
  {
  }
}
