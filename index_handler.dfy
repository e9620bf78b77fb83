// The webhook handler of index.js: its `handleEvent` dispatch, the photo reply
// served from APP_BASE_URL under /pictures/, and the seat reply with the table
// image under /api/tables/, both held to LINE's 1000-character URL limit.

module IndexHandler {
  import opened Wrappers
  import opened JsString
  import opened LineMessages
  import GuestService
  import PhotoService

  /** The `clearPhotoCache` reply: `photoService` defines no `refreshImgurCache`, so the call throws a TypeError. */
  const ClearPhotoCacheFailure: string :=
    "無法更新照片快取: photoService.refreshImgurCache is not a function\nFailed to refresh photo cache: photoService.refreshImgurCache is not a function"

  const PhotoLinkTooLong: string := "照片連結過長，無法顯示。Photo link is too long."

  /** The text branch of `handleEvent`: the cache keywords first, then the shared keyword chain. */
  function TextRoute(text: string): (r: LineMessages.Route)
    ensures r == ClearGuestCache <==> text == "cleancache"
    ensures r == ClearPhotoCache <==> text == "clearPhotoCache"
    ensures r == SeatInstructions <==> IsSeatKeyword(text)
    ensures r == PhotoRequest <==> IsPhotoKeyword(text)
    ensures r == Menu <==> IsMenuKeyword(text)
    ensures r != NoReply && r != Welcome
    ensures r.SeatQuery? <==> !IsCommand(text)
    ensures r.SeatQuery? ==> r.name == text
  {
    if text == "cleancache" then ClearGuestCache
    else if text == "clearPhotoCache" then ClearPhotoCache
    else KeywordRoute(text)
  }

  /** The texts index.js acts on instead of looking them up as a guest name. */
  predicate IsCommand(text: string) {
    text == "cleancache" || text == "clearPhotoCache" || IsSeatKeyword(text) || IsPhotoKeyword(text) || IsMenuKeyword(text)
  }

  /** `handleEvent`'s decision: follow gets the welcome, other non-message, non-postback events nothing. */
  function Route(e: Event): (r: LineMessages.Route)
    ensures r == Welcome <==> e.eventType == "follow"
    ensures r == NoReply <==>
              || (e.eventType != "message" && e.eventType != "postback" && e.eventType != "follow")
              || (e.eventType == "postback" && PostbackRoute(e.postbackData) == NoReply)
    ensures r == Menu <==>
              && e.eventType == "message"
              && (e.message.messageType != "text" || IsMenuKeyword(Trim(e.message.text)))
    ensures r == ClearGuestCache <==>
              e.eventType == "message" && e.message.messageType == "text" && Trim(e.message.text) == "cleancache"
    ensures r == ClearPhotoCache <==>
              e.eventType == "message" && e.message.messageType == "text" && Trim(e.message.text) == "clearPhotoCache"
    ensures r == SeatInstructions <==>
              || (e.eventType == "postback" && e.postbackData == SeatLookupData)
              || (e.eventType == "message" && e.message.messageType == "text" && IsSeatKeyword(Trim(e.message.text)))
    ensures r == PhotoRequest <==>
              || (e.eventType == "postback" && e.postbackData == WeddingPhotoData)
              || (e.eventType == "message" && e.message.messageType == "text" && IsPhotoKeyword(Trim(e.message.text)))
    ensures r.SeatQuery? <==>
              e.eventType == "message" && e.message.messageType == "text" && !IsCommand(Trim(e.message.text))
    ensures r.SeatQuery? ==> r.name == Trim(e.message.text)
  {
    if e.eventType != "message" && e.eventType != "postback" then
      if e.eventType == "follow" then Welcome else NoReply
    else if e.eventType == "postback" then
      PostbackRoute(e.postbackData)
    else if e.message.messageType == "text" then
      TextRoute(Trim(e.message.text))
    else
      Menu
  }

  /**
   * `handlePhotoRequest`: a failure sends its message (or the fallback when empty); a
   * photo with a `url` sends that; otherwise the photo's URL under APP_BASE_URL, replaced
   * by a text when it is longer than LINE allows or cannot be encoded.
   */
  function PhotoReply(photo: PhotoService.PhotoResult, appBaseUrl: Option<string>,
                      encode: string -> Option<string>): (r: Reply)
    ensures photo.PhotoFailure? ==> r == TextReply(if photo.message != [] then photo.message else PhotoErrorMessage)
    ensures photo.PhotoSuccess? && photo.url.Some? && photo.url.value != [] ==> r == Image(photo.url.value)
    ensures photo.PhotoSuccess? && (photo.url.None? || photo.url.value == []) ==>
              match encode(photo.fileName)
              case None => r == TextReply(PhotoErrorMessage)
              case Some(name) =>
                var url := EnvOr(appBaseUrl, "") + "/pictures/" + name;
                r == if Utf16Length(url) > MaxUrlLength then TextReply(PhotoLinkTooLong) else Image(url)
  {
    match photo
    case PhotoFailure(message) =>
      TextReply(if message != [] then message else PhotoErrorMessage)
    case PhotoSuccess(_, fileName, _, _, url) =>
      if url.Some? && url.value != [] then Image(url.value)
      else
        match encode(fileName)
        case None => TextReply(PhotoErrorMessage)
        case Some(name) =>
          var imageUrl := EnvOr(appBaseUrl, "") + "/pictures/" + name;
          if Utf16Length(imageUrl) > MaxUrlLength then TextReply(PhotoLinkTooLong) else Image(imageUrl)
  }

  /** The local table image URL of `handleSeatQuery`, if the file can be encoded. */
  function SeatImageUrl(appBaseUrl: Option<string>, encode: string -> Option<string>, fileName: string): (url: Option<string>)
    ensures url.None? <==> encode(fileName).None?
    ensures url.Some? ==>
              var prefix := EnvOr(appBaseUrl, "") + "/api/tables/";
              StartsWith(url.value, prefix) && url.value[|prefix|..] == encode(fileName).value
  {
    match encode(fileName)
    case None => None
    case Some(name) => Some(EnvOr(appBaseUrl, "") + "/api/tables/" + name)
  }

  /**
   * `handleSeatQuery`: a miss sends its message; a hit sends the seat text, followed by
   * the table image when it exists, has a file name and its URL fits LINE's limit. An
   * encoding error is caught by the outer handler and replaces the whole reply.
   */
  function SeatReplies(result: GuestService.SeatResult, appBaseUrl: Option<string>,
                       encode: string -> Option<string>): (r: seq<Reply>)
    ensures 1 <= |r| <= 2
    ensures result.SeatNotFound? ==> r == [TextReply(result.message)]
    ensures result.SeatFound? && !(result.imageExists && result.imageFileName != []) ==>
              r == [TextReply(result.message)]
    ensures result.SeatFound? && result.imageExists && result.imageFileName != [] ==>
              match SeatImageUrl(appBaseUrl, encode, result.imageFileName)
              case None => r == [TextReply(SystemErrorMessage)]
              case Some(url) =>
                r == [TextReply(result.message)] + (if Utf16Length(url) > MaxUrlLength then [] else [Image(url)])
  {
    match result
    case SeatNotFound(message) => [TextReply(message)]
    case SeatFound(message, _, _, imageExists, _, imageFileName) =>
      if imageExists && imageFileName != [] then
        match SeatImageUrl(appBaseUrl, encode, imageFileName)
        case None => [TextReply(SystemErrorMessage)]
        case Some(url) =>
          if Utf16Length(url) > MaxUrlLength then [TextReply(message)]
          else [TextReply(message), Image(url)]
      else
        [TextReply(message)]
  }

  /** The messages of one route, or None where `handleEvent` resolves to null. */
  function Respond(route: LineMessages.Route, w: World): (r: Option<seq<Reply>>)
    requires ValidWorld(w)
    ensures r.None? <==> route == NoReply
    ensures route == Welcome ==> r == Some([WelcomeMessage])
    ensures route == SeatInstructions ==> r == Some([SeatLookupInstructions])
    ensures route == PhotoRequest ==> r == Some([PhotoReply(PhotoLookup(w), w.appBaseUrl, w.encode)])
    ensures route == Menu ==> r == Some([MenuMessage])
    ensures route == ClearGuestCache ==> r == Some([TextReply(ClearCacheFailure)])
    ensures route == ClearPhotoCache ==> r == Some([TextReply(ClearPhotoCacheFailure)])
    ensures route.SeatQuery? ==> r == Some(SeatReplies(SeatLookup(w, route.name), w.appBaseUrl, w.encode))
  {
    match route
    case NoReply => None
    case Welcome => Some([WelcomeMessage])
    case SeatInstructions => Some([SeatLookupInstructions])
    case PhotoRequest => Some([PhotoReply(PhotoLookup(w), w.appBaseUrl, w.encode)])
    case Menu => Some([MenuMessage])
    case ClearGuestCache => Some([TextReply(ClearCacheFailure)])
    case ClearPhotoCache => Some([TextReply(ClearPhotoCacheFailure)])
    case SeatQuery(name) => Some(SeatReplies(SeatLookup(w, name), w.appBaseUrl, w.encode))
  }

  /** `handleEvent` of index.js: the route of the event, answered against the world. */
  function HandleEvent(e: Event, w: World): (r: Option<seq<Reply>>)
    requires ValidWorld(w)
    ensures r.None? <==> Route(e) == NoReply
    ensures r.Some? ==> |r.value| >= 1
    ensures Route(e) == Welcome ==> r == Some([WelcomeMessage])
    ensures Route(e) == SeatInstructions ==> r == Some([SeatLookupInstructions])
    ensures Route(e) == PhotoRequest ==> r == Some([PhotoReply(PhotoLookup(w), w.appBaseUrl, w.encode)])
    ensures Route(e) == Menu ==> r == Some([MenuMessage])
    ensures Route(e).SeatQuery? ==> r == Some(SeatReplies(SeatLookup(w, Route(e).name), w.appBaseUrl, w.encode))
  {
    Respond(Route(e), w)
  }

  /** `cleancache` always fails: `guestService` has no `clearCache`, so the call throws and the error text is sent. */
  lemma CleanCacheAlwaysFails(e: Event, w: World)
    requires ValidWorld(w) && e.eventType == "message" && e.message.messageType == "text"
    requires Trim(e.message.text) == "cleancache"
    ensures HandleEvent(e, w) == Some([TextReply(ClearCacheFailure)])
  {
  }

  /** `clearPhotoCache` always fails: `photoService` has no `refreshImgurCache`. */
  lemma ClearPhotoCacheAlwaysFails(e: Event, w: World)
    requires ValidWorld(w) && e.eventType == "message" && e.message.messageType == "text"
    requires Trim(e.message.text) == "clearPhotoCache"
    ensures HandleEvent(e, w) == Some([TextReply(ClearPhotoCacheFailure)])
  {
  }

  /** Every image index.js sends has a URL within LINE's limit: the photo service never sets `url`. */
  lemma ImageUrlsWithinLimit(e: Event, w: World, k: nat)
    requires ValidWorld(w)
    requires HandleEvent(e, w).Some? && k < |HandleEvent(e, w).value|
    requires HandleEvent(e, w).value[k].ImageReply?
    ensures Utf16Length(HandleEvent(e, w).value[k].originalContentUrl) <= MaxUrlLength
    ensures HandleEvent(e, w).value[k].previewImageUrl == HandleEvent(e, w).value[k].originalContentUrl
  {
    RespondWithinLimit(Route(e), w, k);
  }

  lemma RespondWithinLimit(route: LineMessages.Route, w: World, k: nat)
    requires ValidWorld(w)
    requires Respond(route, w).Some? && k < |Respond(route, w).value|
    requires Respond(route, w).value[k].ImageReply?
    ensures Utf16Length(Respond(route, w).value[k].originalContentUrl) <= MaxUrlLength
    ensures Respond(route, w).value[k].previewImageUrl == Respond(route, w).value[k].originalContentUrl
  {
    match route {
      case PhotoRequest =>
        PhotoWithinLimit(w);
      case SeatQuery(name) =>
        SeatWithinLimit(SeatLookup(w, name), w.appBaseUrl, w.encode, k);
      case _ =>
    }
  }

  lemma PhotoWithinLimit(w: World)
    requires ValidWorld(w)
    requires PhotoReply(PhotoLookup(w), w.appBaseUrl, w.encode).ImageReply?
    ensures var r := PhotoReply(PhotoLookup(w), w.appBaseUrl, w.encode);
            Utf16Length(r.originalContentUrl) <= MaxUrlLength && r.previewImageUrl == r.originalContentUrl
  {
    assert PhotoLookup(w).PhotoFailure? || PhotoLookup(w).url.None?;
    LocalPhotoWithinLimit(PhotoLookup(w), w.appBaseUrl, w.encode);
  }

  lemma LocalPhotoWithinLimit(photo: PhotoService.PhotoResult, appBaseUrl: Option<string>,
                              encode: string -> Option<string>)
    requires photo.PhotoFailure? || photo.url.None?
    requires PhotoReply(photo, appBaseUrl, encode).ImageReply?
    ensures var r := PhotoReply(photo, appBaseUrl, encode);
            Utf16Length(r.originalContentUrl) <= MaxUrlLength && r.previewImageUrl == r.originalContentUrl
  {
  }

  lemma SeatWithinLimit(result: GuestService.SeatResult, appBaseUrl: Option<string>,
                        encode: string -> Option<string>, k: nat)
    requires k < |SeatReplies(result, appBaseUrl, encode)| && SeatReplies(result, appBaseUrl, encode)[k].ImageReply?
    ensures var r := SeatReplies(result, appBaseUrl, encode)[k];
            Utf16Length(r.originalContentUrl) <= MaxUrlLength && r.previewImageUrl == r.originalContentUrl
  {
  }

  /**
   * A seat query always answers with a text first; a second message is the image of
   * the guest's table, whose file exists.
   */
  lemma SeatTextFirst(e: Event, w: World)
    requires ValidWorld(w) && Route(e).SeatQuery?
    ensures var r := HandleEvent(e, w).value;
            && 1 <= |r| <= 2 && r[0].TextReply?
            && (|r| == 2 ==>
                  var file := GuestService.TableFileName(GuestService.CsvGuests(w.guestFile)[Route(e).name]);
                  && file in w.tableImages
                  && SeatImageUrl(w.appBaseUrl, w.encode, file).Some?
                  && r[1] == Image(SeatImageUrl(w.appBaseUrl, w.encode, file).value))
  {
  }

  /** The name looked up is the trimmed text, so a guest whose name carries surrounding whitespace is never found. */
  lemma PaddedNameNeverFound(e: Event, w: World, key: string)
    requires ValidWorld(w) && Route(e).SeatQuery?
    requires !Trimmed(key)
    ensures Route(e).name != key
  {
    TrimShape(e.message.text);
  }

  /** The keywords win over the seat query: a guest named `menu` cannot look up the seat. */
  lemma KeywordsShadowGuests(e: Event, w: World)
    requires ValidWorld(w)
    requires e.eventType == "message" && e.message.messageType == "text"
    requires IsCommand(Trim(e.message.text))
    ensures !Route(e).SeatQuery?
  {
  }

  /** With this photo service the `url` branch is dead: every photo sent lives under APP_BASE_URL/pictures/. */
  lemma PhotoAlwaysLocal(w: World)
    requires ValidWorld(w)
    requires PhotoReply(PhotoLookup(w), w.appBaseUrl, w.encode).ImageReply?
    ensures var photo := PhotoLookup(w);
            && photo.PhotoSuccess?
            && w.encode(photo.fileName).Some?
            && PhotoReply(photo, w.appBaseUrl, w.encode).originalContentUrl
               == EnvOr(w.appBaseUrl, "") + "/pictures/" + w.encode(photo.fileName).value
  {
  }

  /**
   * The image lemmas above are not vacuous: when the listing holds one photo (such as
   * `a.jpg`, see `PhotoService.OnePhotoListing`) and the encoder leaves its name alone,
   * the photo postback is answered with that photo's image.
   */
  lemma PhotoImageIsSent(w: World, e: Event, name: string)
    requires ValidWorld(w) && w.photoListing == Some([name]) && PhotoService.IsPhotoFile(name)
    requires w.appBaseUrl == None && w.encode(name) == Some(name) && |name| <= 400
    requires e.eventType == "postback" && e.postbackData == WeddingPhotoData
    ensures PhotoReply(PhotoLookup(w), w.appBaseUrl, w.encode) == Image("/pictures/" + name)
    ensures HandleEvent(e, w) == Some([Image("/pictures/" + name)])
  {
    OnePhotoFound(w, name);
    LocalPhotoSent(PhotoLookup(w), w.encode, name);
    assert Route(e) == PhotoRequest;
  }

  lemma LocalPhotoSent(photo: PhotoService.PhotoResult, encode: string -> Option<string>, name: string)
    requires photo.PhotoSuccess? && photo.url.None? && photo.fileName == name
    requires encode(name) == Some(name) && |name| <= 400
    ensures PhotoReply(photo, None, encode) == Image("/pictures/" + name)
  {
    var url := EnvOr(None, "") + "/pictures/" + name;
    assert url == "/pictures/" + name;
    assert Utf16Length(url) <= 2 * |url|;
  }

  lemma OnePhotoFound(w: World, name: string)
    requires ValidWorld(w) && w.photoListing == Some([name]) && PhotoService.IsPhotoFile(name)
    ensures PhotoLookup(w).PhotoSuccess? && PhotoLookup(w).fileName == name && PhotoLookup(w).url.None?
  {
    assert PhotoService.AllPhotos(w.photoListing) == [name] by {
      assert [name][1..] == [];
    }
  }
}
