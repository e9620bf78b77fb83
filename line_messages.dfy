// The LINE events the bot reacts to, the replies it sends, and the parts of the
// `handleEvent` dispatch that index.js and src/app.js share word for word.

module LineMessages {
  import opened Wrappers
  import opened JsString
  import GuestService
  import PhotoService

  /** `event.message`: its `type` and, for text messages, its `text`. */
  datatype Message = Message(messageType: string, text: string)

  /** A webhook event: `event.type`, `event.postback.data` and `event.message`. */
  datatype Event = Event(eventType: string, postbackData: string, message: Message)

  /** One postback button of a buttons template. */
  datatype Action = PostbackAction(buttonLabel: string, data: string)

  /** A message object handed to `client.replyMessage`. */
  datatype Reply =
    | TextReply(text: string)
    | ImageReply(originalContentUrl: string, previewImageUrl: string)
    | ButtonsReply(altText: string, title: string, text: string, actions: seq<Action>)

  /** What `handleEvent` decides to do with an event. */
  datatype Route =
    | NoReply
    | Welcome
    | SeatInstructions
    | PhotoRequest
    | Menu
    | ClearGuestCache
    | ClearPhotoCache
    | SeatQuery(name: string)

  const SeatLookupData: string := "seat_lookup"
  const WeddingPhotoData: string := "wedding_photo"

  /** `getWelcomeMessage()`. */
  const WelcomeMessage: Reply :=
    TextReply("歡迎使用婚禮服務！請點選下方選單選擇功能。\nWelcome to the Wedding Service! Please use the menu below to select a function.")

  /** `getSeatLookupInstructions()`. */
  const SeatLookupInstructions: Reply :=
    TextReply("請輸入您的姓名查詢座位。\nPlease enter your name to look up your seat.")

  /** `getMenuMessage()`: a buttons template with the two postbacks. */
  const MenuMessage: Reply :=
    ButtonsReply("婚禮服務選單 Wedding Service Menu", "婚禮服務選單", "請選擇服務 Please select a service",
                 [PostbackAction("座位查詢 Seat Lookup", SeatLookupData),
                  PostbackAction("婚紗照 Wedding Photo", WeddingPhotoData)])

  /** The `cleancache` reply: `guestService` exports no `clearCache`, so the call throws a TypeError. */
  const ClearCacheFailure: string := "Failed to clear cache: guestService.clearCache is not a function"

  /** The fallback text when a photo cannot be sent. */
  const PhotoErrorMessage: string := "無法獲取照片，請稍後再試。\nUnable to get photo, please try again later."

  /** The reply when the seat query throws. */
  const SystemErrorMessage: string := "系統處理錯誤，請稍後再試。\nSystem error, please try again later."

  /** LINE refuses image URLs longer than this many characters. */
  const MaxUrlLength: nat := 1000

  /**
   * Everything outside the handlers that a reply depends on: the guest CSV file, the
   * table images present, HOST_URL, the photo directory listing, the value Math.random
   * yields, APP_BASE_URL, NGROK_URL, and encodeURIComponent (None where it throws a URIError).
   */
  datatype World = World(guestFile: Option<string>, tableImages: set<string>, hostUrl: Option<string>,
                         photoListing: Option<seq<string>>, random: real,
                         appBaseUrl: Option<string>, ngrokUrl: Option<string>,
                         encode: string -> Option<string>)

  predicate ValidWorld(w: World) {
    0.0 <= w.random < 1.0
  }

  /** The postback dispatch: the two menu values, anything else is ignored. */
  function PostbackRoute(data: string): (r: Route)
    ensures r == SeatInstructions <==> data == SeatLookupData
    ensures r == PhotoRequest <==> data == WeddingPhotoData
    ensures r == NoReply <==> data != SeatLookupData && data != WeddingPhotoData
  {
    if data == SeatLookupData then SeatInstructions
    else if data == WeddingPhotoData then PhotoRequest
    else NoReply
  }

  predicate IsSeatKeyword(text: string) {
    text == "座位查詢" || text == "Seat Lookup"
  }

  predicate IsPhotoKeyword(text: string) {
    text == "婚紗照" || text == "Wedding Photo"
  }

  predicate IsMenuKeyword(text: string) {
    text == "menu" || text == "選單"
  }

  /** The keyword chain after `cleancache`: seat, photo, menu, and otherwise a seat query on the text itself. */
  function KeywordRoute(text: string): (r: Route)
    ensures r == SeatInstructions <==> IsSeatKeyword(text)
    ensures r == PhotoRequest <==> IsPhotoKeyword(text)
    ensures r == Menu <==> IsMenuKeyword(text)
    ensures r.SeatQuery? <==> !IsSeatKeyword(text) && !IsPhotoKeyword(text) && !IsMenuKeyword(text)
    ensures r.SeatQuery? ==> r.name == text
  {
    if IsSeatKeyword(text) then SeatInstructions
    else if IsPhotoKeyword(text) then PhotoRequest
    else if IsMenuKeyword(text) then Menu
    else SeatQuery(text)
  }

  /** The result of `guestService.querySeat(name)` against the world. */
  function SeatLookup(w: World, name: string): GuestService.SeatResult {
    GuestService.QuerySeat(w.guestFile, w.tableImages, w.hostUrl, name)
  }

  /** The result of `photoService.getRandomPhoto()` against the world. */
  function PhotoLookup(w: World): PhotoService.PhotoResult
    requires ValidWorld(w)
  {
    PhotoService.RandomPhoto(w.photoListing, w.random)
  }

  /** The image message both handlers send: the same URL as original and preview. */
  function Image(url: string): Reply {
    ImageReply(url, url)
  }

  /** Both menus the user can tap (the buttons template and the rich menu) send only dispatched data. */
  lemma MenuPostbacksAreDispatched(k: nat)
    requires k < |MenuMessage.actions|
    ensures PostbackRoute(MenuMessage.actions[k].data) != NoReply
  {
  }
}
