// `createWeddingRichMenu`: the rich menu under the chat, a 2500 x 843 canvas split
// into a seat-lookup half and a wedding-photo half.

module RichMenuService {
  import opened LineMessages

  datatype Bounds = Bounds(x: int, y: int, width: int, height: int)

  /** A postback action of a rich-menu area. */
  datatype AreaAction = Postback(data: string, displayText: string)

  datatype Area = Area(bounds: Bounds, action: AreaAction)

  datatype RichMenu = RichMenu(width: int, height: int, selected: bool, name: string,
                               chatBarText: string, areas: seq<Area>)

  /** The point lies in the rectangle (left and top edges included, right and bottom excluded). */
  predicate Covers(b: Bounds, px: int, py: int) {
    b.x <= px < b.x + b.width && b.y <= py < b.y + b.height
  }

  /** The menu object, exactly as `createWeddingRichMenu` builds it. */
  function WeddingRichMenu(): (m: RichMenu)
    ensures m.width == 2500 && m.height == 843 && m.selected
    ensures |m.areas| == 2
    ensures m.areas[0].action.data == SeatLookupData && m.areas[1].action.data == WeddingPhotoData
  {
    RichMenu(2500, 843, true, "Wedding Service Menu", "選單 Menu",
             [Area(Bounds(0, 0, 1250, 843), Postback(SeatLookupData, "座位查詢 Seat Lookup")),
              Area(Bounds(1250, 0, 1250, 843), Postback(WeddingPhotoData, "婚紗照 Wedding Photo"))])
  }

  /** The two areas tile the canvas: every point of it is in exactly one area. */
  lemma AreasTileCanvas(px: int, py: int)
    requires 0 <= px < WeddingRichMenu().width && 0 <= py < WeddingRichMenu().height
    ensures var a := WeddingRichMenu().areas;
            Covers(a[0].bounds, px, py) != Covers(a[1].bounds, px, py)
  {
  }

  /** No area reaches outside the canvas. */
  lemma AreasInsideCanvas(k: nat, px: int, py: int)
    requires k < |WeddingRichMenu().areas| && Covers(WeddingRichMenu().areas[k].bounds, px, py)
    ensures 0 <= px < WeddingRichMenu().width && 0 <= py < WeddingRichMenu().height
  {
  }

  /** Both areas and their captions agree with the buttons template, and their data is dispatched. */
  lemma AreasMatchMenu(k: nat)
    requires k < |WeddingRichMenu().areas|
    ensures WeddingRichMenu().areas[k].action.data == MenuMessage.actions[k].data
    ensures WeddingRichMenu().areas[k].action.displayText == MenuMessage.actions[k].buttonLabel
    ensures PostbackRoute(WeddingRichMenu().areas[k].action.data) != NoReply
  {
  }
}
