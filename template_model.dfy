/** The Template schema: the block/theme design structure, its enumerations and
    defaults, and the premium price validator. */
module TemplateModel {
  import opened Common
  import opened Text

  /** The fifteen kinds of content block. */
  datatype BlockType =
    | Hero | EventDetails | Venue | Gallery | Rsvp | Message | Footer | Divider
    | Countdown | Custom | Youtube | FullImage | Pdf | SocialShare | QrCode

  function BlockTypeName(k: BlockType): string {
    match k
    case Hero => "hero"
    case EventDetails => "eventDetails"
    case Venue => "venue"
    case Gallery => "gallery"
    case Rsvp => "rsvp"
    case Message => "message"
    case Footer => "footer"
    case Divider => "divider"
    case Countdown => "countdown"
    case Custom => "custom"
    case Youtube => "youtube"
    case FullImage => "fullImage"
    case Pdf => "pdf"
    case SocialShare => "socialShare"
    case QrCode => "qrCode"
  }

  /** The enum validator on `type`: accepts exactly the fifteen names. */
  function ParseBlockType(s: string): (r: Option<BlockType>)
    ensures r.Some? ==> BlockTypeName(r.value) == s
    ensures r.None? ==> forall k :: BlockTypeName(k) != s
  {
    match s
    case "hero" => Some(Hero)
    case "eventDetails" => Some(EventDetails)
    case "venue" => Some(Venue)
    case "gallery" => Some(Gallery)
    case "rsvp" => Some(Rsvp)
    case "message" => Some(Message)
    case "footer" => Some(Footer)
    case "divider" => Some(Divider)
    case "countdown" => Some(Countdown)
    case "custom" => Some(Custom)
    case "youtube" => Some(Youtube)
    case "fullImage" => Some(FullImage)
    case "pdf" => Some(Pdf)
    case "socialShare" => Some(SocialShare)
    case "qrCode" => Some(QrCode)
    case _ => None
  }

  datatype BackgroundType = Solid | Gradient | Image | Pattern

  function ParseBackgroundType(s: string): (r: Option<BackgroundType>)
    ensures r.Some? <==> s in {"solid", "gradient", "image", "pattern"}
  {
    match s
    case "solid" => Some(Solid)
    case "gradient" => Some(Gradient)
    case "image" => Some(Image)
    case "pattern" => Some(Pattern)
    case _ => None
  }

  datatype TextAlign = Left | Center | Right

  function ParseTextAlign(s: string): (r: Option<TextAlign>)
    ensures r.Some? <==> s in {"left", "center", "right"}
  {
    match s
    case "left" => Some(Left)
    case "center" => Some(Center)
    case "right" => Some(Right)
    case _ => None
  }

  /** Layout, background, overlay, alignment and animation options of a block. */
  datatype BlockSettings = BlockSettings(
    height: string, padding: string, margin: string,
    backgroundType: BackgroundType, backgroundColor: string, backgroundGradient: string,
    backgroundImage: string, backgroundPattern: string, backgroundSize: string,
    backgroundPosition: string,
    overlayEnabled: bool, overlayColor: string, overlayOpacity: real,
    textAlign: TextAlign, animation: string, animationDelay: int)

  const DefaultBlockSettings: BlockSettings := BlockSettings(
    "auto", "4rem", "0",
    Solid, "#ffffff", "", "", "", "cover", "center",
    false, "#000000", 0.3,
    Center, "fade-up", 0)

  datatype Block = Block(id: string, kind: BlockType, order: int,
                         settings: BlockSettings, content: Blob, styles: Blob)

  /** A block as it arrives, before casting: `type` and `order` may be missing
      or `type` outside the enumeration; settings are already defaulted. */
  datatype RawBlock = RawBlock(id: Option<string>, kind: Option<string>, order: Option<int>,
                               settings: BlockSettings, content: Option<Blob>, styles: Option<Blob>)

  /** Casting and validating a block: `id`, `type` and `order` are required,
      `type` must be one of the fifteen kinds; `content` and `styles` default to `{}`. */
  function CastBlock(raw: RawBlock): (r: Option<Block>)
    ensures r.Some? <==>
              && raw.id.Some? && raw.id.value != "" && raw.order.Some?
              && raw.kind.Some? && ParseBlockType(raw.kind.value).Some?
    ensures r.Some? ==>
              && r.value.id == raw.id.value && r.value.order == raw.order.value
              && BlockTypeName(r.value.kind) == raw.kind.value
              && r.value.content == raw.content.GetOr(EmptyObject)
              && r.value.styles == raw.styles.GetOr(EmptyObject)
  {
    if raw.id.None? || raw.id.value == "" || raw.order.None? || raw.kind.None? then None
    else
      match ParseBlockType(raw.kind.value)
      case None => None
      case Some(k) =>
        Some(Block(raw.id.value, k, raw.order.value, raw.settings,
                   raw.content.GetOr(EmptyObject), raw.styles.GetOr(EmptyObject)))
  }

  /** The eight colour roles of a theme. */
  datatype Colors = Colors(primary: string, secondary: string, accent: string,
                           background: string, surface: string, text: string,
                           textLight: string, border: string)

  /** The three font roles of a theme. */
  datatype Fonts = Fonts(heading: string, body: string, accent: string)

  datatype Theme = Theme(colors: Colors, fonts: Fonts, borderRadius: string, shadow: string)

  const DefaultTheme: Theme := Theme(
    Colors("#6366f1", "#8b5cf6", "#f59e0b", "#ffffff", "#f9fafb", "#1f2937", "#6b7280", "#e5e7eb"),
    Fonts("Playfair Display", "Inter", "Dancing Script"),
    "0.75rem", "0 4px 6px -1px rgb(0 0 0 / 0.1)")

  datatype GlobalSettings = GlobalSettings(maxWidth: string, fontScale: real, animationsEnabled: bool)

  const DefaultGlobalSettings: GlobalSettings := GlobalSettings("800px", 1.0, true)

  datatype Design = Design(blocks: seq<Block>, theme: Theme, globalSettings: GlobalSettings)

  const DefaultDesign: Design := Design([], DefaultTheme, DefaultGlobalSettings)

  /** Thirty days in milliseconds: the offset of the demo event date (and of the
      invitation expiry default). */
  const ThirtyDaysMs: int := 30 * 24 * 60 * 60 * 1000

  /** The demo content a template shows in previews. */
  datatype DefaultContent = DefaultContent(eventName: string, hostName: string, eventDate: int,
                                           eventTime: string, venue: string,
                                           venueAddress: string, message: string)

  function DemoContent(now: int): (c: DefaultContent)
    ensures c.eventDate == now + 2592000000
  {
    DefaultContent("Beautiful Celebration", "John & Jane", now + ThirtyDaysMs, "6:00 PM",
                   "Grand Ballroom", "123 Celebration Street, City",
                   "We would be honored to have you celebrate with us!")
  }

  /** A stored template. `price` is the value a load reads back: a price the
      database holds unset reads as its default 0. */
  datatype Template = Template(
    name: string, description: string, category: Id, previewImage: string,
    previewImages: seq<string>, isPremium: bool, price: int, isActive: bool,
    design: Design, customizableFields: seq<string>, defaultContent: DefaultContent,
    componentName: string, config: Blob, usageCount: int)

  /** The price validator `!this.isPremium || v > 0`. Mongoose runs custom
      validators only on defined values, so an unset price (`None`) passes. */
  predicate PriceValidOnSave(isPremium: bool, price: Option<int>) {
    price.None? || !isPremium || price.value > 0
  }

  /** What a save validates: the required paths and the price rule on the value held. */
  predicate ValidOnSave(t: Template, price: Option<int>) {
    Trimmed(t.name) && t.name != "" && t.previewImage != ""
    && PriceValidOnSave(t.isPremium, price)
  }

  /** What every stored template satisfies: a trimmed, non-empty name, a preview
      image, a free template priced 0, and no negative price. A premium template
      may hold 0, when an update left its price unset. */
  predicate Stored(t: Template) {
    Trimmed(t.name) && t.name != "" && t.previewImage != ""
    && t.price >= 0 && (!t.isPremium ==> t.price == 0)
  }

  /** The price `updateTemplate` assigns: the request's price when the request's
      `isPremium` is true, otherwise 0; the stored `isPremium` is not consulted. */
  function UpdatedPrice(requestIsPremium: Option<bool>, requestPrice: Option<int>): (p: Option<int>)
    ensures requestIsPremium != Some(true) ==> p == Some(0)
    ensures requestIsPremium == Some(true) ==> p == requestPrice
  {
    if requestIsPremium == Some(true) then requestPrice else Some(0)
  }

  /** Whatever the request says, a template that passes the save check after an
      update is stored in the `Stored` shape: a free one at 0, a premium one at a
      positive price or at the unset default 0. Omitting `isPremium` while the
      template stays premium is rejected, since the price then becomes 0. */
  lemma UpdatedPriceStored(stillPremium: bool, requestIsPremium: Option<bool>, requestPrice: Option<int>)
    requires requestIsPremium.Some? ==> stillPremium == requestIsPremium.value
    requires PriceValidOnSave(stillPremium, UpdatedPrice(requestIsPremium, requestPrice))
    ensures var p := UpdatedPrice(requestIsPremium, requestPrice).GetOr(0);
      p >= 0 && (!stillPremium ==> p == 0)
    ensures stillPremium ==> requestIsPremium.Some?
  {
  }
}
