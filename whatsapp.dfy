/** The contact deep-link builders of `src/lib/whatsapp.ts`: a pre-filled
    message, chosen from a fixed set of templates, percent-encoded into
    `https://wa.me/<phone>?text=<message>`. */
module WhatsApp {
  import opened Wrappers
  import opened Text
  import Seqs
  import Uri

  /** `config.whatsapp.number` and `config.brand.name` when the environment
      does not override them. */
  const DefaultPhone: string := "6281234567890"
  const BrandName: string := "Kumoart"
  /** U+1F64F, the folded-hands emoji that closes every template. */
  const Pray: string := "\U{1F64F}"

  const LinkPrefix: string := "https://wa.me/"
  const TextParam: string := "text="

  /** `WhatsAppLinkParams`; every field is optional. */
  datatype LinkParams = LinkParams(
    phone: Option<string>,
    productName: Option<string>,
    price: Option<string>,
    eventTitle: Option<string>,
    customMessage: Option<string>)

  /** One entry of the cart given to `generateCartWhatsAppLink`. */
  datatype CartItem = CartItem(name: string, price: string, quantity: int)

  /** JavaScript truthiness of an optional string: defined and non-empty. */
  predicate Truthy(o: Option<string>) {
    o.Some? && o.value != ""
  }

  // ---------------------------------------------------------------------
  // message templates

  datatype Template = Custom | ProductWithPrice | ProductOnly | EventInvite | Greeting

  /** The if/else chain of `generateWhatsAppLink`. */
  function SelectTemplate(p: LinkParams): (r: Template)
    ensures r in Priority && Applicable(r, p)
  {
    if Truthy(p.customMessage) then Custom
    else if Truthy(p.productName) && Truthy(p.price) then ProductWithPrice
    else if Truthy(p.productName) then ProductOnly
    else if Truthy(p.eventTitle) then EventInvite
    else Greeting
  }

  /** The condition of each template taken on its own, without the chain. */
  predicate Applicable(t: Template, p: LinkParams) {
    match t
    case Custom => Truthy(p.customMessage)
    case ProductWithPrice => Truthy(p.productName) && Truthy(p.price)
    case ProductOnly => Truthy(p.productName)
    case EventInvite => Truthy(p.eventTitle)
    case Greeting => true
  }

  /** The templates from highest to lowest priority. */
  const Priority: seq<Template> := [Custom, ProductWithPrice, ProductOnly, EventInvite, Greeting]

  // Each template literal of the source spans several lines; it is the
  // join of those lines with a line feed.

  const ProductHeading: string := "Halo, saya tertarik dengan produk berikut:"
  const NameLabel: string := "Nama Produk : "
  const PriceLabel: string := "Harga       : "
  const ProductRequest: string := "Mohon info ketersediaan & cara order " + Pray

  function ProductWithPriceMessage(name: string, price: string): string {
    Join([ProductHeading, "", NameLabel + name, PriceLabel + price, "", ProductRequest], '\n')
  }

  function ProductOnlyMessage(name: string): string {
    Join([ProductHeading, "", NameLabel + name, "", ProductRequest], '\n')
  }

  function EventMessage(title: string): string {
    Join(["Halo, saya tertarik dengan event berikut:", "", "Event : " + title, "",
          "Mohon info lebih lanjut & cara pendaftaran " + Pray], '\n')
  }

  /** The default greeting; the source has a space after the `!`. */
  function GreetingMessage(): string {
    Join(["Halo " + BrandName + "! ", "", "Saya ingin bertanya tentang produk Anda.", "",
          "Mohon informasinya " + Pray], '\n')
  }

  /** The `message` that `generateWhatsAppLink` encodes. */
  function Message(p: LinkParams): string {
    match SelectTemplate(p)
    case Custom => p.customMessage.value
    case ProductWithPrice => ProductWithPriceMessage(p.productName.value, p.price.value)
    case ProductOnly => ProductOnlyMessage(p.productName.value)
    case EventInvite => EventMessage(p.eventTitle.value)
    case Greeting => GreetingMessage()
  }

  // ---------------------------------------------------------------------
  // links

  /** The destructuring default `phone = config.whatsapp.number`: it applies
      only when `phone` is undefined, so an empty string is kept. */
  function LinkPhone(p: LinkParams): string {
    p.phone.GetOr(DefaultPhone)
  }

  /** `phone || config.whatsapp.number`, used by the cart and inquiry
      builders: an empty string also falls back. */
  function FallbackPhone(phone: Option<string>): string {
    if Truthy(phone) then phone.value else DefaultPhone
  }

  function BuildLink(phone: string, message: string): string {
    LinkPrefix + phone + "?" + TextParam + Uri.Encode(message)
  }

  /** `generateWhatsAppLink(params)`. */
  function GenerateWhatsAppLink(p: LinkParams): (r: string)
    ensures StartsWith(r, LinkPrefix + LinkPhone(p) + "?")
    ensures '?' !in LinkPhone(p) ==> ParseLink(r) == Some((LinkPhone(p), Message(p)))
  {
    BuildLinkParts(LinkPhone(p), Message(p));
    if '?' !in LinkPhone(p) then
      LinkRoundTrip(LinkPhone(p), Message(p));
      BuildLink(LinkPhone(p), Message(p))
    else BuildLink(LinkPhone(p), Message(p))
  }

  /** Line `i` (1-based) of the cart list. */
  function CartLine(i: int, item: CartItem): string {
    IntToString(i) + ". " + item.name + " x" + IntToString(item.quantity) + " - " + item.price
  }

  /** `products.map((p, i) => ...).join('\n')`. */
  function CartList(items: seq<CartItem>): string {
    Join(seq(|items|, i requires 0 <= i < |items| => CartLine(i + 1, items[i])), '\n')
  }

  function CartMessage(items: seq<CartItem>): string {
    Join(["Halo, saya ingin memesan produk berikut:", "", CartList(items), "",
          "Mohon info total harga & cara pembayaran " + Pray], '\n')
  }

  /** `generateCartWhatsAppLink(products, phone)`. */
  function GenerateCartWhatsAppLink(items: seq<CartItem>, phone: Option<string>): (r: string)
    ensures StartsWith(r, LinkPrefix + FallbackPhone(phone) + "?")
    ensures '?' !in FallbackPhone(phone) ==> ParseLink(r) == Some((FallbackPhone(phone), CartMessage(items)))
  {
    BuildLinkParts(FallbackPhone(phone), CartMessage(items));
    if '?' !in FallbackPhone(phone) then
      LinkRoundTrip(FallbackPhone(phone), CartMessage(items));
      BuildLink(FallbackPhone(phone), CartMessage(items))
    else BuildLink(FallbackPhone(phone), CartMessage(items))
  }

  /** The inquiry greeting; unlike GreetingMessage, no space after the `!`. */
  function InquiryMessage(subject: string): string {
    Join(["Halo " + BrandName + "!", "", "Saya ingin bertanya tentang: " + subject, "",
          "Mohon informasinya " + Pray], '\n')
  }

  /** `generateInquiryWhatsAppLink(subject, phone)`. */
  function GenerateInquiryWhatsAppLink(subject: string, phone: Option<string>): (r: string)
    ensures StartsWith(r, LinkPrefix + FallbackPhone(phone) + "?")
    ensures '?' !in FallbackPhone(phone) ==> ParseLink(r) == Some((FallbackPhone(phone), InquiryMessage(subject)))
  {
    BuildLinkParts(FallbackPhone(phone), InquiryMessage(subject));
    if '?' !in FallbackPhone(phone) then
      LinkRoundTrip(FallbackPhone(phone), InquiryMessage(subject));
      BuildLink(FallbackPhone(phone), InquiryMessage(subject))
    else BuildLink(FallbackPhone(phone), InquiryMessage(subject))
  }

  // ---------------------------------------------------------------------
  // reading a link back

  predicate IsQuestionMark(c: char) {
    c == '?'
  }

  /** Splits a `https://wa.me/<phone>?text=<encoded>` link at its first `?`
      and decodes the text parameter with `decodeURIComponent`. */
  function ParseLink(url: string): Option<(string, string)> {
    if !StartsWith(url, LinkPrefix) then None
    else
      var rest := url[|LinkPrefix|..];
      match Seqs.FindIndex(rest, IsQuestionMark)
      case None => None
      case Some(i) =>
        var query := rest[i + 1..];
        if !StartsWith(query, TextParam) then None
        else match Uri.Decode(query[|TextParam|..])
          case None => None
          case Some(m) => Some((rest[..i], m))
  }

  // ---------------------------------------------------------------------
  // properties

  /** The if/else chain picks the first applicable template in priority
      order; the greeting always applies, so one is always found. */
  lemma SelectIsFirstApplicable(p: LinkParams)
    ensures Seqs.Find(Priority, (t: Template) => Applicable(t, p)) == Some(SelectTemplate(p))
  {
    var q := (t: Template) => Applicable(t, p);
    assert Priority[4] == Greeting && q(Priority[4]);
    var k :| Seqs.FindIndex(Priority, q) == Some(k);
    assert Priority[k] == SelectTemplate(p) by {
      if k == 0 {} else if k == 1 {} else if k == 2 {} else if k == 3 {} else {}
    }
  }

  lemma Associate(a: string, b: string, c: string)
    ensures (a + b) + c == a + (b + c)
  {
  }

  /** A link is the prefix, the phone, `?` and the text parameter. */
  lemma BuildLinkParts(phone: string, message: string)
    ensures BuildLink(phone, message) == LinkPrefix + (phone + ("?" + (TextParam + Uri.Encode(message))))
    ensures BuildLink(phone, message) == (LinkPrefix + phone + "?") + (TextParam + Uri.Encode(message))
    ensures StartsWith(BuildLink(phone, message), LinkPrefix + phone + "?")
  {
    var e := Uri.Encode(message);
    Associate(LinkPrefix + phone + "?", TextParam, e);
    Associate(LinkPrefix + phone, "?", TextParam + e);
    Associate(LinkPrefix, phone, "?" + (TextParam + e));
  }

  /** The first `?` after a phone without `?` is the one that follows it. */
  lemma FirstQuestionMark(phone: string, tail: string)
    requires '?' !in phone
    ensures Seqs.FindIndex(phone + ("?" + tail), IsQuestionMark) == Some(|phone|)
  {
    var rest := phone + ("?" + tail);
    assert IsQuestionMark(rest[|phone|]);
    var k :| Seqs.FindIndex(rest, IsQuestionMark) == Some(k);
  }

  /** Every link has the fixed shape: reading it back gives the phone and
      the message, as long as the phone itself has no `?`. */
  lemma LinkRoundTrip(phone: string, message: string)
    requires '?' !in phone
    ensures ParseLink(BuildLink(phone, message)) == Some((phone, message))
  {
    var enc := Uri.Encode(message);
    var url := BuildLink(phone, message);
    BuildLinkParts(phone, message);
    var rest := phone + ("?" + (TextParam + enc));
    assert url[|LinkPrefix|..] == rest;
    FirstQuestionMark(phone, TextParam + enc);
    assert rest[..|phone|] == phone;
    assert rest[|phone| + 1..] == TextParam + enc;
    assert (TextParam + enc)[|TextParam|..] == enc;
    Uri.DecodeEncode(message);
  }

  /** A non-empty custom message is sent verbatim whatever else is given. */
  lemma CustomMessageWins(p: LinkParams)
    requires Truthy(p.customMessage)
    ensures Message(p) == p.customMessage.value
  {
  }

  /** With a product name and a price (and no custom message) the message
      is the product template, which names both. */
  lemma ProductWithPriceNamesBoth(p: LinkParams)
    requires !Truthy(p.customMessage) && Truthy(p.productName) && Truthy(p.price)
    ensures Message(p) == ProductWithPriceMessage(p.productName.value, p.price.value)
    ensures Contains(Message(p), p.productName.value) && Contains(Message(p), p.price.value)
  {
    var n, pr := p.productName.value, p.price.value;
    var lines := [ProductHeading, "", NameLabel + n, PriceLabel + pr, "", ProductRequest];
    JoinContainsLine(lines, '\n', 2, NameLabel, n);
    JoinContainsLine(lines, '\n', 3, PriceLabel, pr);
  }

  /** The lines of the product message with a price, one of which is the
      `Harga` (price) line. */
  lemma ProductWithPriceLines(name: string, price: string)
    requires '\n' !in name && '\n' !in price
    ensures Split(ProductWithPriceMessage(name, price), '\n') ==
      [ProductHeading, "", NameLabel + name, PriceLabel + price, "", ProductRequest]
  {
    var lines := [ProductHeading, "", NameLabel + name, PriceLabel + price, "", ProductRequest];
    forall i | 0 <= i < |lines| ensures '\n' !in lines[i] {
      if i == 2 { NoNewlineAppend(NameLabel, name); }
      if i == 3 { NoNewlineAppend(PriceLabel, price); }
    }
    SplitJoin(lines, '\n');
  }

  /** The lines of the product message without a price. */
  lemma ProductOnlyLines(name: string)
    requires '\n' !in name
    ensures Split(ProductOnlyMessage(name), '\n') == [ProductHeading, "", NameLabel + name, "", ProductRequest]
  {
    var lines := [ProductHeading, "", NameLabel + name, "", ProductRequest];
    forall i | 0 <= i < |lines| ensures '\n' !in lines[i] {
      if i == 2 { NoNewlineAppend(NameLabel, name); }
    }
    SplitJoin(lines, '\n');
  }

  /** Without a price the message has no `Harga` (price) line at all. */
  lemma ProductOnlyHasNoPriceLine(name: string)
    requires '\n' !in name
    ensures forall l :: l in Split(ProductOnlyMessage(name), '\n') ==> !StartsWith(l, "Harga")
  {
    ProductOnlyLines(name);
    var lines := [ProductHeading, "", NameLabel + name, "", ProductRequest];
    assert lines[0][2] == 'l' && lines[2][0] == 'N' && lines[4][0] == 'M';
    forall i | 0 <= i < |lines| ensures !StartsWith(lines[i], "Harga") {
      if StartsWith(lines[i], "Harga") {
        PriceLineStart(lines[i]);
      }
    }
  }

  lemma PriceLineStart(l: string)
    requires StartsWith(l, "Harga")
    ensures l[0] == 'H' && l[2] == 'r'
  {
    assert l[..5] == "Harga";
    assert l[0] == l[..5][0];
    assert l[2] == l[..5][2];
  }

  lemma NoNewlineAppend(a: string, b: string)
    requires '\n' !in a && '\n' !in b
    ensures '\n' !in a + b
  {
  }

  /** Line `k` of a joined text, taken as `key + value`, puts `value`
      in the text. */
  lemma JoinContainsLine(lines: seq<string>, sep: char, k: nat, key: string, value: string)
    requires k < |lines| && lines[k] == key + value
    ensures Contains(Join(lines, sep), value)
  {
    var a, c := JoinAround(lines, sep, k);
    assert Join(lines, sep) == (a + key) + value + c;
    ContainsMiddle(a + key, value, c);
  }

  /** A joined text is some text, then line `k`, then some text. */
  lemma {:induction false} JoinAround(lines: seq<string>, sep: char, k: nat) returns (a: string, c: string)
    requires k < |lines|
    ensures Join(lines, sep) == a + lines[k] + c
  {
    if |lines| == 1 {
      a, c := "", "";
    } else if k == 0 {
      a, c := "", [sep] + Join(lines[1..], sep);
    } else {
      var a', c' := JoinAround(lines[1..], sep, k - 1);
      a, c := lines[0] + [sep] + a', c';
    }
  }

  /** A price without a product name is ignored. */
  lemma PriceAloneIgnored(p: LinkParams, price: Option<string>)
    requires !Truthy(p.productName)
    ensures Message(p.(price := price)) == Message(p)
  {
  }

  /** The event template is chosen exactly when there is no custom message
      and no product name but an event title. */
  lemma EventTemplateCondition(p: LinkParams)
    ensures SelectTemplate(p) == EventInvite <==>
            !Truthy(p.customMessage) && !Truthy(p.productName) && Truthy(p.eventTitle)
  {
  }

  /** With none of the message fields the greeting naming the brand is
      sent to the configured number. */
  lemma EmptyParamsGreet()
    ensures GenerateWhatsAppLink(LinkParams(None, None, None, None, None)) ==
            BuildLink(DefaultPhone, GreetingMessage())
    ensures Contains(GreetingMessage(), BrandName)
  {
    var lines := ["Halo " + BrandName + "! ", "", "Saya ingin bertanya tentang produk Anda.", "",
                  "Mohon informasinya " + Pray];
    var tail := "\n" + Join(lines[1..], '\n');
    Associate(lines[0], "\n", Join(lines[1..], '\n'));
    assert GreetingMessage() == lines[0] + tail;
    Associate("Halo " + BrandName, "! ", tail);
    ContainsMiddle("Halo ", BrandName, "! " + tail);
  }

  /** An empty-string phone is kept by `generateWhatsAppLink` but replaced
      by the configured number in the cart and inquiry builders. */
  lemma EmptyPhoneFallback(p: LinkParams, items: seq<CartItem>, subject: string)
    requires p.phone == Some("")
    ensures StartsWith(GenerateWhatsAppLink(p), LinkPrefix + "?")
    ensures StartsWith(GenerateCartWhatsAppLink(items, Some("")), LinkPrefix + DefaultPhone + "?")
    ensures StartsWith(GenerateInquiryWhatsAppLink(subject, Some("")), LinkPrefix + DefaultPhone + "?")
  {
    assert LinkPrefix + LinkPhone(p) == LinkPrefix;
  }

  /** An empty cart gives an empty list: no item lines at all. */
  lemma EmptyCartList()
    ensures CartList([]) == ""
  {
  }

  /** Line `i` of the cart list (0-based here) is `"<i+1>. name x<quantity> - price"`,
      one line per item in input order. */
  lemma CartListLines(items: seq<CartItem>)
    requires |items| >= 1
    requires forall i :: 0 <= i < |items| ==> '\n' !in items[i].name && '\n' !in items[i].price
    ensures |Split(CartList(items), '\n')| == |items|
    ensures forall i :: 0 <= i < |items| ==> Split(CartList(items), '\n')[i] == CartLine(i + 1, items[i])
  {
    var lines := seq(|items|, i requires 0 <= i < |items| => CartLine(i + 1, items[i]));
    forall i | 0 <= i < |lines| ensures '\n' !in lines[i] {
      var it := items[i];
      assert '\n' !in IntToString(i + 1) && '\n' !in IntToString(it.quantity);
      assert lines[i] == IntToString(i + 1) + ". " + it.name + " x" + IntToString(it.quantity) + " - " + it.price;
    }
    SplitJoin(lines, '\n');
  }

  /** The cart message carries the cart list as one block. */
  lemma CartMessageHoldsList(items: seq<CartItem>)
    ensures Contains(CartMessage(items), CartList(items))
  {
    var lines := ["Halo, saya ingin memesan produk berikut:", "", CartList(items), "",
                  "Mohon info total harga & cara pembayaran " + Pray];
    assert lines[2] == "" + CartList(items);
    JoinContainsLine(lines, '\n', 2, "", CartList(items));
  }

  /** The inquiry message names its subject. */
  lemma InquiryNamesSubject(subject: string)
    ensures Contains(InquiryMessage(subject), subject)
  {
    var lines := ["Halo " + BrandName + "!", "", "Saya ingin bertanya tentang: " + subject, "",
                  "Mohon informasinya " + Pray];
    JoinContainsLine(lines, '\n', 2, "Saya ingin bertanya tentang: ", subject);
  }
}
