/** `scrape_amazon`: the Amazon extraction rules. */
module AmazonExtractor {

  import opened Wrappers
  import opened Text
  import opened Relevance
  import opened Page
  import opened Listing

  /** The one locator for result containers; no fallback is tried. */
  const ResultSelector: Selector := "[data-component-type='s-search-result']"

  const MaxContainers: nat := 12

  const TitleSelectors: seq<Selector> :=
    ["h2 a span", "h2 span", ".a-size-mini span", ".a-size-base-plus", ".a-size-base", "span.a-text-normal"]

  const UrlSelectors: seq<Selector> := ["h2 a", ".s-product-image-container a", "a[href*='/dp/']"]

  const PriceSelectors: seq<Selector> := [".a-price-whole", ".a-price .a-offscreen", ".a-price"]

  const RatingSelectors: seq<Selector> := [".a-icon-alt", "span[aria-label*='out of']"]

  const ImageSelector: Selector := "img.s-image, img"

  const Origin: string := "https://www.amazon.in"

  function SearchUrl(encodedQuery: string): string {
    Origin + "/s?k=" + encodedQuery + "&ref=nb_sb_noss"
  }

  /** The result containers: whatever the one locator finds, none when it raises. */
  function Containers(doc: Document): seq<Container> {
    if ResultSelector in doc.found then doc.found[ResultSelector] else []
  }

  /** `title and len(title) > 5`. */
  predicate LongerThan5(t: string) {
    t != "" && |t| > 5
  }

  function Href(e: Element): Option<string> {
    Attr(e, "href")
  }

  /** `href and '/dp/' in href`. */
  predicate ProductLink(href: string) {
    href != "" && Contains(href, "/dp/")
  }

  /** `text.strip() or get_attribute("textContent").strip()`; the second
      read raises when the attribute is missing, and the field is then left as it was. */
  function PriceRead(e: Element): Option<string> {
    var t := Strip(e.text);
    if t != "" then Some(t)
    else match Attr(e, "textContent")
      case None => None
      case Some(a) => Some(Strip(a))
  }

  /** `price_text and ('₹' in price_text or re.search(r'\d', price_text))`. */
  predicate PlausiblePrice(p: string) {
    p != "" && (Contains(p, [Rupee]) || HasDigit(p))
  }

  /** `get_attribute("title") or text`. */
  function RatingRead(e: Element): Option<string> {
    Some(Or(OrEmpty(Attr(e, "title")), e.text))
  }

  /** `rating_text and any(char.isdigit() for char in rating_text)`. */
  predicate RatingText(t: string) {
    t != "" && HasDigit(t)
  }

  /** The product URL: the first link to a product page, made absolute, else the search URL. */
  function ProductUrl(c: Container, searchUrl: string): string {
    match FirstAccepted(c.found, UrlSelectors, Href, ProductLink)
    case Some(e) => AbsoluteUrl(Origin, OrEmpty(Href(e)))
    case None => searchUrl
  }

  /** The rating: the first rating text with a digit; unlike the other fields, a rejected text is not kept. */
  function Rating(c: Container): string {
    match FirstAccepted(c.found, RatingSelectors, RatingRead, RatingText)
    case Some(e) => OrEmpty(RatingRead(e))
    case None => "N/A"
  }

  function ImageUrl(c: Container): string {
    if ImageSelector in c.found then Or(OrEmpty(Attr(c.found[ImageSelector], "src")), "N/A") else "N/A"
  }

  /** The record one container yields, or None when it is skipped. */
  function Record(query: string, searchUrl: string, c: Container): (r: Option<Product>)
    ensures r.Some? ==> Emitted(r.value, Amazon) && IsRelevant(r.value.title, query) && r.value.price != "N/A"
  {
    var title := KeepLast(c.found, TitleSelectors, StrippedText, LongerThan5, "");
    if title == "" || !IsRelevant(title, query) then None
    else
      var url := ProductUrl(c, searchUrl);
      var price := KeepLast(c.found, PriceSelectors, PriceRead, PlausiblePrice, "N/A");
      if price == "N/A" then None
      else Some(MakeProduct(title, price, Rating(c), Amazon, Some(url), Some(ImageUrl(c))))
  }

  /** A result is kept exactly when its title loop read a title, that title is
      relevant, and its price is no longer "N/A"; a kept record carries what
      those loops and the link, rating and image reads left. */
  lemma RecordKept(query: string, searchUrl: string, c: Container)
    ensures Record(query, searchUrl, c).Some? <==>
      var title := KeepLast(c.found, TitleSelectors, StrippedText, LongerThan5, "");
      title != "" && IsRelevant(title, query) && KeepLast(c.found, PriceSelectors, PriceRead, PlausiblePrice, "N/A") != "N/A"
    ensures Record(query, searchUrl, c).Some? ==>
      var p := Record(query, searchUrl, c).value;
      && p.title == KeepLast(c.found, TitleSelectors, StrippedText, LongerThan5, "")
      && p.price == KeepLast(c.found, PriceSelectors, PriceRead, PlausiblePrice, "N/A")
      && p.rating == Rating(c)
      && p.url == Some(ProductUrl(c, searchUrl))
      && p.image == Some(ImageUrl(c))
  {
  }

  /** One iteration of the container loop. */
  method Extract(query: string, searchUrl: string, c: Container) returns (p: Option<Product>)
    ensures p == Record(query, searchUrl, c)
    ensures p.Some? ==> Emitted(p.value, Amazon) && IsRelevant(p.value.title, query) && p.value.price != "N/A"
  {
    var title, _ := ScanField(c.found, TitleSelectors, StrippedText, LongerThan5, "");
    if title == "" || !IsRelevant(title, query) {
      return None;
    }
    var url := searchUrl;
    var href, link := ScanField(c.found, UrlSelectors, Href, ProductLink, "");
    if link.Some? {
      ScanValueOfHit(c.found, UrlSelectors, Href, ProductLink, "");
      url := AbsoluteUrl(Origin, href);
    }
    var price, _ := ScanField(c.found, PriceSelectors, PriceRead, PlausiblePrice, "N/A");
    if price == "N/A" {
      return None;
    }
    var rating := "N/A";
    var ratingText, ratingHit := ScanField(c.found, RatingSelectors, RatingRead, RatingText, "");
    if ratingHit.Some? {
      ScanValueOfHit(c.found, RatingSelectors, RatingRead, RatingText, "");
      rating := ratingText;
    }
    var image := "N/A";
    if ImageSelector in c.found {
      image := Or(OrEmpty(Attr(c.found[ImageSelector], "src")), "N/A");
    }
    p := Some(MakeProduct(title, price, rating, Amazon, Some(url), Some(image)));
  }
}
