/** The record every extractor emits, and the sources that emit them. */
module Listing {

  import opened Wrappers
  import opened Text
  import opened Price
  import opened Category
  import opened Page

  /** The sources, in the order in which they are scraped. */
  datatype Source = Flipkart | Amazon | VijaySales | JioMart

  /** The `source` field of the records a source emits. */
  function Name(s: Source): string {
    match s
    case Flipkart => "Flipkart"
    case Amazon => "Amazon"
    case VijaySales => "Vijay Sales"
    case JioMart => "JioMart"
  }

  /** One extracted listing, as the dictionary built by each extractor.
      `url` and `image` are None where the browser answered None for an attribute. */
  datatype Product = Product(
    title: string,
    price: string,
    priceNum: Option<nat>,
    rating: string,
    category: string,
    source: string,
    url: Option<string>,
    image: Option<string>)

  /** The dictionary literal: the price is normalised and the title classified as the record is built. */
  function MakeProduct(title: string, price: string, rating: string, source: Source,
                       url: Option<string>, image: Option<string>): (p: Product)
    ensures p.title == title && p.price == price && p.rating == rating && p.url == url && p.image == image
    ensures Emitted(p, source)
  {
    Product(title, price, ExtractPrice(price), rating, Label(AutoCategorize(title)), Name(source), url, image)
  }

  /** What holds of every record a source emits, whatever the page held. */
  predicate Emitted(p: Product, source: Source) {
    && p.source == Name(source)
    && p.priceNum == ExtractPrice(p.price)
    && p.category == Label(AutoCategorize(p.title))
  }

  /** `"https://..." + href` unless the link is already absolute. */
  function AbsoluteUrl(base: string, href: string): (r: string)
    ensures StartsWith(href, "http") ==> r == href
    ensures !StartsWith(href, "http") ==> r == base + href
  {
    if StartsWith(href, "http") then href else base + href
  }

  /** Reads the stripped visible text. */
  function StrippedText(e: Element): Option<string> {
    Some(Strip(e.text))
  }

  /** Reads `text.strip() or get_attribute('title') or ""`. */
  function TextOrTitle(e: Element): Option<string> {
    Some(Or(Strip(e.text), OrEmpty(Attr(e, "title"))))
  }

  /** `title and len(title) > 3`. */
  predicate LongerThan3(t: string) {
    t != "" && |t| > 3
  }

  /** `price_text and ('₹' in price_text or re.search(r'\d{2,}', price_text))`. */
  predicate PlausiblePrice(p: string) {
    p != "" && (Contains(p, [Rupee]) || HasDigitPair(p))
  }

  predicate NonEmpty(t: string) {
    t != ""
  }
}
