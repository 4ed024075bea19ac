/** `scrape_vijay_sales`: the Vijay Sales extraction rules. */
module VijaySalesExtractor {

  import opened Wrappers
  import opened Text
  import opened Relevance
  import opened Page
  import opened Listing

  const ContainerSelectors: seq<Selector> :=
    [".product-card", ".product-item", ".item", ".product-container", "[class*='product']"]

  const MinContainers: nat := 2

  const MaxContainers: nat := 15

  const TitleSelectors: seq<Selector> := ["a.product-name", "a.product-title", "a.item-name"]

  const PriceSelectors: seq<Selector> := [".price", ".final-price", ".current-price", ".selling-price"]

  const RatingSelector: Selector := ".rating, .star-rating"

  const Origin: string := "https://www.vijaysales.com"

  function SearchUrl(encodedQuery: string): string {
    Origin + "/search-listing?q=" + encodedQuery
  }

  predicate IsAmountChar(c: char) {
    IsDigit(c) || c == ','
  }

  /** The end of the run of characters satisfying `IsSpace` that starts at `i`. */
  function SpaceEnd(s: string, i: nat): (j: nat)
    requires i <= |s|
    ensures i <= j <= |s| && (j == |s| || !IsSpace(s[j]))
    ensures forall k :: i <= k < j ==> IsSpace(s[k])
    decreases |s| - i
  {
    if i < |s| && IsSpace(s[i]) then SpaceEnd(s, i + 1) else i
  }

  /** The end of the run of digits and commas that starts at `i`. */
  function AmountEnd(s: string, i: nat): (j: nat)
    requires i <= |s|
    ensures i <= j <= |s| && (j == |s| || !IsAmountChar(s[j]))
    ensures forall k :: i <= k < j ==> IsAmountChar(s[k])
    decreases |s| - i
  {
    if i < |s| && IsAmountChar(s[i]) then AmountEnd(s, i + 1) else i
  }

  /** `₹\s*[\d,]+` matches at `i`: a rupee sign, optional whitespace, then a digit or comma. */
  predicate RupeeAt(s: string, i: nat) {
    i < |s| && s[i] == Rupee && SpaceEnd(s, i + 1) < |s| && IsAmountChar(s[SpaceEnd(s, i + 1)])
  }

  /** The (greedy) match that starts at `i`. */
  function MatchFrom(s: string, i: nat): string
    requires RupeeAt(s, i)
  {
    s[i..AmountEnd(s, SpaceEnd(s, i + 1))]
  }

  /** `re.search(r'₹\s*[\d,]+', s)`, searching from position `from`. */
  function RupeeSearch(s: string, from: nat): Option<string>
    decreases |s| - from
  {
    if from >= |s| then None
    else if RupeeAt(s, from) then Some(MatchFrom(s, from))
    else RupeeSearch(s, from + 1)
  }

  /** The search finds nothing exactly when no position from `from` on starts a match. */
  lemma {:induction false} RupeeSearchNone(s: string, from: nat)
    ensures RupeeSearch(s, from).None? <==> forall i :: from <= i < |s| ==> !RupeeAt(s, i)
    decreases |s| - from
  {
    if from < |s| && !RupeeAt(s, from) {
      RupeeSearchNone(s, from + 1);
    }
  }

  /** The search returns the match at the leftmost position that starts one. */
  lemma {:induction false} RupeeSearchLeftmost(s: string, from: nat, i: nat)
    requires from <= i && RupeeAt(s, i)
    requires forall j :: from <= j < i ==> !RupeeAt(s, j)
    ensures RupeeSearch(s, from) == Some(MatchFrom(s, i))
    decreases i - from
  {
    if from < i {
      assert !RupeeAt(s, from);
      RupeeSearchLeftmost(s, from + 1, i);
    }
  }

  /** Whatever the search returns is the match at some position. */
  lemma {:induction false} RupeeSearchSome(s: string, from: nat) returns (i: nat)
    requires RupeeSearch(s, from).Some?
    ensures from <= i < |s| && RupeeAt(s, i) && RupeeSearch(s, from) == Some(MatchFrom(s, i))
    decreases |s| - from
  {
    if RupeeAt(s, from) {
      i := from;
    } else {
      i := RupeeSearchSome(s, from + 1);
    }
  }

  /** A match starts with the rupee sign and ends with a digit or a comma, so it is never the sentinel. */
  lemma MatchShape(s: string, i: nat)
    requires RupeeAt(s, i)
    ensures MatchFrom(s, i)[0] == Rupee && IsAmountChar(MatchFrom(s, i)[|MatchFrom(s, i)| - 1])
    ensures MatchFrom(s, i) != "N/A" && Strip(MatchFrom(s, i)) == MatchFrom(s, i)
  {
    var m := MatchFrom(s, i);
    var j := SpaceEnd(s, i + 1);
    assert m[|m| - 1] == s[AmountEnd(s, j) - 1];
    assert !IsSpace(m[0]) && !IsSpace(m[|m| - 1]);
  }

  /** The price text: the first plausible price element, else the last one
      read; when still the sentinel, the first rupee amount in the container's text. */
  function PriceText(c: Container): string {
    var price := KeepLast(c.found, PriceSelectors, StrippedText, PlausiblePrice, "N/A");
    if price != "N/A" then price
    else match RupeeSearch(c.text, 0)
      case Some(m) => Strip(m)
      case None => "N/A"
  }

  /** The product URL: the `href` of the title link that was accepted, if it has one. */
  function ProductUrl(c: Container, searchUrl: string): string {
    match FirstAccepted(c.found, TitleSelectors, TextOrTitle, LongerThan3)
    case Some(link) =>
      if OrEmpty(Attr(link, "href")) != "" then AbsoluteUrl(Origin, OrEmpty(Attr(link, "href"))) else searchUrl
    case None => searchUrl
  }

  function Rating(c: Container): string {
    if RatingSelector in c.found then Strip(c.found[RatingSelector].text) else "N/A"
  }

  /** `src or "N/A"`, with a site-relative path made absolute. */
  function ImageUrl(c: Container): string {
    var src := if "img" in c.found then Or(OrEmpty(Attr(c.found["img"], "src")), "N/A") else "N/A";
    if src != "N/A" && StartsWith(src, "/") then Origin + src else src
  }

  /** The record one container yields, or None when it is skipped. */
  function Record(query: string, searchUrl: string, c: Container): (r: Option<Product>)
    ensures r.Some? ==> Emitted(r.value, VijaySales) && IsRelevant(r.value.title, query) && r.value.price != "N/A"
  {
    var title := KeepLast(c.found, TitleSelectors, TextOrTitle, LongerThan3, "");
    if title == "" || !IsRelevant(title, query) then None
    else
      var price := PriceText(c);
      if price == "N/A" then None
      else Some(MakeProduct(title, price, Rating(c), VijaySales, Some(ProductUrl(c, searchUrl)), Some(ImageUrl(c))))
  }

  /** A container is dropped for its price only when neither a price element
      nor the container's text gives one. */
  lemma PriceFallback(c: Container)
    ensures PriceText(c) == "N/A" <==>
      KeepLast(c.found, PriceSelectors, StrippedText, PlausiblePrice, "N/A") == "N/A" &&
      forall i :: 0 <= i < |c.text| ==> !RupeeAt(c.text, i)
  {
    RupeeSearchNone(c.text, 0);
    if RupeeSearch(c.text, 0).Some? {
      var i := RupeeSearchSome(c.text, 0);
      MatchShape(c.text, i);
    }
  }

  /** The title loop, which also takes the link of the accepted title. */
  method ReadTitle(c: Container, searchUrl: string) returns (title: string, url: string)
    ensures title == KeepLast(c.found, TitleSelectors, TextOrTitle, LongerThan3, "")
    ensures url == ProductUrl(c, searchUrl)
  {
    url := searchUrl;
    var link;
    title, link := ScanField(c.found, TitleSelectors, TextOrTitle, LongerThan3, "");
    if link.Some? {
      var href := Attr(link.value, "href");
      if href.Some? && href.value != "" {
        url := AbsoluteUrl(Origin, href.value);
      }
    }
  }

  /** The price loop and the fallback to the container's text. */
  method ReadPrice(c: Container) returns (price: string)
    ensures price == PriceText(c)
  {
    var hit;
    price, hit := ScanField(c.found, PriceSelectors, StrippedText, PlausiblePrice, "N/A");
    if price == "N/A" {
      var m := RupeeSearch(c.text, 0);
      if m.Some? {
        price := Strip(m.value);
      }
    }
  }

  /** The rating and the image, each "N/A" when its element is missing. */
  method ReadDetails(c: Container) returns (rating: string, image: string)
    ensures rating == Rating(c) && image == ImageUrl(c)
  {
    rating := "N/A";
    if RatingSelector in c.found {
      rating := Strip(c.found[RatingSelector].text);
    }
    image := "N/A";
    if "img" in c.found {
      image := Or(OrEmpty(Attr(c.found["img"], "src")), "N/A");
      if image != "N/A" && StartsWith(image, "/") {
        image := Origin + image;
      }
    }
  }

  /** A card is kept exactly when its title loop read a title, that title is
      relevant, and its price is no longer "N/A"; a kept record carries what
      those loops and the link, rating and image reads left. */
  lemma RecordKept(query: string, searchUrl: string, c: Container)
    ensures Record(query, searchUrl, c).Some? <==>
      var title := KeepLast(c.found, TitleSelectors, TextOrTitle, LongerThan3, "");
      title != "" && IsRelevant(title, query) && PriceText(c) != "N/A"
    ensures Record(query, searchUrl, c).Some? ==>
      var p := Record(query, searchUrl, c).value;
      && p.title == KeepLast(c.found, TitleSelectors, TextOrTitle, LongerThan3, "")
      && p.price == PriceText(c)
      && p.rating == Rating(c)
      && p.url == Some(ProductUrl(c, searchUrl))
      && p.image == Some(ImageUrl(c))
  {
  }

  /** One iteration of the container loop. */
  method Extract(query: string, searchUrl: string, c: Container) returns (p: Option<Product>)
    ensures p == Record(query, searchUrl, c)
    ensures p.Some? ==> Emitted(p.value, VijaySales) && IsRelevant(p.value.title, query) && p.value.price != "N/A"
  {
    var title, url := ReadTitle(c, searchUrl);
    if title == "" || !IsRelevant(title, query) {
      return None;
    }
    var price := ReadPrice(c);
    if price == "N/A" {
      return None;
    }
    var rating, image := ReadDetails(c);
    p := Some(MakeProduct(title, price, rating, VijaySales, Some(url), Some(image)));
  }
}
