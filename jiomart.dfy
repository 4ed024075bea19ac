/** `scrape_jiomart`: the JioMart extraction rules. */
module JioMartExtractor {

  import opened Wrappers
  import opened Text
  import opened Relevance
  import opened Page
  import opened Listing

  /** The one locator for result containers; no fallback is tried. */
  const CardSelector: Selector := "div.plp-card-container"

  const MaxContainers: nat := 15

  const TitleSelector: Selector := "div.plp-card-details-name"

  const PriceSelector: Selector := "span.jm-heading-xxs"

  const Origin: string := "https://www.jiomart.com"

  function SearchUrl(encodedQuery: string): string {
    Origin + "/search/" + encodedQuery
  }

  /** The result containers: whatever the one locator finds, none when it raises. */
  function Containers(doc: Document): seq<Container> {
    if CardSelector in doc.found then doc.found[CardSelector] else []
  }

  /** The first link's `href`, which the browser may answer with None; the search page when there is no link. */
  function ProductUrl(c: Container, searchUrl: string): Option<string> {
    if "a" in c.found then Attr(c.found["a"], "href") else Some(searchUrl)
  }

  /** The first image's `src`, possibly None; the sentinel when there is no image. */
  function ImageUrl(c: Container): Option<string> {
    if "img" in c.found then Attr(c.found["img"], "src") else Some("N/A")
  }

  /** The record one card yields: a card without a title or price element is
      skipped, and so is an irrelevant one. The price text is not checked. */
  function Record(query: string, searchUrl: string, c: Container): (r: Option<Product>)
    ensures r.Some? ==> Emitted(r.value, JioMart) && IsRelevant(r.value.title, query) && r.value.rating == "N/A"
  {
    if TitleSelector !in c.found || PriceSelector !in c.found then None
    else
      var title := Strip(c.found[TitleSelector].text);
      var price := Strip(c.found[PriceSelector].text);
      if !IsRelevant(title, query) then None
      else Some(MakeProduct(title, price, "N/A", JioMart, ProductUrl(c, searchUrl), ImageUrl(c)))
  }

  /** A card is kept exactly when it has both elements and its title is relevant. */
  lemma RecordKept(query: string, searchUrl: string, c: Container)
    ensures Record(query, searchUrl, c).Some? <==>
      TitleSelector in c.found && PriceSelector in c.found && IsRelevant(Strip(c.found[TitleSelector].text), query)
    ensures Record(query, searchUrl, c).Some? ==>
      var p := Record(query, searchUrl, c).value;
      p.title == Strip(c.found[TitleSelector].text) && p.price == Strip(c.found[PriceSelector].text) && p.rating == "N/A"
  {
  }

  /** One iteration of the card loop. */
  method Extract(query: string, searchUrl: string, c: Container) returns (p: Option<Product>)
    ensures p == Record(query, searchUrl, c)
    ensures p.Some? ==> Emitted(p.value, JioMart) && IsRelevant(p.value.title, query) && p.value.rating == "N/A"
  {
    if TitleSelector !in c.found || PriceSelector !in c.found {
      return None;
    }
    var title := Strip(c.found[TitleSelector].text);
    var price := Strip(c.found[PriceSelector].text);
    if !IsRelevant(title, query) {
      return None;
    }
    var url := Some(searchUrl);
    if "a" in c.found {
      url := Attr(c.found["a"], "href");
    }
    var image := Some("N/A");
    if "img" in c.found {
      image := Attr(c.found["img"], "src");
    }
    p := Some(MakeProduct(title, price, "N/A", JioMart, url, image));
  }
}
