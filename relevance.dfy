/** `is_relevant_product`: the filter every extractor applies to a title
    before it emits a record. */
module Relevance {

  import opened Text
  import Sequences

  /** Query terms that mark a search for a main device. */
  const DeviceKeywords: seq<string> := ["iphone", "phone", "mobile", "samsung", "pixel", "oneplus"]

  /** Title terms that mark an accessory listing. */
  const AccessoryKeywords: seq<string> :=
    ["cover", "case", "protector", "screen guard", "tempered glass", "pouch", "skin"]

  const StopWords: set<string> := {"for", "the", "a", "an", "in", "on", "at", "to", "and", "or", "with"}

  /** A query word that takes part in matching: longer than two characters and not a stop word. */
  predicate Significant(w: string) {
    |w| > 2 && w !in StopWords
  }

  /** `[w for w in ws if len(w) > 2 and w not in stop_words]`. */
  function SignificantWords(ws: seq<string>): (r: seq<string>)
    ensures r == Sequences.Filter(ws, Significant)
    ensures |r| <= |ws|
    ensures forall w :: w in r <==> w in ws && Significant(w)
  {
    if ws == [] then []
    else (if Significant(ws[0]) then [ws[0]] else []) + SignificantWords(ws[1..])
  }

  /** The significant words of a query, duplicates kept, in query order. */
  function QueryWords(query: string): seq<string> {
    SignificantWords(Words(Lower(query)))
  }

  /** `sum(1 for w in ws if w in title)`: the number of query words, repeats included,
      that occur in the title. */
  function MatchCount(ws: seq<string>, title: string): (m: nat)
    ensures m == |Sequences.Filter(ws, InTitle(title))|
    ensures m <= |ws|
  {
    if ws == [] then 0 else (if Contains(title, ws[0]) then 1 else 0) + MatchCount(ws[1..], title)
  }

  /** The significant words are the query's words filtered in order, so each one
      is kept as often as it occurs; `len(query_words)` counts those repeats. */
  lemma SignificantWordsCounted(ws: seq<string>)
    ensures forall w :: multiset(SignificantWords(ws))[w] == if Significant(w) then multiset(ws)[w] else 0
  {
    Sequences.FilterMultiset(ws, Significant);
  }

  /** The test `word in title_lower` as a predicate on query words. */
  function InTitle(title: string): string -> bool {
    w => Contains(title, w)
  }

  /** A device search whose result title names an accessory. */
  predicate AccessoryListing(title: string, query: string) {
    AnyIn(DeviceKeywords, Lower(query)) && AnyIn(AccessoryKeywords, Lower(title))
  }

  /** BACKEND/app.py `is_relevant_product`. The comparison
      `match_count >= len(query_words) / 2` is on floats; for whole numbers it
      is `2 * match_count >= len(query_words)`. */
  predicate IsRelevant(title: string, query: string)
    ensures |title| < 3 ==> !IsRelevant(title, query)
    ensures AccessoryListing(title, query) ==> !IsRelevant(title, query)
    ensures QueryWords(query) == [] ==> !IsRelevant(title, query)
    ensures |title| >= 3 && !AccessoryListing(title, query) && QueryWords(query) != [] ==>
      (IsRelevant(title, query) <==> 2 * MatchCount(QueryWords(query), Lower(title)) >= |QueryWords(query)|)
  {
    if |title| < 3 then false
    else if AccessoryListing(title, query) then false
    else
      var ws := QueryWords(query);
      if ws == [] then false else 2 * MatchCount(ws, Lower(title)) >= |ws|
  }

  lemma {:induction false} MatchCountAll(ws: seq<string>, title: string)
    requires forall w :: w in ws ==> Contains(title, w)
    ensures MatchCount(ws, title) == |ws|
  {
    if ws != [] {
      MatchCountAll(ws[1..], title);
    }
  }

  lemma {:induction false} MatchCountNone(ws: seq<string>, title: string)
    requires forall w :: w in ws ==> !Contains(title, w)
    ensures MatchCount(ws, title) == 0
  {
    if ws != [] {
      MatchCountNone(ws[1..], title);
    }
  }

  lemma {:induction false} MatchCountMonotone(ws: seq<string>, title: string, title': string)
    requires Contains(title', title)
    ensures MatchCount(ws, title) <= MatchCount(ws, title')
  {
    if ws != [] {
      MatchCountMonotone(ws[1..], title, title');
      if Contains(title, ws[0]) {
        ContainsTransitive(ws[0], title, title');
      }
    }
  }

  /** A title that is long enough, names no accessory for a device search,
      and contains every significant query word is relevant. */
  lemma FullMatchRelevant(title: string, query: string)
    requires |title| >= 3 && !AccessoryListing(title, query) && QueryWords(query) != []
    requires forall w :: w in QueryWords(query) ==> Contains(Lower(title), w)
    ensures IsRelevant(title, query)
  {
    MatchCountAll(QueryWords(query), Lower(title));
  }

  /** A title that contains none of the significant query words is never relevant. */
  lemma NoMatchIrrelevant(title: string, query: string)
    requires forall w :: w in QueryWords(query) ==> !Contains(Lower(title), w)
    ensures !IsRelevant(title, query)
  {
    MatchCountNone(QueryWords(query), Lower(title));
  }

  /** Relevance survives extending a title, unless the longer title names an accessory. */
  lemma RelevanceExtends(title: string, title': string, query: string)
    requires IsRelevant(title, query)
    requires Contains(Lower(title'), Lower(title))
    requires !AccessoryListing(title', query)
    ensures IsRelevant(title', query)
  {
    MatchCountMonotone(QueryWords(query), Lower(title), Lower(title'));
  }

  /** Relevance ignores letter case in both the title and the query. */
  lemma RelevanceIgnoresCase(title: string, query: string)
    ensures IsRelevant(Lower(title), Lower(query)) == IsRelevant(title, query)
  {
    LowerIdempotent(title);
    LowerIdempotent(query);
  }

  lemma AccessorySample()
    ensures AccessoryListing("iPhone 15 Pro Case", "iphone 15")
  {
    var title := "iPhone 15 Pro Case";
    var t := Lower(title);
    assert t[14..18] == "case" by {
      assert title[14] == 'C' && title[15] == 'a' && title[16] == 's' && title[17] == 'e';
    }
    assert OccursAt(t, "case", 14);
    var query := "iphone 15";
    var q := Lower(query);
    assert q[0..6] == "iphone" by {
      assert query[0..6] == "iphone";
    }
    assert OccursAt(q, "iphone", 0);
    assert "iphone" in DeviceKeywords && "case" in AccessoryKeywords;
  }

  /** The accessory title "iPhone 15 Pro Case" is rejected for the query "iphone 15". */
  lemma AccessoryExample()
    ensures !IsRelevant("iPhone 15 Pro Case", "iphone 15")
  {
    AccessorySample();
  }

  lemma TwoWords(a: string, b: string)
    requires a != [] && b != []
    requires forall i :: 0 <= i < |a| ==> !IsSpace(a[i])
    requires forall i :: 0 <= i < |b| ==> !IsSpace(b[i])
    ensures Words(a + " " + b) == [a, b]
  {
    WordsSplitAt(a, ' ', b);
    WordsOfWord(a);
    WordsOfWord(b);
    assert a + " " + b == a + [' '] + b;
  }

  lemma QuerySample(q: string)
    requires q == "samsung galaxy"
    ensures QueryWords(q) == ["samsung", "galaxy"]
  {
    assert q == "samsung" + " " + "galaxy";
    assert Lower(q) == q;
    TwoWords("samsung", "galaxy");
    var ws := ["samsung", "galaxy"];
    assert Significant(ws[0]) && Significant(ws[1]);
    assert ws[1..] == ["galaxy"] && ws[1..][1..] == [];
  }

  lemma NoAccessorySample(t: string)
    requires t == Lower("Samsung Galaxy S23 5G")
    ensures !AnyIn(AccessoryKeywords, t)
  {
    var title := "Samsung Galaxy S23 5G";
    assert forall i :: 0 <= i < |t| ==> t[i] != 'c' && t[i] != 'p' && t[i] != 't' && t[i] != 'k';
    NotContainsMissingChar(t, "cover", 0);
    NotContainsMissingChar(t, "case", 0);
    NotContainsMissingChar(t, "protector", 0);
    NotContainsMissingChar(t, "screen guard", 1);
    NotContainsMissingChar(t, "tempered glass", 0);
    NotContainsMissingChar(t, "pouch", 0);
    NotContainsMissingChar(t, "skin", 1);
  }

  lemma LowerInitials()
    ensures LowerChar('S') == 's' && LowerChar('G') == 'g'
  {
  }

  lemma SampleTitleWords(t: string)
    requires t == Lower("Samsung Galaxy S23 5G")
    ensures Contains(t, "samsung") && Contains(t, "galaxy")
  {
    var title := "Samsung Galaxy S23 5G";
    LowerInitials();
    assert t[..7] == "samsung" by {
      assert t[0] == LowerChar(title[0]) && title[0] == 'S';
      forall i | 1 <= i < 7 ensures t[i] == title[i] {
      }
    }
    assert t[8..14] == "galaxy" by {
      assert t[8] == LowerChar(title[8]) && title[8] == 'G';
      forall i | 9 <= i < 14 ensures t[i] == title[i] {
      }
    }
    assert OccursAt(t, "samsung", 0) && OccursAt(t, "galaxy", 8);
  }

  /** "Samsung Galaxy S23 5G" matches both significant words of "samsung galaxy". */
  lemma DeviceExample(title: string, query: string)
    requires title == "Samsung Galaxy S23 5G" && query == "samsung galaxy"
    ensures IsRelevant(title, query)
  {
    var t := Lower(title);
    NoAccessorySample(t);
    QuerySample(query);
    SampleTitleWords(t);
    assert forall w :: w in QueryWords(query) ==> Contains(t, w);
    FullMatchRelevant(title, query);
  }
}
