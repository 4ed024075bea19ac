/** What the extractors see of a results page once the browser is taken
    away: located elements, their text and their attributes. A lookup that
    raises in the browser is a missing map entry here. */
module Page {

  import opened Wrappers

  /** An opaque locator (a CSS selector in the running system). */
  type Selector = string

  /** A located element: its visible text and its attributes. */
  datatype Element = Element(text: string, attributes: map<string, string>)

  /** One listing on a results page: the element each locator finds inside
      it (`find_element`; no entry when the lookup raises) and its whole text. */
  datatype Container = Container(found: map<Selector, Element>, text: string)

  /** A results page: the containers each locator finds (`find_elements`;
      no entry when the lookup raises). */
  datatype Document = Document(found: map<Selector, seq<Container>>)

  /** `get_attribute(name)`, which answers None for a missing attribute. */
  function Attr(e: Element, name: string): Option<string> {
    if name in e.attributes then Some(e.attributes[name]) else None
  }

  /** The elements of the first locator that finds at least `minimum` of them. */
  function FirstQualifying(doc: Document, selectors: seq<Selector>, minimum: nat): (r: seq<Container>)
    ensures r != [] ==> exists i :: 0 <= i < |selectors| && Qualifies(doc, selectors[i], minimum) && r == doc.found[selectors[i]]
  {
    if selectors == [] then []
    else if selectors[0] in doc.found && |doc.found[selectors[0]]| >= minimum then doc.found[selectors[0]]
    else FirstQualifying(doc, selectors[1..], minimum)
  }

  predicate Qualifies(doc: Document, s: Selector, minimum: nat) {
    s in doc.found && |doc.found[s]| >= minimum
  }

  /** Container choice: try the locators in order, skip those that raise,
      and keep the first result with at least `minimum` elements; none means no containers. */
  method ChooseContainers(doc: Document, selectors: seq<Selector>, minimum: nat) returns (containers: seq<Container>)
    ensures containers == FirstQualifying(doc, selectors, minimum)
  {
    containers := [];
    var i := 0;
    while i < |selectors|
      invariant 0 <= i <= |selectors|
      invariant FirstQualifying(doc, selectors, minimum) == FirstQualifying(doc, selectors[i..], minimum)
    {
      assert selectors[i..][1..] == selectors[i + 1..];
      var s := selectors[i];
      if s in doc.found {
        var elements := doc.found[s];
        if |elements| >= minimum {
          containers := elements;
          return;
        }
      }
      i := i + 1;
    }
  }

  /** The chosen containers are those of the first qualifying locator. */
  lemma {:induction false} FirstQualifyingIsFirst(doc: Document, selectors: seq<Selector>, minimum: nat, i: nat)
    requires i < |selectors| && Qualifies(doc, selectors[i], minimum)
    requires forall j :: 0 <= j < i ==> !Qualifies(doc, selectors[j], minimum)
    ensures FirstQualifying(doc, selectors, minimum) == doc.found[selectors[i]]
    decreases i
  {
    if i > 0 {
      assert !Qualifies(doc, selectors[0], minimum);
      assert forall j :: 0 <= j < i - 1 ==> selectors[1..][j] == selectors[j + 1];
      FirstQualifyingIsFirst(doc, selectors[1..], minimum, i - 1);
    }
  }

  /** No qualifying locator means no containers. */
  lemma {:induction false} FirstQualifyingNone(doc: Document, selectors: seq<Selector>, minimum: nat)
    requires forall i :: 0 <= i < |selectors| ==> !Qualifies(doc, selectors[i], minimum)
    ensures FirstQualifying(doc, selectors, minimum) == []
  {
    if selectors != [] {
      assert !Qualifies(doc, selectors[0], minimum);
      assert forall i :: 0 <= i < |selectors| - 1 ==> selectors[1..][i] == selectors[i + 1];
      FirstQualifyingNone(doc, selectors[1..], minimum);
    }
  }

  /** With a positive minimum, the result is empty only when no locator qualifies. */
  lemma {:induction false} FirstQualifyingEmpty(doc: Document, selectors: seq<Selector>, minimum: nat)
    requires minimum > 0 && FirstQualifying(doc, selectors, minimum) == []
    ensures forall i :: 0 <= i < |selectors| ==> !Qualifies(doc, selectors[i], minimum)
  {
    if selectors != [] {
      FirstQualifyingEmpty(doc, selectors[1..], minimum);
      assert forall i :: 0 <= i < |selectors| - 1 ==> selectors[1..][i] == selectors[i + 1];
    }
  }

  /** Reading a field from one element: None when the read itself raises. */
  type Reader = Element -> Option<string>

  /** A locator whose element is present and readable. */
  predicate Readable(found: map<Selector, Element>, s: Selector, read: Reader) {
    s in found && read(found[s]).Some?
  }

  /** The value read through a readable locator. */
  function ReadAt(found: map<Selector, Element>, s: Selector, read: Reader): string
    requires Readable(found, s, read)
  {
    read(found[s]).value
  }

  predicate Accepts(found: map<Selector, Element>, s: Selector, read: Reader, ok: string -> bool) {
    Readable(found, s, read) && ok(ReadAt(found, s, read))
  }

  /** The field loop `for selector in ...: try: v = read(...); if ok(v): break`:
      each readable locator overwrites the field, and the first accepted value stops the scan. */
  function KeepLast(found: map<Selector, Element>, selectors: seq<Selector>, read: Reader,
                    ok: string -> bool, current: string): (r: string)
    ensures r == current || exists i :: 0 <= i < |selectors| && Readable(found, selectors[i], read) && r == ReadAt(found, selectors[i], read)
  {
    if selectors == [] then current
    else if Readable(found, selectors[0], read) then
      var v := ReadAt(found, selectors[0], read);
      if ok(v) then v else KeepLast(found, selectors[1..], read, ok, v)
    else KeepLast(found, selectors[1..], read, ok, current)
  }

  /** The element of the first locator whose value is accepted. */
  function FirstAccepted(found: map<Selector, Element>, selectors: seq<Selector>, read: Reader,
                         ok: string -> bool): (r: Option<Element>)
    ensures r.Some? ==> exists i :: 0 <= i < |selectors| && Accepts(found, selectors[i], read, ok) && r.value == found[selectors[i]]
    ensures r.None? ==> forall i :: 0 <= i < |selectors| ==> !Accepts(found, selectors[i], read, ok)
  {
    if selectors == [] then None
    else if Accepts(found, selectors[0], read, ok) then Some(found[selectors[0]])
    else FirstAccepted(found, selectors[1..], read, ok)
  }

  /** One field's selector loop over a container: `value` is what the field
      holds when the loop ends and `hit` is the element that stopped it, if any. */
  method ScanField(found: map<Selector, Element>, selectors: seq<Selector>, read: Reader,
                   ok: string -> bool, initial: string) returns (value: string, hit: Option<Element>)
    ensures value == KeepLast(found, selectors, read, ok, initial)
    ensures hit == FirstAccepted(found, selectors, read, ok)
  {
    value, hit := initial, None;
    var i := 0;
    while i < |selectors|
      invariant 0 <= i <= |selectors|
      invariant KeepLast(found, selectors, read, ok, initial) == KeepLast(found, selectors[i..], read, ok, value)
      invariant FirstAccepted(found, selectors, read, ok) == FirstAccepted(found, selectors[i..], read, ok)
    {
      assert selectors[i..][1..] == selectors[i + 1..];
      var s := selectors[i];
      if s in found {
        var r := read(found[s]);
        if r.Some? {
          value := r.value;
          if ok(value) {
            hit := Some(found[s]);
            return;
          }
        }
      }
      i := i + 1;
    }
  }

  /** When some locator's value is accepted, the scan stops at the first such
      locator: the field holds that value and the hit is that element. */
  lemma {:induction false} ScanStopsAtFirstAccepted(found: map<Selector, Element>, selectors: seq<Selector>,
                                                     read: Reader, ok: string -> bool, initial: string, i: nat)
    requires i < |selectors| && Accepts(found, selectors[i], read, ok)
    requires forall j :: 0 <= j < i ==> !Accepts(found, selectors[j], read, ok)
    ensures KeepLast(found, selectors, read, ok, initial) == ReadAt(found, selectors[i], read)
    ensures FirstAccepted(found, selectors, read, ok) == Some(found[selectors[i]])
  {
    if i > 0 {
      var next := if Readable(found, selectors[0], read) then ReadAt(found, selectors[0], read) else initial;
      assert forall j :: 0 <= j < i - 1 ==> selectors[1..][j] == selectors[j + 1];
      ScanStopsAtFirstAccepted(found, selectors[1..], read, ok, next, i - 1);
    }
  }

  /** When no value is accepted there is no hit, and the field holds the value
      read through the last readable locator, or its initial value if none is readable. */
  lemma {:induction false} ScanKeepsLastRead(found: map<Selector, Element>, selectors: seq<Selector>,
                                              read: Reader, ok: string -> bool, initial: string)
    requires forall j :: 0 <= j < |selectors| ==> !Accepts(found, selectors[j], read, ok)
    ensures FirstAccepted(found, selectors, read, ok) == None
    ensures (forall j :: 0 <= j < |selectors| ==> !Readable(found, selectors[j], read)) ==>
      KeepLast(found, selectors, read, ok, initial) == initial
    ensures forall i | 0 <= i < |selectors| && Readable(found, selectors[i], read) &&
                       (forall j :: i < j < |selectors| ==> !Readable(found, selectors[j], read)) ::
      KeepLast(found, selectors, read, ok, initial) == ReadAt(found, selectors[i], read)
  {
    if selectors != [] {
      var next := if Readable(found, selectors[0], read) then ReadAt(found, selectors[0], read) else initial;
      assert forall j :: 0 <= j < |selectors| - 1 ==> selectors[1..][j] == selectors[j + 1];
      ScanKeepsLastRead(found, selectors[1..], read, ok, next);
      forall i | 0 <= i < |selectors| && Readable(found, selectors[i], read) &&
        (forall j :: i < j < |selectors| ==> !Readable(found, selectors[j], read))
        ensures KeepLast(found, selectors, read, ok, initial) == ReadAt(found, selectors[i], read)
      {
        if i > 0 {
          assert selectors[1..][i - 1] == selectors[i];
        } else {
          assert forall j :: 0 <= j < |selectors[1..]| ==> !Readable(found, selectors[1..][j], read);
        }
      }
    }
  }

  /** When the scan stops at an element, the field holds the value read from it, and that value was accepted. */
  lemma {:induction false} ScanValueOfHit(found: map<Selector, Element>, selectors: seq<Selector>,
                                          read: Reader, ok: string -> bool, initial: string)
    requires FirstAccepted(found, selectors, read, ok).Some?
    ensures read(FirstAccepted(found, selectors, read, ok).value).Some?
    ensures KeepLast(found, selectors, read, ok, initial) == read(FirstAccepted(found, selectors, read, ok).value).value
    ensures ok(KeepLast(found, selectors, read, ok, initial))
  {
    if !Accepts(found, selectors[0], read, ok) {
      var next := if Readable(found, selectors[0], read) then ReadAt(found, selectors[0], read) else initial;
      ScanValueOfHit(found, selectors[1..], read, ok, next);
    }
  }
}
