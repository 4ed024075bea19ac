/** `auto_categorize_product`: the keyword classifier that labels every record. */
module Category {

  import opened Text

  /** The fifteen category labels; `GeneralProducts` is the fallback. */
  datatype Category =
    | MobilePhones | Laptops | Television | AudioAccessories | MobileAccessories
    | Wearables | Cameras | Apparel | Bottoms | Footwear
    | KitchenAppliances | Furniture | PersonalCare | BeautyCosmetics | GeneralProducts

  /** The label a record carries in its `category` field. */
  function Label(c: Category): string {
    match c
    case MobilePhones => "Mobile Phones"
    case Laptops => "Laptops"
    case Television => "Television"
    case AudioAccessories => "Audio Accessories"
    case MobileAccessories => "Mobile Accessories"
    case Wearables => "Wearables"
    case Cameras => "Cameras"
    case Apparel => "Apparel"
    case Bottoms => "Bottoms"
    case Footwear => "Footwear"
    case KitchenAppliances => "Kitchen Appliances"
    case Furniture => "Furniture"
    case PersonalCare => "Personal Care"
    case BeautyCosmetics => "Beauty & Cosmetics"
    case GeneralProducts => "General Products"
  }

  /** Distinct categories carry distinct labels. */
  lemma LabelInjective(c: Category, d: Category)
    requires Label(c) == Label(d)
    ensures c == d
  {
  }

  const MobilePhoneKeywords: seq<string> := ["phone", "mobile", "iphone", "samsung", "oneplus", "pixel"]

  /** The keyword table, in the order in which the categories are tried. */
  const Table: seq<(Category, seq<string>)> := [
    (MobilePhones, MobilePhoneKeywords),
    (Laptops, ["laptop", "notebook", "macbook", "chromebook"]),
    (Television, ["tv", "television", "smart tv", "led tv"]),
    (AudioAccessories, ["headphone", "earphone", "earbud", "airpods"]),
    (MobileAccessories, ["charger", "cable", "adapter", "power bank"]),
    (Wearables, ["watch", "smartwatch", "fitness band"]),
    (Cameras, ["camera", "dslr", "gopro"]),
    (Apparel, ["shirt", "t-shirt", "tshirt", "polo", "top", "blouse", "hoodie", "sweatshirt"]),
    (Bottoms, ["jeans", "trouser", "pant", "cargo", "chino"]),
    (Footwear, ["shoe", "sneaker", "boot", "sandal", "slipper", "footwear"]),
    (KitchenAppliances, ["mixer", "grinder", "blender", "juicer", "cooker"]),
    (Furniture, ["sofa", "chair", "table", "bed", "mattress"]),
    (PersonalCare, ["shampoo", "conditioner", "hair oil", "soap", "facewash"]),
    (BeautyCosmetics, ["makeup", "lipstick", "kajal", "mascara", "foundation"])
  ]

  /** The first category of `table` with a keyword occurring in `t`. */
  function FirstMatch(table: seq<(Category, seq<string>)>, t: string): (r: Category)
    ensures (forall j :: 0 <= j < |table| ==> !AnyIn(table[j].1, t)) ==> r == GeneralProducts
    ensures r != GeneralProducts ==> exists i :: 0 <= i < |table| && table[i].0 == r && AnyIn(table[i].1, t)
  {
    if table == [] then GeneralProducts
    else if AnyIn(table[0].1, t) then table[0].0
    else FirstMatch(table[1..], t)
  }

  /** BACKEND/app.py `auto_categorize_product`. */
  function AutoCategorize(title: string): (r: Category)
    ensures r != GeneralProducts ==> exists i :: 0 <= i < |Table| && Table[i].0 == r && AnyIn(Table[i].1, Lower(title))
  {
    FirstMatch(Table, Lower(title))
  }

  predicate NoFallback(table: seq<(Category, seq<string>)>) {
    forall i :: 0 <= i < |table| ==> table[i].0 != GeneralProducts
  }

  /** The first entry whose keywords match decides, and only then. */
  lemma {:induction false} FirstMatchIsFirst(table: seq<(Category, seq<string>)>, t: string, i: nat)
    requires i < |table|
    ensures FirstMatch(table, t) == table[i].0 <== AnyIn(table[i].1, t) && forall j :: 0 <= j < i ==> !AnyIn(table[j].1, t)
  {
    if i > 0 && !AnyIn(table[0].1, t) {
      FirstMatchIsFirst(table[1..], t, i - 1);
    }
  }

  /** Whatever is returned comes from the first entry that matches, or is the fallback when none does. */
  lemma {:induction false} FirstMatchFound(table: seq<(Category, seq<string>)>, t: string)
    requires NoFallback(table)
    ensures FirstMatch(table, t) == GeneralProducts <==> forall j :: 0 <= j < |table| ==> !AnyIn(table[j].1, t)
    ensures FirstMatch(table, t) != GeneralProducts ==>
      exists i :: 0 <= i < |table| && table[i].0 == FirstMatch(table, t) && AnyIn(table[i].1, t) &&
                  forall j :: 0 <= j < i ==> !AnyIn(table[j].1, t)
  {
    if table != [] && !AnyIn(table[0].1, t) {
      FirstMatchFound(table[1..], t);
      var r := FirstMatch(table, t);
      if r != GeneralProducts {
        var i :| 0 <= i < |table[1..]| && table[1..][i].0 == r && AnyIn(table[1..][i].1, t) &&
                 forall j :: 0 <= j < i ==> !AnyIn(table[1..][j].1, t);
        assert table[i + 1].0 == r && AnyIn(table[i + 1].1, t);
        forall j | 0 <= j < i + 1 ensures !AnyIn(table[j].1, t) {
          if j > 0 { assert table[j] == table[1..][j - 1]; }
        }
      }
    }
  }

  /** A title is "General Products" exactly when no keyword of the table occurs in it, case-insensitively. */
  lemma CategorizeFallback(title: string)
    ensures AutoCategorize(title) == GeneralProducts <==>
      forall j :: 0 <= j < |Table| ==> !AnyIn(Table[j].1, Lower(title))
  {
    FirstMatchFound(Table, Lower(title));
  }

  /** Otherwise the label is that of the first table entry with a matching keyword. */
  lemma CategorizeFirstMatch(title: string, i: nat)
    requires i < |Table| && AnyIn(Table[i].1, Lower(title))
    requires forall j :: 0 <= j < i ==> !AnyIn(Table[j].1, Lower(title))
    ensures AutoCategorize(title) == Table[i].0
  {
    FirstMatchIsFirst(Table, Lower(title), i);
  }

  /** Any title containing a phone keyword is a mobile phone, whatever else it names. */
  lemma PhoneKeywordWins(title: string)
    requires AnyIn(MobilePhoneKeywords, Lower(title))
    ensures AutoCategorize(title) == MobilePhones
  {
  }

  /** Hence "headphone" titles land in "Mobile Phones", not in "Audio Accessories". */
  lemma HeadphoneIsPhone(title: string)
    requires Lower(title) == "headphone"
    ensures AutoCategorize(title) == MobilePhones
  {
    assert OccursAt(Lower(title), "phone", 4);
    assert "phone" in MobilePhoneKeywords && Contains(Lower(title), "phone");
    PhoneKeywordWins(title);
  }

  /** Classification ignores letter case. */
  lemma CategorizeIgnoresCase(title: string)
    ensures AutoCategorize(Lower(title)) == AutoCategorize(title)
  {
    LowerIdempotent(title);
  }

  lemma ShoesRow0(t: string)
    requires t == "nike running shoes"
    ensures !AnyIn(Table[0].1, t)
  {
    NoneOccurs(Table[0].1, t, [0, 0, 1, 1, 3, 0]);
  }

  lemma ShoesRow1(t: string)
    requires t == "nike running shoes"
    ensures !AnyIn(Table[1].1, t)
  {
    NoneOccurs(Table[1].1, t, [0, 2, 0, 0]);
  }

  lemma ShoesRow2(t: string)
    requires t == "nike running shoes"
    ensures !AnyIn(Table[2].1, t)
  {
    NoneOccurs(Table[2].1, t, [0, 0, 1, 0]);
  }

  lemma ShoesRow3(t: string)
    requires t == "nike running shoes"
    ensures !AnyIn(Table[3].1, t)
  {
    NoneOccurs(Table[3].1, t, [2, 1, 1, 0]);
  }

  lemma ShoesRow4(t: string)
    requires t == "nike running shoes"
    ensures !AnyIn(Table[4].1, t)
  {
    NoneOccurs(Table[4].1, t, [0, 0, 0, 0]);
  }

  lemma ShoesRow5(t: string)
    requires t == "nike running shoes"
    ensures !AnyIn(Table[5].1, t)
  {
    NoneOccurs(Table[5].1, t, [0, 1, 0]);
  }

  lemma ShoesRow6(t: string)
    requires t == "nike running shoes"
    ensures !AnyIn(Table[6].1, t)
  {
    NoneOccurs(Table[6].1, t, [0, 0, 2]);
  }

  lemma ShoesRow7(t: string)
    requires t == "nike running shoes"
    ensures !AnyIn(Table[7].1, t)
  {
    NoneOccurs(Table[7].1, t, [4, 0, 0, 0, 0, 0, 3, 1]);
  }

  lemma ShoesRow8(t: string)
    requires t == "nike running shoes"
    ensures !AnyIn(Table[8].1, t)
  {
    NoneOccurs(Table[8].1, t, [0, 0, 0, 0, 0]);
  }
  /** "Nike Running Shoes" is footwear. */
  lemma FootwearExample(title: string)
    requires title == "Nike Running Shoes"
    ensures AutoCategorize(title) == Footwear
  {
    assert Lower(title) == "nike running shoes";
    var t := Lower(title);
    ShoesRow0(t);
    ShoesRow1(t);
    ShoesRow2(t);
    ShoesRow3(t);
    ShoesRow4(t);
    ShoesRow5(t);
    ShoesRow6(t);
    ShoesRow7(t);
    ShoesRow8(t);
    assert OccursAt(t, "shoe", 13) && "shoe" in Table[9].1;
    CategorizeFirstMatch(title, 9);
  }

  lemma GadgetRow0(t: string)
    requires t == "unknown gadget xyz"
    ensures !AnyIn(Table[0].1, t)
  {
    NoneOccurs(Table[0].1, t, [0, 0, 0, 0, 3, 0]);
  }

  lemma GadgetRow1(t: string)
    requires t == "unknown gadget xyz"
    ensures !AnyIn(Table[1].1, t)
  {
    NoneOccurs(Table[1].1, t, [0, 4, 0, 0]);
  }

  lemma GadgetRow2(t: string)
    requires t == "unknown gadget xyz"
    ensures !AnyIn(Table[2].1, t)
  {
    NoneOccurs(Table[2].1, t, [1, 2, 0, 0]);
  }

  lemma GadgetRow3(t: string)
    requires t == "unknown gadget xyz"
    ensures !AnyIn(Table[3].1, t)
  {
    NoneOccurs(Table[3].1, t, [0, 2, 2, 1]);
  }

  lemma GadgetRow4(t: string)
    requires t == "unknown gadget xyz"
    ensures !AnyIn(Table[4].1, t)
  {
    NoneOccurs(Table[4].1, t, [0, 0, 3, 0]);
  }

  lemma GadgetRow5(t: string)
    requires t == "unknown gadget xyz"
    ensures !AnyIn(Table[5].1, t)
  {
    NoneOccurs(Table[5].1, t, [3, 0, 0]);
  }

  lemma GadgetRow6(t: string)
    requires t == "unknown gadget xyz"
    ensures !AnyIn(Table[6].1, t)
  {
    NoneOccurs(Table[6].1, t, [0, 1, 2]);
  }

  lemma GadgetRow7(t: string)
    requires t == "unknown gadget xyz"
    ensures !AnyIn(Table[7].1, t)
  {
    NoneOccurs(Table[7].1, t, [0, 1, 1, 0, 2, 0, 0, 0]);
  }

  lemma GadgetRow8(t: string)
    requires t == "unknown gadget xyz"
    ensures !AnyIn(Table[8].1, t)
  {
    NoneOccurs(Table[8].1, t, [0, 1, 0, 0, 0]);
  }

  lemma GadgetRow9(t: string)
    requires t == "unknown gadget xyz"
    ensures !AnyIn(Table[9].1, t)
  {
    NoneOccurs(Table[9].1, t, [0, 0, 0, 0, 0, 0]);
  }

  lemma GadgetRow10(t: string)
    requires t == "unknown gadget xyz"
    ensures !AnyIn(Table[10].1, t)
  {
    NoneOccurs(Table[10].1, t, [0, 1, 0, 0, 0]);
  }

  lemma GadgetRow11(t: string)
    requires t == "unknown gadget xyz"
    ensures !AnyIn(Table[11].1, t)
  {
    NoneOccurs(Table[11].1, t, [0, 0, 2, 0, 0]);
  }

  lemma GadgetRow12(t: string)
    requires t == "unknown gadget xyz"
    ensures !AnyIn(Table[12].1, t)
  {
    NoneOccurs(Table[12].1, t, [0, 0, 0, 0, 0]);
  }

  lemma GadgetRow13(t: string)
    requires t == "unknown gadget xyz"
    ensures !AnyIn(Table[13].1, t)
  {
    NoneOccurs(Table[13].1, t, [0, 0, 2, 0, 0]);
  }

  /** "Unknown Gadget XYZ" names no keyword of any row, so it is a general product. */
  lemma UnknownGadgetExample(title: string)
    requires title == "Unknown Gadget XYZ"
    ensures AutoCategorize(title) == GeneralProducts
  {
    assert Lower(title) == "unknown gadget xyz";
    var t := Lower(title);
    GadgetRow0(t);
    GadgetRow1(t);
    GadgetRow2(t);
    GadgetRow3(t);
    GadgetRow4(t);
    GadgetRow5(t);
    GadgetRow6(t);
    GadgetRow7(t);
    GadgetRow8(t);
    GadgetRow9(t);
    GadgetRow10(t);
    GadgetRow11(t);
    GadgetRow12(t);
    GadgetRow13(t);
    forall j | 0 <= j < |Table| ensures !AnyIn(Table[j].1, t) {
      assert j < 14;
    }
    CategorizeFallback(title);
  }
}
