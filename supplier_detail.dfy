/** The supplier detail panel (Models/SupplierDetailViewModel.cs): the
    primary contact derived from the supplier's own columns, the avatar
    initials and colours, one display row per supplied product with its
    stock status and image URL, and the currency symbol. */
module SupplierDetail {
  import opened Wrappers
  import opened Text
  import opened Linq
  import opened Entities

  // ------------------------------------------------------------ stock status

  const OutOfStock := "Out of Stock"
  const Danger := "Danger"
  const Low := "Low"
  const Normal := "Normal"
  const Overstocked := "Overstocked"

  /** `CalculateStockStatus`: the band a quantity on hand falls into. */
  function CalculateStockStatus(quantity: Option<int>): (r: string)
    ensures r == OutOfStock <==> quantity.None? || quantity.value <= 0
    ensures r == Danger <==> quantity.Some? && 1 <= quantity.value <= 20
    ensures r == Low <==> quantity.Some? && 21 <= quantity.value <= 30
    ensures r == Normal <==> quantity.Some? && 31 <= quantity.value <= 50
    ensures r == Overstocked <==> quantity.Some? && quantity.value > 50
  {
    if quantity.None? || quantity.value <= 0 then OutOfStock
    else if quantity.value <= 20 then Danger
    else if quantity.value <= 30 then Low
    else if quantity.value <= 50 then Normal
    else Overstocked
  }

  /** The position of a status in the scale from empty to overstocked. */
  function StatusRank(status: string): nat {
    if status == OutOfStock then 0
    else if status == Danger then 1
    else if status == Low then 2
    else if status == Normal then 3
    else 4
  }

  /** More stock never gives a lower band. */
  lemma StockStatusMonotonic(a: int, b: int)
    requires a <= b
    ensures StatusRank(CalculateStockStatus(Some(a))) <= StatusRank(CalculateStockStatus(Some(b)))
  {
  }

  // ------------------------------------------------------------ avatars

  /** `s[k]` is the first character of `s` that is not white space. */
  predicate FirstNonBlankAt(s: string, k: int) {
    0 <= k < |s| && AllWhiteSpace(s[..k]) && !IsWhiteSpace(s[k])
  }

  lemma TrimmedHead(s: string)
    requires !AllWhiteSpace(s)
    ensures FirstNonBlankAt(s, |s| - |TrimStart(s)|)
    ensures Trim(s)[0] == s[|s| - |TrimStart(s)|]
  {
    TrimStartBlank(s);
  }

  /** `GetInitial`: the upper-cased first non-blank character of a non-blank
      name, as a one-character string; the fallback otherwise. */
  function GetInitial(name: Option<string>, fallback: string): (r: string)
    ensures IsNullOrWhiteSpace(name) ==> r == fallback
    ensures !IsNullOrWhiteSpace(name) ==>
      |r| == 1 && !('a' <= r[0] <= 'z') &&
      exists k :: FirstNonBlankAt(name.value, k) && r[0] == UpperChar(name.value[k])
  {
    if IsNullOrWhiteSpace(name) then fallback
    else
      TrimmedHead(name.value);
      ToUpper(Trim(name.value)[..1])
  }

  /** The colour of the "no initial" avatar. */
  const NoInitialColor := "#cccccc"

  /** The 18 avatar colours. */
  const Palette: seq<string> := [
    "#4A90E2", "#50E3C2", "#F5A623", "#BD10E0", "#9013FE", "#D0021B",
    "#F8E71C", "#7ED321", "#B8E986", "#417505", "#BF5AF2", "#FF9500",
    "#FFCC00", "#FF3B30", "#007AFF", "#34C759", "#5856D6", "#FF2D55"]

  predicate NoInitial(initial: string) {
    IsNullOrWhiteSpace(Some(initial)) || initial == "?"
  }

  /** `GetColorForInitial`: grey for a blank or "?" initial; otherwise the
      palette colour picked by the first character's code modulo 18. */
  function GetColorForInitial(initial: string): (r: string)
    ensures NoInitial(initial) ==> r == NoInitialColor
    ensures !NoInitial(initial) ==> r == Palette[initial[0] as int % |Palette|]
    ensures r in Palette <==> !NoInitial(initial)
  {
    assert NoInitialColor !in Palette;
    if NoInitial(initial) then NoInitialColor
    else Palette[initial[0] as int % |Palette|]
  }

  /** Initials that start with the same character get the same colour, and
      so do characters whose codes are 18 apart. */
  lemma ColorDependsOnCodeModulo(a: string, b: string)
    requires !NoInitial(a) && !NoInitial(b)
    requires a[0] as int % 18 == b[0] as int % 18
    ensures GetColorForInitial(a) == GetColorForInitial(b)
  {
  }

  /** The primary contact has a name to draw an initial from. */
  predicate HasNamedContact(primary: Option<SupplierContact>) {
    primary.Some? && !IsNullOrWhiteSpace(primary.value.contactPersonName)
  }

  /** The primary contact's avatar: its initial and colour when it has a
      non-blank name, "?" in grey otherwise. */
  function ContactAvatar(primary: Option<SupplierContact>): (r: (string, string))
    ensures !HasNamedContact(primary) ==> r == ("?", NoInitialColor)
    ensures HasNamedContact(primary) ==>
      r.0 == GetInitial(primary.value.contactPersonName, "C") && r.1 == GetColorForInitial(r.0)
  {
    if HasNamedContact(primary) then
      var initial := GetInitial(primary.value.contactPersonName, "C");
      (initial, GetColorForInitial(initial))
    else ("?", GetColorForInitial("?"))
  }

  /** A named contact's avatar is one letter in a palette colour, unless that
      letter is itself "?". */
  lemma ContactAvatarColor(primary: Option<SupplierContact>)
    requires HasNamedContact(primary)
    ensures |ContactAvatar(primary).0| == 1
    ensures ContactAvatar(primary).1 in Palette <==> ContactAvatar(primary).0 != "?"
  {
    var initial := ContactAvatar(primary).0;
    assert !IsWhiteSpace(UpperChar(initial[0]));
    assert !IsNullOrWhiteSpace(Some(initial));
  }

  // ------------------------------------------------------------ currency

  /** No lower-case ASCII letter and no parenthesis occurs in `s`. */
  predicate NormalizedChars(s: string) {
    forall c :: c in s ==> !('a' <= c <= 'z') && c != '(' && c != ')'
  }

  /** The currency code upper-cased, with "PESO", "(" and ")" removed and the
      surrounding white space trimmed. */
  function NormalizeCurrency(code: string): (r: string)
    ensures NormalizedChars(r)
    ensures r == [] || (!IsWhiteSpace(r[0]) && !IsWhiteSpace(r[|r| - 1]))
    ensures !Contains(ToUpper(code), "PESO") && '(' !in code && ')' !in code ==> r == Trim(ToUpper(code))
  {
    var noPeso := ReplaceAll(ToUpper(code), "PESO", "");
    var noOpen := ReplaceAll(noPeso, "(", "");
    var noClose := ReplaceAll(noOpen, ")", "");
    NormalizeSteps(code, noPeso, noOpen, noClose);
    NormalizeUndecorated(code, noPeso, noOpen, noClose);
    Trim(noClose)
  }

  /** A code without "PESO" and parentheses passes the removals unchanged. */
  lemma NormalizeUndecorated(code: string, noPeso: string, noOpen: string, noClose: string)
    requires noPeso == ReplaceAll(ToUpper(code), "PESO", "")
    requires noOpen == ReplaceAll(noPeso, "(", "")
    requires noClose == ReplaceAll(noOpen, ")", "")
    ensures !Contains(ToUpper(code), "PESO") && '(' !in code && ')' !in code ==> noClose == ToUpper(code)
  {
    if !Contains(ToUpper(code), "PESO") && '(' !in code && ')' !in code {
      ToUpperKeepsOut(code, '(');
      ToUpperKeepsOut(code, ')');
      ContainsChar(ToUpper(code), '(');
      ContainsChar(ToUpper(code), ')');
    }
  }

  /** A code followed by a "(Peso)" remark in any letter case normalises like
      the bare code, so "Php (Peso)" is read as "PHP". */
  lemma DecoratedPeso(code: string, remark: string)
    requires !Contains(ToUpper(code), "PESO") && '(' !in code && ')' !in code
    requires ToUpper(remark) == " (PESO)"
    ensures NormalizeCurrency(code + remark) == NormalizeCurrency(code) == Trim(ToUpper(code))
  {
    var upper := ToUpper(code);
    ToUpperAppend(code, remark);
    ToUpperKeepsOut(code, '(');
    ToUpperKeepsOut(code, ')');
    RemarkRemoved(upper);
    TrimBlankTail(upper, ' ');
  }

  /** The three removals turn `upper + " (PESO)"` into `upper + " "`. */
  lemma RemarkRemoved(upper: string)
    requires !Contains(upper, "PESO") && '(' !in upper && ')' !in upper
    ensures ReplaceAll(ReplaceAll(ReplaceAll(upper + " (PESO)", "PESO", ""), "(", ""), ")", "") == upper + [' ']
  {
    PesoRemoved(upper);
    OpenRemoved(upper);
    CloseRemoved(upper);
  }

  lemma PesoRemoved(upper: string)
    requires !Contains(upper, "PESO")
    ensures ReplaceAll(upper + " (PESO)", "PESO", "") == upper + " ()"
  {
    assert upper + " (PESO)" == upper + " (" + "PESO" + ")";
    ReplaceAfterSeparator(upper, " (", "PESO", "", ")");
    assert ReplaceAll(")", "PESO", "") == ")";
  }

  lemma OpenRemoved(upper: string)
    requires '(' !in upper
    ensures ReplaceAll(upper + " ()", "(", "") == upper + " )"
  {
    ContainsChar(upper, '(');
    ContainsChar(")", '(');
    assert upper + " ()" == upper + " " + "(" + ")";
    ReplaceAfterSeparator(upper, " ", "(", "", ")");
  }

  lemma CloseRemoved(upper: string)
    requires ')' !in upper
    ensures ReplaceAll(upper + " )", ")", "") == upper + " "
  {
    ContainsChar(upper, ')');
    assert upper + " )" == upper + " " + ")" + [];
    ReplaceAfterSeparator(upper, " ", ")", "", []);
  }

  /** Any spelling of "PHP" followed by a "(Peso)" remark in any letter case
      is shown as the peso sign. */
  lemma PhpRemarkSymbol(code: string, remark: string)
    requires ToUpper(code) == "PHP" && '(' !in code && ')' !in code
    requires ToUpper(remark) == " (PESO)"
    ensures GetCurrencySymbol(Some(code + remark)) == "\U{20B1}"
  {
    PhpRemarkNormalized(code, remark);
    assert ToUpper(code)[0] == UpperChar(code[0]) == 'P';
    assert (code + remark)[0] == code[0];
    RecognisedSymbol(code + remark);
  }

  lemma PhpRemarkNormalized(code: string, remark: string)
    requires ToUpper(code) == "PHP" && '(' !in code && ')' !in code
    requires ToUpper(remark) == " (PESO)"
    ensures NormalizeCurrency(code + remark) == "PHP"
  {
    PhpUpper();
    DecoratedPeso(code, remark);
  }

  /** A code that does not start blank and normalises to a known code is
      shown as that code's symbol. */
  lemma RecognisedSymbol(code: string)
    requires code != [] && !IsWhiteSpace(code[0])
    ensures SymbolFor(NormalizeCurrency(code)).Some? ==>
      GetCurrencySymbol(Some(code)) == SymbolFor(NormalizeCurrency(code)).value
  {
  }

  /** "Php (Peso)" is such a code: "Php" upper-cases to "PHP" and has no
      parenthesis, and " (Peso)" upper-cases to the remark. */
  lemma PhpSpelling()
    ensures ToUpper("Php") == "PHP" && '(' !in "Php" && ')' !in "Php"
  {
    assert ToUpper("Php")[1] == UpperChar('h');
  }

  lemma PesoRemarkSpelling()
    ensures ToUpper(" (Peso)") == " (PESO)"
  {
    assert ToUpper(" (Peso)")[2] == UpperChar('P');
  }

  /** "PHP" holds no "PESO" and is already trimmed. */
  lemma PhpUpper()
    ensures !Contains("PHP", "PESO") && Trim("PHP") == "PHP"
  {
    ContainsAt("PHP", "PESO");
    TrimNonBlankEnds("PHP");
  }

  /** Upper-casing leaves no lower-case letter and the two removals leave no
      parenthesis; removing "PESO" adds no character. */
  lemma NormalizeSteps(code: string, noPeso: string, noOpen: string, noClose: string)
    requires noPeso == ReplaceAll(ToUpper(code), "PESO", "")
    requires noOpen == ReplaceAll(noPeso, "(", "")
    requires noClose == ReplaceAll(noOpen, ")", "")
    ensures NormalizedChars(noClose)
  {
    var upper := ToUpper(code);
    forall c | c in upper ensures !('a' <= c <= 'z') {
      var i :| 0 <= i < |upper| && upper[i] == c;
      assert c == UpperChar(code[i]);
    }
    ReplaceCharRemoves(noPeso, '(');
    ReplaceCharRemoves(noOpen, ')');
    assert forall c :: c in noClose ==> c in noOpen && c != ')';
    assert forall c :: c in noOpen ==> c in noPeso && c != '(';
    assert forall c :: c in noPeso ==> c in upper;
  }

  /** The symbol table of `GetCurrencySymbol`. */
  function SymbolFor(normalized: string): (r: Option<string>)
    ensures r.Some? ==> |r.value| == 1
  {
    if normalized == "PHP" || normalized == "P" then Some("\U{20B1}")
    else if normalized == "USD" then Some("$")
    else if normalized == "EUR" then Some("\U{20AC}")
    else if normalized == "GBP" then Some("\U{00A3}")
    else if normalized == "JPY" then Some("\U{00A5}")
    else None
  }

  /** `GetCurrencySymbol`: "$" for a blank code, the symbol of a recognised
      code, and the original code itself for anything else. */
  function GetCurrencySymbol(code: Option<string>): (r: string)
    ensures IsNullOrWhiteSpace(code) ==> r == "$"
    ensures !IsNullOrWhiteSpace(code) && SymbolFor(NormalizeCurrency(code.value)).Some? ==>
      r == SymbolFor(NormalizeCurrency(code.value)).value
    ensures !IsNullOrWhiteSpace(code) && SymbolFor(NormalizeCurrency(code.value)).None? ==>
      r == code.value
  {
    if IsNullOrWhiteSpace(code) then "$"
    else SymbolFor(NormalizeCurrency(code.value)).GetOr(code.value)
  }

  /** A recognised code is recognised in any letter case. */
  lemma CurrencySymbolIgnoresCase(code: string)
    requires !AllWhiteSpace(code)
    requires SymbolFor(NormalizeCurrency(code)).Some?
    ensures GetCurrencySymbol(Some(ToUpper(code))) == GetCurrencySymbol(Some(code))
  {
    UpperNotBlank(code);
    NormalizeUpper(code);
  }

  lemma NormalizeUpper(code: string)
    ensures NormalizeCurrency(ToUpper(code)) == NormalizeCurrency(code)
  {
    ToUpperIdempotent(code);
  }

  lemma UpperNotBlank(code: string)
    requires !AllWhiteSpace(code)
    ensures !AllWhiteSpace(ToUpper(code))
  {
    var i :| 0 <= i < |code| && !IsWhiteSpace(code[i]);
    assert !IsWhiteSpace(ToUpper(code)[i]);
  }

  /** The currency symbol is never empty. */
  lemma CurrencySymbolNonEmpty(code: Option<string>)
    ensures GetCurrencySymbol(code) != []
  {
    if !IsNullOrWhiteSpace(code) && SymbolFor(NormalizeCurrency(code.value)).None? {
      assert code.value != [];
    }
  }

  // ------------------------------------------------------------ primary contact

  /** The primary contact shown for a supplier: built from the supplier's own
      person, email and phone columns when any of them is non-blank. */
  function PrimaryContactOf(supplier: Supplier): (r: Option<SupplierContact>)
    ensures r.Some? <==>
      !IsNullOrWhiteSpace(supplier.personName) ||
      !IsNullOrWhiteSpace(supplier.email) ||
      !IsNullOrWhiteSpace(Some(supplier.phoneNumber))
    ensures r.Some? ==>
      r.value.contactPersonName == supplier.personName &&
      r.value.email == supplier.email &&
      r.value.phoneNumber == Some(supplier.phoneNumber) &&
      r.value.supplierCompanyId == supplier.supplierId
  {
    if !IsNullOrWhiteSpace(supplier.personName) ||
       !IsNullOrWhiteSpace(supplier.email) ||
       !IsNullOrWhiteSpace(Some(supplier.phoneNumber))
    then Some(SupplierContact(0, supplier.personName, supplier.email, Some(supplier.phoneNumber), supplier.supplierId))
    else None
  }

  // ------------------------------------------------------------ product rows

  /** A stored product image (`ImageData`, only the fields used). */
  datatype ImageData = ImageData(imageId: int, imageOrder: Option<int>)

  /** A product as loaded with its category, description, quantity and
      images (only the fields used). */
  datatype CatalogProduct = CatalogProduct(
    itemId: int,
    itemName: Option<string>,
    categoryName: Option<string>,
    retailPrice: Option<real>,
    qty: Option<int>,
    primaryImage: Option<ImageData>,
    allImages: seq<ImageData>)

  /** One row of the supplier's product table. */
  datatype ProductForView = ProductForView(
    id: int,
    name: Option<string>,
    category: Option<string>,
    price: Option<real>,
    stock: Option<int>,
    stockStatus: string,
    imageUrl: string)

  const PlaceholderUrl := "/images/placeholder-product.png"

  /** The URL at which the image endpoint serves image `imageId`. */
  function GetImageUrl(imageId: int): string {
    "/Image/GetImage/" + IntToString(imageId)
  }

  /** Different images have different URLs, and none is the placeholder. */
  lemma GetImageUrlInjective(a: int, b: int)
    ensures GetImageUrl(a) == GetImageUrl(b) <==> a == b
    ensures GetImageUrl(a) != PlaceholderUrl
  {
    if GetImageUrl(a) == GetImageUrl(b) {
      var n := |"/Image/GetImage/"|;
      assert GetImageUrl(a)[n..] == IntToString(a);
      assert GetImageUrl(b)[n..] == IntToString(b);
      IntToStringInjective(a, b);
    }
    assert GetImageUrl(a)[1] == 'I' != PlaceholderUrl[1];
  }

  predicate HasOrder(img: ImageData) {
    img.imageOrder.Some?
  }

  /** The default comparer on the nullable `ImageOrder`: null first. */
  function CompareImageOrder(a: ImageData, b: ImageData): Ordering {
    match (a.imageOrder, b.imageOrder)
    case (None, None) => Equal
    case (None, Some(_)) => Less
    case (Some(_), None) => Greater
    case (Some(x), Some(y)) => CompareInts(x, y)
  }

  function ImageOrderCmp(): (ImageData, ImageData) -> Ordering {
    (a: ImageData, b: ImageData) => CompareImageOrder(a, b)
  }

  function HasOrderFilter(): ImageData -> bool {
    (img: ImageData) => HasOrder(img)
  }

  lemma ImageOrderCmpIsTotalPreorder()
    ensures IsTotalPreorder(ImageOrderCmp())
  {
  }

  /** `images[m]` has an order, no image has a smaller one, and every image
      before it with an order has a larger one. */
  predicate EarliestLeastOrder(images: seq<ImageData>, m: int) {
    && 0 <= m < |images| && images[m].imageOrder.Some?
    && (forall j :: 0 <= j < |images| && images[j].imageOrder.Some? ==>
          images[m].imageOrder.value <= images[j].imageOrder.value)
    && (forall j :: 0 <= j < m && images[j].imageOrder.Some? ==>
          images[j].imageOrder.value > images[m].imageOrder.value)
  }

  /** `AllImages.Where(has order).OrderBy(order).FirstOrDefault()`. */
  function BestOrderedImage(images: seq<ImageData>): (r: Option<ImageData>)
    ensures r.None? <==> forall j :: 0 <= j < |images| ==> images[j].imageOrder.None?
    ensures r.Some? ==> exists m :: EarliestLeastOrder(images, m) && r.value == images[m]
  {
    var ordered := Where(images, HasOrderFilter());
    var sorted := Sort(ordered, ImageOrderCmp());
    BestOrderedImageSpec(images);
    if sorted == [] then None else Some(sorted[0])
  }

  lemma BestOrderedImageSpec(images: seq<ImageData>)
    ensures var sorted := Sort(Where(images, HasOrderFilter()), ImageOrderCmp());
      && (sorted == [] <==> forall j :: 0 <= j < |images| ==> images[j].imageOrder.None?)
      && (sorted != [] ==> exists m :: EarliestLeastOrder(images, m) && sorted[0] == images[m])
  {
    var ordered := Where(images, HasOrderFilter());
    if ordered == [] {
      NoOrderedImages(images);
    } else {
      assert exists j :: 0 <= j < |images| && images[j].imageOrder.Some? by {
        WhereCount(images, HasOrderFilter());
        assert ordered[0] in multiset(ordered);
        assert ordered[0] in multiset(images);
      }
      LeastOrderedImage(images);
    }
  }

  lemma NoOrderedImages(images: seq<ImageData>)
    requires Where(images, HasOrderFilter()) == []
    ensures forall j :: 0 <= j < |images| ==> images[j].imageOrder.None?
  {
    forall j | 0 <= j < |images| ensures images[j].imageOrder.None? {
      if images[j].imageOrder.Some? {
        WhereMember(images, HasOrderFilter(), j);
      }
    }
  }

  lemma LeastOrderedImage(images: seq<ImageData>)
    requires Where(images, HasOrderFilter()) != []
    ensures exists m ::
      EarliestLeastOrder(images, m) && Sort(Where(images, HasOrderFilter()), ImageOrderCmp())[0] == images[m]
  {
    var keep := HasOrderFilter();
    var cmp := ImageOrderCmp();
    var ordered := Where(images, keep);
    ImageOrderCmpIsTotalPreorder();
    SortHead(ordered, cmp);
    var k :| FirstLeastAt(ordered, cmp, k) && Sort(ordered, cmp)[0] == ordered[k];
    WhereFirstLeast(images, keep, cmp, k);
    var m :| FirstLeastKeptAt(images, keep, cmp, m) && images[m] == ordered[k];
    KeptLeastIsEarliest(images, m);
  }

  /** The earliest least kept image under the comparer is the earliest
      image with the least order. */
  lemma KeptLeastIsEarliest(images: seq<ImageData>, m: int)
    requires FirstLeastKeptAt(images, HasOrderFilter(), ImageOrderCmp(), m)
    ensures EarliestLeastOrder(images, m)
  {
    var x := images[m].imageOrder.value;
    forall j | 0 <= j < |images| && images[j].imageOrder.Some?
      ensures x <= images[j].imageOrder.value
    {
      assert HasOrderFilter()(images[j]);
      assert CompareImageOrder(images[m], images[j]) != Greater;
    }
    forall j | 0 <= j < m && images[j].imageOrder.Some?
      ensures images[j].imageOrder.value > x
    {
      assert HasOrderFilter()(images[j]);
      assert CompareImageOrder(images[j], images[m]) == Greater;
    }
  }

  /** The id of the image shown for a product: its primary image, else the
      earliest of its images with the least order, else none. */
  function ChosenImage(p: CatalogProduct): (r: Option<int>)
    ensures p.primaryImage.Some? ==> r == Some(p.primaryImage.value.imageId)
    ensures p.primaryImage.None? ==>
      (r.None? <==> forall j :: 0 <= j < |p.allImages| ==> p.allImages[j].imageOrder.None?)
    ensures p.primaryImage.None? && r.Some? ==>
      exists m :: EarliestLeastOrder(p.allImages, m) && r.value == p.allImages[m].imageId
  {
    if p.primaryImage.Some? then Some(p.primaryImage.value.imageId)
    else if |p.allImages| > 0 then
      match BestOrderedImage(p.allImages)
      case Some(img) => Some(img.imageId)
      case None => None
    else None
  }

  /** The image URL of a product row. */
  function ProductImageUrl(p: CatalogProduct): (r: string)
    ensures ChosenImage(p).Some? ==> r == GetImageUrl(ChosenImage(p).value)
    ensures ChosenImage(p).None? ==> r == PlaceholderUrl
  {
    match ChosenImage(p)
    case Some(id) => GetImageUrl(id)
    case None => PlaceholderUrl
  }

  /** A row shows the placeholder exactly when no image could be chosen, and
      two rows show the same image URL exactly when they chose the same image. */
  lemma ProductImageUrlSpec(p: CatalogProduct, q: CatalogProduct)
    ensures ProductImageUrl(p) == PlaceholderUrl <==> ChosenImage(p).None?
    ensures ChosenImage(p).Some? && ChosenImage(q).Some? ==>
      (ProductImageUrl(p) == ProductImageUrl(q) <==> ChosenImage(p) == ChosenImage(q))
  {
    if ChosenImage(p).Some? {
      GetImageUrlInjective(ChosenImage(p).value, ChosenImage(p).value);
      if ChosenImage(q).Some? {
        GetImageUrlInjective(ChosenImage(p).value, ChosenImage(q).value);
      }
    }
  }

  /** The display row of one product. */
  function ProductView(p: CatalogProduct): (r: ProductForView)
    ensures r.id == p.itemId && r.name == p.itemName && r.category == p.categoryName
    ensures r.price == p.retailPrice && r.stock == p.qty
    ensures r.stockStatus == CalculateStockStatus(p.qty)
    ensures r.imageUrl == ProductImageUrl(p)
  {
    ProductForView(p.itemId, p.itemName, p.categoryName, p.retailPrice, p.qty,
                   CalculateStockStatus(p.qty), ProductImageUrl(p))
  }

  /** The image URL of one product row: the primary image, else the best
      ordered image, else the placeholder. */
  method ChooseImageUrl(p: CatalogProduct) returns (imageUrl: string)
    ensures imageUrl == ProductImageUrl(p)
  {
    imageUrl := PlaceholderUrl;
    if p.primaryImage.Some? {
      imageUrl := GetImageUrl(p.primaryImage.value.imageId);
    } else if |p.allImages| > 0 {
      var best := BestOrderedImage(p.allImages);
      if best.Some? {
        imageUrl := GetImageUrl(best.value.imageId);
      }
    }
  }

  /** The display rows of a product list: one per product, in order. */
  function ProductViews(ps: seq<CatalogProduct>): seq<ProductForView> {
    if ps == [] then []
    else ProductViews(ps[..|ps| - 1]) + [ProductView(ps[|ps| - 1])]
  }

  /** Exactly one row per product, in the order of the products. */
  lemma {:induction false} ProductViewsSpec(ps: seq<CatalogProduct>)
    ensures |ProductViews(ps)| == |ps|
    ensures forall k :: 0 <= k < |ps| ==> ProductViews(ps)[k] == ProductView(ps[k])
  {
    if ps != [] {
      var init := ps[..|ps| - 1];
      ProductViewsSpec(init);
      var v := ProductViews(ps);
      assert v == ProductViews(init) + [ProductView(ps[|ps| - 1])];
      forall k | 0 <= k < |ps| ensures v[k] == ProductView(ps[k]) {
        if k < |ps| - 1 { assert ps[k] == init[k]; }
      }
    }
  }

  /** One more product adds one more row. */
  lemma ProductViewsStep(ps: seq<CatalogProduct>, i: int)
    requires 0 <= i < |ps|
    ensures ProductViews(ps[..i + 1]) == ProductViews(ps[..i]) + [ProductView(ps[i])]
  {
    var q := ps[..i + 1];
    assert q[..|q| - 1] == ps[..i];
  }

  /** The display rows of `ps`, built one product at a time in order. */
  method ProductRows(ps: seq<CatalogProduct>) returns (rows: seq<ProductForView>)
    ensures rows == ProductViews(ps)
  {
    rows := [];
    var i := 0;
    while i < |ps|
      invariant 0 <= i <= |ps|
      invariant rows == ProductViews(ps[..i])
    {
      var row := ProductRow(ps[i]);
      ProductViewsStep(ps, i);
      rows := rows + [row];
      i := i + 1;
    }
    assert ps[..|ps|] == ps;
  }

  /** The body of the `foreach` over the products: the image URL, then the
      display row. */
  method ProductRow(p: CatalogProduct) returns (row: ProductForView)
    ensures row == ProductView(p)
  {
    var imageUrl := ChooseImageUrl(p);
    row := ProductForView(p.itemId, p.itemName, p.categoryName,
      p.retailPrice, p.qty, CalculateStockStatus(p.qty), imageUrl);
  }

  // ------------------------------------------------------------ view model

  /** The detail view model of one supplier loaded with its contacts and
      products. */
  class SupplierDetailViewModel {
    const supplier: Supplier
    const contacts: seq<SupplierContact>
    const products: seq<CatalogProduct>
    var supplierProducts: seq<ProductForView>
    var primaryContact: Option<SupplierContact>
    var otherContacts: seq<SupplierContact>
    var supplierAvatarColor: string
    var supplierAvatarInitial: string
    var primaryContactAvatarColor: string
    var primaryContactAvatarInitial: string
    var currencySymbol: string

    /** Every derived property agrees with the supplier it was built from,
        the product table holding one row per product, in order. */
    ghost predicate Derived()
      reads this
    {
      && primaryContact == PrimaryContactOf(supplier)
      && otherContacts == contacts
      && supplierAvatarInitial == GetInitial(Some(supplier.companyName), "S")
      && supplierAvatarColor == GetColorForInitial(supplierAvatarInitial)
      && (primaryContactAvatarInitial, primaryContactAvatarColor) == ContactAvatar(primaryContact)
      && supplierProducts == ProductViews(products)
      && currencySymbol == GetCurrencySymbol(supplier.currency)
    }

    constructor (supplier: Supplier, contacts: seq<SupplierContact>, products: seq<CatalogProduct>)
      ensures this.supplier == supplier && this.contacts == contacts && this.products == products
      ensures Derived()
    {
      this.supplier := supplier;
      this.contacts := contacts;
      this.products := products;
      supplierProducts := [];
      otherContacts := [];
      new;
      ProcessSupplierData();
    }

    /** Sets the contact, avatar and currency properties and appends one row
        per product to `supplierProducts`. */
    method ProcessSupplierData()
      modifies this`primaryContact, this`otherContacts, this`supplierProducts, this`currencySymbol
      modifies this`supplierAvatarInitial, this`supplierAvatarColor
      modifies this`primaryContactAvatarInitial, this`primaryContactAvatarColor
      ensures primaryContact == PrimaryContactOf(supplier)
      ensures otherContacts == contacts
      ensures supplierAvatarInitial == GetInitial(Some(supplier.companyName), "S")
      ensures supplierAvatarColor == GetColorForInitial(supplierAvatarInitial)
      ensures (primaryContactAvatarInitial, primaryContactAvatarColor) == ContactAvatar(primaryContact)
      ensures supplierProducts == old(supplierProducts) + ProductViews(products)
      ensures currencySymbol == GetCurrencySymbol(supplier.currency)
    {
      SetContacts();
      SetAvatars();
      AppendProductRows();
      currencySymbol := GetCurrencySymbol(supplier.currency);
    }

    /** The primary contact from the supplier's own columns, and the
        supplier's contact list. */
    method SetContacts()
      modifies this`primaryContact, this`otherContacts
      ensures primaryContact == PrimaryContactOf(supplier)
      ensures otherContacts == contacts
    {
      if !IsNullOrWhiteSpace(supplier.personName) ||
         !IsNullOrWhiteSpace(supplier.email) ||
         !IsNullOrWhiteSpace(Some(supplier.phoneNumber)) {
        primaryContact := Some(SupplierContact(0, supplier.personName, supplier.email,
                                               Some(supplier.phoneNumber), supplier.supplierId));
      } else {
        primaryContact := None;
      }

      if |contacts| > 0 {
        otherContacts := contacts;
      } else {
        otherContacts := [];
      }
    }

    /** The supplier's and the primary contact's avatar initials and colours. */
    method SetAvatars()
      modifies this`supplierAvatarInitial, this`supplierAvatarColor
      modifies this`primaryContactAvatarInitial, this`primaryContactAvatarColor
      ensures supplierAvatarInitial == GetInitial(Some(supplier.companyName), "S")
      ensures supplierAvatarColor == GetColorForInitial(supplierAvatarInitial)
      ensures (primaryContactAvatarInitial, primaryContactAvatarColor) == ContactAvatar(primaryContact)
    {
      SetSupplierAvatar();
      SetContactAvatar();
    }

    method SetSupplierAvatar()
      modifies this`supplierAvatarInitial, this`supplierAvatarColor
      ensures supplierAvatarInitial == GetInitial(Some(supplier.companyName), "S")
      ensures supplierAvatarColor == GetColorForInitial(supplierAvatarInitial)
    {
      var initial := GetInitial(Some(supplier.companyName), "S");
      supplierAvatarInitial := initial;
      supplierAvatarColor := GetColorForInitial(initial);
    }

    method SetContactAvatar()
      modifies this`primaryContactAvatarInitial, this`primaryContactAvatarColor
      ensures (primaryContactAvatarInitial, primaryContactAvatarColor) == ContactAvatar(primaryContact)
    {
      if HasNamedContact(primaryContact) {
        var initial := GetInitial(primaryContact.value.contactPersonName, "C");
        primaryContactAvatarInitial := initial;
        primaryContactAvatarColor := GetColorForInitial(initial);
      } else {
        primaryContactAvatarInitial := "?";
        primaryContactAvatarColor := GetColorForInitial("?");
      }
    }

    /** Appends one display row per product, in order. */
    method AppendProductRows()
      modifies this`supplierProducts
      ensures supplierProducts == old(supplierProducts) + ProductViews(products)
    {
      var rows := ProductRows(products);
      supplierProducts := supplierProducts + rows;
    }
  }
}
