/** The supplier list page (Controllers/SupplierController.cs, `Index`): a
    free-text search over five columns, a location filter restricted to the
    predefined cities, an exact portal-status filter, and one of four sorts.

    The query runs in the database; here it runs on a sequence of suppliers.
    The database's ORDER BY is not stable, so only the order of the sort key
    and the selected multiset are promised. */
module SupplierQuery {
  import opened Wrappers
  import opened Text
  import opened Linq
  import opened Entities

  /** The query-string arguments of `Index` (the page number is unused). */
  datatype SupplierIndexQuery = SupplierIndexQuery(
    sortOrder: Option<string>,
    searchString: Option<string>,
    locationFilter: Option<string>,
    statusFilter: Option<string>,
    currentFilter: Option<string>)

  /** The model of the list view and the sort links shown above it. */
  datatype SupplierIndexView = SupplierIndexView(
    suppliers: seq<Supplier>,
    currentFilter: Option<string>,
    nameSortParam: string,
    emailSortParam: string)

  /** The cities offered by the location filter. */
  const PredefinedCities: seq<string> := ["Quezon City", "Manila", "Pasig", "Marikina", "Taguig"]

  // ------------------------------------------------------------ search

  /** A new search string wins; otherwise the search of the previous page. */
  function EffectiveSearch(q: SupplierIndexQuery): Option<string> {
    if q.searchString.Some? then q.searchString else q.currentFilter
  }

  predicate SearchActive(q: SupplierIndexQuery) {
    !IsNullOrEmpty(EffectiveSearch(q))
  }

  /** The search term: lower-cased, then trimmed. */
  function SearchTerm(q: SupplierIndexQuery): string
    requires SearchActive(q)
  {
    Trim(ToLower(EffectiveSearch(q).value))
  }

  /** `term` occurs in the lower-cased company name, email, person name or
      address, or in the phone number as stored. */
  predicate SearchMatches(s: Supplier, term: string) {
    || Contains(ToLower(s.companyName), term)
    || (s.email.Some? && Contains(ToLower(s.email.value), term))
    || Contains(s.phoneNumber, term)
    || (s.personName.Some? && Contains(ToLower(s.personName.value), term))
    || (s.address.Some? && Contains(ToLower(s.address.value), term))
  }

  // ------------------------------------------------------------ location and status

  /** The location filter applies only to one of the predefined cities,
      spelled exactly as listed. */
  predicate LocationActive(q: SupplierIndexQuery) {
    !IsNullOrEmpty(q.locationFilter) && q.locationFilter.value in PredefinedCities
  }

  predicate InLocation(s: Supplier, location: string) {
    s.address.Some? && Contains(ToLower(s.address.value), ToLower(location))
  }

  predicate StatusActive(q: SupplierIndexQuery) {
    !IsNullOrEmpty(q.statusFilter)
  }

  // Each filter as a test that passes every supplier while it is switched off.

  function SearchStage(q: SupplierIndexQuery): Supplier -> bool {
    (s: Supplier) => SearchActive(q) ==> SearchMatches(s, SearchTerm(q))
  }

  function LocationStage(q: SupplierIndexQuery): Supplier -> bool {
    (s: Supplier) => LocationActive(q) ==> InLocation(s, q.locationFilter.value)
  }

  function StatusStage(q: SupplierIndexQuery): Supplier -> bool {
    (s: Supplier) => StatusActive(q) ==> s.portalStatus == q.statusFilter.value
  }

  /** `s` passes every filter of `q` that is switched on. */
  predicate SupplierMatches(q: SupplierIndexQuery, s: Supplier) {
    && (SearchActive(q) ==> SearchMatches(s, SearchTerm(q)))
    && (LocationActive(q) ==> InLocation(s, q.locationFilter.value))
    && (StatusActive(q) ==> s.portalStatus == q.statusFilter.value)
  }

  function KeepSupplier(q: SupplierIndexQuery): Supplier -> bool {
    (s: Supplier) => SupplierMatches(q, s)
  }

  /** The chain of `Where` calls, each applied only when its filter is on. */
  function FilteredSuppliers(source: seq<Supplier>, q: SupplierIndexQuery): seq<Supplier> {
    var bySearch := if SearchActive(q) then Where(source, SearchStage(q)) else source;
    var byLocation := if LocationActive(q) then Where(bySearch, LocationStage(q)) else bySearch;
    if StatusActive(q) then Where(byLocation, StatusStage(q)) else byLocation
  }

  lemma FilteredSuppliersIsWhere(source: seq<Supplier>, q: SupplierIndexQuery)
    ensures FilteredSuppliers(source, q) == Where(source, KeepSupplier(q))
  {
    OptionalWhere3(source, SearchActive(q), SearchStage(q), LocationActive(q), LocationStage(q),
                   StatusActive(q), StatusStage(q), KeepSupplier(q));
  }

  // ------------------------------------------------------------ sorting

  datatype SupplierSort = CompanyNameAsc | CompanyNameDesc | EmailAsc | EmailDesc

  /** The `switch` on the sort order: three exact keys, anything else sorts
      by company name. */
  function ChooseSupplierSort(sortOrder: Option<string>): (r: SupplierSort)
    ensures r == CompanyNameDesc <==> sortOrder == Some("name_desc")
    ensures r == EmailAsc <==> sortOrder == Some("Email")
    ensures r == EmailDesc <==> sortOrder == Some("email_desc")
  {
    if sortOrder == Some("name_desc") then CompanyNameDesc
    else if sortOrder == Some("Email") then EmailAsc
    else if sortOrder == Some("email_desc") then EmailDesc
    else CompanyNameAsc
  }

  /** The comparison of each sort; a null email sorts first. */
  function CompareSuppliers(order: SupplierSort, a: Supplier, b: Supplier): Ordering {
    match order
    case CompanyNameAsc => CompareStrings(a.companyName, b.companyName)
    case CompanyNameDesc => CompareStrings(b.companyName, a.companyName)
    case EmailAsc => CompareOptStrings(a.email, b.email)
    case EmailDesc => CompareOptStrings(b.email, a.email)
  }

  function SupplierCmp(order: SupplierSort): (Supplier, Supplier) -> Ordering {
    (a: Supplier, b: Supplier) => CompareSuppliers(order, a, b)
  }

  lemma SupplierCmpIsTotalPreorder(order: SupplierSort)
    ensures IsTotalPreorder(SupplierCmp(order))
  {
    var cmp := SupplierCmp(order);
    forall a, b ensures cmp(b, a) == cmp(a, b).Flip() {
      CompareStringsFlip(a.companyName, b.companyName);
      CompareOptStringsFlip(a.email, b.email);
    }
    forall a, b, c | cmp(a, b) != Greater && cmp(b, c) != Greater ensures cmp(a, c) != Greater {
      match order
      case CompanyNameAsc => CompareStringsTrans(a.companyName, b.companyName, c.companyName);
      case CompanyNameDesc => CompareStringsTrans(c.companyName, b.companyName, a.companyName);
      case EmailAsc => CompareOptStringsTrans(a.email, b.email, c.email);
      case EmailDesc => CompareOptStringsTrans(c.email, b.email, a.email);
    }
  }

  // ------------------------------------------------------------ sort links

  /** The sort the company-name header links to. */
  function NameSortParam(sortOrder: Option<string>): string {
    if IsNullOrEmpty(sortOrder) then "name_desc" else ""
  }

  /** The sort the email header links to. */
  function EmailSortParam(sortOrder: Option<string>): string {
    if sortOrder == Some("Email") then "email_desc" else "Email"
  }

  /** Following a header link: the name header leads from the default
      order to descending names and from any other order back to the
      default; the email header leads from ascending email order to
      descending and from any other order to ascending. */
  lemma SortLinksToggle(sortOrder: Option<string>)
    ensures ChooseSupplierSort(Some(NameSortParam(sortOrder))) ==
      if IsNullOrEmpty(sortOrder) then CompanyNameDesc else CompanyNameAsc
    ensures ChooseSupplierSort(Some(EmailSortParam(sortOrder))) ==
      if sortOrder == Some("Email") then EmailDesc else EmailAsc
  {
    assert "" != "name_desc" && "" != "Email" && "" != "email_desc";
    assert "Email" != "name_desc" && "email_desc" != "name_desc" && "email_desc" != "Email";
  }

  // ------------------------------------------------------------ Index


  function SupplierIndex(source: seq<Supplier>, q: SupplierIndexQuery): (v: SupplierIndexView)
    ensures |v.suppliers| == |FilteredSuppliers(source, q)|
    ensures v.currentFilter == EffectiveSearch(q)
    ensures v.nameSortParam == NameSortParam(q.sortOrder) && v.emailSortParam == EmailSortParam(q.sortOrder)
  {
    var filtered := FilteredSuppliers(source, q);
    var sorted := Sort(filtered, SupplierCmp(ChooseSupplierSort(q.sortOrder)));
    SupplierIndexView(sorted, EffectiveSearch(q),
                      NameSortParam(q.sortOrder), EmailSortParam(q.sortOrder))
  }

  /** The list holds exactly the suppliers that pass every active filter,
      each as often as in the source. */
  lemma {:induction false} SupplierIndexSelectsMatching(source: seq<Supplier>, q: SupplierIndexQuery)
    ensures forall s :: multiset(SupplierIndex(source, q).suppliers)[s] ==
                          if SupplierMatches(q, s) then multiset(source)[s] else 0
    ensures forall s :: s in SupplierIndex(source, q).suppliers <==> s in source && SupplierMatches(q, s)
  {
    var result := SupplierIndex(source, q).suppliers;
    SupplierIndexPermutes(source, q);
    WhereCount(source, KeepSupplier(q));
    forall s ensures s in result <==> s in source && SupplierMatches(q, s) {
      assert s in result <==> multiset(result)[s] > 0;
      assert s in source <==> multiset(source)[s] > 0;
    }
  }

  lemma SupplierIndexPermutes(source: seq<Supplier>, q: SupplierIndexQuery)
    ensures multiset(SupplierIndex(source, q).suppliers) == multiset(Where(source, KeepSupplier(q)))
  {
    FilteredSuppliersIsWhere(source, q);
  }

  /** The list is in the order of the selected sort key. */
  lemma SupplierIndexSorted(source: seq<Supplier>, q: SupplierIndexQuery)
    ensures var v := SupplierIndex(source, q);
      forall i, j :: 0 <= i < j < |v.suppliers| ==>
        CompareSuppliers(ChooseSupplierSort(q.sortOrder), v.suppliers[i], v.suppliers[j]) != Greater
  {
    var order := ChooseSupplierSort(q.sortOrder);
    var sorted := SupplierIndex(source, q).suppliers;
    SupplierCmpIsTotalPreorder(order);
    SortSorted(FilteredSuppliers(source, q), SupplierCmp(order));
    assert forall i, j :: 0 <= i < j < |sorted| ==> SupplierCmp(order)(sorted[i], sorted[j]) != Greater;
  }

  /** A search of white space only trims to the empty term and keeps every
      supplier. */
  lemma BlankSearchKeepsAll(q: SupplierIndexQuery, s: Supplier)
    requires SearchActive(q) && AllWhiteSpace(EffectiveSearch(q).value)
    ensures SearchTerm(q) == []
    ensures SearchStage(q)(s)
  {
    var lowered := ToLower(EffectiveSearch(q).value);
    assert AllWhiteSpace(lowered) by {
      forall i | 0 <= i < |lowered| ensures IsWhiteSpace(lowered[i]) {
        assert lowered[i] == LowerChar(EffectiveSearch(q).value[i]);
      }
    }
    ContainsEmpty(ToLower(s.companyName));
  }

  /** A location that is not one of the predefined cities, such as a city
      in another letter case, filters nothing. */
  lemma UnknownLocationIgnored(source: seq<Supplier>, q: SupplierIndexQuery, q': SupplierIndexQuery)
    requires q.locationFilter.Some? && q.locationFilter.value !in PredefinedCities
    requires q' == q.(locationFilter := None)
    ensures SupplierIndex(source, q).suppliers == SupplierIndex(source, q').suppliers
  {
  }

  /** A supplier passes the status filter exactly when its portal status is
      the filter value, letter case included. */
  lemma StatusFilterExact(q: SupplierIndexQuery, s: Supplier)
    requires StatusActive(q)
    ensures StatusStage(q)(s) <==> s.portalStatus == q.statusFilter.value
    ensures q.statusFilter.value == "Active" && s.portalStatus == "active" ==> !SupplierMatches(q, s)
  {
  }
}
