/**
 * Loading the registry: the month's invoices of the app draft (`Airtable`), the
 * three tables of the src draft's `AirtableData`, and the src draft's
 * `AirtableClient.fetch`, which joins each invoice onto its partner and type in place.
 *
 * The answers of the server to each table's requests are given as page sequences,
 * as in `AirtableHttp`.
 */
module AirtableData {
  import opened Wrappers
  import opened Text
  import opened Registry
  import opened FilterFormula
  import opened FilterFormulaReading
  import opened AirtableHttp
  import FileNaming

  /** `map { it.fields }`: the fields of each record, in order. */
  function Fields<T>(records: seq<AirtableRecord<T>>): (r: seq<T>)
    ensures |r| == |records|
    ensures forall i :: 0 <= i < |records| ==> r[i] == records[i].fields
  {
    if records == [] then [] else [records[0].fields] + Fields(records[1..])
  }

  /** A month `YearMonth.of` accepts. */
  predicate IsMonth(month: int) {
    1 <= month <= 12
  }

  /** The message of the `DateTimeException` `YearMonth.of` throws for any other month. */
  function InvalidMonthError(month: int): string {
    "Invalid value for MonthOfYear (valid values 1 - 12): " + FormatInt(month, 0)
  }

  /** The month formula, or the exception building it throws. */
  function MonthFormula(year: Short, month: Short): (r: Result<string, string>)
    ensures r.Success? <==> IsMonth(month)
    ensures r.Failure? ==> r.error == InvalidMonthError(month)
  {
    if IsMonth(month) then Success(ForInvoicesOfMonth(year, month)) else Failure(InvalidMonthError(month))
  }

  /** The month formula is never blank, so it is always sent as `filterByFormula`. */
  lemma FormulaIsNotBlank(year: Short, month: Short)
    requires IsMonth(month)
    ensures !IsNullOrBlank(Some(ForInvoicesOfMonth(year, month)))
  {
    var from := DateLiteral(month, 1, year);
    var until := DateLiteral(month, DaysInMonth(year, month), year);
    assert ForInvoicesOfMonth(year, month) == Shape(from, until, TypeLabels);
    ShapeIsNotBlank(from, until, TypeLabels);
  }

  // ---------------------------------------------------------------------------
  // The app draft: `Airtable.fetchInvoicesOfMonth`
  // ---------------------------------------------------------------------------

  /** What `fetchInvoicesOfMonth` returns: the fields of the drained records, or the error. */
  function InvoicesOfMonth(year: Short, month: Short, pages: seq<Page<RegistryItem>>): Result<seq<RegistryItem>, string>
    requires Terminates(pages)
  {
    if !IsMonth(month) then Failure(InvalidMonthError(month))
    else match FetchAll(pages)
      case Success(records) => Success(Fields(records))
      case Failure(e) => Failure(e)
  }

  /**
   * `Airtable.fetchInvoicesOfMonth`: builds the month formula (which throws for a
   * month outside 1..12, before any request), drains the registry table filtered by
   * it, and returns each record's fields in fetch order.
   */
  method FetchInvoicesOfMonth(baseId: string, recordTableId: string, encode: string -> string,
                              year: Short, month: Short, pages: seq<Page<RegistryItem>>)
    returns (result: Result<seq<RegistryItem>, string>, requests: seq<string>)
    requires Terminates(pages)
    ensures result == InvoicesOfMonth(year, month, pages)
    ensures requests == InvoiceRequests(baseId, recordTableId, encode, year, month, pages)
  {
    var formula := MonthFormula(year, month);
    if formula.Failure? {
      return Failure(formula.error), [];
    }
    var records;
    records, requests := FetchAirtableData(baseId, recordTableId, Some(formula.value), encode, pages);
    match records
    case Success(rs) => result := Success(Fields(rs));
    case Failure(e) => result := Failure(e);
  }

  /**
   * The requests `fetchInvoicesOfMonth` sends: none for an invalid month, otherwise
   * those of draining the registry table filtered by the month's formula.
   */
  function InvoiceRequests(baseId: string, recordTableId: string, encode: string -> string,
                           year: Short, month: Short, pages: seq<Page<RegistryItem>>): seq<string>
    requires Terminates(pages)
  {
    if IsMonth(month) then Requests(baseId, recordTableId, Some(ForInvoicesOfMonth(year, month)), encode, pages)
    else []
  }

  /** On success, the invoices are exactly the fields of every record on the pages read, in order. */
  lemma InvoicesOfMonthRecords(year: Short, month: Short, pages: seq<Page<RegistryItem>>)
    requires Terminates(pages)
    ensures var r := InvoicesOfMonth(year, month, pages);
      && (r.Success? <==> IsMonth(month) && forall i :: 0 <= i <= StopIndex(pages) ==> pages[i].status == 200)
      && (r.Success? ==> r.value == Fields(Flatten(pages[..StopIndex(pages) + 1])))
  {
    FetchAllOutcome(pages);
  }

  /** Every request of a drain with a non-blank filter carries that filter, encoded. */
  lemma FilteredRequests<T>(baseId: string, tableId: string, encode: string -> string, formula: string,
                            pages: seq<Page<T>>, i: nat)
    requires '?' !in baseId && '?' !in tableId
    requires EscapesDelimiters(encode)
    requires !IsNullOrBlank(Some(formula))
    requires Terminates(pages) && i <= StopIndex(pages)
    ensures var q := QueryOf(Requests(baseId, tableId, Some(formula), encode, pages)[i]);
      q.Some? && ParamValue(q.value, "filterByFormula") == Some(encode(formula))
  {
    RequestsFollowOffsets(baseId, tableId, Some(formula), encode, pages, i);
  }

  /**
   * Every request of `fetchInvoicesOfMonth` asks for the registry table filtered by
   * the month's formula, whose bounds are the first and the last day of that month.
   */
  lemma InvoicesOfMonthRequests(baseId: string, recordTableId: string, encode: string -> string,
                                year: Short, month: Short, pages: seq<Page<RegistryItem>>, i: nat)
    requires '?' !in baseId && '?' !in recordTableId
    requires EscapesDelimiters(encode)
    requires IsMonth(month) && Terminates(pages) && i <= StopIndex(pages)
    ensures var formula := ForInvoicesOfMonth(year, month);
      var q := QueryOf(Requests(baseId, recordTableId, Some(formula), encode, pages)[i]);
      && q.Some? && ParamValue(q.value, "filterByFormula") == Some(encode(formula))
      && BoundsOf(formula) == Some((Date(year, month, 1), Date(year, month, DaysInMonth(year, month))))
  {
    FormulaIsNotBlank(year, month);
    FilteredRequests(baseId, recordTableId, encode, ForInvoicesOfMonth(year, month), pages, i);
    FormulaBounds(year, month);
  }

  // ---------------------------------------------------------------------------
  // The src draft: the `AirtableData` class
  // ---------------------------------------------------------------------------

  /** The three properties of an `AirtableData` object. */
  datatype AirtableTables = AirtableTables(
    documentTypes: map<string, DocumentType>,
    partners: map<string, Partner>,
    registryItems: seq<RegistryItem>)

  /** What constructing `AirtableData(year, month)` yields, or the exception it throws. */
  function Tables(year: Short, month: Short, typePages: seq<Page<DocumentType>>,
                  partnerPages: seq<Page<Partner>>, recordPages: seq<Page<RegistryItem>>)
    : Result<AirtableTables, string>
    requires Terminates(typePages) && Terminates(partnerPages) && Terminates(recordPages)
  {
    match FetchAll(typePages)
    case Failure(e) => Failure(e)
    case Success(types) =>
      match FetchAll(partnerPages)
      case Failure(e) => Failure(e)
      case Success(partners) =>
        match InvoicesOfMonth(year, month, recordPages)
        case Failure(e) => Failure(e)
        case Success(items) => Success(AirtableTables(Associate(types), Associate(partners), items))
  }

  /**
   * The constructor of the src draft's `AirtableData`: the whole type table, then the
   * whole partner table, then the month's registry items; the first exception ends the
   * construction. The registry items are the records' fields, not joined: nothing here
   * sets their partner or type.
   */
  method LoadAirtableData(baseId: string, typeTableId: string, partnerTableId: string, recordTableId: string,
                          encode: string -> string, year: Short, month: Short,
                          typePages: seq<Page<DocumentType>>, partnerPages: seq<Page<Partner>>,
                          recordPages: seq<Page<RegistryItem>>)
    returns (result: Result<AirtableTables, string>, requests: seq<string>)
    requires Terminates(typePages) && Terminates(partnerPages) && Terminates(recordPages)
    ensures result == Tables(year, month, typePages, partnerPages, recordPages)
    ensures requests == TableRequests(baseId, typeTableId, partnerTableId, recordTableId, encode, year, month,
                                      typePages, partnerPages, recordPages)
  {
    var types, typeRequests := FetchInstanceMap(baseId, typeTableId, encode, typePages);
    if types.Failure? {
      return Failure(types.error), typeRequests;
    }
    var partners, partnerRequests := FetchInstanceMap(baseId, partnerTableId, encode, partnerPages);
    if partners.Failure? {
      return Failure(partners.error), typeRequests + partnerRequests;
    }
    var items, itemRequests := FetchInvoicesOfMonth(baseId, recordTableId, encode, year, month, recordPages);
    requests := typeRequests + partnerRequests + itemRequests;
    if items.Failure? {
      return Failure(items.error), requests;
    }
    result := Success(AirtableTables(types.value, partners.value, items.value));
  }

  /**
   * The requests of the three loads, in order: the type table's, then (when those
   * succeeded) the partner table's, then (when those succeeded too) the registry
   * table's, of which there are none for an invalid month.
   */
  function TableRequests(baseId: string, typeTableId: string, partnerTableId: string, recordTableId: string,
                         encode: string -> string, year: Short, month: Short,
                         typePages: seq<Page<DocumentType>>, partnerPages: seq<Page<Partner>>,
                         recordPages: seq<Page<RegistryItem>>): seq<string>
    requires Terminates(typePages) && Terminates(partnerPages) && Terminates(recordPages)
  {
    var typeRequests := Requests(baseId, typeTableId, None, encode, typePages);
    var partnerRequests := Requests(baseId, partnerTableId, None, encode, partnerPages);
    if FetchAll(typePages).Failure? then typeRequests
    else if FetchAll(partnerPages).Failure? then typeRequests + partnerRequests
    else typeRequests + partnerRequests + InvoiceRequests(baseId, recordTableId, encode, year, month, recordPages)
  }

  /**
   * A loaded `AirtableData` holds the whole type and partner tables, keyed by record
   * id, and exactly the fields of the month's registry records, in order and as
   * decoded, so an item decoded without partner and type keeps none.
   */
  lemma TablesMeaning(year: Short, month: Short, typePages: seq<Page<DocumentType>>,
                      partnerPages: seq<Page<Partner>>, recordPages: seq<Page<RegistryItem>>)
    requires Terminates(typePages) && Terminates(partnerPages) && Terminates(recordPages)
    ensures var t := Tables(year, month, typePages, partnerPages, recordPages);
      t.Success? <==> FetchAll(typePages).Success? && FetchAll(partnerPages).Success?
                      && IsMonth(month) && FetchAll(recordPages).Success?
    ensures var t := Tables(year, month, typePages, partnerPages, recordPages);
      t.Success? ==>
        && t.value.documentTypes == Associate(FetchAll(typePages).value)
        && t.value.partners == Associate(FetchAll(partnerPages).value)
        && t.value.registryItems == Fields(FetchAll(recordPages).value)
        && (forall i :: 0 <= i < |t.value.registryItems| ==>
              IsDecoded(FetchAll(recordPages).value[i].fields) ==> IsDecoded(t.value.registryItems[i]))
  {
  }

  // ---------------------------------------------------------------------------
  // The src draft: `AirtableClient.fetch`
  // ---------------------------------------------------------------------------

  /**
   * What `fetch` assigns to `registryItems`: the month's registry items with each
   * item's type and partner set from the first id of its lists, or the exception that
   * stops it.
   */
  function FetchedItems(year: Short, month: Short, typePages: seq<Page<DocumentType>>,
                        partnerPages: seq<Page<Partner>>, recordPages: seq<Page<RegistryItem>>)
    : Result<seq<RegistryItem>, string>
    requires Terminates(typePages) && Terminates(partnerPages) && Terminates(recordPages)
  {
    match Tables(year, month, typePages, partnerPages, recordPages)
    case Failure(e) => Failure(e)
    case Success(t) => Success(ResolveAll(t.registryItems, t.documentTypes, t.partners))
  }

  /** The src draft's `AirtableClient`, made for one month; `registryItems` is unset until `fetch` succeeds. */
  class AirtableClient {
    const year: Short
    const month: Short
    var registryItems: Option<seq<RegistryItem>>

    constructor(year: Short, month: Short)
      ensures this.year == year && this.month == month && registryItems == None
    {
      this.year := year;
      this.month := month;
      registryItems := None;
    }

    /**
     * `fetch`: loads the type table, then the partner table, then the month's
     * registry items, and sets `registryItems` to those items with their type and
     * partner assigned from the first ids; an exception leaves `registryItems` as it
     * was.
     */
    method Fetch(baseId: string, typeTableId: string, partnerTableId: string, recordTableId: string,
                 encode: string -> string, typePages: seq<Page<DocumentType>>,
                 partnerPages: seq<Page<Partner>>, recordPages: seq<Page<RegistryItem>>)
      returns (outcome: Result<(), string>, requests: seq<string>)
      requires Terminates(typePages) && Terminates(partnerPages) && Terminates(recordPages)
      modifies this
      ensures var fetched := FetchedItems(year, month, typePages, partnerPages, recordPages);
        && (outcome.Success? <==> fetched.Success?)
        && (fetched.Success? ==> registryItems == Some(fetched.value))
        && (fetched.Failure? ==> outcome.error == fetched.error && registryItems == old(registryItems))
      ensures requests == TableRequests(baseId, typeTableId, partnerTableId, recordTableId, encode, year, month,
                                        typePages, partnerPages, recordPages)
    {
      var tables;
      tables, requests := LoadAirtableData(baseId, typeTableId, partnerTableId, recordTableId, encode,
                                           year, month, typePages, partnerPages, recordPages);
      if tables.Failure? {
        return Failure(tables.error), requests;
      }
      registryItems := Some(ResolveAll(tables.value.registryItems, tables.value.documentTypes, tables.value.partners));
      outcome := Success(());
    }
  }

  /**
   * After a successful `fetch`, item i is record i's fields joined onto the type and
   * partner tables: its type and partner are what the app draft's getters compute for
   * it, taken from the first id of each list, null when a list is null or empty or the
   * id is not in the table.
   */
  lemma FetchedItemsJoin(year: Short, month: Short, typePages: seq<Page<DocumentType>>,
                         partnerPages: seq<Page<Partner>>, recordPages: seq<Page<RegistryItem>>, i: nat)
    requires Terminates(typePages) && Terminates(partnerPages) && Terminates(recordPages)
    requires FetchedItems(year, month, typePages, partnerPages, recordPages).Success?
    requires i < |FetchAll(recordPages).value|
    requires IsDecoded(FetchAll(recordPages).value[i].fields)
    ensures var items := FetchedItems(year, month, typePages, partnerPages, recordPages).value;
      var fields := FetchAll(recordPages).value[i].fields;
      var types := Associate(FetchAll(typePages).value);
      var partners := Associate(FetchAll(partnerPages).value);
      && |items| == |FetchAll(recordPages).value|
      && items[i] == AppView(fields, partners, types)
      && items[i].docType == TypeOf(fields, types)
      && items[i].partner == PartnerOf(fields, partners)
  {
    TablesMeaning(year, month, typePages, partnerPages, recordPages);
    var t := Tables(year, month, typePages, partnerPages, recordPages).value;
    ResolveInPlaceMatchesGetters(t.registryItems[i], t.documentTypes, t.partners);
  }

  /**
   * The two drafts agree: the items the src draft's `fetch` stores are the app draft's
   * month invoices as its getters show them, when both read the same pages.
   */
  lemma FetchMatchesAppDraft(year: Short, month: Short, typePages: seq<Page<DocumentType>>,
                             partnerPages: seq<Page<Partner>>, recordPages: seq<Page<RegistryItem>>)
    requires Terminates(typePages) && Terminates(partnerPages) && Terminates(recordPages)
    requires FetchedItems(year, month, typePages, partnerPages, recordPages).Success?
    requires forall r :: r in FetchAll(recordPages).value ==> IsDecoded(r.fields)
    ensures var items := FetchedItems(year, month, typePages, partnerPages, recordPages).value;
      var invoices := InvoicesOfMonth(year, month, recordPages).value;
      var types := Associate(FetchAll(typePages).value);
      var partners := Associate(FetchAll(partnerPages).value);
      |items| == |invoices| && forall i :: 0 <= i < |items| ==> items[i] == AppView(invoices[i], partners, types)
  {
    TablesMeaning(year, month, typePages, partnerPages, recordPages);
    var items := FetchedItems(year, month, typePages, partnerPages, recordPages).value;
    forall i | 0 <= i < |items|
      ensures items[i] == AppView(InvoicesOfMonth(year, month, recordPages).value[i],
                                  Associate(FetchAll(partnerPages).value), Associate(FetchAll(typePages).value))
    {
      assert FetchAll(recordPages).value[i] in FetchAll(recordPages).value;
      FetchedItemsJoin(year, month, typePages, partnerPages, recordPages, i);
    }
  }

  // ---------------------------------------------------------------------------
  // What the src draft's downloader receives
  // ---------------------------------------------------------------------------

  /**
   * The src draft's `download` names its files from the items of `AirtableData`,
   * which nothing joins onto the partner table: every decoded item has no partner, so
   * its target path fails with the missing-partner error, whatever its MIME type.
   */
  lemma LoadedItemsHaveNoPartner(year: Short, month: Short, typePages: seq<Page<DocumentType>>,
                                 partnerPages: seq<Page<Partner>>, recordPages: seq<Page<RegistryItem>>,
                                 separator: string, absolutePath: string -> string, mimeType: string, i: nat)
    requires Terminates(typePages) && Terminates(partnerPages) && Terminates(recordPages)
    requires Tables(year, month, typePages, partnerPages, recordPages).Success?
    requires forall r :: r in FetchAll(recordPages).value ==> IsDecoded(r.fields)
    requires i < |Tables(year, month, typePages, partnerPages, recordPages).value.registryItems|
    ensures var item := Tables(year, month, typePages, partnerPages, recordPages).value.registryItems[i];
      FileNaming.SrcTargetPath(separator, absolutePath, mimeType, item, year, month)
        == Failure(FileNaming.NoPartnerFound(item.seqNo))
  {
    TablesMeaning(year, month, typePages, partnerPages, recordPages);
    var item := Tables(year, month, typePages, partnerPages, recordPages).value.registryItems[i];
    assert FetchAll(recordPages).value[i] in FetchAll(recordPages).value;
    FileNaming.SrcTargetPathOutcome(separator, absolutePath, mimeType, item, year, month);
  }

  /**
   * The items `AirtableClient.fetch` stores do find their files: with a known MIME
   * type, an item's target path is found exactly when the first id of its partner
   * list is a record of the partner table.
   */
  lemma FetchedItemsFindTheirFiles(year: Short, month: Short, typePages: seq<Page<DocumentType>>,
                                   partnerPages: seq<Page<Partner>>, recordPages: seq<Page<RegistryItem>>,
                                   separator: string, absolutePath: string -> string, mimeType: string, i: nat)
    requires Terminates(typePages) && Terminates(partnerPages) && Terminates(recordPages)
    requires FetchedItems(year, month, typePages, partnerPages, recordPages).Success?
    requires i < |FetchAll(recordPages).value|
    requires IsDecoded(FetchAll(recordPages).value[i].fields)
    requires mimeType in FileNaming.MimeMap
    ensures var item := FetchedItems(year, month, typePages, partnerPages, recordPages).value[i];
      var ids := FetchAll(recordPages).value[i].fields.assignedPartnerIds;
      var found := FileNaming.SrcTargetPath(separator, absolutePath, mimeType, item, year, month).Success?;
      found <==> ids.Some? && |ids.value| > 0 && ids.value[0] in Associate(FetchAll(partnerPages).value)
  {
    FetchedItemsJoin(year, month, typePages, partnerPages, recordPages, i);
    var item := FetchedItems(year, month, typePages, partnerPages, recordPages).value[i];
    PartnerOfMeaning(FetchAll(recordPages).value[i].fields, Associate(FetchAll(partnerPages).value));
    FileNaming.SrcTargetPathOutcome(separator, absolutePath, mimeType, item, year, month);
  }
}
