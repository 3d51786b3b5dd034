/**
 * The Airtable REST client shared by both drafts: the URI of one page request,
 * the do-while loop that drains every page of a table, and the id-to-fields map
 * built from a whole table.
 *
 * The server is not called: the answers to the successive requests are given as a
 * sequence of pages, the i-th request being answered by the i-th page.
 */
module AirtableHttp {
  import opened Wrappers
  import opened Text

  /** `AIRTABLE_URI` up to its first `%s`. */
  const ApiRoot: string := "https://api.airtable.com/v0/"

  /** A record of a table: its id and its decoded fields (`createdTime` is not modelled). */
  datatype AirtableRecord<T> = AirtableRecord(id: string, fields: T)

  /**
   * One answer of the server: the status code and the body, and what Gson decodes
   * from a body: the page's records and the offset of the next page, null when the
   * body has none.
   */
  datatype Page<T> = Page(status: int, body: string, records: seq<AirtableRecord<T>>, offset: Option<string>)

  // ---------------------------------------------------------------------------
  // The request URI (`buildAirtableRequest`)
  // ---------------------------------------------------------------------------

  /** `AIRTABLE_URI.format(baseId, tableId)`. */
  function TablePath(baseId: string, tableId: string): string {
    ApiRoot + baseId + "/" + tableId
  }

  /** One entry of the query map: a parameter name and its encoded value. */
  datatype Param = Param(name: string, value: string)

  /** The value of the first parameter called `name`, if any. */
  function ParamValue(params: seq<Param>, name: string): Option<string> {
    if params == [] then None
    else if params[0].name == name then Some(params[0].value)
    else ParamValue(params[1..], name)
  }

  /**
   * The query map of `buildAirtableRequest`, in insertion order: the offset, then the
   * filter formula, each encoded and each present only when it is neither null nor
   * blank.
   */
  function QueryParams(offset: Option<string>, filterFormula: Option<string>,
                       encode: string -> string): (r: seq<Param>)
    ensures |r| <= 2
    ensures ParamValue(r, "offset")
      == if IsNullOrBlank(offset) then None else Some(encode(offset.value))
    ensures ParamValue(r, "filterByFormula")
      == if IsNullOrBlank(filterFormula) then None else Some(encode(filterFormula.value))
    ensures |r| == 2 ==> r[0].name == "offset" && r[1].name == "filterByFormula"
    ensures forall i :: 0 <= i < |r| ==> r[i].name in {"offset", "filterByFormula"}
  {
    (if IsNullOrBlank(offset) then [] else [Param("offset", encode(offset.value))])
    + (if IsNullOrBlank(filterFormula) then [] else [Param("filterByFormula", encode(filterFormula.value))])
  }

  /** `"${param}=${value}"`. */
  function ParamText(p: Param): string {
    p.name + "=" + p.value
  }

  function ParamTexts(params: seq<Param>): (r: seq<string>)
    ensures |r| == |params|
    ensures forall i :: 0 <= i < |params| ==> r[i] == ParamText(params[i])
  {
    if params == [] then [] else [ParamText(params[0])] + ParamTexts(params[1..])
  }

  /**
   * The URI of one page request: the table's path, then `?` and the parameters
   * joined by `&` when there is at least one.
   */
  function RequestUri(baseId: string, tableId: string, offset: Option<string>,
                      filterFormula: Option<string>, encode: string -> string): string
  {
    var params := QueryParams(offset, filterFormula, encode);
    TablePath(baseId, tableId) + (if params == [] then "" else "?" + Join("&", ParamTexts(params)))
  }

  /** What `URLEncoder.encode` guarantees: its output never holds `?`, `&` or `=`. */
  ghost predicate EscapesDelimiters(encode: string -> string) {
    forall s :: '?' !in encode(s) && '&' !in encode(s) && '=' !in encode(s)
  }

  /** The part of a URI before its query. */
  function PathOf(uri: string): string {
    Split(uri, '?')[0]
  }

  /** Reads one `name=value` parameter. */
  function ParseParam(text: string): Option<Param> {
    var kv := Split(text, '=');
    if |kv| == 2 then Some(Param(kv[0], kv[1])) else None
  }

  function ParseParams(texts: seq<string>): Option<seq<Param>> {
    if texts == [] then Some([])
    else
      match (ParseParam(texts[0]), ParseParams(texts[1..]))
      case (Some(p), Some(ps)) => Some([p] + ps)
      case _ => None
  }

  /** The parameters of a URI's query: none without a `?`, nothing readable with two. */
  function QueryOf(uri: string): Option<seq<Param>> {
    var parts := Split(uri, '?');
    if |parts| == 1 then Some([])
    else if |parts| == 2 then ParseParams(Split(parts[1], '&'))
    else None
  }

  lemma ParseParamText(p: Param)
    requires '=' !in p.name && '=' !in p.value
    ensures ParseParam(ParamText(p)) == Some(p)
  {
    assert ParamText(p) == p.name + ['='] + p.value;
    SplitAtSeparator(p.name, p.value, '=');
    SplitNone(p.value, '=');
  }

  lemma {:induction false} ParseParamTexts(params: seq<Param>)
    requires forall i :: 0 <= i < |params| ==> '=' !in params[i].name && '=' !in params[i].value
    ensures ParseParams(ParamTexts(params)) == Some(params)
  {
    if params != [] {
      var texts := ParamTexts(params);
      ParseParamText(params[0]);
      ParseParamTexts(params[1..]);
      assert texts[0] == ParamText(params[0]);
      assert texts[1..] == ParamTexts(params[1..]);
      assert params == [params[0]] + params[1..];
    }
  }

  /** A text that no delimiter of a URI query can cut: no `?`, `&` or `=`. */
  predicate NoDelimiter(s: string) {
    '?' !in s && '&' !in s && '=' !in s
  }

  /** A text of ASCII letters only. */
  predicate IsWord(s: string) {
    forall i :: 0 <= i < |s| ==> 'a' <= s[i] <= 'z' || 'A' <= s[i] <= 'Z'
  }

  lemma WordHasNoDelimiter(s: string)
    requires IsWord(s)
    ensures NoDelimiter(s)
  {
  }

  /** The fixed parameter names hold no delimiter. */
  lemma ParamNamesAreClean()
    ensures NoDelimiter("offset") && NoDelimiter("filterByFormula")
  {
    assert IsWord("offset");
    WordHasNoDelimiter("offset");
    assert IsWord("filterByFormula");
    WordHasNoDelimiter("filterByFormula");
  }

  /** The table path holds no `?` when the ids hold none. */
  lemma TablePathHasNoQuery(baseId: string, tableId: string)
    requires '?' !in baseId && '?' !in tableId
    ensures '?' !in TablePath(baseId, tableId)
  {
    assert '?' !in ApiRoot;
    assert '?' !in "/";
  }

  /** Every parameter of the query map holds no delimiter when the encoder escapes them. */
  lemma QueryParamsAreClean(offset: Option<string>, filterFormula: Option<string>, encode: string -> string)
    requires EscapesDelimiters(encode)
    ensures var params := QueryParams(offset, filterFormula, encode);
      forall i :: 0 <= i < |params| ==> NoDelimiter(params[i].name) && NoDelimiter(params[i].value)
  {
    ParamNamesAreClean();
  }

  /** The text of a clean parameter holds neither `?` nor `&`, and reads back as that parameter. */
  lemma ParamTextIsClean(p: Param)
    requires NoDelimiter(p.name) && NoDelimiter(p.value)
    ensures '?' !in ParamText(p) && '&' !in ParamText(p)
    ensures ParseParam(ParamText(p)) == Some(p)
  {
    ParseParamText(p);
  }

  /** Clean parameters joined by `&` read back as themselves. */
  lemma QueryRoundTrip(params: seq<Param>)
    requires |params| >= 1
    requires forall i :: 0 <= i < |params| ==> NoDelimiter(params[i].name) && NoDelimiter(params[i].value)
    ensures '?' !in Join("&", ParamTexts(params))
    ensures ParseParams(Split(Join("&", ParamTexts(params)), '&')) == Some(params)
  {
    var texts := ParamTexts(params);
    forall i | 0 <= i < |texts| ensures '?' !in texts[i] && '&' !in texts[i] {
      ParamTextIsClean(params[i]);
    }
    JoinExcludes("&", texts, '?');
    SplitJoin(texts, '&');
    assert forall i :: 0 <= i < |params| ==> '=' !in params[i].name && '=' !in params[i].value;
    ParseParamTexts(params);
  }

  /**
   * The request URI is read back as the table's path and exactly the query map: the
   * parameters, their order and their encoded values survive, provided the ids hold no
   * `?` and the encoder escapes the delimiters.
   */
  lemma RequestUriRoundTrip(baseId: string, tableId: string, offset: Option<string>,
                            filterFormula: Option<string>, encode: string -> string)
    requires '?' !in baseId && '?' !in tableId
    requires EscapesDelimiters(encode)
    ensures var uri := RequestUri(baseId, tableId, offset, filterFormula, encode);
      PathOf(uri) == TablePath(baseId, tableId)
      && QueryOf(uri) == Some(QueryParams(offset, filterFormula, encode))
  {
    var path := TablePath(baseId, tableId);
    var params := QueryParams(offset, filterFormula, encode);
    var uri := RequestUri(baseId, tableId, offset, filterFormula, encode);
    TablePathHasNoQuery(baseId, tableId);
    if params == [] {
      assert uri == path + "";
      assert uri == path;
      SplitNone(path, '?');
    } else {
      var query := Join("&", ParamTexts(params));
      QueryParamsAreClean(offset, filterFormula, encode);
      QueryRoundTrip(params);
      assert uri == path + ("?" + query);
      assert uri == path + ['?'] + query;
      SplitAtSeparator(path, query, '?');
      SplitNone(query, '?');
      assert Split(uri, '?') == [path, query];
    }
  }

  /**
   * The parameters a request carries, read back from its URI: the offset exactly when
   * one is given and not blank, the filter formula likewise, each encoded.
   */
  lemma RequestUriCarries(baseId: string, tableId: string, offset: Option<string>,
                          filterFormula: Option<string>, encode: string -> string)
    requires '?' !in baseId && '?' !in tableId
    requires EscapesDelimiters(encode)
    ensures var q := QueryOf(RequestUri(baseId, tableId, offset, filterFormula, encode));
      && q.Some?
      && ParamValue(q.value, "offset") == (if IsNullOrBlank(offset) then None else Some(encode(offset.value)))
      && ParamValue(q.value, "filterByFormula")
         == (if IsNullOrBlank(filterFormula) then None else Some(encode(filterFormula.value)))
      && (q.value == [] <==> '?' !in RequestUri(baseId, tableId, offset, filterFormula, encode))
  {
    RequestUriRoundTrip(baseId, tableId, offset, filterFormula, encode);
    var params := QueryParams(offset, filterFormula, encode);
    if params != [] {
      var uri := RequestUri(baseId, tableId, offset, filterFormula, encode);
      var path := TablePath(baseId, tableId);
      assert uri == path + ("?" + Join("&", ParamTexts(params)));
      assert uri[|path|] == '?';
    } else {
      assert RequestUri(baseId, tableId, offset, filterFormula, encode) == TablePath(baseId, tableId) + "";
    }
  }

  // ---------------------------------------------------------------------------
  // Draining the pages (`fetchAirtableData`)
  // ---------------------------------------------------------------------------

  /** A page after which the loop asks for no more: an error status, or no next offset. */
  predicate IsLast<T>(page: Page<T>) {
    page.status != 200 || IsNullOrBlank(page.offset)
  }

  /** The server eventually answers with a last page. */
  predicate Terminates<T>(pages: seq<Page<T>>) {
    exists i :: 0 <= i < |pages| && IsLast(pages[i])
  }

  /** The index of the first last page: the number of requests the loop makes, minus one. */
  function StopIndex<T>(pages: seq<Page<T>>): (k: nat)
    requires Terminates(pages)
    ensures k < |pages| && IsLast(pages[k])
    ensures forall i :: 0 <= i < k ==> !IsLast(pages[i])
  {
    if IsLast(pages[0]) then 0
    else
      var w :| 0 <= w < |pages| && IsLast(pages[w]);
      assert IsLast(pages[1..][w - 1]);
      1 + StopIndex(pages[1..])
  }

  /** The records of the pages, page after page. */
  function Flatten<T>(pages: seq<Page<T>>): seq<AirtableRecord<T>> {
    if pages == [] then [] else Flatten(pages[..|pages| - 1]) + pages[|pages| - 1].records
  }

  /** The offset the i-th request carries: none at first, then the previous page's. */
  function OffsetBefore<T>(pages: seq<Page<T>>, i: nat): Option<string>
    requires i < |pages|
  {
    if i == 0 then None else pages[i - 1].offset
  }

  /** The error `fetchAirtableData` throws on a status other than 200. */
  function HttpError(body: string): string {
    "Error: " + body
  }

  /**
   * What draining the pages yields: the records of all pages up to the last one, or
   * the error of the first page with a status other than 200.
   */
  function FetchAll<T>(pages: seq<Page<T>>): Result<seq<AirtableRecord<T>>, string>
    requires Terminates(pages)
  {
    var k := StopIndex(pages);
    if pages[k].status != 200 then Failure(HttpError(pages[k].body)) else Success(Flatten(pages[..k + 1]))
  }

  /** The URIs of the requests the loop makes, in order. */
  function Requests<T>(baseId: string, tableId: string, filterFormula: Option<string>,
                       encode: string -> string, pages: seq<Page<T>>): (r: seq<string>)
    requires Terminates(pages)
    ensures |r| == StopIndex(pages) + 1
    ensures forall i :: 0 <= i < |r| ==> r[i] == RequestUri(baseId, tableId, OffsetBefore(pages, i), filterFormula, encode)
  {
    seq(StopIndex(pages) + 1, i requires 0 <= i <= StopIndex(pages) =>
      RequestUri(baseId, tableId, OffsetBefore(pages, i), filterFormula, encode))
  }

  /**
   * `fetchAirtableData`: requests page after page, the first without an offset and
   * each next one with the offset the previous page returned, appending each page's
   * records, until a page returns no offset; a status other than 200 throws with the
   * body. Returns the outcome and the URIs requested.
   */
  method FetchAirtableData<T>(baseId: string, tableId: string, filterFormula: Option<string>,
                              encode: string -> string, pages: seq<Page<T>>)
    returns (result: Result<seq<AirtableRecord<T>>, string>, requests: seq<string>)
    requires Terminates(pages)
    ensures result == FetchAll(pages)
    ensures requests == Requests(baseId, tableId, filterFormula, encode, pages)
  {
    ghost var stop := StopIndex(pages);
    ghost var all := Requests(baseId, tableId, filterFormula, encode, pages);
    var data: seq<AirtableRecord<T>> := [];
    var offset: Option<string> := None;
    var i := 0;
    requests := [];
    while true
      invariant 0 <= i <= stop
      invariant data == Flatten(pages[..i])
      invariant offset == OffsetBefore(pages, i)
      invariant requests == all[..i]
      decreases stop - i
    {
      var page := pages[i];
      assert all[i] == RequestUri(baseId, tableId, offset, filterFormula, encode);
      assert all[..i + 1] == all[..i] + [all[i]];
      requests := requests + [RequestUri(baseId, tableId, offset, filterFormula, encode)];
      if page.status != 200 {
        StopsAtLast(pages, i);
        assert requests == all;
        result := Failure(HttpError(page.body));
        return;
      }
      LastPageOfPrefix(pages, i);
      data := data + page.records;
      offset := page.offset;
      i := i + 1;
      if IsNullOrBlank(offset) {
        StopsAtLast(pages, i - 1);
        assert requests == all;
        break;
      }
      assert !IsLast(pages[i - 1]);
      NotLastBeforeStop(pages, i - 1);
    }
    result := Success(data);
  }

  /** A last page at or before the stop index is the one at the stop index. */
  lemma StopsAtLast<T>(pages: seq<Page<T>>, i: nat)
    requires Terminates(pages) && i <= StopIndex(pages) && IsLast(pages[i])
    ensures i == StopIndex(pages)
  {
  }

  /** A page that is not last is before the stop index. */
  lemma NotLastBeforeStop<T>(pages: seq<Page<T>>, i: nat)
    requires Terminates(pages) && i <= StopIndex(pages) && !IsLast(pages[i])
    ensures i < StopIndex(pages)
  {
  }

  /** One more page read appends its records. */
  lemma LastPageOfPrefix<T>(pages: seq<Page<T>>, i: nat)
    requires i < |pages|
    ensures Flatten(pages[..i + 1]) == Flatten(pages[..i]) + pages[i].records
  {
    assert pages[..i + 1][..i] == pages[..i];
  }

  /** Flattening respects concatenation: the records keep their page order. */
  lemma {:induction false} FlattenAppend<T>(a: seq<Page<T>>, b: seq<Page<T>>)
    ensures Flatten(a + b) == Flatten(a) + Flatten(b)
    decreases |b|
  {
    if b == [] {
      assert a + b == a;
    } else {
      var c := a + b;
      assert c[..|c| - 1] == a + b[..|b| - 1];
      FlattenAppend(a, b[..|b| - 1]);
    }
  }

  /** The number of records fetched is the sum of the pages' counts. */
  function RecordCount<T>(pages: seq<Page<T>>): nat {
    if pages == [] then 0 else |pages[0].records| + RecordCount(pages[1..])
  }

  lemma {:induction false} FlattenCount<T>(pages: seq<Page<T>>)
    ensures |Flatten(pages)| == RecordCount(pages)
  {
    if pages != [] {
      assert pages == [pages[0]] + pages[1..];
      FlattenAppend([pages[0]], pages[1..]);
      assert [pages[0]][..0] == [];
      FlattenCount(pages[1..]);
    }
  }

  /**
   * The drain succeeds exactly when every page it reads has status 200; it then
   * returns all their records in page order, having read pages with non-blank offsets
   * up to one without; otherwise it fails with the body of the first page whose status
   * is not 200, and returns no records at all.
   */
  lemma FetchAllOutcome<T>(pages: seq<Page<T>>)
    requires Terminates(pages)
    ensures var k := StopIndex(pages);
      && (FetchAll(pages).Success? <==> forall i :: 0 <= i <= k ==> pages[i].status == 200)
      && (forall i :: 0 <= i < k ==> pages[i].status == 200 && !IsNullOrBlank(pages[i].offset))
      && (FetchAll(pages).Success? ==>
            IsNullOrBlank(pages[k].offset)
            && FetchAll(pages).value == Flatten(pages[..k + 1])
            && |FetchAll(pages).value| == RecordCount(pages[..k + 1]))
      && (FetchAll(pages).Failure? ==> FetchAll(pages).error == HttpError(pages[k].body) && pages[k].status != 200)
  {
    FlattenCount(pages[..StopIndex(pages) + 1]);
  }

  /**
   * The requests the drain makes, read back from their URIs: the first carries no
   * offset, each later one the encoded offset of the page before, and every one the
   * same filter formula.
   */
  lemma RequestsFollowOffsets<T>(baseId: string, tableId: string, filterFormula: Option<string>,
                                 encode: string -> string, pages: seq<Page<T>>, i: nat)
    requires '?' !in baseId && '?' !in tableId
    requires EscapesDelimiters(encode)
    requires Terminates(pages) && i <= StopIndex(pages)
    ensures var q := QueryOf(Requests(baseId, tableId, filterFormula, encode, pages)[i]);
      && q.Some?
      && PathOf(Requests(baseId, tableId, filterFormula, encode, pages)[i]) == TablePath(baseId, tableId)
      && ParamValue(q.value, "offset") == (if i == 0 then None else Some(encode(pages[i - 1].offset.value)))
      && ParamValue(q.value, "filterByFormula")
         == (if IsNullOrBlank(filterFormula) then None else Some(encode(filterFormula.value)))
  {
    RequestUriRoundTrip(baseId, tableId, OffsetBefore(pages, i), filterFormula, encode);
    RequestUriCarries(baseId, tableId, OffsetBefore(pages, i), filterFormula, encode);
  }

  // ---------------------------------------------------------------------------
  // The id-to-fields map (`fetchInstanceMap`)
  // ---------------------------------------------------------------------------

  /**
   * `associate { it.id to it.fields }`: the map from each record's id to its fields,
   * a later record replacing an earlier one with the same id.
   */
  function Associate<T>(records: seq<AirtableRecord<T>>): map<string, T> {
    if records == [] then map[]
    else
      var last := records[|records| - 1];
      Associate(records[..|records| - 1])[last.id := last.fields]
  }

  /** The keys of the map are exactly the records' ids. */
  lemma {:induction false} AssociateKeys<T>(records: seq<AirtableRecord<T>>, key: string)
    ensures key in Associate(records) <==> exists i :: 0 <= i < |records| && records[i].id == key
  {
    if records != [] {
      var init := records[..|records| - 1];
      AssociateKeys(init, key);
      if key in Associate(init) {
        var i :| 0 <= i < |init| && init[i].id == key;
        assert records[i].id == key;
      }
      if i :| 0 <= i < |records| - 1 && records[i].id == key {
        assert init[i].id == key;
      }
    }
  }

  /** A record that no later record shares its id with gives that id's entry: the last write wins. */
  lemma {:induction false} AssociateLastWins<T>(records: seq<AirtableRecord<T>>, i: nat)
    requires i < |records|
    requires forall j :: i < j < |records| ==> records[j].id != records[i].id
    ensures records[i].id in Associate(records)
    ensures Associate(records)[records[i].id] == records[i].fields
  {
    if i < |records| - 1 {
      var init := records[..|records| - 1];
      assert init[i] == records[i];
      AssociateLastWins(init, i);
    }
  }

  /**
   * `fetchInstanceMap`: drains the whole table without a filter and maps each record's
   * id to its fields; a failed request fails the whole call.
   */
  method FetchInstanceMap<T>(baseId: string, tableId: string, encode: string -> string, pages: seq<Page<T>>)
    returns (result: Result<map<string, T>, string>, requests: seq<string>)
    requires Terminates(pages)
    ensures requests == Requests(baseId, tableId, None, encode, pages)
    ensures FetchAll(pages).Success? ==> result == Success(Associate(FetchAll(pages).value))
    ensures FetchAll(pages).Failure? ==> result == Failure(FetchAll(pages).error)
  {
    var records;
    records, requests := FetchAirtableData(baseId, tableId, None, encode, pages);
    match records
    case Success(rs) => result := Success(Associate(rs));
    case Failure(e) => result := Failure(e);
  }

  /** No request of `fetchInstanceMap` carries a filter formula. */
  lemma InstanceMapRequestsAreUnfiltered<T>(baseId: string, tableId: string, encode: string -> string,
                                             pages: seq<Page<T>>, i: nat)
    requires '?' !in baseId && '?' !in tableId
    requires EscapesDelimiters(encode)
    requires Terminates(pages) && i <= StopIndex(pages)
    ensures var q := QueryOf(Requests(baseId, tableId, None, encode, pages)[i]);
      q.Some? && ParamValue(q.value, "filterByFormula") == None
  {
    RequestsFollowOffsets(baseId, tableId, None, encode, pages, i);
  }
}
