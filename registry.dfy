/**
 * The records of the three Airtable tables (registry items, partners, document
 * types) and how a registry item's partner and type are found by id: the computed
 * getters of the app draft and the in-place assignment of the src draft.
 */
module Registry {
  import opened Wrappers
  import opened Text

  /** Kotlin's `Int`. */
  type Int32 = x: int | -0x8000_0000 <= x < 0x8000_0000

  datatype DocumentType = DocumentType(name: string)

  datatype Partner = Partner(name: string, notes: string)

  /**
   * One row of the registry (invoice) table, restricted to the fields the program
   * reads. `assignedPartnerIds` and `assignedTypeIds` are decoded from the JSON keys
   * "partner" and "type". `partner` and `docType` are the src draft's transient
   * fields: decoding leaves them null and only `ResolveInPlace` sets them.
   */
  datatype RegistryItem = RegistryItem(
    seqNo: Int32,
    name: Option<string>,
    notes: Option<string>,
    keywords: Option<seq<string>>,
    direction: Option<string>,
    googleDriveId: Option<string>,
    assignedPartnerIds: Option<seq<string>>,
    assignedTypeIds: Option<seq<string>>,
    partner: Option<Partner>,
    docType: Option<DocumentType>)

  /** An item as decoding produces it: the transient fields are still null. */
  predicate IsDecoded(item: RegistryItem) {
    item.partner.None? && item.docType.None?
  }

  // ---------------------------------------------------------------------------
  // Lookup by the first id
  // ---------------------------------------------------------------------------

  /** Kotlin's `map[key]`: null for a missing key. */
  function Lookup<V>(m: map<string, V>, key: string): (r: Option<V>)
    ensures r.Some? <==> key in m
    ensures r.Some? ==> r.value == m[key]
  {
    if key in m then Some(m[key]) else None
  }

  /** Kotlin's `ids?.firstOrNull()`. */
  function FirstId(ids: Option<seq<string>>): (r: Option<string>)
    ensures r.Some? <==> ids.Some? && |ids.value| > 0
    ensures r.Some? ==> r.value == ids.value[0]
  {
    if ids.Some? && |ids.value| > 0 then Some(ids.value[0]) else None
  }

  /**
   * The app draft's getter shape,
   * `if (!ids.isNullOrEmpty()) m[ids.first()] else null`.
   */
  function LookupFirst<V>(ids: Option<seq<string>>, m: map<string, V>): Option<V> {
    if ids.Some? && |ids.value| > 0 then Lookup(m, ids.value[0]) else None
  }

  /** The app draft's `RegistryItem.partner` getter, over the loaded partner table. */
  function PartnerOf(item: RegistryItem, partners: map<string, Partner>): Option<Partner> {
    LookupFirst(item.assignedPartnerIds, partners)
  }

  /** The app draft's `RegistryItem.type` getter, over the loaded type table. */
  function TypeOf(item: RegistryItem, documentTypes: map<string, DocumentType>): Option<DocumentType> {
    LookupFirst(item.assignedTypeIds, documentTypes)
  }

  /**
   * What the app draft's getters show for `item`, as a value: the item with its
   * partner and type fields holding what the getters return.
   */
  function AppView(item: RegistryItem, partners: map<string, Partner>,
                   documentTypes: map<string, DocumentType>): RegistryItem
  {
    item.(partner := PartnerOf(item, partners), docType := TypeOf(item, documentTypes))
  }

  /** A resolved partner is the table entry of the first assigned id; otherwise there is none. */
  lemma PartnerOfMeaning(item: RegistryItem, partners: map<string, Partner>)
    ensures var ids := item.assignedPartnerIds;
      PartnerOf(item, partners).Some? <==> (ids.Some? && |ids.value| > 0 && ids.value[0] in partners)
    ensures PartnerOf(item, partners).Some? ==>
      PartnerOf(item, partners).value == partners[item.assignedPartnerIds.value[0]]
  {
  }

  /** A resolved type is the table entry of the first assigned id; otherwise there is none. */
  lemma TypeOfMeaning(item: RegistryItem, documentTypes: map<string, DocumentType>)
    ensures var ids := item.assignedTypeIds;
      TypeOf(item, documentTypes).Some? <==> (ids.Some? && |ids.value| > 0 && ids.value[0] in documentTypes)
    ensures TypeOf(item, documentTypes).Some? ==>
      TypeOf(item, documentTypes).value == documentTypes[item.assignedTypeIds.value[0]]
  {
  }

  /** Only the first id of the list is consulted: the others never matter. */
  lemma OnlyFirstIdMatters<V>(ids1: seq<string>, ids2: seq<string>, m: map<string, V>)
    requires |ids1| > 0 && |ids2| > 0 && ids1[0] == ids2[0]
    ensures LookupFirst(Some(ids1), m) == LookupFirst(Some(ids2), m)
  {
  }

  // ---------------------------------------------------------------------------
  // The src draft: assignment in place after fetching
  // ---------------------------------------------------------------------------

  /**
   * The body of the src draft's `onEach` in `fetch`: when the item has a first type id
   * its type becomes the table's entry for it (null when missing), then likewise for
   * the partner; an item without ids keeps what it had.
   */
  function ResolveInPlace(item: RegistryItem, documentTypes: map<string, DocumentType>,
                          partners: map<string, Partner>): RegistryItem
  {
    var typed := match FirstId(item.assignedTypeIds)
      case Some(id) => item.(docType := Lookup(documentTypes, id))
      case None => item;
    match FirstId(typed.assignedPartnerIds)
    case Some(id) => typed.(partner := Lookup(partners, id))
    case None => typed
  }

  /**
   * On a freshly decoded item the src draft's assignment gives exactly what the app
   * draft's getters compute, and changes nothing but the two resolved fields.
   */
  lemma ResolveInPlaceMatchesGetters(item: RegistryItem, documentTypes: map<string, DocumentType>,
                                     partners: map<string, Partner>)
    requires IsDecoded(item)
    ensures ResolveInPlace(item, documentTypes, partners) == AppView(item, partners, documentTypes)
  {
  }

  /** The src draft's `onEach` over every fetched item, in order. */
  function ResolveAll(items: seq<RegistryItem>, documentTypes: map<string, DocumentType>,
                      partners: map<string, Partner>): (r: seq<RegistryItem>)
    ensures |r| == |items|
    ensures forall i :: 0 <= i < |items| ==> r[i] == ResolveInPlace(items[i], documentTypes, partners)
  {
    if items == [] then []
    else [ResolveInPlace(items[0], documentTypes, partners)] + ResolveAll(items[1..], documentTypes, partners)
  }

  /**
   * Joining decoded items: each keeps its position and its own fields, and carries the
   * partner and type of its first ids, or none.
   */
  lemma ResolveAllJoins(items: seq<RegistryItem>, documentTypes: map<string, DocumentType>,
                        partners: map<string, Partner>, i: nat)
    requires i < |items| && IsDecoded(items[i])
    ensures var r := ResolveAll(items, documentTypes, partners)[i];
      && r.seqNo == items[i].seqNo
      && r.assignedPartnerIds == items[i].assignedPartnerIds
      && r.assignedTypeIds == items[i].assignedTypeIds
      && r.googleDriveId == items[i].googleDriveId
      && r.partner == PartnerOf(items[i], partners)
      && r.docType == TypeOf(items[i], documentTypes)
  {
    ResolveInPlaceMatchesGetters(items[i], documentTypes, partners);
  }

  // ---------------------------------------------------------------------------
  // toString
  // ---------------------------------------------------------------------------

  /** A Kotlin string template of a `String?`. */
  function Show(s: Option<string>): string {
    match s
    case None => "null"
    case Some(v) => v
  }

  /** A Kotlin string template of a `List<String>?`: `[a, b]`. */
  function ShowList(xs: Option<seq<string>>): string {
    match xs
    case None => "null"
    case Some(v) => "[" + Join(", ", v) + "]"
  }

  /** `RegistryItem.toString()`: name, notes, keywords, direction and seq, in that order. */
  function ToString(item: RegistryItem): string {
    ShownFields(item) + "=" + FormatInt(item.seqNo, 0) + ")"
  }

  /** The part of `toString` up to the `=` of the sequence number. */
  function ShownFields(item: RegistryItem): string {
    "RegistryItem(name=" + Show(item.name) + ", notes=" + Show(item.notes)
    + ", keywords=" + ShowList(item.keywords) + ", direction=" + Show(item.direction) + ", seq"
  }

  /** Reads the sequence number back from the end of a `toString` text. */
  function SeqFromText(s: string): Option<int> {
    var pieces := Split(s, '=');
    var last := pieces[|pieces| - 1];
    if |last| > 0 && last[|last| - 1] == ')' then ParseInt(last[..|last| - 1]) else None
  }

  /** Whatever precedes the last `=` does not matter: what lies between it and the closing `)` is parsed. */
  lemma {:induction false} SeqFromTextReadsLastValue(head: string, value: string)
    requires '=' !in value
    ensures SeqFromText(head + "=" + value + ")") == ParseInt(value)
  {
    var tail := value + ")";
    assert head + "=" + value + ")" == head + ['='] + tail;
    assert '=' !in tail by {
      forall i | 0 <= i < |tail| ensures tail[i] != '=' {
        if i < |value| { assert tail[i] == value[i]; }
      }
    }
    SplitLastPiece(head, tail, '=');
    assert tail[..|tail| - 1] == value;
  }

  /** The sequence number is read back from any text that ends with `=<number>)`. */
  lemma SeqFromTextOfSuffix(head: string, n: int)
    ensures SeqFromText(head + "=" + FormatInt(n, 0) + ")") == Some(n)
  {
    FormatIntExcludes(n, 0, '=');
    SeqFromTextReadsLastValue(head, FormatInt(n, 0));
    FormatIntRoundTrip(n, 0);
  }

  /**
   * The text shows nothing but the five fields, and the sequence number can be read
   * back from it whatever the free-text fields contain.
   */
  lemma ToStringShowsSeq(item: RegistryItem, other: RegistryItem)
    ensures SeqFromText(ToString(item)) == Some(item.seqNo as int)
    ensures other.name == item.name && other.notes == item.notes && other.keywords == item.keywords
      && other.direction == item.direction && other.seqNo == item.seqNo
      ==> ToString(other) == ToString(item)
  {
    SeqFromTextOfSuffix(ShownFields(item), item.seqNo);
  }
}
