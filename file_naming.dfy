/**
 * Where a downloaded file goes: the MIME-type table, the sanitising of partner and
 * type names, the per-partner directory name, the file name in the two layouts of
 * the app draft and in the src draft's seq-first layout, and the target path of
 * both drafts' `downloadFile`.
 *
 * The MIME type of the Drive file is a parameter, and so are the path separator and
 * `File.absolutePath`. Creating directories and writing the file are not modelled.
 */
module FileNaming {
  import opened Wrappers
  import opened Text
  import opened Registry
  import opened FilterFormula

  /** `MIME_MAP`: the file extension of each MIME type a registry file may have. */
  const MimeMap: map<string, string> := map[
    "application/pdf" := "pdf",
    "text/csv" := "csv",
    "application/msword" := "doc",
    "application/vnd.openxmlformats-officedocument.wordprocessingml.document" := "docx",
    "image/jpeg" := "jpg",
    "image/png" := "png",
    "application/vnd.ms-powerpoint" := "ppt",
    "application/vnd.openxmlformats-officedocument.presentationml.presentation" := "pptx",
    "text/plain" := "txt",
    "application/vnd.ms-excel" := "xls",
    "application/vnd.openxmlformats-officedocument.spreadsheetml.sheet" := "xlsx",
    "application/zip" := "zip"]

  /** The src draft's `TARGET_DIR`. */
  const TargetDir: string := "accounting-files"

  /** The failures of naming a file: Kotlin's `error(...)`, as a value. */
  datatype NamingError = NoPartnerFound(seqNo: int) | MimeTypeNotFound(mimeType: string)

  const NoPartnerPrefix: string := "No partner found for registry item #"
  const MimeTypePrefix: string := "Mime type not found '"

  /** The message of the `IllegalStateException` each failure throws. */
  function ErrorMessage(e: NamingError): string {
    match e
    case NoPartnerFound(n) => NoPartnerPrefix + FormatInt(n, 0) + "."
    case MimeTypeNotFound(m) => MimeTypePrefix + m + "'."
  }

  /** The messages name what is missing: the item's sequence number, or the MIME type. */
  lemma ErrorMessageNames(e: NamingError)
    ensures var msg := ErrorMessage(e);
      e.NoPartnerFound? ==> ParseInt(msg[|NoPartnerPrefix|..|msg| - 1]) == Some(e.seqNo)
    ensures var msg := ErrorMessage(e);
      e.MimeTypeNotFound? ==> msg[|MimeTypePrefix|..|MimeTypePrefix| + |e.mimeType|] == e.mimeType
  {
    var msg := ErrorMessage(e);
    if e.NoPartnerFound? {
      var digits := FormatInt(e.seqNo, 0);
      assert msg == NoPartnerPrefix + digits + ".";
      assert msg[|NoPartnerPrefix|..|msg| - 1] == digits;
      FormatIntRoundTrip(e.seqNo, 0);
    }
  }

  // ---------------------------------------------------------------------------
  // The MIME table
  // ---------------------------------------------------------------------------

  /** The extension of a MIME type, or the failure for one the table lacks. */
  function Extension(mimeType: string): Result<string, NamingError> {
    if mimeType in MimeMap then Success(MimeMap[mimeType]) else Failure(MimeTypeNotFound(mimeType))
  }

  /** Every extension in the table is a non-empty text without a dot. */
  lemma ExtensionsHaveNoDot(mimeType: string)
    requires mimeType in MimeMap
    ensures |MimeMap[mimeType]| > 0 && '.' !in MimeMap[mimeType]
  {
  }

  // ---------------------------------------------------------------------------
  // Sanitising
  // ---------------------------------------------------------------------------

  /** The characters `sanitizeFileName` replaces: the class `[<>:"/\\|?*.]`. */
  predicate IsReserved(c: char) {
    c == '<' || c == '>' || c == ':' || c == '"' || c == '/' || c == '\\' || c == '|' || c == '?'
    || c == '*' || c == '.'
  }

  /**
   * `sanitizeFileName`: every reserved character becomes `_`, every other character
   * stays, so the length is kept and no reserved character is left.
   */
  function Sanitize(s: string): (r: string)
    ensures |r| == |s|
    ensures forall i :: 0 <= i < |s| ==> r[i] == (if IsReserved(s[i]) then '_' else s[i])
    ensures forall c :: c in r ==> !IsReserved(c)
  {
    if s == [] then [] else [if IsReserved(s[0]) then '_' else s[0]] + Sanitize(s[1..])
  }

  /** Sanitising a sanitised name changes nothing. */
  lemma SanitizeIdempotent(s: string)
    ensures Sanitize(Sanitize(s)) == Sanitize(s)
  {
    var r := Sanitize(s);
    assert forall i :: 0 <= i < |r| ==> !IsReserved(r[i]) by {
      forall i | 0 <= i < |r| ensures !IsReserved(r[i]) {
        assert r[i] in r;
      }
    }
  }

  /** A name without reserved characters is left as it is. */
  lemma SanitizeKeepsClean(s: string)
    requires forall i :: 0 <= i < |s| ==> !IsReserved(s[i])
    ensures Sanitize(s) == s
  {
  }

  /** Sanitising neither makes nor unmakes a blank name: `_` is not whitespace and no reserved character is. */
  lemma SanitizeKeepsBlank(s: string)
    ensures IsBlank(Sanitize(s)) <==> IsBlank(s)
  {
    var r := Sanitize(s);
    if IsBlank(r) {
      forall i | 0 <= i < |s| ensures IsWhitespace(s[i]) {
        assert IsWhitespace(r[i]);
      }
    }
  }

  // ---------------------------------------------------------------------------
  // The directory name
  // ---------------------------------------------------------------------------

  /** `composeDirNameFor`: the sanitised partner name, trimmed; an error naming the item without a partner. */
  function DirName(item: RegistryItem): Result<string, NamingError> {
    match item.partner
    case None => Failure(NoPartnerFound(item.seqNo))
    case Some(p) => Success(Trim(Sanitize(p.name)))
  }

  /**
   * The directory name exists exactly when the item has a partner. It is one path
   * component (no separator, no dot, so never `.` or `..`), has no surrounding
   * whitespace, and is empty exactly when the partner's name is blank.
   */
  lemma DirNameMeaning(item: RegistryItem)
    ensures DirName(item).Success? <==> item.partner.Some?
    ensures DirName(item).Failure? ==> DirName(item).error == NoPartnerFound(item.seqNo)
    ensures DirName(item).Success? ==>
      var d := DirName(item).value;
      && (forall c :: c in d ==> !IsReserved(c))
      && (d == [] || (!IsWhitespace(d[0]) && !IsWhitespace(d[|d| - 1])))
      && (d == [] <==> IsBlank(item.partner.value.name))
  {
    if item.partner.Some? {
      var s := Sanitize(item.partner.value.name);
      TrimKeepsCharacters(s);
      TrimBlank(s);
      TrimEdges(s);
      SanitizeKeepsBlank(item.partner.value.name);
    }
  }

  // ---------------------------------------------------------------------------
  // The file name
  // ---------------------------------------------------------------------------

  /** `partner?.let { append(sanitizeFileName(it.name)) }`: the sanitised name, or nothing. */
  function PartnerSegment(item: RegistryItem): string {
    match item.partner
    case None => ""
    case Some(p) => Sanitize(p.name)
  }

  /** `type?.let { append(sanitizeFileName(it.name)) }`: the sanitised name, or nothing. */
  function TypeSegment(item: RegistryItem): string {
    match item.docType
    case None => ""
    case Some(t) => Sanitize(t.name)
  }

  /** `"%04d%02d".format(year, month)`. */
  function YearMonthText(year: Short, month: Short): string {
    FormatInt(year, 4) + FormatInt(month, 2)
  }

  /** What follows the first two segments in every layout: `_<type>_<yyyymm>.<ext>`. */
  function NameTail(item: RegistryItem, year: Short, month: Short, ext: string): string {
    "_" + TypeSegment(item) + "_" + YearMonthText(year, month) + "." + ext
  }

  /**
   * The app draft's `composeFileNameFor`: with separate partner directories
   * `<seq>_<partner>`, otherwise `<partner>_<seq>`, then `_<type>_<yyyymm>.<ext>`;
   * the sequence number padded to five digits. A missing partner or type leaves its
   * segment empty; only an unknown MIME type fails.
   */
  function FileName(separatePartnerDirs: bool, mimeType: string, item: RegistryItem,
                    year: Short, month: Short): Result<string, NamingError>
  {
    var seqText := FormatInt(item.seqNo, 5);
    var head := if separatePartnerDirs then seqText + "_" + PartnerSegment(item)
                else PartnerSegment(item) + "_" + seqText;
    match Extension(mimeType)
    case Failure(e) => Failure(e)
    case Success(ext) => Success(head + NameTail(item, year, month, ext))
  }

  /** The src draft's `composeFileNameFor`: always `<seq>_<partner>_<type>_<yyyymm>.<ext>`. */
  function SrcFileName(mimeType: string, item: RegistryItem, year: Short, month: Short): Result<string, NamingError> {
    match Extension(mimeType)
    case Failure(e) => Failure(e)
    case Success(ext) =>
      Success(FormatInt(item.seqNo, 5) + "_" + PartnerSegment(item) + "_" + TypeSegment(item) + "_"
              + YearMonthText(year, month) + "." + ext)
  }

  /** The src draft names files as the app draft does with separate partner directories. */
  lemma SrcFileNameIsSeqFirst(mimeType: string, item: RegistryItem, year: Short, month: Short)
    ensures SrcFileName(mimeType, item, year, month) == FileName(true, mimeType, item, year, month)
  {
    if mimeType in MimeMap {
      var ext := MimeMap[mimeType];
      var p, t, ym := PartnerSegment(item), TypeSegment(item), YearMonthText(year, month);
      RegroupTail(FormatInt(item.seqNo, 5) + "_" + p, t, ym, ext);
    }
  }

  /** Concatenation regrouped around the tail of a name. */
  lemma RegroupTail(head: string, t: string, ym: string, ext: string)
    ensures head + "_" + t + "_" + ym + "." + ext == head + ("_" + t + "_" + ym + "." + ext)
  {
  }

  /**
   * Naming fails exactly for a MIME type the table lacks, whatever the partner and
   * type; otherwise the name holds exactly one dot, followed by the table's extension.
   */
  lemma FileNameExtension(separatePartnerDirs: bool, mimeType: string, item: RegistryItem,
                          year: Short, month: Short)
    ensures var r := FileName(separatePartnerDirs, mimeType, item, year, month);
      && (r.Success? <==> mimeType in MimeMap)
      && (r.Failure? ==> r.error == MimeTypeNotFound(mimeType))
      && (r.Success? ==> Split(r.value, '.') == [Split(r.value, '.')[0], MimeMap[mimeType]])
  {
    if mimeType in MimeMap {
      var ext := MimeMap[mimeType];
      ExtensionsHaveNoDot(mimeType);
      var seqText := FormatInt(item.seqNo, 5);
      var p, t, ym := PartnerSegment(item), TypeSegment(item), YearMonthText(year, month);
      var head := if separatePartnerDirs then seqText + "_" + p else p + "_" + seqText;
      SegmentsHaveNoDot(item, year, month);
      var stem := head + "_" + t + "_" + ym;
      assert '.' !in stem;
      RegroupName(head, t, ym, ext);
      SplitAtSeparator(stem, ext, '.');
      SplitNone(ext, '.');
    }
  }

  /** No segment of a file name holds a dot. */
  lemma SegmentsHaveNoDot(item: RegistryItem, year: Short, month: Short)
    ensures '.' !in FormatInt(item.seqNo, 5) && '.' !in PartnerSegment(item) && '.' !in TypeSegment(item)
    ensures '.' !in YearMonthText(year, month) && '.' !in "_"
  {
    FormatIntExcludes(item.seqNo, 5, '.');
    FormatIntExcludes(year, 4, '.');
    FormatIntExcludes(month, 2, '.');
  }

  /** A name regrouped into the part before the dot and the extension. */
  lemma RegroupName(head: string, t: string, ym: string, ext: string)
    ensures head + ("_" + t + "_" + ym + "." + ext) == (head + "_" + t + "_" + ym) + ['.'] + ext
  {
  }

  /**
   * The two layouts hold the same segments, the sequence number and the partner
   * swapped: `<seq>_<partner>` with separate partner directories, `<partner>_<seq>`
   * without.
   */
  lemma FileNameLayouts(mimeType: string, item: RegistryItem, year: Short, month: Short)
    requires mimeType in MimeMap
    ensures var seqText, p := FormatInt(item.seqNo, 5), PartnerSegment(item);
      var tail := NameTail(item, year, month, MimeMap[mimeType]);
      && FileName(true, mimeType, item, year, month) == Success(seqText + "_" + p + tail)
      && FileName(false, mimeType, item, year, month) == Success(p + "_" + seqText + tail)
  {
  }

  /** Reads the sequence number back from a seq-first file name: the number before the first `_`. */
  function SeqOfFileName(name: string): Option<int> {
    ParseInt(Split(name, '_')[0])
  }

  /** A seq-first file name gives back the sequence number it was made with, whatever the partner, type and extension. */
  lemma SeqOfFileNameRoundTrip(mimeType: string, item: RegistryItem, year: Short, month: Short)
    requires mimeType in MimeMap
    ensures SeqOfFileName(FileName(true, mimeType, item, year, month).value) == Some(item.seqNo as int)
  {
    var seqText := FormatInt(item.seqNo, 5);
    var rest := PartnerSegment(item) + NameTail(item, year, month, MimeMap[mimeType]);
    RegroupSeqFirst(seqText, PartnerSegment(item), NameTail(item, year, month, MimeMap[mimeType]));
    FormatIntExcludes(item.seqNo, 5, '_');
    SplitAtSeparator(seqText, rest, '_');
    FormatIntRoundTrip(item.seqNo, 5);
  }

  /** A seq-first name regrouped around its first `_`. */
  lemma RegroupSeqFirst(seqText: string, p: string, tail: string)
    ensures seqText + "_" + p + tail == seqText + ['_'] + (p + tail)
  {
  }

  /** Items with different sequence numbers get different seq-first file names. */
  lemma SeqFirstNamesDistinct(mimeType: string, a: RegistryItem, b: RegistryItem, year: Short, month: Short)
    requires mimeType in MimeMap
    requires a.seqNo != b.seqNo
    ensures FileName(true, mimeType, a, year, month) != FileName(true, mimeType, b, year, month)
  {
    SeqOfFileNameRoundTrip(mimeType, a, year, month);
    SeqOfFileNameRoundTrip(mimeType, b, year, month);
  }

  /** A registry item with only a sequence number, a partner and a type. */
  function Invoice(seqNo: Int32, partner: Option<Partner>, docType: Option<DocumentType>): RegistryItem {
    RegistryItem(seqNo, None, None, None, None, None, None, None, partner, docType)
  }

  /**
   * Item 7 of March 2024, partner "Acme, Inc.", type "Invoice", a PDF, with separate
   * partner directories: the padding of `%05d` and `%04d%02d` and the sanitised dot.
   */
  lemma SeparateLayoutExample(mimeType: string, item: RegistryItem, year: Short, month: Short)
    requires mimeType == "application/pdf" && year == 2024 && month == 3
    requires item == Invoice(7, Some(Partner("Acme, Inc.", "")), Some(DocumentType("Invoice")))
    ensures FileName(true, mimeType, item, year, month) == Success("00007_Acme, Inc__Invoice_202403.pdf")
  {
    PdfExtension(mimeType);
    FileNameLayouts(mimeType, item, year, month);
    ExampleSegments(item.partner.value.name, item.docType.value.name);
    ExampleNumbers();
    var head := FormatInt(item.seqNo, 5) + "_" + PartnerSegment(item);
    var tail := NameTail(item, year, month, MimeMap[mimeType]);
    ExampleHead(FormatInt(item.seqNo, 5), PartnerSegment(item));
    ExampleTail(TypeSegment(item), FormatInt(year, 4), FormatInt(month, 2), MimeMap[mimeType]);
    ExampleWhole(head, tail);
  }

  lemma ExampleHead(seqText: string, partner: string)
    requires seqText == "00007" && partner == "Acme, Inc_"
    ensures seqText + "_" + partner == "00007_Acme, Inc_"
  {
  }

  lemma ExampleTail(docType: string, year: string, month: string, ext: string)
    requires docType == "Invoice" && year == "2024" && month == "03" && ext == "pdf"
    ensures "_" + docType + "_" + (year + month) + "." + ext == "_Invoice_202403.pdf"
  {
  }

  lemma ExampleWhole(head: string, tail: string)
    requires head == "00007_Acme, Inc_" && tail == "_Invoice_202403.pdf"
    ensures head + tail == "00007_Acme, Inc__Invoice_202403.pdf"
  {
  }

  lemma PdfExtension(mimeType: string)
    requires mimeType == "application/pdf"
    ensures mimeType in MimeMap && MimeMap[mimeType] == "pdf"
  {
  }

  lemma ExampleSegments(partner: string, docType: string)
    requires partner == "Acme, Inc." && docType == "Invoice"
    ensures Sanitize(partner) == "Acme, Inc_" && Sanitize(docType) == docType
  {
    var clean := partner[..9];
    assert partner == clean + ".";
    SanitizeAppend(clean, ".");
    ExampleNamesAreClean(clean, docType);
    SanitizeKeepsCleanText(clean);
    SanitizeKeepsCleanText(docType);
    assert Sanitize(".") == "_";
  }

  lemma ExampleNamesAreClean(partner: string, docType: string)
    requires partner == "Acme, Inc" && docType == "Invoice"
    ensures forall c :: c in partner ==> !IsReserved(c)
    ensures forall c :: c in docType ==> !IsReserved(c)
  {
  }

  lemma ExampleNumbers()
    ensures FormatInt(7, 5) == "00007" && FormatInt(2024, 4) == "2024" && FormatInt(3, 2) == "03"
  {
    assert Digits(7) == "7";
    assert Digits(2024) == "2024";
  }


  /** `SanitizeKeepsClean` stated by the characters of the name rather than by its positions. */
  lemma SanitizeKeepsCleanText(s: string)
    requires forall c :: c in s ==> !IsReserved(c)
    ensures Sanitize(s) == s
  {
    SanitizeKeepsClean(s);
  }

  lemma {:induction false} SanitizeAppend(s: string, t: string)
    ensures Sanitize(s + t) == Sanitize(s) + Sanitize(t)
  {
    if s == [] {
      assert s + t == t;
    } else {
      assert (s + t)[1..] == s[1..] + t;
      SanitizeAppend(s[1..], t);
    }
  }



  /**
   * Without separate partner directories the file name does not determine the item:
   * partner `<base>_<n>` with item n+1 and no type, and partner `<base>` with item n
   * and type `<n+1>_`, get the same name.
   */
  lemma FlatLayoutIsAmbiguous(mimeType: string, base: string, n: nat, year: Short, month: Short)
    requires mimeType in MimeMap
    requires n + 1 < 0x8000_0000
    requires forall i :: 0 <= i < |base| ==> !IsReserved(base[i])
    ensures var first := FormatInt(n, 5);
      var next := FormatInt(n + 1, 5);
      var a := Invoice(n + 1, Some(Partner(base + "_" + first, "")), None);
      var b := Invoice(n, Some(Partner(base, "")), Some(DocumentType(next + "_")));
      FileName(false, mimeType, a, year, month) == FileName(false, mimeType, b, year, month)
  {
    var first := FormatInt(n, 5);
    var next := FormatInt(n + 1, 5);
    var ym := YearMonthText(year, month);
    var ext := MimeMap[mimeType];
    FormatIntAlphabet(n, 5);
    FormatIntAlphabet(n + 1, 5);
    CleanConcat(base, "_", first);
    CleanConcat(next, "_", "");
    SanitizeKeepsClean(base + "_" + first);
    SanitizeKeepsClean(next + "_");
    SanitizeKeepsClean(base);
    assert next + "_" + "" == next + "_";
    RegroupAmbiguous(base, first, next, ym, ext);
  }

  /** A concatenation of texts without reserved characters has none. */
  lemma CleanConcat(x: string, y: string, z: string)
    requires forall i :: 0 <= i < |x| ==> !IsReserved(x[i])
    requires forall i :: 0 <= i < |y| ==> !IsReserved(y[i])
    requires forall i :: 0 <= i < |z| ==> !IsReserved(z[i])
    ensures forall i :: 0 <= i < |x + y + z| ==> !IsReserved((x + y + z)[i])
  {
  }

  /** The two names of the ambiguity, regrouped into the same text. */
  lemma RegroupAmbiguous(base: string, first: string, next: string, ym: string, ext: string)
    ensures (base + "_" + first) + "_" + next + ("_" + "" + "_" + ym + "." + ext)
         == base + "_" + first + ("_" + (next + "_") + "_" + ym + "." + ext)
  {
  }

  /**
   * The file name keeps whatever whitespace surrounds the partner's name, while the
   * directory name trims it: a partner `" Acme"` is filed under `Acme` in files
   * named `..._ Acme_...`.
   */
  lemma PartnerSegmentIsNotTrimmed(item: RegistryItem)
    requires item.partner.Some? && |item.partner.value.name| > 0
    requires IsWhitespace(item.partner.value.name[0])
    ensures IsWhitespace(PartnerSegment(item)[0])
    ensures DirName(item).Success? && (DirName(item).value == [] || !IsWhitespace(DirName(item).value[0]))
  {
    DirNameMeaning(item);
    var name := item.partner.value.name;
    assert Sanitize(name)[0] == name[0] by {
      assert !IsReserved(name[0]);
    }
  }

  // ---------------------------------------------------------------------------
  // The target path
  // ---------------------------------------------------------------------------

  /**
   * The app draft's `downloadFile`: with separate partner directories the file goes
   * to the absolute path of `<targetDir>/<dirName>`, otherwise into `targetDir`
   * itself, under its file name. The directory name is composed first.
   */
  function TargetPath(targetDir: string, separatePartnerDirs: bool, separator: string,
                      absolutePath: string -> string, mimeType: string, item: RegistryItem,
                      year: Short, month: Short): Result<string, NamingError>
  {
    var dir: Result<string, NamingError> :=
      if separatePartnerDirs then
        (match DirName(item)
         case Failure(e) => Failure(e)
         case Success(d) => Success(absolutePath(targetDir + separator + d)))
      else Success(targetDir);
    match dir
    case Failure(e) => Failure(e)
    case Success(d) =>
      match FileName(separatePartnerDirs, mimeType, item, year, month)
      case Failure(e) => Failure(e)
      case Success(f) => Success(d + separator + f)
  }

  /**
   * The src draft's `downloadFile`: always the absolute path of
   * `accounting-files/<dirName>`, then the seq-first file name.
   */
  function SrcTargetPath(separator: string, absolutePath: string -> string, mimeType: string,
                         item: RegistryItem, year: Short, month: Short): Result<string, NamingError>
  {
    match DirName(item)
    case Failure(e) => Failure(e)
    case Success(d) =>
      match SrcFileName(mimeType, item, year, month)
      case Failure(e) => Failure(e)
      case Success(f) => Success(absolutePath(TargetDir + separator + d) + separator + f)
  }

  /**
   * A missing partner is fatal only with separate partner directories, and then it is
   * reported even when the MIME type is unknown too; an unknown MIME type is fatal in
   * both layouts. A path that is found ends with the separator and the file name.
   */
  lemma TargetPathOutcome(targetDir: string, separatePartnerDirs: bool, separator: string,
                          absolutePath: string -> string, mimeType: string, item: RegistryItem,
                          year: Short, month: Short)
    ensures var r := TargetPath(targetDir, separatePartnerDirs, separator, absolutePath, mimeType, item, year, month);
      && (r.Success? <==> (!separatePartnerDirs || item.partner.Some?) && mimeType in MimeMap)
      && (r.Failure? ==> r.error == if separatePartnerDirs && item.partner.None? then NoPartnerFound(item.seqNo)
                                    else MimeTypeNotFound(mimeType))
    ensures var r := TargetPath(targetDir, separatePartnerDirs, separator, absolutePath, mimeType, item, year, month);
      var f := FileName(separatePartnerDirs, mimeType, item, year, month);
      r.Success? ==> f.Success? && EndsWith(r.value, separator + f.value)
  {
    DirNameMeaning(item);
    FileNameExtension(separatePartnerDirs, mimeType, item, year, month);
    var r := TargetPath(targetDir, separatePartnerDirs, separator, absolutePath, mimeType, item, year, month);
    if r.Success? {
      var f := FileName(separatePartnerDirs, mimeType, item, year, month).value;
      var d := if separatePartnerDirs then absolutePath(targetDir + separator + DirName(item).value) else targetDir;
      EndsWithAppended(d, separator, f);
    }
  }

  /** `s` ends with `suffix`. */
  predicate EndsWith(s: string, suffix: string) {
    |suffix| <= |s| && s[|s| - |suffix|..] == suffix
  }

  /** `d + sep + f` ends with `sep + f`. */
  lemma EndsWithAppended(d: string, sep: string, f: string)
    ensures EndsWith(d + sep + f, sep + f)
  {
    assert d + sep + f == d + (sep + f);
  }

  /**
   * In the src draft the directory name comes first: an item without a partner fails
   * with `NoPartnerFound` whatever its MIME type, before the extension is looked up.
   */
  lemma SrcTargetPathOutcome(separator: string, absolutePath: string -> string, mimeType: string,
                             item: RegistryItem, year: Short, month: Short)
    ensures var r := SrcTargetPath(separator, absolutePath, mimeType, item, year, month);
      && (r.Success? <==> item.partner.Some? && mimeType in MimeMap)
      && (item.partner.None? ==> r == Failure(NoPartnerFound(item.seqNo)))
      && (item.partner.Some? && mimeType !in MimeMap ==> r == Failure(MimeTypeNotFound(mimeType)))
  {
    DirNameMeaning(item);
    SrcFileNameIsSeqFirst(mimeType, item, year, month);
    FileNameExtension(true, mimeType, item, year, month);
  }

  /**
   * The two drafts put a file in the same place when the app draft is configured
   * with `accounting-files` and separate partner directories.
   */
  lemma SrcTargetPathMatchesApp(separator: string, absolutePath: string -> string, mimeType: string,
                                item: RegistryItem, year: Short, month: Short)
    ensures SrcTargetPath(separator, absolutePath, mimeType, item, year, month)
         == TargetPath(TargetDir, true, separator, absolutePath, mimeType, item, year, month)
  {
    SrcFileNameIsSeqFirst(mimeType, item, year, month);
  }
}
