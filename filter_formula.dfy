/**
 * The Airtable filter formula that selects one month's invoices: the reference date
 * lies between the first and the last day of the month (both inclusive), and the
 * type is one of ten document-type labels.
 */
module FilterFormula {
  import opened Wrappers
  import opened Text

  /** Kotlin's `Short`, the type of the year and month the program is given. */
  type Short = x: int | -0x8000 <= x < 0x8000

  /** The document types whose files are downloaded, in the order the formula lists them. */
  const TypeLabels: seq<string> := [
    "Átutalásos számla", "Díjbekérő", "Kártyás számla", "Készpénzes számla",
    "Proforma számla", "Útelszámolás", "Sztornó számla", "Érvénytelenítő számla",
    "Számlával egy tekintet alá eső okirat", "Teljesítési igazolás"]

  // ---------------------------------------------------------------------------
  // The Gregorian calendar (what `YearMonth.atEndOfMonth()` computes)
  // ---------------------------------------------------------------------------

  /** The proleptic Gregorian leap-year rule of `java.time`. */
  predicate IsLeapYear(year: int) {
    year % 4 == 0 && (year % 100 != 0 || year % 400 == 0)
  }

  /** The day of month of `YearMonth.of(year, month).atEndOfMonth()`. */
  function DaysInMonth(year: int, month: int): (d: int)
    requires 1 <= month <= 12
    ensures 28 <= d <= 31
  {
    if month == 2 then (if IsLeapYear(year) then 29 else 28)
    else if month == 4 || month == 6 || month == 9 || month == 11 then 30
    else 31
  }

  /**
   * The month lengths: February has 29 days exactly in leap years, April, June,
   * September and November have 30, the rest 31, and a year has 365 or 366 days.
   */
  lemma DaysInMonthFacts(year: int, month: int)
    requires 1 <= month <= 12
    ensures DaysInMonth(year, month) == 29 <==> month == 2 && IsLeapYear(year)
    ensures DaysInMonth(year, month) == 28 <==> month == 2 && !IsLeapYear(year)
    ensures DaysInMonth(year, month) == 30 <==> month in {4, 6, 9, 11}
    ensures DaysInMonth(year, 1) + DaysInMonth(year, 2) + DaysInMonth(year, 3) + DaysInMonth(year, 4)
      + DaysInMonth(year, 5) + DaysInMonth(year, 6) + DaysInMonth(year, 7) + DaysInMonth(year, 8)
      + DaysInMonth(year, 9) + DaysInMonth(year, 10) + DaysInMonth(year, 11) + DaysInMonth(year, 12)
      == if IsLeapYear(year) then 366 else 365
  {
  }

  // ---------------------------------------------------------------------------
  // Dates as the formula writes them: month/day/year
  // ---------------------------------------------------------------------------

  datatype Date = Date(year: int, month: int, day: int)

  /** `"%02d/%02d/%02d".format(month, day, year)`. */
  function DateLiteral(month: int, day: int, year: int): string {
    FormatInt(month, 2) + "/" + FormatInt(day, 2) + "/" + FormatInt(year, 2)
  }

  /** Reads a `month/day/year` literal back. */
  function ParseDate(s: string): Option<Date> {
    var parts := Split(s, '/');
    if |parts| != 3 then None
    else
      match (ParseInt(parts[0]), ParseInt(parts[1]), ParseInt(parts[2]))
      case (Some(m), Some(d), Some(y)) => Some(Date(y, m, d))
      case _ => None
  }

  /** A date literal cut at its slashes gives the month, the day and the year as written. */
  lemma DateLiteralParts(year: int, month: int, day: int)
    ensures Split(DateLiteral(month, day, year), '/') == [FormatInt(month, 2), FormatInt(day, 2), FormatInt(year, 2)]
  {
    FormatIntExcludes(month, 2, '/');
    FormatIntExcludes(day, 2, '/');
    FormatIntExcludes(year, 2, '/');
    SplitThree(FormatInt(month, 2), FormatInt(day, 2), FormatInt(year, 2));
  }

  /** Three slash-free texts joined by slashes split back into those three. */
  lemma SplitThree(a: string, b: string, c: string)
    requires '/' !in a && '/' !in b && '/' !in c
    ensures Split(a + "/" + b + "/" + c, '/') == [a, b, c]
  {
    var parts := [a, b, c];
    assert Join("/", parts[2..]) == c;
    assert Join("/", parts[1..]) == b + "/" + c;
    assert Join("/", parts) == a + "/" + b + "/" + c;
    SplitJoin(parts, '/');
  }

  /** A date literal is read back as the date it was written from: month first, then day, then year. */
  lemma DateLiteralRoundTrip(year: int, month: int, day: int)
    ensures ParseDate(DateLiteral(month, day, year)) == Some(Date(year, month, day))
  {
    DateLiteralParts(year, month, day);
    FormatIntRoundTrip(month, 2);
    FormatIntRoundTrip(day, 2);
    FormatIntRoundTrip(year, 2);
  }

  /** A date literal holds no double quote, so it cannot end a quoted formula string early. */
  lemma DateLiteralHasNoQuote(year: int, month: int, day: int)
    ensures '"' !in DateLiteral(month, day, year)
  {
    FormatIntExcludes(month, 2, '"');
    FormatIntExcludes(day, 2, '"');
    FormatIntExcludes(year, 2, '"');
  }

  // ---------------------------------------------------------------------------
  // The formula
  // ---------------------------------------------------------------------------

  /** A string literal of the formula language, `"<s>"`. */
  function Quote(s: string): string {
    "\"" + s + "\""
  }

  /** One alternative of the type disjunction, `type="<label>"`. */
  function TypeCondition(typeName: string): string {
    "type=" + Quote(typeName)
  }

  function TypeConditions(labels: seq<string>): (r: seq<string>)
    ensures |r| == |labels|
    ensures forall i :: 0 <= i < |labels| ==> r[i] == TypeCondition(labels[i])
  {
    if labels == [] then [] else [TypeCondition(labels[0])] + TypeConditions(labels[1..])
  }

  /**
   * `FilterFormulaBuilder.forInvoicesOfMonth` of the app draft; the app draft's
   * `filterForInvoicesOfMonth` and the src draft's `buildFilterFormula` build the
   * same text.
   */
  function ForInvoicesOfMonth(year: Short, month: Short): string
    requires 1 <= month <= 12
  {
    var from := DateLiteral(month, 1, year);
    var until := DateLiteral(month, DaysInMonth(year, month), year);
    "AND(" + Bound("IS_AFTER", from) + Bound("IS_BEFORE", until) + TypeDisjunction(TypeLabels) + ")"
  }

  /**
   * One inclusive bound on `refDate`: `OR(IS_SAME(refDate, "<date>"), <op>(refDate, "<date>")),`
   * with `op` IS_AFTER for the lower and IS_BEFORE for the upper bound.
   */
  function Bound(op: string, date: string): string {
    "OR(IS_SAME(refDate, " + Quote(date) + "), " + op + "(refDate, " + Quote(date) + ")),"
  }

  /** `OR(type="<label 1>", ..., type="<label n>")`. */
  function TypeDisjunction(labels: seq<string>): string {
    "OR(" + Join(", ", TypeConditions(labels)) + ")"
  }
}
