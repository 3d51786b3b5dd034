/**
 * What the month filter formula says, read back from its text: cut at its double
 * quotes, it yields the two bounds of the month and the ten type labels.
 */
module FilterFormulaReading {
  import opened Wrappers
  import opened Text
  import opened FilterFormula

  /**
   * The pieces between the quotes of the type disjunction followed by `tail`:
   * label, `between`, label, ..., label, `tail`.
   */
  function ConditionPieces(labels: seq<string>, between: string, tail: string): (r: seq<string>)
    requires |labels| >= 1
    ensures |r| == 2 * |labels|
    ensures forall k :: 0 <= k < |labels| ==> r[2 * k] == labels[k]
    ensures forall k :: 0 <= k < |labels| - 1 ==> r[2 * k + 1] == between
    ensures r[2 * |labels| - 1] == tail
  {
    if |labels| == 1 then [labels[0], tail]
    else
      var rest := ConditionPieces(labels[1..], between, tail);
      var r := [labels[0], between] + rest;
      assert forall k :: 1 <= k < |labels| ==> r[2 * k] == labels[k] by {
        forall k | 1 <= k < |labels| ensures r[2 * k] == labels[k] {
          assert r[2 * k] == rest[2 * (k - 1)];
        }
      }
      assert forall k :: 1 <= k < |labels| - 1 ==> r[2 * k + 1] == between by {
        forall k | 1 <= k < |labels| - 1 ensures r[2 * k + 1] == between {
          assert r[2 * k + 1] == rest[2 * (k - 1) + 1];
        }
      }
      r
  }

  /** The fixed texts of the type conditions hold no double quote. */
  lemma ConditionTextsHaveNoQuote()
    ensures '"' !in "type=" && '"' !in ", "
  {
  }

  /** Regrouping the first condition so that its quoted label stands out. */
  lemma RegroupCondition(pre: string, key: string, q: string, sep: string, more: string, tail: string)
    ensures pre + (key + q + sep + more) + tail == (pre + key) + q + (sep + more + tail)
  {
  }

  /** Regrouping the only condition so that its quoted label stands out. */
  lemma RegroupLastCondition(pre: string, key: string, q: string, tail: string)
    ensures pre + (key + q) + tail == (pre + key) + q + tail
  {
  }

  /** The first of several conditions: its label stands out between two quotes, and the rest follows. */
  lemma SplitFirstCondition(pre: string, l: string, more: string, tail: string)
    requires '"' !in pre && '"' !in l
    ensures Split(pre + (TypeCondition(l) + ", " + more) + tail, '"')
      == [pre + "type=", l] + Split(", " + more + tail, '"')
  {
    ConditionTextsHaveNoQuote();
    assert '"' !in pre + "type=";
    RegroupCondition(pre, "type=", Quote(l), ", ", more, tail);
    SplitQuote(pre + "type=", l, ", " + more + tail);
  }

  /** The only condition: its label stands out between two quotes, and the tail follows. */
  lemma SplitLastCondition(pre: string, l: string, tail: string)
    requires '"' !in pre && '"' !in l && '"' !in tail
    ensures Split(pre + TypeCondition(l) + tail, '"') == [pre + "type=", l, tail]
  {
    ConditionTextsHaveNoQuote();
    assert '"' !in pre + "type=";
    RegroupLastCondition(pre, "type=", Quote(l), tail);
    SplitQuote(pre + "type=", l, tail);
    SplitNone(tail, '"');
  }

  /**
   * One step of the induction below: when the conditions after the first one are cut
   * as claimed, so are all of them.
   */
  lemma SplitConditionsStep(pre: string, labels: seq<string>, tail: string)
    requires |labels| >= 2
    requires '"' !in pre && '"' !in labels[0]
    requires Split(", " + Join(", ", TypeConditions(labels[1..])) + tail, '"')
      == [", " + "type="] + ConditionPieces(labels[1..], ", " + "type=", tail)
    ensures Split(pre + Join(", ", TypeConditions(labels)) + tail, '"')
      == [pre + "type="] + ConditionPieces(labels, ", " + "type=", tail)
  {
    var l, rest := labels[0], labels[1..];
    var more := Join(", ", TypeConditions(rest));
    assert TypeConditions(labels)[1..] == TypeConditions(rest);
    assert Join(", ", TypeConditions(labels)) == TypeCondition(l) + ", " + more;
    SplitFirstCondition(pre, l, more, tail);
    var cp := ConditionPieces(rest, ", " + "type=", tail);
    assert ConditionPieces(labels, ", " + "type=", tail) == [l, ", " + "type="] + cp;
    RegroupPieces(pre + "type=", l, ", " + "type=", cp);
  }

  /** Moving one element across the boundary of two concatenated sequences. */
  lemma RegroupPieces<T>(a: T, b: T, c: T, cp: seq<T>)
    ensures [a, b] + ([c] + cp) == [a] + ([b, c] + cp)
  {
  }

  /** The conditions joined by ", " between `pre` and `tail`, cut at their double quotes. */
  lemma {:induction false} SplitConditions(pre: string, labels: seq<string>, tail: string)
    requires |labels| >= 1
    requires '"' !in pre && '"' !in tail
    requires forall i :: 0 <= i < |labels| ==> '"' !in labels[i]
    ensures Split(pre + Join(", ", TypeConditions(labels)) + tail, '"')
      == [pre + "type="] + ConditionPieces(labels, ", " + "type=", tail)
    decreases |labels|
  {
    if |labels| == 1 {
      assert Join(", ", TypeConditions(labels)) == TypeCondition(labels[0]);
      SplitLastCondition(pre, labels[0], tail);
    } else {
      ConditionTextsHaveNoQuote();
      SplitConditions(", ", labels[1..], tail);
      SplitConditionsStep(pre, labels, tail);
    }
  }

  /** A quoted string is one piece of its own between its neighbours. */
  lemma SplitQuote(a: string, x: string, rest: string)
    requires '"' !in a && '"' !in x
    ensures Split(a + Quote(x) + rest, '"') == [a, x] + Split(rest, '"')
  {
    assert a + Quote(x) + rest == a + ['"'] + (x + ['"'] + rest);
    SplitAtSeparator(a, x + ['"'] + rest, '"');
    SplitAtSeparator(x, rest, '"');
  }

  /** Regrouping a bound between its neighbours so that its two quoted dates stand out. */
  lemma RegroupBound(pre: string, open: string, q: string, mid: string, op: string, call: string,
                     close: string, rest: string)
    ensures pre + (open + q + mid + op + call + q + close) + rest
      == (pre + open) + q + ((mid + op + call) + q + (close + rest))
  {
  }

  /**
   * A bound cut at its quotes: the text before the first date, the date, the text
   * naming the comparison, the date again; then whatever follows the bound.
   */
  lemma SplitBound(pre: string, op: string, date: string, rest: string)
    requires '"' !in pre && '"' !in op && '"' !in date
    ensures Split(pre + Bound(op, date) + rest, '"')
      == [pre + "OR(IS_SAME(refDate, ", date, "), " + op + "(refDate, ", date] + Split("))," + rest, '"')
  {
    var mid := "), " + op + "(refDate, ";
    var tail := "))," + rest;
    RegroupBound(pre, "OR(IS_SAME(refDate, ", Quote(date), "), ", op, "(refDate, ", ")),", rest);
    SplitQuote(pre + "OR(IS_SAME(refDate, ", date, mid + Quote(date) + tail);
    SplitQuote(mid, date, tail);
  }

  /** No type label contains a double quote. */
  lemma LabelsHaveNoQuote()
    ensures forall i :: 0 <= i < |TypeLabels| ==> '"' !in TypeLabels[i]
  {
    FirstLabelsHaveNoQuote();
    LastLabelsHaveNoQuote();
  }

  lemma FirstLabelsHaveNoQuote()
    ensures forall i :: 0 <= i < 5 ==> '"' !in TypeLabels[i]
  {
    assert '"' !in TypeLabels[0];
    assert '"' !in TypeLabels[1];
    assert '"' !in TypeLabels[2];
    assert '"' !in TypeLabels[3];
    assert '"' !in TypeLabels[4];
  }

  lemma LastLabelsHaveNoQuote()
    ensures forall i :: 5 <= i < 10 ==> '"' !in TypeLabels[i]
  {
    assert '"' !in TypeLabels[5];
    assert '"' !in TypeLabels[6];
    assert '"' !in TypeLabels[7];
    assert '"' !in TypeLabels[8];
    assert '"' !in TypeLabels[9];
  }

  /** The fixed texts around the quotes of the formula hold no double quote. */
  lemma FixedTextsHaveNoQuote()
    ensures '"' !in "AND(" && '"' !in ")),"&& '"' !in "IS_AFTER" && '"' !in "IS_BEFORE"
    ensures '"' !in ")),"+ "OR(" && '"' !in ")" + ")"
  {
  }

  /** Regrouping the whole formula around its first bound. */
  lemma RegroupFormula(open: string, lower: string, upper: string, types: string, close: string)
    ensures open + lower + upper + types + close == open + lower + (upper + types + close)
  {
  }

  /** Regrouping what follows the first bound around the second. */
  lemma RegroupRest(lead: string, upper: string, types: string, close: string)
    ensures lead + (upper + types + close) == lead + upper + (types + close)
  {
  }

  /** Regrouping the type disjunction so that its conditions stand out. */
  lemma RegroupTypes(lead: string, open: string, conditions: string, close: string)
    ensures lead + (open + conditions + close + close) == (lead + open) + conditions + (close + close)
  {
  }

  /** The month formula's shape for any two dates and any labels. */
  function Shape(from: string, until: string, labels: seq<string>): string {
    "AND(" + Bound("IS_AFTER", from) + Bound("IS_BEFORE", until) + TypeDisjunction(labels) + ")"
  }

  /** The shape opens with `AND(`, so it is never blank. */
  lemma ShapeStartsWithAnd(from: string, until: string, labels: seq<string>)
    ensures |Shape(from, until, labels)| > 0 && Shape(from, until, labels)[0] == 'A'
  {
    var s1 := "AND(" + Bound("IS_AFTER", from);
    var s2 := s1 + Bound("IS_BEFORE", until);
    var s3 := s2 + TypeDisjunction(labels);
    assert s1[0] == 'A';
    assert s2[0] == s1[0];
    assert s3[0] == s2[0];
    assert (s3 + ")")[0] == s3[0];
  }

  /** A formula of this shape is never blank. */
  lemma ShapeIsNotBlank(from: string, until: string, labels: seq<string>)
    ensures !IsNullOrBlank(Some(Shape(from, until, labels)))
  {
    var f := Shape(from, until, labels);
    ShapeStartsWithAnd(from, until, labels);
    assert !IsWhitespace(f[0]);
    StartsNotBlank(f);
  }

  /**
   * The shape cut at its double quotes: the opening text, the lower date twice (as
   * IS_SAME and as IS_AFTER bound), the upper date twice (as IS_SAME and as IS_BEFORE
   * bound), the text opening the type disjunction, then the pieces of the conditions.
   */
  lemma ShapeSplit(from: string, until: string, labels: seq<string>)
    requires '"' !in from && '"' !in until && |labels| >= 1
    requires forall i :: 0 <= i < |labels| ==> '"' !in labels[i]
    ensures Split(Shape(from, until, labels), '"')
      == ["AND(" + "OR(IS_SAME(refDate, ", from, "), " + "IS_AFTER" + "(refDate, ", from]
       + ([")),"+ "OR(IS_SAME(refDate, ", until, "), " + "IS_BEFORE" + "(refDate, ", until]
       + ([")),"+ "OR(" + "type="] + ConditionPieces(labels, ", " + "type=", ")" + ")")))
  {
    var lower := Bound("IS_AFTER", from);
    var upper := Bound("IS_BEFORE", until);
    var conditions := Join(", ", TypeConditions(labels));
    var types := TypeDisjunction(labels);
    FixedTextsHaveNoQuote();
    RegroupFormula("AND(", lower, upper, types, ")");
    SplitBound("AND(", "IS_AFTER", from, upper + types + ")");
    RegroupRest(")),", upper, types, ")");
    SplitBound(")),", "IS_BEFORE", until, types + ")");
    RegroupTypes(")),", "OR(", conditions, ")");
    SplitConditions(")),"+ "OR(", labels, ")" + ")");
    assert Shape(from, until, labels) == "AND(" + lower + (upper + types + ")");
    assert ")),"+ (upper + types + ")") == ")),"+ upper + (types + ")");
    assert ")),"+ (types + ")") == (")),"+ "OR(") + conditions + (")" + ")");
  }

  /**
   * The shape cut at its double quotes, piece by piece: the dates at 1 and 3 and at
   * 5 and 7, the comparisons at 2 and 6, then the labels in order with ", type="
   * between them.
   */
  lemma ShapePieces(from: string, until: string, labels: seq<string>)
    requires '"' !in from && '"' !in until && |labels| >= 1
    requires forall i :: 0 <= i < |labels| ==> '"' !in labels[i]
    ensures var p := Split(Shape(from, until, labels), '"');
      && |p| == 9 + 2 * |labels|
      && p[1] == from && p[3] == from
      && p[2] == "), " + "IS_AFTER" + "(refDate, "
      && p[5] == until && p[7] == until
      && p[6] == "), " + "IS_BEFORE" + "(refDate, "
      && (forall k :: 0 <= k < |labels| ==> p[9 + 2 * k] == labels[k])
      && (forall k :: 0 <= k < |labels| - 1 ==> p[10 + 2 * k] == ", " + "type=")
  {
    ShapeSplit(from, until, labels);
    var p := Split(Shape(from, until, labels), '"');
    var cp := ConditionPieces(labels, ", " + "type=", ")" + ")");
    var head := p[..9];
    assert p == head + cp;
    assert p[9..] == cp;
    forall k | 0 <= k < |labels| ensures p[9 + 2 * k] == labels[k] {
      assert p[9 + 2 * k] == p[9..][2 * k];
    }
    forall k | 0 <= k < |labels| - 1 ensures p[10 + 2 * k] == ", " + "type=" {
      assert p[10 + 2 * k] == p[9..][2 * k + 1];
    }
  }

  /**
   * The month formula cut at its double quotes: the first day of the month twice
   * (as IS_SAME and as IS_AFTER bound), the month's last day twice (as IS_SAME and as
   * IS_BEFORE bound), then the ten type labels in order.
   */
  lemma FormulaPieces(year: Short, month: Short)
    requires 1 <= month <= 12
    ensures var p := Split(ForInvoicesOfMonth(year, month), '"');
      && |p| == 29
      && p[1] == DateLiteral(month, 1, year)
      && p[2] == "), " + "IS_AFTER" + "(refDate, "
      && p[3] == DateLiteral(month, 1, year)
      && p[5] == DateLiteral(month, DaysInMonth(year, month), year)
      && p[6] == "), " + "IS_BEFORE" + "(refDate, "
      && p[7] == DateLiteral(month, DaysInMonth(year, month), year)
      && (forall k :: 0 <= k < 10 ==> p[9 + 2 * k] == TypeLabels[k])
      && (forall k :: 0 <= k < 9 ==> p[10 + 2 * k] == ", " + "type=")
  {
    DateLiteralHasNoQuote(year, month, 1);
    DateLiteralHasNoQuote(year, month, DaysInMonth(year, month));
    LabelsHaveNoQuote();
    var from := DateLiteral(month, 1, year);
    var until := DateLiteral(month, DaysInMonth(year, month), year);
    assert ForInvoicesOfMonth(year, month) == Shape(from, until, TypeLabels);
    ShapePieces(from, until, TypeLabels);
  }

  /** The date range a formula restricts `refDate` to: its IS_SAME/IS_AFTER and IS_SAME/IS_BEFORE dates. */
  function BoundsOf(formula: string): Option<(Date, Date)> {
    var p := Split(formula, '"');
    if |p| < 6 then None
    else
      match (ParseDate(p[1]), ParseDate(p[5]))
      case (Some(lower), Some(upper)) => Some((lower, upper))
      case _ => None
  }

  /**
   * The formula of a month admits exactly the days of that month: its lower bound is
   * the first day and its upper bound the month's last day by the Gregorian rule.
   */
  lemma FormulaBounds(year: Short, month: Short)
    requires 1 <= month <= 12
    ensures BoundsOf(ForInvoicesOfMonth(year, month))
      == Some((Date(year, month, 1), Date(year, month, DaysInMonth(year, month))))
  {
    FormulaPieces(year, month);
    DateLiteralRoundTrip(year, month, 1);
    DateLiteralRoundTrip(year, month, DaysInMonth(year, month));
  }

  /** Different months give different formulas: the formula determines the month it selects. */
  lemma FormulaDeterminesMonth(y1: Short, m1: Short, y2: Short, m2: Short)
    requires 1 <= m1 <= 12 && 1 <= m2 <= 12
    requires ForInvoicesOfMonth(y1, m1) == ForInvoicesOfMonth(y2, m2)
    ensures y1 == y2 && m1 == m2
  {
    FormulaBounds(y1, m1);
    FormulaBounds(y2, m2);
  }
}
