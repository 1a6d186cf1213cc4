/**
 * `SelectFieldList`: the list of a SELECT clause. An empty list renders the
 * asterisk; tables and rows are spelled out through their field lists.
 */
module SelectFieldList {
  import opened Qom

  /** `rendersContent(ctx)`: a select list always renders something. */
  predicate RendersContent(items: seq<SelectItem>, d: Dialect)
  {
    true
  }

  /** `declaresFields()`. */
  predicate DeclaresFields(items: seq<SelectItem>)
  {
    true
  }

  /** `toSQLEmptyList(ctx)`: `ctx.visit(AsteriskImpl.INSTANCE)`. */
  function EmptyListTokens(): seq<Token>
  {
    [Visit(AsteriskPart)]
  }

  /**
   * `acceptElement(ctx, part)`: a table through `tf()`, a row through `rf()`,
   * anything else as itself. `asterisk()` is `AsteriskImpl.INSTANCE`, the
   * very part an empty list visits.
   */
  function ElementPart(item: SelectItem): (p: Part)
    ensures item.TableItem? <==> p.TableFieldsPart?
    ensures item.TableItem? ==> p == TableFieldsPart(item.table)
    ensures item.RowItem? <==> p.RowFieldsPart?
    ensures item.RowItem? ==> p == RowFieldsPart(item.fields)
    ensures item == AsteriskItem <==> p == AsteriskPart
    ensures !item.TableItem? && !item.RowItem? && item != AsteriskItem ==> p == SelectItemPart(item)
  {
    match item
    case TableItem(t) => TableFieldsPart(t)
    case RowItem(fs) => RowFieldsPart(fs)
    case AsteriskItem => AsteriskPart
    case _ => SelectItemPart(item)
  }

  /** The elements of a non-empty list, each through `acceptElement`, separated by `", "`. */
  function ElementTokens(items: seq<SelectItem>): seq<Token>
  {
    if |items| == 0 then []
    else
      var sep := if |items| == 1 then [] else [Sql(", ")];
      ElementTokens(items[..|items| - 1]) + sep + [Visit(ElementPart(items[|items| - 1]))]
  }

  /**
   * The list's output: the asterisk when the list is empty. The output is
   * exactly the asterisk for the empty list and for `[asterisk()]`, and it
   * visits the asterisk at all only when the list is empty or holds
   * `asterisk()`.
   */
  function AcceptTokens(items: seq<SelectItem>): (r: seq<Token>)
    ensures |items| == 0 ==> r == [Visit(AsteriskPart)]
    ensures r == [Visit(AsteriskPart)] <==> items == [] || items == [AsteriskItem]
    ensures Visit(AsteriskPart) in r <==> items == [] || AsteriskItem in items
  {
    ElementsVisitAsterisk(items);
    ElementTokensLength(items);
    if |items| == 0 then EmptyListTokens() else ElementTokens(items)
  }

  /** The visited parts of a token sequence, in order. */
  function VisitedParts(ts: seq<Token>): seq<Part>
  {
    if |ts| == 0 then []
    else VisitedParts(ts[..|ts| - 1]) + (if ts[|ts| - 1].Visit? then [ts[|ts| - 1].part] else [])
  }

  lemma VisitedPartsAppend(a: seq<Token>, b: seq<Token>)
    ensures VisitedParts(a + b) == VisitedParts(a) + VisitedParts(b)
    decreases |b|
  {
    if |b| > 0 {
      var ab := a + b;
      var tail: seq<Part> := if b[|b| - 1].Visit? then [b[|b| - 1].part] else [];
      assert ab[..|ab| - 1] == a + b[..|b| - 1];
      assert ab[|ab| - 1] == b[|b| - 1];
      assert VisitedParts(ab) == VisitedParts(a + b[..|b| - 1]) + tail;
      VisitedPartsAppend(a, b[..|b| - 1]);
      assert VisitedParts(b) == VisitedParts(b[..|b| - 1]) + tail;
    } else {
      assert a + b == a;
    }
  }

  /** The elements are visited one each, in list order, each through `acceptElement`. */
  lemma {:induction false} ElementsInOrder(items: seq<SelectItem>)
    ensures |VisitedParts(ElementTokens(items))| == |items|
    ensures forall k :: 0 <= k < |items| ==> VisitedParts(ElementTokens(items))[k] == ElementPart(items[k])
  {
    if |items| > 0 {
      var init := items[..|items| - 1];
      ElementsInOrder(init);
      var sep: seq<Token> := if |items| == 1 then [] else [Sql(", ")];
      var last := [Visit(ElementPart(items[|items| - 1]))];
      VisitedPartsAppend(ElementTokens(init) + sep, last);
      VisitedPartsAppend(ElementTokens(init), sep);
      assert VisitedParts(sep) == [] by {
        if |items| > 1 {
          assert VisitedParts(sep) == VisitedParts(sep[..0]) + [];
        }
      }
      assert VisitedParts(last) == [ElementPart(items[|items| - 1])] by {
        assert last[..0] == [];
      }
    }
  }

  /** n elements give n - 1 separators. */
  lemma {:induction false} SeparatorCount(items: seq<SelectItem>)
    ensures multiset(ElementTokens(items))[Sql(", ")] == if |items| == 0 then 0 else |items| - 1
  {
    if |items| > 0 {
      SeparatorCount(items[..|items| - 1]);
    }
  }

  /** n elements and their separators make 2n - 1 tokens. */
  lemma {:induction false} ElementTokensLength(items: seq<SelectItem>)
    ensures |items| > 0 ==> |ElementTokens(items)| == 2 * |items| - 1
  {
    if |items| > 1 {
      ElementTokensLength(items[..|items| - 1]);
    }
  }

  /** The elements visit the bare asterisk exactly when `asterisk()` is one of them. */
  lemma {:induction false} ElementsVisitAsterisk(items: seq<SelectItem>)
    ensures Visit(AsteriskPart) in ElementTokens(items) <==> AsteriskItem in items
  {
    if |items| > 0 {
      var init := items[..|items| - 1];
      ElementsVisitAsterisk(init);
      assert items == init + [items[|items| - 1]];
    }
  }
}
