/**
 * client/src/components/forms/DocumentForm.tsx: the line-item editor of invoices, quotations
 * and receipts. Items are added, removed (with renumbering) and edited field by field; each
 * line's total includes its tax, while the document subtotal ignores per-line tax and the
 * optional VAT is charged on the subtotal.
 */
module DocumentForm {

  datatype LineItem = LineItem(
    id: string,
    sno: int,
    description: string,
    uom: string,
    qty: real,
    unitPrice: real,
    tax: real,
    total: real)

  /** The document types the form is opened for. */
  datatype DocType = Invoice | Estimate | Receipt

  function DocumentTitle(t: DocType): (r: string)
    ensures t == Invoice ==> r == "INVOICE"
    ensures t == Estimate ==> r == "QUOTATION"
    ensures t == Receipt ==> r == "RECEIPT"
  {
    match t
    case Invoice => "INVOICE"
    case Estimate => "QUOTATION"
    case Receipt => "RECEIPT"
  }

  // ---------------------------------------------------------------- arithmetic

  /** `calculateLineTotal`: the net amount plus its tax percentage. */
  function LineTotal(qty: real, unitPrice: real, taxPercent: real): (r: real)
    ensures r == qty * unitPrice * (1.0 + taxPercent / 100.0)
    ensures taxPercent == 0.0 ==> r == qty * unitPrice
  {
    var subtotal := qty * unitPrice;
    subtotal + subtotal * taxPercent / 100.0
  }

  /** The subtotal: the sum of qty times unit price over the lines, left to right. */
  function Subtotal(items: seq<LineItem>): real {
    if items == [] then 0.0
    else Subtotal(items[..|items| - 1]) + items[|items| - 1].qty * items[|items| - 1].unitPrice
  }

  function Vat(subtotal: real, applyVat: bool, vatPercentage: real): (r: real)
    ensures !applyVat ==> r == 0.0
    ensures applyVat ==> r == subtotal * vatPercentage / 100.0
  {
    if applyVat then subtotal * vatPercentage / 100.0 else 0.0
  }

  function GrandTotal(items: seq<LineItem>, applyVat: bool, vatPercentage: real): (r: real)
    ensures !applyVat ==> r == Subtotal(items)
    ensures applyVat ==> r == Subtotal(items) * (1.0 + vatPercentage / 100.0)
  {
    Subtotal(items) + Vat(Subtotal(items), applyVat, vatPercentage)
  }

  /** The subtotal depends on quantities and unit prices only: not on tax, totals, numbering or text. */
  lemma {:induction false} SubtotalOnlyPrices(a: seq<LineItem>, b: seq<LineItem>)
    requires |a| == |b|
    requires forall i :: 0 <= i < |a| ==> a[i].qty == b[i].qty && a[i].unitPrice == b[i].unitPrice
    ensures Subtotal(a) == Subtotal(b)
  {
    if a != [] {
      SubtotalOnlyPrices(a[..|a| - 1], b[..|b| - 1]);
    }
  }

  // ---------------------------------------------------------------- editing

  /** A line's stored total agrees with its quantity, price and tax. */
  predicate TotalsConsistent(items: seq<LineItem>) {
    forall i :: 0 <= i < |items| ==> items[i].total == LineTotal(items[i].qty, items[i].unitPrice, items[i].tax)
  }

  /** The lines are numbered 1, 2, ... in order. */
  predicate Numbered(items: seq<LineItem>) {
    forall i :: 0 <= i < |items| ==> items[i].sno == i + 1
  }

  function NewItem(id: string, sno: int): LineItem {
    LineItem(id, sno, "", "Pcs", 1.0, 0.0, 0.0, 0.0)
  }

  /** The list a new form starts with. */
  function InitialItems(): (r: seq<LineItem>)
    ensures |r| == 1 && r[0].sno == 1 && r[0].id == "1"
    ensures TotalsConsistent(r) && Numbered(r) && Subtotal(r) == 0.0
  {
    [NewItem("1", 1)]
  }

  /** `addLineItem`: one blank line appended, numbered after the current length. */
  function Added(items: seq<LineItem>, id: string): (r: seq<LineItem>)
    ensures |r| == |items| + 1 && r[..|items|] == items
    ensures r[|items|] == LineItem(id, |items| + 1, "", "Pcs", 1.0, 0.0, 0.0, 0.0)
    ensures TotalsConsistent(items) ==> TotalsConsistent(r)
    ensures Numbered(items) ==> Numbered(r)
    ensures Subtotal(r) == Subtotal(items)
  {
    var r := items + [NewItem(id, |items| + 1)];
    assert r[..|items|] == items;
    r
  }

  /** The lines whose id differs from the given one, in order. */
  function Without(items: seq<LineItem>, id: string): (r: seq<LineItem>)
    ensures |r| <= |items|
    ensures forall x :: x in r <==> x in items && x.id != id
    ensures TotalsConsistent(items) ==> TotalsConsistent(r)
  {
    if items == [] then []
    else (if items[0].id != id then [items[0]] else []) + Without(items[1..], id)
  }

  /** Dropping an id distributes over concatenation: the other lines stay, in order, each as often as before. */
  lemma {:induction false} WithoutConcat(a: seq<LineItem>, b: seq<LineItem>, x: LineItem, id: string)
    ensures Without(a + b, id) == Without(a, id) + Without(b, id)
    ensures Without([x], id) == if x.id != id then [x] else []
  {
    if a == [] {
      assert a + b == b;
    } else {
      assert (a + b)[1..] == a[1..] + b;
      WithoutConcat(a[1..], b, x, id);
    }
    assert [x][1..] == [];
  }

  function Renumbered(items: seq<LineItem>): (r: seq<LineItem>)
    ensures |r| == |items| && Numbered(r)
    ensures forall i :: 0 <= i < |items| ==> r[i] == items[i].(sno := i + 1)
    ensures TotalsConsistent(items) ==> TotalsConsistent(r)
  {
    seq(|items|, i requires 0 <= i < |items| => items[i].(sno := i + 1))
  }

  /**
   * `removeLineItem` applied to the list it reads: a one-line list is kept (the last line
   * cannot be removed); otherwise the lines with that id are dropped and the rest renumbered.
   */
  function Removed(items: seq<LineItem>, id: string): (r: seq<LineItem>)
    ensures |items| == 1 ==> r == items
    ensures |items| != 1 ==> r == Renumbered(Without(items, id))
    ensures |items| != 1 ==> Numbered(r) && forall i :: 0 <= i < |r| ==> r[i].id != id
    ensures TotalsConsistent(items) ==> TotalsConsistent(r)
  {
    if |items| == 1 then items else Renumbered(Without(items, id))
  }

  lemma {:induction false} WithoutAbsent(items: seq<LineItem>, id: string)
    requires forall i :: 0 <= i < |items| ==> items[i].id != id
    ensures Without(items, id) == items
  {
    if items != [] {
      WithoutAbsent(items[1..], id);
      assert [items[0]] + items[1..] == items;
    }
  }

  lemma {:induction false} WithoutAppend(items: seq<LineItem>, x: LineItem, id: string)
    requires x.id == id
    ensures Without(items + [x], id) == Without(items, id)
  {
    if items == [] {
      assert [x][1..] == [];
    } else {
      assert (items + [x])[1..] == items[1..] + [x];
      WithoutAppend(items[1..], x, id);
    }
  }

  /**
   * Removing a line that was just added under a fresh id restores the list, as long as the
   * list was numbered and not empty.
   */
  lemma RemoveUndoesAdd(items: seq<LineItem>, id: string)
    requires |items| >= 1 && Numbered(items)
    requires forall i :: 0 <= i < |items| ==> items[i].id != id
    ensures Removed(Added(items, id), id) == items
  {
    var grown := items + [NewItem(id, |items| + 1)];
    assert Added(items, id) == grown;
    WithoutAppend(items, NewItem(id, |items| + 1), id);
    WithoutAbsent(items, id);
    assert Renumbered(items) == items;
  }

  /** The field edits the form's inputs make through `updateLineItem`. */
  datatype Edit = SetDescription(text: string) | SetUom(text: string) | SetQty(q: real) | SetUnitPrice(p: real) | SetTax(t: real)

  /**
   * One line after an edit: the edited field takes the new value and every other field is
   * kept, except that a quantity, price or tax edit recomputes the total.
   */
  function Edited(x: LineItem, e: Edit): (r: LineItem)
    ensures r.id == x.id && r.sno == x.sno
    ensures e.SetDescription? ==> r.description == e.text && r.uom == x.uom
    ensures e.SetUom? ==> r.uom == e.text && r.description == x.description
    ensures (e.SetDescription? || e.SetUom?) ==> r.total == x.total && r.qty == x.qty && r.unitPrice == x.unitPrice && r.tax == x.tax
    ensures e.SetQty? ==> r.qty == e.q && r.unitPrice == x.unitPrice && r.tax == x.tax
    ensures e.SetUnitPrice? ==> r.unitPrice == e.p && r.qty == x.qty && r.tax == x.tax
    ensures e.SetTax? ==> r.tax == e.t && r.qty == x.qty && r.unitPrice == x.unitPrice
    ensures !(e.SetDescription? || e.SetUom?) ==>
              r.description == x.description && r.uom == x.uom && r.total == LineTotal(r.qty, r.unitPrice, r.tax)
  {
    match e
    case SetDescription(text) => x.(description := text)
    case SetUom(text) => x.(uom := text)
    case SetQty(q) => x.(qty := q, total := LineTotal(q, x.unitPrice, x.tax))
    case SetUnitPrice(p) => x.(unitPrice := p, total := LineTotal(x.qty, p, x.tax))
    case SetTax(t) => x.(tax := t, total := LineTotal(x.qty, x.unitPrice, t))
  }

  /** `updateLineItem`: the lines with the id are edited, every other line is kept as it was. */
  function Updated(items: seq<LineItem>, id: string, e: Edit): (r: seq<LineItem>)
    ensures |r| == |items|
    ensures forall i :: 0 <= i < |items| ==> r[i] == if items[i].id == id then Edited(items[i], e) else items[i]
    ensures Numbered(items) ==> Numbered(r)
  {
    seq(|items|, i requires 0 <= i < |items| => if items[i].id == id then Edited(items[i], e) else items[i])
  }

  /** Every edit keeps each line's total in agreement with its quantity, price and tax. */
  lemma UpdatedKeepsTotals(items: seq<LineItem>, id: string, e: Edit)
    requires TotalsConsistent(items)
    ensures TotalsConsistent(Updated(items, id, e))
  {
  }

  /** Editing a tax rate, a description or a unit of measure never changes the subtotal. */
  lemma UpdatedKeepsSubtotal(items: seq<LineItem>, id: string, e: Edit)
    requires e.SetTax? || e.SetDescription? || e.SetUom?
    ensures Subtotal(Updated(items, id, e)) == Subtotal(items)
  {
    SubtotalOnlyPrices(items, Updated(items, id, e));
  }

  /** Renumbering after a removal leaves the subtotal of the remaining lines as it was. */
  lemma RenumberKeepsSubtotal(items: seq<LineItem>)
    ensures Subtotal(Renumbered(items)) == Subtotal(items)
  {
    SubtotalOnlyPrices(items, Renumbered(items));
  }

  // ---------------------------------------------------------------- the editor state

  /**
   * The line-item state of one form. `removeView` is the list the memoised `removeLineItem`
   * callback reads: the callback is rebuilt only when the number of lines changes, so after
   * an edit that keeps the length it still reads the list from before the edit.
   */
  class Editor {
    var lineItems: seq<LineItem>
    var removeView: seq<LineItem>

    /**
     * The list is numbered with consistent totals, and the remove callback saw such a list,
     * of the same length.
     */
    predicate Valid()
      reads this
    {
      && Numbered(lineItems) && TotalsConsistent(lineItems)
      && Numbered(removeView) && TotalsConsistent(removeView)
      && |removeView| == |lineItems|
    }

    constructor ()
      ensures lineItems == InitialItems() && removeView == lineItems && Valid()
    {
      lineItems := InitialItems();
      removeView := InitialItems();
    }

    function Totals(applyVat: bool, vatPercentage: real): (r: (real, real, real))
      reads this
      ensures r.0 == Subtotal(lineItems) && r.1 == Vat(r.0, applyVat, vatPercentage) && r.2 == r.0 + r.1
    {
      var subtotal := Subtotal(lineItems);
      var vat := Vat(subtotal, applyVat, vatPercentage);
      (subtotal, vat, subtotal + vat)
    }

    /** The re-render after a state change: callbacks keyed on the length see the new list when it changed. */
    method Render()
      modifies this`removeView
      ensures removeView == if |old(removeView)| != |lineItems| then lineItems else old(removeView)
    {
      if |removeView| != |lineItems| {
        removeView := lineItems;
      }
    }

    method AddLineItem(id: string)
      requires Valid()
      modifies this
      ensures lineItems == Added(old(lineItems), id) && removeView == lineItems
      ensures Valid()
    {
      lineItems := Added(lineItems, id);
      Render();
    }

    /** `removeLineItem` as written: it filters the list its memoised callback captured. */
    method RemoveLineItemAsWritten(id: string) returns (removed: bool)
      requires Valid()
      modifies this
      ensures removed <==> |old(removeView)| != 1
      ensures lineItems == (if removed then Removed(old(removeView), id) else old(lineItems))
      ensures removeView == if |lineItems| != |old(lineItems)| then lineItems else old(removeView)
      ensures Valid()
    {
      if |removeView| == 1 {
        return false;
      }
      lineItems := Removed(removeView, id);
      removed := true;
      Render();
    }

    /** `removeLineItem` reading the current list, as its dependency list evidently intends. */
    method RemoveLineItem(id: string) returns (removed: bool)
      requires Valid()
      modifies this
      ensures removed <==> |old(lineItems)| != 1
      ensures lineItems == Removed(old(lineItems), id)
      ensures removeView == if |lineItems| != |old(lineItems)| then lineItems else old(removeView)
      ensures Valid()
    {
      if |lineItems| == 1 {
        return false;
      }
      lineItems := Removed(lineItems, id);
      removed := true;
      Render();
    }

    method UpdateLineItem(id: string, e: Edit)
      requires Valid()
      modifies this
      ensures lineItems == Updated(old(lineItems), id, e) && removeView == old(removeView)
      ensures Valid()
    {
      lineItems := Updated(lineItems, id, e);
      UpdatedKeepsTotals(old(lineItems), id, e);
      Render();
    }
  }

  /**
   * The stale read of the remove callback loses an edit: add a second line, set the first
   * line's quantity to 5, then remove the second line. The callback still holds the list from
   * before the edit, so the surviving first line has quantity 1 again, whereas removing from
   * the current list keeps quantity 5.
   */
  lemma StaleRemoveLosesEdit()
    ensures var added := Added(InitialItems(), "2");
            var edited := Updated(added, "1", SetQty(5.0));
            && |added| == |edited|
            && Removed(added, "2") == [NewItem("1", 1)]
            && Removed(edited, "2") == [Edited(NewItem("1", 1), SetQty(5.0))]
            && Removed(added, "2")[0].qty == 1.0 && Removed(edited, "2")[0].qty == 5.0
  {
    var added := Added(InitialItems(), "2");
    var edited := Updated(added, "1", SetQty(5.0));
    assert added == [NewItem("1", 1), NewItem("2", 2)];
    assert edited == [Edited(NewItem("1", 1), SetQty(5.0)), NewItem("2", 2)];
    assert Without(added, "2") == [NewItem("1", 1)];
    assert Without(edited, "2") == [Edited(NewItem("1", 1), SetQty(5.0))];
  }
}
