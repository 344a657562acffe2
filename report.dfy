/**
 * The report screen: the totals over the user's records and the one-page
 * PDF report, drawn as a list of positioned drawing operations.
 */
module Report {
  import opened Base
  import opened Text
  import opened InventoryModel
  import Repository

  // ---------------------------------------------------------------------
  // Totals
  // ---------------------------------------------------------------------

  const TwoTo32: int := 0x1_0000_0000

  /** The `Int` that a 32-bit two's-complement computation of `x` ends with. */
  function Wrap32(x: int): (r: Int32)
    ensures (r - x) % TwoTo32 == 0
    ensures MinInt <= x <= MaxInt ==> r == x
  {
    (x - MinInt) % TwoTo32 + MinInt
  }

  /** The exact sum of the quantities. */
  function SumQuantities(items: seq<Inventory>): int {
    if items == [] then 0 else items[0].quantity + SumQuantities(items[1..])
  }

  /** Adding on an `Int` accumulator, wrapping after every step. */
  function SumFrom(acc: Int32, items: seq<Inventory>): Int32
    decreases |items|
  {
    if items == [] then acc else SumFrom(Wrap32(acc + items[0].quantity), items[1..])
  }

  lemma WrapAgain(x: int, y: int)
    ensures Wrap32(Wrap32(x) + y) == Wrap32(x + y)
  {
    var m := TwoTo32;
    var d := x - MinInt;
    assert Wrap32(x) + y - MinInt == d % m + y;
    assert d == m * (d / m) + d % m;
    assert d + y == (d % m + y) + m * (d / m);
    ModMultiple(d % m + y, d / m);
  }

  lemma ModMultiple(z: int, k: int)
    ensures (z + TwoTo32 * k) % TwoTo32 == z % TwoTo32
  {
  }

  lemma {:induction false} SumFromWraps(acc: Int32, items: seq<Inventory>)
    ensures SumFrom(acc, items) == Wrap32(acc + SumQuantities(items))
    decreases |items|
  {
    if items != [] {
      SumFromWraps(Wrap32(acc + items[0].quantity), items[1..]);
      WrapAgain(acc + items[0].quantity, SumQuantities(items[1..]));
    }
  }

  /**
   * `inventoryItems.sumOf { it.quantity }`: the exact sum of the quantities,
   * wrapped to an `Int`; the exact sum itself whenever it fits.
   */
  function TotalItems(items: seq<Inventory>): (r: Int32)
    ensures r == Wrap32(SumQuantities(items))
    ensures MinInt <= SumQuantities(items) <= MaxInt ==> r == SumQuantities(items)
  {
    SumFromWraps(0, items);
    SumFrom(0, items)
  }

  lemma {:induction false} QuantitiesAppend(a: seq<Inventory>, b: seq<Inventory>)
    ensures SumQuantities(a + b) == SumQuantities(a) + SumQuantities(b)
    decreases |a|
  {
    if a == [] {
      assert a + b == b;
    } else {
      assert (a + b)[1..] == a[1..] + b;
      QuantitiesAppend(a[1..], b);
    }
  }

  lemma {:induction false} QuantitiesIgnoreOrder(a: seq<Inventory>, b: seq<Inventory>)
    requires multiset(a) == multiset(b)
    ensures SumQuantities(a) == SumQuantities(b)
    decreases |a|
  {
    if a == [] {
      assert |b| == |multiset(b)| == 0;
    } else {
      var j := PermutationHead(a, b);
      QuantitiesIgnoreOrder(a[1..], b[..j] + b[j + 1..]);
      QuantitiesAppend(b[..j], [a[0]] + b[j + 1..]);
      QuantitiesAppend([a[0]], b[j + 1..]);
      QuantitiesAppend(b[..j], b[j + 1..]);
    }
  }

  /** "Total Items" is the same whatever order the records arrive in. */
  lemma TotalItemsIgnoresOrder(a: seq<Inventory>, b: seq<Inventory>)
    requires multiset(a) == multiset(b)
    ensures TotalItems(a) == TotalItems(b)
  {
    QuantitiesIgnoreOrder(a, b);
  }

  /** "Total Items" counts units, not records: 0 for no records, a lone record's quantity for one. */
  lemma TotalItemsCountsUnits(item: Inventory)
    ensures TotalItems([]) == 0
    ensures TotalItems([item]) == item.quantity
  {
    assert SumQuantities([item]) == item.quantity + SumQuantities([]);
  }

  /** The total of two lists of records is their totals added with `Int` wrap-around. */
  lemma TotalItemsAppend(a: seq<Inventory>, b: seq<Inventory>)
    ensures TotalItems(a + b) == Wrap32(TotalItems(a) + TotalItems(b))
  {
    var x, y := SumQuantities(a), SumQuantities(b);
    QuantitiesAppend(a, b);
    WrapAgain(x, y);
    WrapAgain(y, Wrap32(x));
    assert Wrap32(x) + Wrap32(y) == Wrap32(y) + Wrap32(x);
  }

  /**
   * "Total Items" does not depend on which order the store delivers the
   * user's records in: any two deliveries of the listing give the same total.
   */
  lemma ListingTotalAgrees(a: seq<Inventory>, b: seq<Inventory>, documents: map<string, Inventory>, uid: string)
    requires Repository.IsOwnedListing(a, documents, uid) && Repository.IsOwnedListing(b, documents, uid)
    ensures TotalItems(a) == TotalItems(b)
  {
    Repository.ListingsArePermutations(a, b, documents, uid);
    TotalItemsIgnoresOrder(a, b);
  }

  /** The author shown on the report: the user name, or "Unknown User" when it is null. */
  function ReportAuthor(username: Option<string>): (r: string)
    ensures username.Some? ==> r == username.value
    ensures username.None? ==> r == "Unknown User"
  {
    username.GetOr("Unknown User")
  }

  // ---------------------------------------------------------------------
  // The PDF page
  // ---------------------------------------------------------------------

  /** A4 in points, the page size of the report. */
  const PageWidth: int := 595
  const PageHeight: int := 842
  /** The launcher icon is scaled to a 50 by 50 square. */
  const IconSize: int := 50
  /** The vertical position of the column headers. */
  const HeaderY: int := IconSize + 140
  /** Where the two summary lines are drawn. */
  const SummaryX: int := 400
  const SummaryY: int := 800

  /**
   * What one drawing call puts on the page. The three money cells stand for
   * "$" followed by a `Double` written with two decimals: a record's price,
   * its price times its quantity, and the total price passed in.
   */
  datatype Content =
    | Icon
    | Caption(text: string)
    | PriceCell(price: Price)
    | LineTotalCell(price: Price, quantity: Int32)
    | TotalPriceLine(totalPrice: Price)

  /** One drawing call, with its baseline position (the top-left corner for the icon). */
  datatype DrawOp = DrawOp(content: Content, x: int, y: int)

  /** The icon, the title, the date and author lines, and the four column headers. */
  function Header(username: string, dateText: string): seq<DrawOp> {
    [ DrawOp(Icon, PageWidth - IconSize - 20, 20),
      DrawOp(Caption("Inventory Report"), 20, IconSize + 40),
      DrawOp(Caption("Date: " + dateText), 20, IconSize + 70),
      DrawOp(Caption("Generated by: " + username), 20, IconSize + 90),
      DrawOp(Caption("Item Name"), 20, HeaderY),
      DrawOp(Caption("Quantity"), 200, HeaderY),
      DrawOp(Caption("Price"), 350, HeaderY),
      DrawOp(Caption("Total"), 450, HeaderY) ]
  }

  const HeaderOps: int := 8

  /** The baseline of the row for the `i`-th record. */
  function RowY(i: nat): int {
    HeaderY + 40 + 40 * i
  }

  /** The four cells of one record's row. */
  function RowOps(item: Inventory, y: int): seq<DrawOp> {
    [ DrawOp(Caption(item.name), 20, y),
      DrawOp(Caption(IntToString(item.quantity)), 200, y),
      DrawOp(PriceCell(item.price), 350, y),
      DrawOp(LineTotalCell(item.price, item.quantity), 450, y) ]
  }

  /** The rows of all records, the `i`-th at `RowY(i)`. */
  function Rows(items: seq<Inventory>): seq<DrawOp>
    decreases |items|
  {
    if items == [] then []
    else Rows(items[..|items| - 1]) + RowOps(items[|items| - 1], RowY(|items| - 1))
  }

  /** The two summary lines at the bottom right. */
  function Summary(totalItems: Int32, totalPrice: Price): seq<DrawOp> {
    [ DrawOp(Caption("Total Items: " + IntToString(totalItems)), SummaryX, SummaryY),
      DrawOp(TotalPriceLine(totalPrice), SummaryX, SummaryY + 20) ]
  }

  /** The whole page, in drawing order. */
  function ReportPage(items: seq<Inventory>, totalItems: Int32, totalPrice: Price, username: string, dateText: string)
    : seq<DrawOp>
  {
    Header(username, dateText) + Rows(items) + Summary(totalItems, totalPrice)
  }

  /**
   * `generatePdfReport`, up to finishing the page: the header, then one row
   * per record while the baseline moves down by 40, then the summary.
   * `dateText` is the formatted current date and time.
   */
  method GeneratePdfReport(items: seq<Inventory>, totalItems: Int32, totalPrice: Price, username: string, dateText: string)
    returns (page: seq<DrawOp>)
    ensures page == ReportPage(items, totalItems, totalPrice, username, dateText)
  {
    page := Header(username, dateText);
    var y := HeaderY + 40;
    for k := 0 to |items|
      invariant y == RowY(k)
      invariant page == Header(username, dateText) + Rows(items[..k])
    {
      assert items[..k + 1][..k] == items[..k];
      page := page + RowOps(items[k], y);
      y := y + 40;
    }
    assert items[..|items|] == items;
    page := page + Summary(totalItems, totalPrice);
  }

  lemma {:induction false} RowsLength(items: seq<Inventory>)
    ensures |Rows(items)| == 4 * |items|
    decreases |items|
  {
    if items != [] {
      RowsLength(items[..|items| - 1]);
    }
  }

  /** The `c`-th drawing call of the `i`-th row. */
  lemma {:induction false} RowsAt(items: seq<Inventory>, i: nat, c: nat)
    requires i < |items| && c < 4
    ensures |Rows(items)| == 4 * |items|
    ensures Rows(items)[4 * i + c] == RowOps(items[i], RowY(i))[c]
    decreases |items|
  {
    RowsLength(items);
    var n := |items| - 1;
    var prefix := items[..n];
    RowsLength(prefix);
    if i < n {
      RowsAt(prefix, i, c);
      assert prefix[i] == items[i];
    }
  }

  /**
   * The layout of the page: the header first, then four cells per record
   * with the `i`-th record's row at `RowY(i)`, then the summary last.
   */
  lemma ReportPageLayout(items: seq<Inventory>, totalItems: Int32, totalPrice: Price, username: string, dateText: string)
    ensures var page := ReportPage(items, totalItems, totalPrice, username, dateText);
            && |page| == HeaderOps + 4 * |items| + 2
            && page[..HeaderOps] == Header(username, dateText)
            && (forall i, c :: 0 <= i < |items| && 0 <= c < 4 ==>
                  page[HeaderOps + 4 * i + c] == RowOps(items[i], RowY(i))[c])
            && page[|page| - 2..] == Summary(totalItems, totalPrice)
  {
    var header, rows, summary := Header(username, dateText), Rows(items), Summary(totalItems, totalPrice);
    var page := header + rows + summary;
    assert page == ReportPage(items, totalItems, totalPrice, username, dateText);
    RowsLength(items);
    forall i, c | 0 <= i < |items| && 0 <= c < 4
      ensures page[HeaderOps + 4 * i + c] == RowOps(items[i], RowY(i))[c]
    {
      RowsAt(items, i, c);
      assert page[HeaderOps + 4 * i + c] == rows[4 * i + c];
    }
    assert page[..HeaderOps] == header;
    assert page[|page| - 2..] == summary;
  }

  lemma SplitIndex(k: nat) returns (i: nat, c: nat)
    ensures c < 4 && k == 4 * i + c
  {
    i, c := k / 4, k % 4;
  }

  /**
   * The report is a single page: every drawing call starts inside its width,
   * and a call lies below the bottom edge exactly when it belongs to the
   * row of the seventeenth record or a later one.
   */
  lemma OffPageRows(items: seq<Inventory>, totalItems: Int32, totalPrice: Price, username: string, dateText: string)
    ensures var page := ReportPage(items, totalItems, totalPrice, username, dateText);
            forall k :: 0 <= k < |page| ==>
              && 0 <= page[k].x < PageWidth
              && (page[k].y > PageHeight <==> HeaderOps + 4 * 16 <= k < |page| - 2)
  {
    var page := ReportPage(items, totalItems, totalPrice, username, dateText);
    ReportPageLayout(items, totalItems, totalPrice, username, dateText);
    forall k | 0 <= k < |page|
      ensures 0 <= page[k].x < PageWidth
      ensures page[k].y > PageHeight <==> HeaderOps + 4 * 16 <= k < |page| - 2
    {
      if HeaderOps <= k < |page| - 2 {
        var i, c := SplitIndex(k - HeaderOps);
        assert page[k] == RowOps(items[i], RowY(i))[c];
        assert page[k].y == RowY(i);
        assert RowY(i) > PageHeight <==> i >= 16;
      } else if k >= |page| - 2 {
        assert page[k] == Summary(totalItems, totalPrice)[k - (|page| - 2)];
      } else {
        assert page[k] == Header(username, dateText)[k];
      }
    }
  }

  /** The rows of the fifteenth and sixteenth records are drawn between or on the summary lines. */
  lemma RowsReachSummary(i: nat)
    ensures SummaryY - 20 < RowY(i) <= PageHeight <==> i == 14 || i == 15
  {
  }
}
