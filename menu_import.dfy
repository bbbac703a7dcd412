/**
 * The merchant's menu import, after the spreadsheet is decoded into rows of cells: the
 * header search in the first ten rows, the per-row rules (price, category cleaning,
 * veg flag) and the decision to import the kept rows.
 */
module MenuImport {
  import opened Wrappers
  import opened Text
  import opened Schema

  /** A decoded spreadsheet cell: absent, text, or a (whole) number. */
  datatype Cell = Blank | Text(s: string) | Num(n: int)

  type Row = seq<Cell>

  const HeaderSearchRows := 10
  const DefaultCategory := "Main Course"
  const ImportedImage := "/assets/biryani.png"

  /** `row[k]`, which is `undefined` past the end of the row. */
  function CellAt(row: Row, k: nat): Cell {
    if k < |row| then row[k] else Blank
  }

  /** JavaScript truthiness of a cell. */
  predicate Truthy(c: Cell) {
    match c
    case Blank => false
    case Text(s) => s != ""
    case Num(n) => n != 0
  }

  /** `String(cell)`, with an absent cell joined as the empty text. */
  function CellString(c: Cell): string {
    match c
    case Blank => ""
    case Text(s) => s
    case Num(n) => IntToString(n)
  }

  /** `Number(cell) || 0`: the cell's numeric value, 0 for anything that is not a number. */
  function PriceOf(c: Cell): (p: int)
    ensures c.Num? ==> p == c.n
    ensures c.Blank? ==> p == 0
  {
    match c
    case Blank => 0
    case Num(n) => n
    case Text(s) => ParseNumber(s).GetOr(0)
  }

  /** `row.join(" ")`. */
  function JoinRow(row: Row): string {
    if row == [] then ""
    else if |row| == 1 then CellString(row[0])
    else CellString(row[0]) + " " + JoinRow(row[1..])
  }

  /** A header row mentions "price" or "name" in any letter case. */
  predicate IsHeader(row: Row) {
    var text := Lower(JoinRow(row));
    Contains(text, "price") || Contains(text, "name")
  }

  function SearchLimit(rows: seq<Row>): nat {
    if |rows| < HeaderSearchRows then |rows| else HeaderSearchRows
  }

  /** The index data starts at when the header search begins at row `i`. */
  function HeaderFrom(rows: seq<Row>, i: nat): (start: nat)
    requires i <= SearchLimit(rows)
    ensures start == 0 <==> forall k :: i <= k < SearchLimit(rows) ==> !IsHeader(rows[k])
    ensures start != 0 ==>
      && i < start <= SearchLimit(rows) && IsHeader(rows[start - 1])
      && forall k :: i <= k < start - 1 ==> !IsHeader(rows[k])
    decreases SearchLimit(rows) - i
  {
    if i == SearchLimit(rows) then 0
    else if IsHeader(rows[i]) then i + 1
    else HeaderFrom(rows, i + 1)
  }

  /** `s` begins with "special" in some letter case. */
  predicate StartsSpecial(s: string) {
    |s| >= 7 && Lower(s[..7]) == "special"
  }

  /**
   * `.replace(/special/gi, "")`: every occurrence of "special", in any letter case, taken
   * out in one left-to-right pass.
   */
  function RemoveSpecial(s: string): (r: string)
    ensures |r| <= |s|
  {
    if StartsSpecial(s) then RemoveSpecial(s[7..])
    else if s == [] then []
    else [s[0]] + RemoveSpecial(s[1..])
  }

  /** A category cleaned of "special" and surrounding spaces, falling back to the default. */
  function CleanCategory(raw: string): (category: string)
    ensures category != ""
    ensures category == DefaultCategory || category == Trim(RemoveSpecial(raw))
  {
    var c := Trim(RemoveSpecial(raw));
    if c == "" then DefaultCategory else c
  }

  /**
   * `!String(row[4] || "veg").toLowerCase().includes("non")`; the fallback "veg" has no
   * "non" in it, so an empty type cell means veg.
   */
  function IsVegType(c: Cell): bool {
    if Truthy(c) then !Contains(Lower(CellString(c)), "non") else true
  }

  /** `Math.round(price * 1.2)` for a whole price. */
  function RoundedOriginal(price: int): (r: int)
    ensures -5 <= 10 * r - 12 * price < 5
  {
    var n := 12 * price + 5;
    assert n % 10 != 0;
    n / 10
  }

  /** What one data row yields. `Throw` is the TypeError a numeric category raises. */
  datatype RowResult = Skip | Keep(item: MenuItemInsert) | Throw

  /** A non-zero number in the category column: `number.replace` is not a function. */
  predicate CategoryThrows(row: Row) {
    CellAt(row, 3).Num? && CellAt(row, 3).n != 0
  }

  /** The row is kept when it names an item and gives it a non-zero price. */
  predicate NamesPricedItem(row: Row) {
    Truthy(CellAt(row, 0)) && PriceOf(CellAt(row, 1)) != 0
  }

  /** The item a kept row sends, with the import's fixed image, availability and original price. */
  function ItemOf(row: Row): MenuItemInsert {
    var category := CellAt(row, 3);
    var price := PriceOf(CellAt(row, 1));
    MenuItemInsert(
      CellString(CellAt(row, 0)),
      Some(if Truthy(CellAt(row, 2)) then CellString(CellAt(row, 2)) else ""),
      price,
      Some(RoundedOriginal(price)),
      Some(ImportedImage),
      if Truthy(category) && category.Text? then CleanCategory(category.s) else DefaultCategory,
      Some(IsVegType(CellAt(row, 4))),
      Some(true))
  }

  /** A data row's result; an empty row is skipped. */
  function ParseRow(row: Row): RowResult {
    if row == [] then Skip
    else if CategoryThrows(row) then Throw
    else if NamesPricedItem(row) then Keep(ItemOf(row))
    else Skip
  }

  /** The running result after one more row: a throw ends it, a kept item is appended. */
  function Absorb(acc: Option<seq<MenuItemInsert>>, r: RowResult): Option<seq<MenuItemInsert>> {
    match acc
    case None => None
    case Some(prefix) =>
      match r
      case Throw => None
      case Skip => Some(prefix)
      case Keep(item) => Some(prefix + [item])
  }

  /** The row results of `rows`, row by row. */
  function Results(rows: seq<Row>): (r: seq<RowResult>)
    ensures |r| == |rows| && forall k :: 0 <= k < |rows| ==> r[k] == ParseRow(rows[k])
  {
    seq(|rows|, k requires 0 <= k < |rows| => ParseRow(rows[k]))
  }

  /** The kept items of a run of row results, in order, or `None` once one of them throws. */
  function Collect(results: seq<RowResult>): Option<seq<MenuItemInsert>> {
    if results == [] then Some([])
    else Absorb(Collect(results[..|results| - 1]), results[|results| - 1])
  }

  /** The kept items of `rows` in order, or `None` when some row throws. */
  function ParseRows(rows: seq<Row>): Option<seq<MenuItemInsert>> {
    Collect(Results(rows))
  }

  lemma CollectSnoc(results: seq<RowResult>, lo: nat, hi: nat)
    requires lo <= hi < |results|
    ensures Collect(results[lo..hi + 1]) == Absorb(Collect(results[lo..hi]), results[hi])
  {
    assert results[lo..hi + 1][..hi - lo] == results[lo..hi];
  }

  lemma ResultsSuffix(rows: seq<Row>, lo: nat)
    requires lo <= |rows|
    ensures Results(rows)[lo..] == Results(rows[lo..])
  {
  }

  /** What the import does: nothing after a thrown error or when no row was kept; otherwise it replaces the menu. */
  datatype ImportOutcome = Threw | NothingToImport | Import(items: seq<MenuItemInsert>)

  function Outcome(kept: Option<seq<MenuItemInsert>>): ImportOutcome {
    match kept
    case None => Threw
    case Some(items) => if items == [] then NothingToImport else Import(items)
  }

  /** The import handler's first loop: the header search in the first ten rows. */
  method FindDataStart(rows: seq<Row>) returns (startIndex: nat)
    ensures startIndex == HeaderFrom(rows, 0)
  {
    startIndex := 0;
    var i := 0;
    var limit := SearchLimit(rows);
    while i < limit
      invariant 0 <= i <= limit
      invariant HeaderFrom(rows, 0) == HeaderFrom(rows, i)
    {
      var rowStr := Lower(JoinRow(rows[i]));
      if Contains(rowStr, "price") || Contains(rowStr, "name") {
        startIndex := i + 1;
        break;
      }
      i := i + 1;
    }
  }

  /** The import handler's second loop: the per-row rules from `startIndex` on, stopping at a throw. */
  method CollectRows(rows: seq<Row>, startIndex: nat) returns (kept: Option<seq<MenuItemInsert>>)
    requires startIndex <= |rows|
    ensures kept == Collect(Results(rows)[startIndex..])
  {
    ghost var results := Results(rows);
    var newItems: seq<MenuItemInsert> := [];
    var i := startIndex;
    while i < |rows|
      invariant startIndex <= i <= |rows|
      invariant Collect(results[startIndex..i]) == Some(newItems)
    {
      CollectSnoc(results, startIndex, i);
      var r := ParseRow(rows[i]);
      assert r == results[i];
      match r {
        case Throw =>
          CollectThrown(results[startIndex..], i - startIndex);
          return None;
        case Keep(item) =>
          newItems := newItems + [item];
        case Skip =>
      }
      i := i + 1;
    }
    assert results[startIndex..] == results[startIndex..|rows|];
    kept := Some(newItems);
  }

  /** The import handler, from the decoded rows to what it sends. */
  method ImportRows(rows: seq<Row>) returns (outcome: ImportOutcome)
    ensures outcome == Outcome(ParseRows(rows[HeaderFrom(rows, 0)..]))
  {
    var startIndex := FindDataStart(rows);
    var kept := CollectRows(rows, startIndex);
    ResultsSuffix(rows, startIndex);
    if kept.None? {
      outcome := Threw;
    } else if |kept.value| > 0 {
      outcome := Import(kept.value);
    } else {
      outcome := NothingToImport;
    }
  }

  /** An imported item always has a name, a non-zero price, a category and the import's fixed fields. */
  predicate ImportedShape(it: MenuItemInsert) {
    && it.name != "" && it.price != 0 && it.category != ""
    && it.originalPrice == Some(RoundedOriginal(it.price))
    && it.image == Some(ImportedImage) && it.available == Some(true) && it.description.Some?
  }

  lemma KeptRowShape(row: Row)
    requires ParseRow(row).Keep?
    ensures ImportedShape(ParseRow(row).item)
    ensures ParseRow(row).item.isVeg == Some(IsVegType(CellAt(row, 4)))
  {
    var name := CellAt(row, 0);
    if name.Num? {
      assert CellString(name) == IntToString(name.n);
    }
  }

  /** The items of the kept results, in order: the reference reading of `Collect`. */
  function KeptItems(results: seq<RowResult>): (items: seq<MenuItemInsert>)
    ensures |items| <= |results|
  {
    if results == [] then []
    else (if results[0].Keep? then [results[0].item] else []) + KeptItems(results[1..])
  }

  lemma {:induction false} KeptComesFromKeep(results: seq<RowResult>, x: MenuItemInsert)
    requires x in KeptItems(results)
    ensures Keep(x) in results
  {
    if results[0].Keep? && results[0].item == x {
    } else {
      KeptComesFromKeep(results[1..], x);
    }
  }

  lemma {:induction false} KeptSnoc(results: seq<RowResult>, r: RowResult)
    ensures KeptItems(results + [r]) == KeptItems(results) + (if r.Keep? then [r.item] else [])
  {
    var tail: seq<MenuItemInsert> := if r.Keep? then [r.item] else [];
    var all := results + [r];
    if results == [] {
      assert all == [r];
      assert all[1..] == [];
      assert KeptItems(all) == tail + [];
    } else {
      var head: seq<MenuItemInsert> := if results[0].Keep? then [results[0].item] else [];
      assert all[0] == results[0];
      assert all[1..] == results[1..] + [r];
      KeptSnoc(results[1..], r);
      calc {
        KeptItems(all);
        head + KeptItems(results[1..] + [r]);
        head + (KeptItems(results[1..]) + tail);
        (head + KeptItems(results[1..])) + tail;
        KeptItems(results) + tail;
      }
    }
  }

  /**
   * `Collect` fails exactly when some row throws; otherwise it keeps, in order, the
   * items of the kept rows and nothing else.
   */
  lemma {:induction false} CollectMeaning(results: seq<RowResult>)
    ensures Collect(results) == if Throw in results then None else Some(KeptItems(results))
  {
    if results != [] {
      var init := results[..|results| - 1];
      var last := results[|results| - 1];
      assert results == init + [last];
      CollectMeaning(init);
      KeptSnoc(init, last);
      assert Collect(results) == Absorb(Collect(init), last);
      assert Throw in results <==> Throw in init || last == Throw;
      if Throw !in results {
        assert Collect(init) == Some(KeptItems(init));
        assert KeptItems(results) == KeptItems(init) + (if last.Keep? then [last.item] else []);
        if last.Keep? {
          assert Collect(results) == Some(KeptItems(init) + [last.item]);
        } else {
          assert last.Skip?;
          assert Collect(results) == Some(KeptItems(init));
          assert KeptItems(init) + [] == KeptItems(init);
        }
      }
    }
  }

  lemma CollectThrown(results: seq<RowResult>, j: nat)
    requires j < |results| && results[j] == Throw
    ensures Collect(results) == None
  {
    CollectMeaning(results);
    assert Throw in results;
  }

  /** Every item an import sends has the shape of a kept row. */
  lemma ImportedItemsShape(rows: seq<Row>)
    requires ParseRows(rows).Some?
    ensures forall x :: x in ParseRows(rows).value ==> ImportedShape(x)
    ensures |ParseRows(rows).value| <= |rows|
  {
    CollectMeaning(Results(rows));
    forall x | x in ParseRows(rows).value ensures ImportedShape(x) {
      KeptComesFromKeep(Results(rows), x);
      var k :| 0 <= k < |rows| && Results(rows)[k] == Keep(x);
      KeptRowShape(rows[k]);
    }
  }

  /** One throwing row anywhere stops the whole import. */
  lemma ThrowAborts(rows: seq<Row>, i: nat)
    requires i < |rows| && ParseRow(rows[i]) == Throw
    ensures ParseRows(rows) == None
  {
    CollectMeaning(Results(rows));
    assert Results(rows)[i] == Throw;
  }

  /** Text without "special" in any letter case keeps its category as it is. */
  lemma {:induction false} RemoveSpecialKeepsPlainText(s: string)
    requires forall k :: 0 <= k < |s| ==> !StartsSpecial(s[k..])
    ensures RemoveSpecial(s) == s
  {
    if s != [] {
      assert !StartsSpecial(s[0..]);
      assert s[0..] == s;
      forall k | 0 <= k < |s[1..]| ensures !StartsSpecial(s[1..][k..]) {
        assert s[1..][k..] == s[k + 1..];
      }
      RemoveSpecialKeepsPlainText(s[1..]);
      assert s == [s[0]] + s[1..];
    }
  }
}

/** Worked cases of the category cleaning. */
module MenuImportExamples {
  import opened Text
  import opened MenuImport

  lemma LowerSpecial()
    ensures Lower("Special") == "special" && Lower("special") == "special"
  {
  }

  /** A category that is only "Special" falls back to the default. */
  lemma OnlySpecialFallsBack()
    ensures CleanCategory("Special") == DefaultCategory
  {
    LowerSpecial();
    assert StartsSpecial("Special");
    assert "Special"[7..] == [];
  }
}
