/**
 * The storefront's list rules: which categories the home screen shows, the menu's
 * search and veg filters, the banner's linked-item toggle and the cart badge count.
 */
module Catalog {
  import opened Wrappers
  import opened Text
  import opened Schema
  import opened Cart
  import opened Pricing

  const MaxShown := 8

  /** No value occurs twice in `s`. */
  predicate NoDuplicates<T(==)>(s: seq<T>) {
    forall i, j :: 0 <= i < j < |s| ==> s[i] != s[j]
  }

  /** `s` lists, in order, some of the elements of `t`. */
  predicate Subsequence<T(==)>(s: seq<T>, t: seq<T>) {
    if s == [] then true
    else if t == [] then false
    else (s[0] == t[0] && Subsequence(s[1..], t[1..])) || Subsequence(s, t[1..])
  }

  /** `Array.from(new Set(s))`: each value once, at its first occurrence. */
  function Distinct(s: seq<string>): (r: seq<string>)
    ensures forall x :: x in r <==> x in s
    ensures NoDuplicates(r)
  {
    if s == [] then []
    else
      var d := Distinct(s[..|s| - 1]);
      assert forall x :: x in s <==> x in s[..|s| - 1] || x == s[|s| - 1];
      if s[|s| - 1] in d then d else d + [s[|s| - 1]]
  }

  /** The index of the first occurrence of `x` in `s`. */
  function FirstIndex<T(==)>(s: seq<T>, x: T): (i: nat)
    requires x in s
    ensures i < |s| && s[i] == x && x !in s[..i]
  {
    if s[0] == x then 0
    else
      var j := FirstIndex(s[1..], x);
      assert s[..j + 1] == [s[0]] + s[1..][..j];
      j + 1
  }

  /** Every value of `r` occurs in `s`, and `r` lists them in the order they first occur in `s`. */
  predicate InFirstOccurrenceOrder<T(==)>(r: seq<T>, s: seq<T>) {
    && (forall x :: x in r ==> x in s)
    && (forall i, j :: 0 <= i < j < |r| ==> FirstIndex(s, r[i]) < FirstIndex(s, r[j]))
  }

  lemma FirstIndexUnique<T>(s: seq<T>, x: T, k: nat)
    requires k < |s| && s[k] == x && x !in s[..k]
    ensures FirstIndex(s, x) == k
  {
  }

  /** Appending a value leaves the first occurrences of the values already there. */
  lemma FirstIndexSnoc<T>(s: seq<T>, y: T, x: T)
    requires x in s
    ensures FirstIndex(s + [y], x) == FirstIndex(s, x)
  {
    var i := FirstIndex(s, x);
    assert (s + [y])[..i] == s[..i];
    FirstIndexUnique(s + [y], x, i);
  }

  /** `Distinct` keeps each value at its first occurrence: the values come in the order they first appear. */
  lemma {:induction false} DistinctFirstOccurrence(s: seq<string>)
    ensures InFirstOccurrenceOrder(Distinct(s), s)
    decreases |s|
  {
    if s != [] {
      var init, y := s[..|s| - 1], s[|s| - 1];
      assert s == init + [y];
      var d := Distinct(init);
      DistinctFirstOccurrence(init);
      forall x | x in d ensures FirstIndex(s, x) == FirstIndex(init, x) {
        FirstIndexSnoc(init, y, x);
      }
      if y !in d {
        assert (s[..|init|]) == init;
        FirstIndexUnique(s, y, |init|);
        var r := d + [y];
        forall i, j | 0 <= i < j < |r| ensures FirstIndex(s, r[i]) < FirstIndex(s, r[j]) {
          if j < |d| {
            assert r[i] == d[i] && r[j] == d[j];
          } else {
            assert r[i] == d[i] && d[i] in d;
          }
        }
      }
    }
  }

  lemma {:induction false} SubsequenceMembers<T>(a: seq<T>, b: seq<T>)
    requires Subsequence(a, b)
    ensures forall x :: x in a ==> x in b
    decreases |b|
  {
    if a != [] {
      if a[0] == b[0] && Subsequence(a[1..], b[1..]) {
        SubsequenceMembers(a[1..], b[1..]);
        assert forall x :: x in a ==> x == a[0] || x in a[1..];
      } else {
        SubsequenceMembers(a, b[1..]);
      }
    }
  }

  /** Selecting in order keeps the first-occurrence order. */
  lemma {:induction false} SubsequenceKeepsOrder<T>(a: seq<T>, b: seq<T>, s: seq<T>)
    requires Subsequence(a, b) && InFirstOccurrenceOrder(b, s)
    ensures InFirstOccurrenceOrder(a, s)
    decreases |b|
  {
    if a != [] {
      SubsequenceMembers(a, b);
      if a[0] == b[0] && Subsequence(a[1..], b[1..]) {
        assert InFirstOccurrenceOrder(b[1..], s) by {
          forall i, j | 0 <= i < j < |b[1..]| ensures FirstIndex(s, b[1..][i]) < FirstIndex(s, b[1..][j]) {
            assert b[1..][i] == b[i + 1] && b[1..][j] == b[j + 1];
          }
        }
        SubsequenceKeepsOrder(a[1..], b[1..], s);
        SubsequenceMembers(a[1..], b[1..]);
        forall j | 0 < j < |a| ensures FirstIndex(s, a[0]) < FirstIndex(s, a[j]) {
          assert a[j] == a[1..][j - 1] && a[j] in a[1..];
          assert a[j] in b[1..];
          var k :| 0 <= k < |b[1..]| && b[1..][k] == a[j];
          assert b[k + 1] == a[j];
        }
        forall i, j | 0 <= i < j < |a| ensures FirstIndex(s, a[i]) < FirstIndex(s, a[j]) {
          if i > 0 {
            assert a[i] == a[1..][i - 1] && a[j] == a[1..][j - 1];
          }
        }
      } else {
        assert InFirstOccurrenceOrder(b[1..], s) by {
          forall i, j | 0 <= i < j < |b[1..]| ensures FirstIndex(s, b[1..][i]) < FirstIndex(s, b[1..][j]) {
            assert b[1..][i] == b[i + 1] && b[1..][j] == b[j + 1];
          }
        }
        SubsequenceKeepsOrder(a, b[1..], s);
      }
    }
  }

  /** The menu's categories, in menu order. */
  function Categories(menu: seq<MenuItem>): (r: seq<string>)
    ensures |r| == |menu| && forall k :: 0 <= k < |menu| ==> r[k] == menu[k].category
  {
    seq(|menu|, k requires 0 <= k < |menu| => menu[k].category)
  }

  /** The categories whose row is marked visible, in table order. */
  function VisibleNames(rows: seq<CategoryImage>): (r: seq<string>)
    ensures forall c :: c in r <==> exists k :: 0 <= k < |rows| && rows[k].visible && rows[k].category == c
  {
    if rows == [] then []
    else
      var rest := VisibleNames(rows[1..]);
      assert forall k :: 1 <= k < |rows| ==> rows[k] == rows[1..][k - 1];
      (if rows[0].visible then [rows[0].category] else []) + rest
  }

  /** `all.filter(c => visible.includes(c))`. */
  function OnlyVisible(all: seq<string>, visible: seq<string>): (r: seq<string>)
    ensures forall c :: c in r <==> c in all && c in visible
    ensures |r| <= |all|
    ensures NoDuplicates(all) ==> NoDuplicates(r)
    ensures Subsequence(r, all)
  {
    if all == [] then []
    else
      var rest := OnlyVisible(all[1..], visible);
      assert forall c :: c in all <==> c == all[0] || c in all[1..];
      if all[0] in visible then [all[0]] + rest else rest
  }

  function Take<T>(s: seq<T>, n: nat): (r: seq<T>)
    ensures |r| <= n && r == s[..if |s| < n then |s| else n]
  {
    if |s| < n then s else s[..n]
  }

  /** The categories the home screen lists before the layout picks how many to show. */
  function DisplayedCategories(menu: seq<MenuItem>, visible: seq<string>): seq<string> {
    var all := Distinct(Categories(menu));
    var displayed := OnlyVisible(all, visible);
    if |displayed| == 0 && |visible| == 0 then Take(all, MaxShown) else displayed
  }

  /** Whether the home screen adds a "more" tile. */
  predicate ShowMore(menu: seq<MenuItem>, visible: seq<string>) {
    var all := Distinct(Categories(menu));
    var displayed := DisplayedCategories(menu, visible);
    |displayed| > MaxShown || (|visible| > 0 && |visible| < |all| && |all| > MaxShown) || |all| > MaxShown
  }

  /** The category tiles shown: seven beside a "more" tile, otherwise up to eight. */
  function FinalDisplay(menu: seq<MenuItem>, visible: seq<string>): seq<string> {
    var displayed := DisplayedCategories(menu, visible);
    if ShowMore(menu, visible) then Take(displayed, MaxShown - 1) else Take(displayed, MaxShown)
  }

  lemma {:induction false} SubsequenceOfPrefix<T>(s: seq<T>, t: seq<T>, n: nat)
    requires n <= |s|
    requires Subsequence(s, t)
    ensures Subsequence(s[..n], t)
    decreases |t|
  {
    if n > 0 {
      assert s[..n][1..] == s[1..][..n - 1];
      if s[0] == t[0] && Subsequence(s[1..], t[1..]) {
        SubsequenceOfPrefix(s[1..], t[1..], n - 1);
      } else {
        SubsequenceOfPrefix(s, t[1..], n);
      }
    }
  }

  lemma {:induction false} PrefixIsSubsequence<T>(t: seq<T>, n: nat)
    requires n <= |t|
    ensures Subsequence(t[..n], t)
    decreases n
  {
    if n > 0 {
      assert t[..n][1..] == t[1..][..n - 1];
      PrefixIsSubsequence(t[1..], n - 1);
    }
  }

  /**
   * The home screen shows at most eight distinct menu categories, in menu order; only
   * seven when there is a "more" tile; and only visible ones once any is marked visible.
   */
  lemma FinalDisplaySpec(menu: seq<MenuItem>, visible: seq<string>)
    ensures var shown := FinalDisplay(menu, visible);
      && |shown| <= MaxShown
      && (ShowMore(menu, visible) ==> |shown| <= MaxShown - 1)
      && NoDuplicates(shown)
      && Subsequence(shown, Distinct(Categories(menu)))
      && InFirstOccurrenceOrder(shown, Categories(menu))
      && (forall c :: c in shown ==> exists k :: 0 <= k < |menu| && menu[k].category == c)
      && (|visible| > 0 ==> forall c :: c in shown ==> c in visible)
  {
    var all := Distinct(Categories(menu));
    var displayed := DisplayedCategories(menu, visible);
    var shown := FinalDisplay(menu, visible);
    assert NoDuplicates(displayed) && Subsequence(displayed, all) by {
      if |OnlyVisible(all, visible)| == 0 && |visible| == 0 {
        PrefixIsSubsequence(all, |Take(all, MaxShown)|);
      }
    }
    SubsequenceOfPrefix(displayed, all, |shown|);
    DistinctFirstOccurrence(Categories(menu));
    SubsequenceKeepsOrder(shown, all, Categories(menu));
    forall c | c in shown ensures exists k :: 0 <= k < |menu| && menu[k].category == c {
      assert c in Categories(menu);
    }
  }

  /**
   * With no category marked visible the first eight menu categories are listed, or the
   * first seven beside the "more" tile when there are more than eight.
   */
  lemma NothingVisibleShowsFirst(menu: seq<MenuItem>)
    ensures var all := Distinct(Categories(menu));
      FinalDisplay(menu, []) == if |all| > MaxShown then all[..MaxShown - 1] else all
  {
    var all := Distinct(Categories(menu));
    assert OnlyVisible(all, []) == [] by {
      if OnlyVisible(all, []) != [] {
        assert OnlyVisible(all, [])[0] in OnlyVisible(all, []);
      }
    }
  }

  /** The menu page's type filter. */
  datatype VegFilter = AllItems | VegOnly | NonVegOnly

  /** An item passes the search (case-insensitive substring of its name) and the type filter. */
  predicate Matches(item: MenuItem, query: string, filter: VegFilter) {
    (query == "" || Contains(Lower(item.name), Lower(query)))
    && match filter
       case AllItems => true
       case VegOnly => item.isVeg
       case NonVegOnly => !item.isVeg
  }

  /** `menu.filter(...)`: the matching items, in menu order. */
  function FilterMenu(menu: seq<MenuItem>, query: string, filter: VegFilter): (r: seq<MenuItem>)
    ensures |r| <= |menu|
  {
    if menu == [] then []
    else (if Matches(menu[0], query, filter) then [menu[0]] else []) + FilterMenu(menu[1..], query, filter)
  }

  /** An item is listed exactly when it is on the menu and matches; nothing else is listed. */
  lemma {:induction false} FilterMenuSpec(menu: seq<MenuItem>, query: string, filter: VegFilter)
    ensures forall it :: it in FilterMenu(menu, query, filter) <==> it in menu && Matches(it, query, filter)
    ensures Subsequence(FilterMenu(menu, query, filter), menu)
  {
    if menu != [] {
      FilterMenuSpec(menu[1..], query, filter);
      assert forall it :: it in menu <==> it == menu[0] || it in menu[1..];
      var rest := FilterMenu(menu[1..], query, filter);
      if Matches(menu[0], query, filter) {
        assert ([menu[0]] + rest)[1..] == rest;
      } else {
        assert FilterMenu(menu, query, filter) == rest;
      }
    }
  }

  /** The type filters split the list: veg plus non-veg is everything, with no item in both. */
  lemma VegSplit(item: MenuItem, query: string)
    ensures Matches(item, query, AllItems) <==> Matches(item, query, VegOnly) || Matches(item, query, NonVegOnly)
    ensures !(Matches(item, query, VegOnly) && Matches(item, query, NonVegOnly))
  {
  }

  /** The home screen's search: the same name rule with no type filter; an empty search lists the whole menu. */
  lemma HomeSearchIsNameContains(item: MenuItem, query: string)
    ensures Matches(item, query, AllItems) <==> Contains(Lower(item.name), Lower(query))
  {
    if query == "" {
      ContainsIff(Lower(item.name), Lower(query));
      assert OccursAt(Lower(item.name), Lower(query), 0);
    }
  }

  /** `ids.filter(x => x !== id)`. */
  function Drop(ids: seq<int>, id: int): (r: seq<int>)
    ensures |r| <= |ids|
    ensures forall x :: x in r <==> x in ids && x != id
  {
    if ids == [] then []
    else
      assert forall x :: x in ids <==> x == ids[0] || x in ids[1..];
      (if ids[0] == id then [] else [ids[0]]) + Drop(ids[1..], id)
  }

  /**
   * The checkbox beside item `id` on the banner editor: a linked item is unlinked
   * (every copy of it), an unlinked one is appended. A missing list counts as empty.
   */
  function ToggleLinked(linked: Option<seq<int>>, id: int): (r: seq<int>)
  {
    var ids := linked.GetOr([]);
    if id in ids then Drop(ids, id) else ids + [id]
  }

  /** One toggle flips whether `id` is linked and leaves every other item's link as it was. */
  lemma ToggleFlips(linked: Option<seq<int>>, id: int)
    ensures id in ToggleLinked(linked, id) <==> id !in linked.GetOr([])
    ensures forall x :: x != id ==> (x in ToggleLinked(linked, id) <==> x in linked.GetOr([]))
  {
  }

  lemma {:induction false} DropAbsent(ids: seq<int>, id: int)
    requires id !in ids
    ensures Drop(ids, id) == ids
  {
    if ids != [] {
      DropAbsent(ids[1..], id);
      assert ids == [ids[0]] + ids[1..];
    }
  }

  lemma {:induction false} DropAppended(ids: seq<int>, id: int)
    ensures Drop(ids + [id], id) == Drop(ids, id)
  {
    if ids == [] {
      assert [id][1..] == [];
    } else {
      assert (ids + [id])[1..] == ids[1..] + [id];
      DropAppended(ids[1..], id);
    }
  }

  /** Toggling an unlinked item twice gives back the original list. */
  lemma ToggleTwiceRestores(linked: Option<seq<int>>, id: int)
    requires id !in linked.GetOr([])
    ensures ToggleLinked(Some(ToggleLinked(linked, id)), id) == linked.GetOr([])
  {
    var ids := linked.GetOr([]);
    DropAppended(ids, id);
    DropAbsent(ids, id);
  }

  /** The bottom bar's badge: the quantities of the cart entries whose item is on the menu, added up. */
  function CartCount(cart: seq<Entry>, menu: seq<MenuItem>): int {
    if cart == [] then 0
    else (if Lookup(menu, cart[0].itemId).Some? then cart[0].quantity else 0) + CartCount(cart[1..], menu)
  }

  function LineQuantities(lines: seq<Line>): int {
    if lines == [] then 0 else lines[0].quantity + LineQuantities(lines[1..])
  }

  /** The badge counts exactly the units the cart page prices. */
  lemma {:induction false} CartCountMatchesPricedLines(cart: seq<Entry>, menu: seq<MenuItem>)
    ensures CartCount(cart, menu) == LineQuantities(ResolveCart(cart, menu))
  {
    if cart != [] {
      CartCountMatchesPricedLines(cart[1..], menu);
      match Lookup(menu, cart[0].itemId)
      case Some(m) =>
        assert ResolveCart(cart, menu) == [Line(m, cart[0].quantity)] + ResolveCart(cart[1..], menu);
        assert ([Line(m, cart[0].quantity)] + ResolveCart(cart[1..], menu))[1..] == ResolveCart(cart[1..], menu);
      case None =>
    }
  }

  /** Adding an item that is on the menu raises the badge by one; adding one that is not leaves it. */
  lemma {:induction false} AddRaisesCount(cart: seq<Entry>, menu: seq<MenuItem>, id: int)
    requires WellFormed(cart)
    ensures CartCount(Add(cart, id), menu) == CartCount(cart, menu) + (if Lookup(menu, id).Some? then 1 else 0)
  {
    if Find(cart, id).Some? {
      BumpCount(cart, menu, id);
    } else {
      AppendCount(cart, menu, Entry(id, 1));
    }
  }

  lemma {:induction false} AppendCount(cart: seq<Entry>, menu: seq<MenuItem>, e: Entry)
    ensures CartCount(cart + [e], menu) == CartCount(cart, menu) + (if Lookup(menu, e.itemId).Some? then e.quantity else 0)
  {
    if cart == [] {
      assert [e][1..] == [];
    } else {
      assert (cart + [e])[1..] == cart[1..] + [e];
      AppendCount(cart[1..], menu, e);
    }
  }

  lemma {:induction false} BumpCount(cart: seq<Entry>, menu: seq<MenuItem>, id: int)
    requires WellFormed(cart) && Find(cart, id).Some?
    ensures CartCount(Bump(cart, id, 1), menu) == CartCount(cart, menu) + (if Lookup(menu, id).Some? then 1 else 0)
  {
    if cart != [] {
      assert Bump(cart, id, 1)[1..] == Bump(cart[1..], id, 1);
      if cart[0].itemId == id {
        assert Find(cart[1..], id).None? by {
          forall k | 0 <= k < |cart[1..]| ensures cart[1..][k].itemId != id {
            assert cart[0].itemId != cart[k + 1].itemId;
          }
        }
        BumpNothing(cart[1..], id);
      } else {
        assert WellFormed(cart[1..]) by {
          forall j, k | 0 <= j < k < |cart[1..]| ensures cart[1..][j].itemId != cart[1..][k].itemId {
            assert cart[j + 1].itemId != cart[k + 1].itemId;
          }
        }
        BumpCount(cart[1..], menu, id);
      }
    }
  }

  lemma BumpNothing(cart: seq<Entry>, id: int)
    requires Find(cart, id).None?
    ensures Bump(cart, id, 1) == cart
  {
  }
}
