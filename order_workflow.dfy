/**
 * The merchant dashboard's order workflow: the status buttons it offers for each order
 * status, the graph they form, and the order in which the dashboard lists orders.
 */
module OrderWorkflow {
  import opened Schema
  import Storage

  /** A dashboard button: its caption and the status it sets. */
  datatype Action = Action(caption: string, target: string)

  /** The buttons shown under an order with status `status`; none for any other status string. */
  function Actions(status: string): seq<Action> {
    if status == PendingPayment then
      [Action("Reject", Rejected), Action("Payment Not Received", Rejected), Action("Payment Received", Preparing)]
    else if status == Preparing then [Action("Mark Ready", Ready), Action("Refund", Refunded)]
    else if status == Ready then [Action("Mark On the Way", OnTheWay), Action("Refund", Refunded)]
    else if status == OnTheWay then [Action("Mark Delivered", Delivered), Action("Refund", Refunded)]
    else if status == Delivered then [Action("Refund", Refunded)]
    else []
  }

  /** The statuses the dashboard offers as the next one. */
  function NextStatuses(status: string): (r: set<string>)
    ensures forall t :: t in r <==> exists k :: 0 <= k < |Actions(status)| && Actions(status)[k].target == t
  {
    var acts := Actions(status);
    set k | 0 <= k < |acts| :: acts[k].target
  }

  /** The seven statuses the code writes. */
  predicate Known(status: string) {
    status in {PendingPayment, Preparing, Ready, OnTheWay, Delivered, Rejected, Refunded}
  }

  /** One press of a dashboard button moves an order from `s` to `t`. */
  predicate Step(s: string, t: string) {
    t in NextStatuses(s)
  }

  /** The next statuses offered, status by status. */
  lemma NextStatusTable()
    ensures NextStatuses(PendingPayment) == {Rejected, Preparing}
    ensures NextStatuses(Preparing) == {Ready, Refunded}
    ensures NextStatuses(Ready) == {OnTheWay, Refunded}
    ensures NextStatuses(OnTheWay) == {Delivered, Refunded}
    ensures NextStatuses(Delivered) == {Refunded}
    ensures NextStatuses(Rejected) == {} && NextStatuses(Refunded) == {}
  {
    assert Actions(PendingPayment)[1].target == Rejected && Actions(PendingPayment)[2].target == Preparing;
    assert Actions(Preparing)[0].target == Ready && Actions(Preparing)[1].target == Refunded;
    assert Actions(Ready)[0].target == OnTheWay && Actions(Ready)[1].target == Refunded;
    assert Actions(OnTheWay)[0].target == Delivered && Actions(OnTheWay)[1].target == Refunded;
    assert Actions(Delivered)[0].target == Refunded;
  }

  /** A button is shown only under a known status and only ever sets a known status. */
  lemma StepsStayKnown(s: string, t: string)
    requires Step(s, t)
    ensures Known(s) && Known(t) && s != t
  {
  }

  /** The position of a status along the workflow; it strictly grows along every step. */
  function Rank(status: string): int {
    if status == PendingPayment then 0
    else if status == Preparing then 1
    else if status == Ready then 2
    else if status == OnTheWay then 3
    else if status == Delivered then 4
    else 5
  }

  lemma StepRaisesRank(s: string, t: string)
    requires Step(s, t)
    ensures Rank(s) < Rank(t)
  {
  }

  /** A sequence of statuses each reached from the previous by a button press. */
  predicate Path(p: seq<string>) {
    forall k :: 0 <= k < |p| - 1 ==> Step(p[k], p[k + 1])
  }

  /**
   * The dashboard graph has no cycle: along any path the rank climbs at each step, so no
   * status is visited twice, and a path has at most six statuses.
   */
  lemma {:induction false} PathsClimb(p: seq<string>)
    requires Path(p) && |p| >= 1
    ensures Rank(p[|p| - 1]) >= Rank(p[0]) + |p| - 1
    ensures forall i, j :: 0 <= i < j < |p| ==> Rank(p[i]) < Rank(p[j])
  {
    if |p| > 1 {
      var q := p[..|p| - 1];
      assert Path(q) by {
        forall k | 0 <= k < |q| - 1 ensures Step(q[k], q[k + 1]) {
          assert q[k] == p[k] && q[k + 1] == p[k + 1];
        }
      }
      PathsClimb(q);
      StepRaisesRank(p[|p| - 2], p[|p| - 1]);
      forall i, j | 0 <= i < j < |p| ensures Rank(p[i]) < Rank(p[j]) {
        if j < |p| - 1 {
          assert p[i] == q[i] && p[j] == q[j];
        } else if i < |p| - 2 {
          assert p[i] == q[i] && p[|p| - 2] == q[|q| - 1];
        }
      }
    }
  }

  lemma PathHasNoRepeats(p: seq<string>)
    requires Path(p) && |p| >= 1
    ensures forall i, j :: 0 <= i < j < |p| ==> p[i] != p[j]
    ensures Known(p[0]) || |p| == 1
  {
    PathsClimb(p);
    if |p| > 1 {
      StepsStayKnown(p[0], p[1]);
    }
  }

  /** Rejected and refunded orders have no further status; refund is offered exactly once payment was received. */
  lemma TerminalAndRefund(s: string)
    ensures NextStatuses(s) == {} <==> !(s in {PendingPayment, Preparing, Ready, OnTheWay, Delivered})
    ensures Refunded in NextStatuses(s) <==> s in {Preparing, Ready, OnTheWay, Delivered}
  {
    NextStatusTable();
    if s !in {PendingPayment, Preparing, Ready, OnTheWay, Delivered} {
      assert Actions(s) == [];
    }
  }

  /** Every button short of Refund and Reject advances the order by exactly one stage. */
  lemma ForwardStep(s: string, t: string)
    requires Step(s, t) && Rank(t) <= 4
    ensures Rank(t) == Rank(s) + 1
  {
    NextStatusTable();
    RankTable();
  }

  lemma RankTable()
    ensures Rank(PendingPayment) == 0 && Rank(Preparing) == 1 && Rank(Ready) == 2
    ensures Rank(OnTheWay) == 3 && Rank(Delivered) == 4
    ensures Rank(Rejected) == 5 && Rank(Refunded) == 5
  {
  }

  /** The only sequence of button presses from a new order to delivered is the full chain. */
  lemma {:induction false} DeliveredPath(p: seq<string>)
    requires Path(p) && |p| >= 2 && p[0] == PendingPayment && p[|p| - 1] == Delivered
    ensures p == [PendingPayment, Preparing, Ready, OnTheWay, Delivered]
  {
    PathsClimb(p);
    forall k | 1 <= k < |p| ensures Rank(p[k]) == Rank(p[k - 1]) + 1 {
      assert Rank(p[k]) <= 4 by {
        if k < |p| - 1 {
          assert Rank(p[k]) < Rank(p[|p| - 1]);
        }
      }
      assert Step(p[k - 1], p[k]);
      ForwardStep(p[k - 1], p[k]);
    }
    var n := 0;
    while n < |p| - 1
      invariant 0 <= n < |p| && Rank(p[n]) == n
    {
      n := n + 1;
    }
    assert |p| == 5;
    assert p[1] == Preparing;
    assert p[2] == Ready;
    assert p[3] == OnTheWay;
  }

  /**
   * The dashboard's comparator: pending-payment orders first, then newest first;
   * negative when `a` goes before `b`.
   */
  function Compare(a: Order, b: Order): int {
    if a.status == PendingPayment && b.status != PendingPayment then -1
    else if a.status != PendingPayment && b.status == PendingPayment then 1
    else b.createdAt - a.createdAt
  }

  /** `a` strictly goes before `b`: it is pending and `b` is not, or both are alike and `a` is newer. */
  predicate Precedes(a: Order, b: Order) {
    (a.status == PendingPayment && b.status != PendingPayment)
    || ((a.status == PendingPayment) == (b.status == PendingPayment) && a.createdAt > b.createdAt)
  }

  /** The comparator agrees with `Precedes` in both directions, so it orders the pending
   * group first and then by creation time, newest first. */
  lemma CompareMeansPrecedes(a: Order, b: Order)
    ensures Compare(a, b) < 0 <==> Precedes(a, b)
    ensures Compare(a, b) > 0 <==> Precedes(b, a)
  {
  }

  lemma PrecedesTransitive(a: Order, b: Order, c: Order)
    ensures Precedes(a, b) && Precedes(b, c) ==> Precedes(a, c)
    ensures !Precedes(b, a) && !Precedes(c, b) ==> !Precedes(c, a)
  {
  }

  /** No order is listed after one it must precede. */
  predicate SortedForDashboard(s: seq<Order>) {
    forall i, j :: 0 <= i < j < |s| ==> !Precedes(s[j], s[i])
  }

  /** Places `o` before the first order it does not follow, keeping earlier equals first. */
  function Insert(o: Order, s: seq<Order>): (r: seq<Order>)
    ensures multiset(r) == multiset(s) + multiset{o}
  {
    if s == [] || !Precedes(s[0], o) then [o] + s
    else
      assert s == [s[0]] + s[1..];
      [s[0]] + Insert(o, s[1..])
  }

  lemma {:induction false} InsertSorted(o: Order, s: seq<Order>)
    requires SortedForDashboard(s)
    ensures SortedForDashboard(Insert(o, s))
  {
    if s == [] || !Precedes(s[0], o) {
      var r := [o] + s;
      forall i, j | 0 <= i < j < |r| ensures !Precedes(r[j], r[i]) {
        if i == 0 && j > 1 {
          PrecedesTransitive(o, s[0], s[j - 1]);
          assert !Precedes(s[j - 1], s[0]);
        }
      }
    } else {
      var rest := Insert(o, s[1..]);
      assert SortedForDashboard(s[1..]);
      InsertSorted(o, s[1..]);
      var r := [s[0]] + rest;
      assert s == [s[0]] + s[1..];
      InsertMembers(o, s[1..]);
      SortedHeadFirst(s);
      forall i, j | 0 <= i < j < |r| ensures !Precedes(r[j], r[i]) {
        if i == 0 {
          assert r[j] in rest;
        } else {
          assert r[i] == rest[i - 1] && r[j] == rest[j - 1];
        }
      }
    }
  }

  lemma InsertMembers(o: Order, s: seq<Order>)
    ensures forall x :: x in Insert(o, s) <==> x == o || x in s
  {
    assert forall x :: x in Insert(o, s) <==> x in multiset(Insert(o, s));
  }

  lemma SortedHeadFirst(s: seq<Order>)
    requires SortedForDashboard(s) && s != []
    ensures forall x :: x in s[1..] ==> !Precedes(x, s[0])
  {
    forall x | x in s[1..] ensures !Precedes(x, s[0]) {
      var k :| 0 <= k < |s[1..]| && s[1..][k] == x;
      assert s[k + 1] == x;
    }
  }

  /** `[...orders].sort(compare)`: the same orders, in dashboard order. */
  function SortOrders(s: seq<Order>): (r: seq<Order>)
    ensures multiset(r) == multiset(s)
    ensures SortedForDashboard(r)
  {
    if s == [] then []
    else
      assert s == [s[0]] + s[1..];
      InsertSorted(s[0], SortOrders(s[1..]));
      Insert(s[0], SortOrders(s[1..]))
  }

  /** In the dashboard list every pending-payment order comes before every other one, and newer before older within each group. */
  lemma DashboardOrder(orders: seq<Order>, i: int, j: int)
    requires 0 <= i < j < |SortOrders(orders)|
    ensures var r := SortOrders(orders);
      && (r[j].status == PendingPayment ==> r[i].status == PendingPayment)
      && ((r[i].status == PendingPayment) == (r[j].status == PendingPayment) ==> r[i].createdAt >= r[j].createdAt)
  {
  }

  /**
   * The server writes any status: a pending-payment order can be set straight to
   * delivered, a move no dashboard button offers.
   */
  lemma StatusUpdateIsUnchecked(orders: seq<Order>, k: nat)
    requires k < |orders| && orders[k].status == PendingPayment
    ensures !Step(PendingPayment, Delivered)
    ensures Storage.WithStatus(orders, orders[k].orderId, Delivered)[k].status == Delivered
  {
    NextStatusTable();
  }
}
