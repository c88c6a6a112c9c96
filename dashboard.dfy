/**
 * The dashboard's figures: total commission (computed from amount and
 * discount in the newer app, read from the stored column in the legacy one),
 * the clients due today, and the due clients still without a recharge this month.
 */
module Dashboard {
  import opened Table
  import opened Schema
  import opened Money
  import opened Timestamps

  predicate IsRecharged(x: Row<RechargeOrder>)
  {
    x.rec.status == Recharged
  }

  predicate NoneRecharged(orders: seq<Row<RechargeOrder>>)
  {
    forall i :: 0 <= i < |orders| ==> orders[i].rec.status != Recharged
  }

  /** What one order adds to the dashboard total: its clipped commission when Recharged. */
  function RechargedCommission(o: RechargeOrder): real
  {
    if o.status == Recharged then Commission(o.amount, o.discount) else 0.0
  }

  /** Total commission of the newer dashboard: clipped commissions over the Recharged orders. */
  function TotalCommission(orders: seq<Row<RechargeOrder>>): (total: real)
    ensures total >= 0.0
    ensures NoneRecharged(orders) ==> total == 0.0
  {
    if orders == [] then 0.0
    else
      var rest := TotalCommission(orders[1..]);
      assert NoneRecharged(orders) ==> NoneRecharged(orders[1..]) by {
        assert forall i :: 0 <= i < |orders[1..]| ==> orders[1..][i] == orders[i + 1];
      }
      RechargedCommission(orders[0].rec) + rest
  }

  /** The pandas column sum: clipped commission over every row given. */
  function SumCommission(orders: seq<Row<RechargeOrder>>): real
  {
    if orders == [] then 0.0
    else Commission(orders[0].rec.amount, orders[0].rec.discount) + SumCommission(orders[1..])
  }

  /** Selecting the Recharged rows and then summing gives the dashboard total. */
  lemma {:induction false} TotalCommissionOverRecharged(orders: seq<Row<RechargeOrder>>)
    ensures TotalCommission(orders) == SumCommission(Filter(orders, IsRecharged))
  {
    if orders != [] {
      TotalCommissionOverRecharged(orders[1..]);
    }
  }

  /** A new order adds its own share to the total and nothing else. */
  lemma {:induction false} TotalCommissionAppend(orders: seq<Row<RechargeOrder>>, x: Row<RechargeOrder>)
    ensures TotalCommission(orders + [x]) == TotalCommission(orders) + RechargedCommission(x.rec)
  {
    if orders != [] {
      assert (orders + [x])[1..] == orders[1..] + [x];
      TotalCommissionAppend(orders[1..], x);
    }
  }

  /** Total commission of the legacy dashboard: the stored column summed over Recharged orders. */
  function StoredCommissionTotal(orders: seq<Row<RechargeOrder>>): (total: real)
    ensures NoneRecharged(orders) ==> total == 0.0
  {
    if orders == [] then 0.0
    else
      var rest := StoredCommissionTotal(orders[1..]);
      assert NoneRecharged(orders) ==> NoneRecharged(orders[1..]) by {
        assert forall i :: 0 <= i < |orders[1..]| ==> orders[1..][i] == orders[i + 1];
      }
      (if orders[0].rec.status == Recharged then orders[0].rec.commission else 0.0) + rest
  }

  /** Every stored commission equals the commission of its amount and discount. */
  predicate CommissionsCurrent(orders: seq<Row<RechargeOrder>>)
  {
    forall i :: 0 <= i < |orders| ==> orders[i].rec.commission == Commission(orders[i].rec.amount, orders[i].rec.discount)
  }

  /** Every stored commission is 0.0, as the order forms leave it. */
  predicate CommissionsUnset(orders: seq<Row<RechargeOrder>>)
  {
    forall i :: 0 <= i < |orders| ==> orders[i].rec.commission == 0.0
  }

  /** When the stored column is kept current, both dashboards show the same total. */
  lemma {:induction false} StoredTotalMatchesComputed(orders: seq<Row<RechargeOrder>>)
    requires CommissionsCurrent(orders)
    ensures StoredCommissionTotal(orders) == TotalCommission(orders)
  {
    if orders != [] {
      assert CommissionsCurrent(orders[1..]) by {
        assert forall i :: 0 <= i < |orders[1..]| ==> orders[1..][i] == orders[i + 1];
      }
      StoredTotalMatchesComputed(orders[1..]);
    }
  }

  /** With the column as the order forms leave it, the legacy total is always zero. */
  lemma {:induction false} StoredTotalOfFormOrders(orders: seq<Row<RechargeOrder>>)
    requires CommissionsUnset(orders)
    ensures StoredCommissionTotal(orders) == 0.0
  {
    if orders != [] {
      assert CommissionsUnset(orders[1..]) by {
        assert forall i :: 0 <= i < |orders[1..]| ==> orders[1..][i] == orders[i + 1];
      }
      StoredTotalOfFormOrders(orders[1..]);
    }
  }

  /** One Recharged order of 500 with discount 5, entered by the form: the legacy total shows 0, not 20. */
  lemma StoredTotalMissesCommission()
    ensures var orders := [Row(1, RechargeOrder(1, 500.0, 5.0, 0.0, Recharged, "2026-10-14 10:00:00"))];
      CommissionsUnset(orders) && StoredCommissionTotal(orders) == 0.0 && TotalCommission(orders) == 20.0
  {
    var orders := [Row(1, RechargeOrder(1, 500.0, 5.0, 0.0, Recharged, "2026-10-14 10:00:00"))];
    assert orders[1..] == [];
  }

  /** `SELECT * FROM clients WHERE recharge_day = <today's day>` */
  function DueToday(clients: seq<Row<Client>>, day: int): (due: seq<Row<Client>>)
    ensures |due| <= |clients|
    ensures forall x :: x in due ==> x in clients && x.rec.rechargeDay == day
    ensures forall x :: x in clients && x.rec.rechargeDay == day ==> x in due
    ensures |due| == Count(clients, (x: Row<Client>) => x.rec.rechargeDay == day)
    ensures IdsIncreasing(clients) ==> IdsIncreasing(due)
  {
    CountIsFilterLength(clients, (x: Row<Client>) => x.rec.rechargeDay == day);
    Filter(clients, (x: Row<Client>) => x.rec.rechargeDay == day)
  }

  /** The client has a Recharged order whose `created_at` lies in `month` ("%Y-%m"). */
  predicate RechargedIn(orders: seq<Row<RechargeOrder>>, clientId: nat, month: string)
    ensures RechargedIn(orders, clientId, month) ==> !NoneRecharged(orders) && |month| == 7
    ensures RechargedIn(orders, clientId, month) ==> exists x :: x in orders && IsRecharged(x) && x.rec.clientId == clientId
  {
    exists i :: 0 <= i < |orders| && orders[i].rec.clientId == clientId &&
      orders[i].rec.status == Recharged && InMonth(orders[i].rec.createdAt, month)
  }

  /**
   * The "Pending Due Recharges" list: the clients due today with no Recharged
   * order this month; a sub-list of the clients counted as due.
   */
  function PendingDue(clients: seq<Row<Client>>, orders: seq<Row<RechargeOrder>>, today: DateTime): (pending: seq<Row<Client>>)
    requires ValidDateTime(today)
    ensures |pending| <= |DueToday(clients, today.day)|
    ensures forall x :: x in pending ==> x in DueToday(clients, today.day) && !RechargedIn(orders, x.id, MonthKey(today))
    ensures forall x :: x in clients && x.rec.rechargeDay == today.day && !RechargedIn(orders, x.id, MonthKey(today)) ==> x in pending
    ensures IdsIncreasing(clients) ==> IdsIncreasing(pending)
  {
    var month := MonthKey(today);
    Filter(DueToday(clients, today.day), (x: Row<Client>) => !RechargedIn(orders, x.id, month))
  }

  /**
   * A Recharged order stamped at `now` for a client clears that client from
   * the pending list exactly when `now` lies in today's month: an order of
   * another month does not count.
   */
  lemma RechargeClearsDueIff(clients: seq<Row<Client>>, orders: seq<Row<RechargeOrder>>, today: DateTime,
                             x: Row<Client>, amount: real, discount: real, commission: real, now: DateTime)
    requires ValidDateTime(today) && ValidDateTime(now)
    requires x in clients && x.rec.rechargeDay == today.day && !RechargedIn(orders, x.id, MonthKey(today))
    ensures var more := orders + [Row(0, RechargeOrder(x.id, amount, discount, commission, Recharged, Stamp(now)))];
      x !in PendingDue(clients, more, today) <==> now.year == today.year && now.month == today.month
  {
    var o := RechargeOrder(x.id, amount, discount, commission, Recharged, Stamp(now));
    var more := orders + [Row(0, o)];
    StampInMonthIff(now, today);
    if now.year == today.year && now.month == today.month {
      assert more[|orders|].rec == o;
      assert RechargedIn(more, x.id, MonthKey(today));
    } else {
      forall i | 0 <= i < |more| && more[i].rec.clientId == x.id && more[i].rec.status == Recharged
        ensures !InMonth(more[i].rec.createdAt, MonthKey(today))
      {
        if i < |orders| {
          assert more[i] == orders[i];
        }
      }
    }
  }
}
