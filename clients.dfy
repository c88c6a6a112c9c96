/**
 * Client rules: the add and edit forms, the UNIQUE phone column, the lucky
 * draw counter, and the name/phone search with per-client order counts.
 */
module Clients {
  import opened Table
  import opened Schema
  import opened Text

  /** The choices of the "Group" select box. */
  const GroupOptions: seq<string> := ["Family", "Friends", "Colleagues", "VIP", "Others"]

  /** The group that is stored: the custom text when "Others" is chosen, the choice otherwise. */
  function EffectiveGroup(choice: string, custom: string): (g: string)
    ensures choice == "Others" ==> g == custom
    ensures choice != "Others" ==> g == choice
    ensures choice in GroupOptions && choice != "Others" ==> g in GroupOptions && g != ""
  {
    if choice == "Others" then custom else choice
  }

  /** What the client forms submit. */
  datatype ClientForm = ClientForm(
    name: string,
    phone: string,
    groupChoice: string,
    customGroup: string,
    operator: string,
    planAmount: real,
    rechargeDay: int,
    premium: bool,
    luckyDrawWins: nat,
    referred: bool,
    referredByName: string,
    referredByPhone: string,
    notes: string)

  /** The required-field check of the add form. */
  predicate AddFormComplete(f: ClientForm)
    ensures AddFormComplete(f) ==> NewClient(f).name != "" && NewClient(f).phone != "" && NewClient(f).groupName != ""
  {
    f.name != "" && f.phone != "" && EffectiveGroup(f.groupChoice, f.customGroup) != ""
  }

  /**
   * With a group picked from the select box, the add form is rejected exactly
   * when the name or the phone is empty, or "Others" is picked with no custom text.
   */
  lemma AddFormRejectedIff(f: ClientForm)
    requires f.groupChoice in GroupOptions
    ensures !AddFormComplete(f) <==> f.name == "" || f.phone == "" || (f.groupChoice == "Others" && f.customGroup == "")
  {
  }

  /** The row the add form inserts; the referral fields are only read when "Referred?" is Yes. */
  function NewClient(f: ClientForm): (c: Client)
    ensures c.name == f.name && c.phone == f.phone && c.groupName == EffectiveGroup(f.groupChoice, f.customGroup)
    ensures c.operator == f.operator && c.planAmount == f.planAmount && c.rechargeDay == f.rechargeDay && c.notes == f.notes
    ensures c.luckyDrawWins == f.luckyDrawWins && c.premium == f.premium && c.referred == f.referred
    ensures !f.referred ==> c.referredByName == "" && c.referredByPhone == ""
    ensures f.referred ==> c.referredByName == f.referredByName && c.referredByPhone == f.referredByPhone
  {
    Client(f.name, f.phone, EffectiveGroup(f.groupChoice, f.customGroup), f.operator, f.planAmount,
           f.rechargeDay, f.premium, f.notes, f.luckyDrawWins, f.referred,
           if f.referred then f.referredByName else "",
           if f.referred then f.referredByPhone else "")
  }

  /** The row the edit form writes; it always shows the referral fields, so they are stored as entered. */
  function EditedClient(f: ClientForm): (c: Client)
    ensures f.referred ==> c == NewClient(f)
    ensures c == NewClient(f).(referredByName := f.referredByName, referredByPhone := f.referredByPhone)
  {
    Client(f.name, f.phone, EffectiveGroup(f.groupChoice, f.customGroup), f.operator, f.planAmount,
           f.rechargeDay, f.premium, f.notes, f.luckyDrawWins, f.referred,
           f.referredByName, f.referredByPhone)
  }

  /** The UNIQUE constraint on `phone`. */
  predicate PhonesUnique(t: seq<Row<Client>>)
  {
    forall i, j :: 0 <= i < j < |t| ==> t[i].rec.phone != t[j].rec.phone
  }

  predicate PhoneTaken(t: seq<Row<Client>>, phone: string)
  {
    exists i :: 0 <= i < |t| && t[i].rec.phone == phone
  }

  /** Some row other than the one keyed `id` holds `phone`. */
  predicate PhoneTakenByOther(t: seq<Row<Client>>, phone: string, id: nat)
  {
    exists i :: 0 <= i < |t| && t[i].id != id && t[i].rec.phone == phone
  }

  lemma AppendKeepsPhonesUnique(t: seq<Row<Client>>, x: Row<Client>)
    requires PhonesUnique(t) && !PhoneTaken(t, x.rec.phone)
    ensures PhonesUnique(t + [x])
  {
    var u := t + [x];
    forall i, j | 0 <= i < j < |u| ensures u[i].rec.phone != u[j].rec.phone {
      if j == |t| {
        assert u[i] == t[i];
      }
    }
  }

  lemma OverwriteKeepsPhonesUnique(t: seq<Row<Client>>, id: nat, c: Client)
    requires IdsIncreasing(t) && PhonesUnique(t)
    requires HasId(t, id) ==> !PhoneTakenByOther(t, c.phone, id)
    ensures PhonesUnique(Overwrite(t, id, c))
  {
    var u := Overwrite(t, id, c);
    forall i, j | 0 <= i < j < |u| ensures u[i].rec.phone != u[j].rec.phone {
      if t[j].id == id {
        assert t[i].id != id;
      } else if t[i].id == id {
        assert t[j].id != id;
      }
    }
  }

  lemma WithoutKeepsPhonesUnique(t: seq<Row<Client>>, id: nat)
    requires IdsIncreasing(t) && PhonesUnique(t)
    ensures PhonesUnique(Without(t, id))
  {
    var u := Without(t, id);
    forall i, j | 0 <= i < j < |u| ensures u[i].rec.phone != u[j].rec.phone {
      assert u[i] in t && u[j] in t;
      var i' :| 0 <= i' < |t| && t[i'] == u[i];
      var j' :| 0 <= j' < |t| && t[j'] == u[j];
      assert u[i].id < u[j].id;
      assert i' != j';
    }
  }

  /** `lucky_draw_wins = lucky_draw_wins + 1` */
  function Win(c: Client): (w: Client)
    ensures w.luckyDrawWins == c.luckyDrawWins + 1
    ensures w.(luckyDrawWins := c.luckyDrawWins) == c
  {
    c.(luckyDrawWins := c.luckyDrawWins + 1)
  }

  /** A win changes neither ids nor phones, so the table stays keyed and its phones unique. */
  lemma DrawKeepsTable(t: seq<Row<Client>>, last: nat, k: nat)
    requires Keyed(t, last) && PhonesUnique(t) && k < |t|
    ensures Keyed(t[k := Row(t[k].id, Win(t[k].rec))], last)
    ensures PhonesUnique(t[k := Row(t[k].id, Win(t[k].rec))])
  {
    var u := t[k := Row(t[k].id, Win(t[k].rec))];
    forall i, j | 0 <= i < j < |u| ensures u[i].rec.phone != u[j].rec.phone {
      assert u[i].rec.phone == t[i].rec.phone && u[j].rec.phone == t[j].rec.phone;
    }
  }

  /** The wins recorded over all clients. */
  function TotalWins(t: seq<Row<Client>>): nat
  {
    if t == [] then 0 else t[0].rec.luckyDrawWins + TotalWins(t[1..])
  }

  /** A draw at position `k` adds exactly one win to the whole table. */
  lemma {:induction false} DrawAddsOneWin(t: seq<Row<Client>>, k: nat)
    requires k < |t|
    ensures TotalWins(t[k := Row(t[k].id, Win(t[k].rec))]) == TotalWins(t) + 1
  {
    var u := t[k := Row(t[k].id, Win(t[k].rec))];
    if k > 0 {
      DrawAddsOneWin(t[1..], k - 1);
      assert u[1..] == t[1..][k - 1 := Row(t[k].id, Win(t[k].rec))];
    } else {
      assert u[1..] == t[1..];
    }
  }

  /** `name LIKE '%term%' OR phone LIKE '%term%'` */
  predicate Matches(c: Client, term: string)
  {
    Contains(c.name, term) || Contains(c.phone, term)
  }

  /** A search hit with its `total_recharge_orders` and `total_product_orders` columns. */
  datatype ClientSummary = ClientSummary(client: Row<Client>, rechargeOrders: nat, productOrders: nat)

  function RechargeOrderCount(orders: seq<Row<RechargeOrder>>, clientId: nat): nat
  {
    Count(orders, (o: Row<RechargeOrder>) => o.rec.clientId == clientId)
  }

  function ProductOrderCount(orders: seq<Row<ProductOrder>>, clientId: nat): nat
  {
    Count(orders, (o: Row<ProductOrder>) => o.rec.clientId == clientId)
  }

  function Summarize(x: Row<Client>, orders: seq<Row<RechargeOrder>>, productOrders: seq<Row<ProductOrder>>): ClientSummary
  {
    ClientSummary(x, RechargeOrderCount(orders, x.id), ProductOrderCount(productOrders, x.id))
  }

  /**
   * The client list of the search box: the clients whose name or phone contains
   * the term, in table order, each with its order counts.
   */
  function SearchClients(clients: seq<Row<Client>>, orders: seq<Row<RechargeOrder>>,
                         productOrders: seq<Row<ProductOrder>>, term: string): (r: seq<ClientSummary>)
    ensures |r| <= |clients|
    ensures forall k :: 0 <= k < |r| ==> r[k].client in clients && Matches(r[k].client.rec, term)
    ensures forall k :: 0 <= k < |r| ==>
      r[k].rechargeOrders == RechargeOrderCount(orders, r[k].client.id) &&
      r[k].productOrders == ProductOrderCount(productOrders, r[k].client.id)
    ensures forall x :: x in clients && Matches(x.rec, term) ==> exists k :: 0 <= k < |r| && r[k].client == x
    ensures |r| == Count(clients, (x: Row<Client>) => Matches(x.rec, term))
    ensures IdsIncreasing(clients) ==> forall i, j :: 0 <= i < j < |r| ==> r[i].client.id < r[j].client.id
  {
    CountIsFilterLength(clients, (x: Row<Client>) => Matches(x.rec, term));
    var hits := Filter(clients, (x: Row<Client>) => Matches(x.rec, term));
    var r := seq(|hits|, k requires 0 <= k < |hits| => Summarize(hits[k], orders, productOrders));
    assert forall k :: 0 <= k < |r| ==> r[k].client == hits[k] && hits[k] in hits;
    assert forall x :: x in hits ==> exists k :: 0 <= k < |hits| && hits[k] == x && r[k].client == x;
    r
  }

  /** An empty search box lists every client, as the query without a WHERE clause does. */
  lemma EmptySearchListsAll(clients: seq<Row<Client>>, orders: seq<Row<RechargeOrder>>,
                            productOrders: seq<Row<ProductOrder>>)
    ensures forall x :: x in clients ==>
      exists k :: 0 <= k < |SearchClients(clients, orders, productOrders, "")| &&
                  SearchClients(clients, orders, productOrders, "")[k].client == x
  {
    var r := SearchClients(clients, orders, productOrders, "");
    forall x | x in clients ensures exists k :: 0 <= k < |r| && r[k].client == x {
      ContainsEmpty(x.rec.name);
      assert Matches(x.rec, "");
    }
  }

  /** A client's recharge-order count is zero exactly when no order names that client. */
  lemma RechargeOrderCountZeroIff(orders: seq<Row<RechargeOrder>>, clientId: nat)
    ensures RechargeOrderCount(orders, clientId) == 0 <==> forall i :: 0 <= i < |orders| ==> orders[i].rec.clientId != clientId
  {
  }

  /** A new order raises its client's count by one and leaves every other client's count alone. */
  lemma RechargeOrderCountAfterInsert(orders: seq<Row<RechargeOrder>>, x: Row<RechargeOrder>, clientId: nat)
    ensures RechargeOrderCount(orders + [x], clientId) ==
            RechargeOrderCount(orders, clientId) + (if x.rec.clientId == clientId then 1 else 0)
  {
    CountAppend(orders, x, (o: Row<RechargeOrder>) => o.rec.clientId == clientId);
  }
}
