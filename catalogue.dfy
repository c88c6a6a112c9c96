/**
 * Catalogue rules for recharge plans and products: the legacy required-field
 * checks, where an upload's image path comes from, and the per-operator
 * listing of the plan catalogue.
 */
module Catalogue {
  import opened Wrappers
  import opened Table
  import opened Schema
  import opened Text

  /** The operators of the plan catalogue's select box and tabs. */
  const Operators: seq<string> := ["Airtel", "Jio", "Vi", "BSNL"]

  /** Upload directories of the legacy page. */
  const PlanImageDir: string := "recharge_plans"
  const ProductImageDir: string := "products"

  /**
   * The legacy add forms' required-field check, shared by plans (name and
   * operator) and products (name and category): both text fields filled and a
   * non-zero price.
   */
  predicate FormComplete(name: string, second: string, price: real)
    ensures price >= 0.0 ==> (FormComplete(name, second, price) <==> name != "" && second != "" && price > 0.0)
  {
    name != "" && second != "" && price != 0.0
  }

  /**
   * The image path a legacy form stores: the path of the new upload when there
   * is one (None when its type has no '/'), otherwise `keep`, the path already
   * stored ("" on a new row).
   */
  function NewImagePath(dir: string, name: string, upload: Option<string>, keep: string): (p: Option<string>)
    ensures upload.None? ==> p == Some(keep)
    ensures upload.Some? ==> p == ImagePath(dir, name, upload.value)
  {
    match upload
    case None => Some(keep)
    case Some(mime) => ImagePath(dir, name, mime)
  }

  /**
   * The image list the catalogue tab's edit form stores: the existing list
   * when nothing is uploaded, otherwise the new uploads' paths only.
   */
  function KeptOrReplacedImages(existing: seq<string>, name: string, fileNames: seq<string>): (paths: seq<string>)
    ensures fileNames == [] ==> paths == existing
    ensures fileNames != [] ==> |paths| == |fileNames|
    ensures fileNames != [] ==> forall k :: 0 <= k < |fileNames| ==> paths[k] == ProductImagePath(name, fileNames[k])
  {
    if fileNames == [] then existing else ProductImageList(name, fileNames)
  }

  /** What the catalogue tab's widgets guarantee of a plan it writes. */
  predicate CataloguePlan(p: Plan)
  {
    p.operator in Operators && p.validity >= 1 && p.price >= 0.0
  }

  /** `SELECT ... FROM recharge_plans WHERE operator = ?` */
  function PlansOf(plans: seq<Row<Plan>>, operator: string): (r: seq<Row<Plan>>)
    ensures |r| <= |plans|
    ensures forall x :: x in r ==> x in plans && x.rec.operator == operator
    ensures forall x :: x in plans && x.rec.operator == operator ==> x in r
    ensures |r| == Count(plans, (x: Row<Plan>) => x.rec.operator == operator)
    ensures IdsIncreasing(plans) ==> IdsIncreasing(r)
  {
    CountIsFilterLength(plans, (x: Row<Plan>) => x.rec.operator == operator);
    Filter(plans, (x: Row<Plan>) => x.rec.operator == operator)
  }

  /** The loop over the four operator tabs, each listing that operator's plans. */
  method OperatorTabs(plans: seq<Row<Plan>>) returns (tabs: seq<seq<Row<Plan>>>)
    ensures |tabs| == |Operators|
    ensures forall k :: 0 <= k < |tabs| ==> tabs[k] == PlansOf(plans, Operators[k])
    ensures forall x :: x in plans && x.rec.operator in Operators ==> exists k :: 0 <= k < |tabs| && x in tabs[k]
  {
    tabs := [];
    for idx := 0 to |Operators|
      invariant |tabs| == idx
      invariant forall k :: 0 <= k < idx ==> tabs[k] == PlansOf(plans, Operators[k])
    {
      tabs := tabs + [PlansOf(plans, Operators[idx])];
    }
    forall x | x in plans && x.rec.operator in Operators
      ensures exists k :: 0 <= k < |tabs| && x in tabs[k]
    {
      var k :| 0 <= k < |Operators| && Operators[k] == x.rec.operator;
      assert x in tabs[k];
    }
  }

  /** A plan with an operator outside the four tabs is listed in none of them. */
  lemma UnlistedOperatorHidden(plans: seq<Row<Plan>>, x: Row<Plan>, k: nat)
    requires x.rec.operator !in Operators && k < |Operators|
    ensures x !in PlansOf(plans, Operators[k])
  {
  }
}
