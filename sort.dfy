/**
 * `Sort`: the sort option of a query, a non-empty list of orders, each a
 * direction and a property name. The orders are held in a list object, and
 * two sorts are equal only when they share that very list.
 */
module Sorts {
  import opened Wrappers
  import opened Lists
  import PropertyPaths

  /** `ArgumentHasText` throws `ArgumentNullException`; `IsTrue` throws `ArgumentException`. */
  datatype SortError = ArgumentException | ArgumentNullException

  datatype Direction = Asc | Desc

  const DefaultDirection: Direction := Asc

  datatype Order = Order(direction: Direction, property: string)
  {
    /** `IsAscending`. */
    predicate IsAscending() { direction == Asc }

    /** `With(direction)`: the same property in the given direction. */
    function With(d: Direction): (r: Order)
      ensures r.direction == d && r.property == property
      ensures PropertyPaths.HasText(property) ==> NewOrder(d, property) == Ok(r)
    {
      Order(d, property)
    }
  }

  /** `new Order(direction, property)`: the property must have text. */
  function NewOrder(direction: Direction, property: string): (r: Result<Order, SortError>)
    ensures r.Ok? <==> PropertyPaths.HasText(property)
    ensures r.Err? ==> r.error == ArgumentNullException
    ensures r.Ok? ==> r.value.direction == direction && r.value.property == property
  {
    if PropertyPaths.HasText(property) then Ok(Order(direction, property)) else Err(ArgumentNullException)
  }

  /** `new Order(property)`: the default direction. */
  function NewAscendingOrder(property: string): (r: Result<Order, SortError>)
    ensures r.Ok? <==> PropertyPaths.HasText(property)
    ensures r.Ok? ==> r.value.IsAscending() && r.value.property == property
  {
    NewOrder(DefaultDirection, property)
  }

  /** `Order.Equals`: the same direction and the same property. */
  predicate OrderEquals(a: Order, b: Order)
  {
    a.direction == b.direction && a.property == b.property
  }

  /** Order equality is value equality, and `With` changes only the direction. */
  lemma OrderEqualsIsValueEquality(o: Order, d: Direction)
    ensures forall p: Order :: OrderEquals(o, p) <==> o == p
    ensures o.With(d).IsAscending() <==> d == Asc
    ensures o.With(d).With(o.direction) == o
    ensures OrderEquals(o.With(d), o) <==> d == o.direction
  {
  }

  /** `FirstOrDefault` over the orders: the first order for the property, or null. */
  function FirstOrderFor(orders: seq<Order>, property: string): (r: Option<Order>)
    ensures r.None? <==> forall k :: 0 <= k < |orders| ==> orders[k].property != property
    ensures r.Some? ==> exists k :: 0 <= k < |orders| && orders[k] == r.value && r.value.property == property
                                    && forall j :: 0 <= j < k ==> orders[j].property != property
  {
    if orders == [] then None
    else if orders[0].property == property then Some(orders[0])
    else
      var r := FirstOrderFor(orders[1..], property);
      assert forall k :: 1 <= k < |orders| ==> orders[k] == orders[1..][k - 1];
      if r.Some? then
        assert exists k :: 0 <= k < |orders| && orders[k] == r.value && r.value.property == property
                           && forall j :: 0 <= j < k ==> orders[j].property != property by {
          var k :| 0 <= k < |orders[1..]| && orders[1..][k] == r.value && r.value.property == property
                   && forall j :: 0 <= j < k ==> orders[1..][j].property != property;
          assert orders[k + 1] == r.value;
          assert forall j :: 0 <= j < k + 1 ==> orders[j].property != property by {
            forall j | 0 <= j < k + 1 ensures orders[j].property != property {
              if j > 0 { assert orders[j] == orders[1..][j - 1]; }
            }
          }
        }
        r
      else r
  }

  /** In concatenated orders, the first sort's order for a property wins over the second's. */
  lemma {:induction false} FirstOrderForConcat(a: seq<Order>, b: seq<Order>, property: string)
    ensures FirstOrderFor(a + b, property) ==
              if FirstOrderFor(a, property).Some? then FirstOrderFor(a, property) else FirstOrderFor(b, property)
  {
    if a != [] {
      assert (a + b)[0] == a[0];
      assert (a + b)[1..] == a[1..] + b;
      FirstOrderForConcat(a[1..], b, property);
    } else {
      assert a + b == b;
    }
  }

  class Sort {
    const orders: List<Order>

    /** Every sort holds at least one order. */
    predicate Valid()
    {
      |orders.elements| > 0
    }

    /** `new Sort(List<Order>)`, once its argument check has passed: the list is kept, not copied. */
    constructor (orders: List<Order>)
      requires |orders.elements| > 0
      ensures this.orders == orders && Valid()
    {
      this.orders := orders;
    }

    /** `new Sort(List<Order>)` with its argument check: an empty list is refused. */
    static method FromList(orders: List<Order>) returns (r: Result<Sort, SortError>)
      ensures r.Err? <==> |orders.elements| == 0
      ensures r.Err? ==> r.error == ArgumentException
      ensures r.Ok? ==> r.value.orders == orders && r.value.Valid() && fresh(r.value)
    {
      if |orders.elements| == 0 {
        return Err(ArgumentException);
      }
      var sort := new Sort(orders);
      return Ok(sort);
    }

    /** `new Sort(params Order[])`: the orders are copied into a new list. */
    static method FromOrders(orders: seq<Order>) returns (r: Result<Sort, SortError>)
      ensures r.Err? <==> |orders| == 0
      ensures r.Ok? ==> r.value.orders.elements == orders && fresh(r.value.orders)
    {
      var list := new List(orders);
      r := FromList(list);
    }

    /**
     * `new Sort(direction, properties)`: a null array counts as empty and is
     * refused; then one order per property, in order, each checked for text.
     */
    static method FromProperties(direction: Direction, properties: Option<seq<string>>) returns (r: Result<Sort, SortError>)
      ensures properties.None? || |properties.value| == 0 ==> r == Err(ArgumentException)
      ensures properties.Some? && |properties.value| > 0 ==>
                (r.Err? <==> exists k :: 0 <= k < |properties.value| && !PropertyPaths.HasText(properties.value[k]))
      ensures r.Err? && properties.Some? && |properties.value| > 0 ==> r.error == ArgumentNullException
      ensures r.Ok? ==> properties.Some? && |r.value.orders.elements| == |properties.value|
                        && forall k :: 0 <= k < |properties.value| ==>
                             r.value.orders.elements[k] == Order(direction, properties.value[k])
      ensures r.Ok? ==> fresh(r.value) && fresh(r.value.orders)
    {
      var names := properties.GetOr([]);
      if |names| == 0 {
        return Err(ArgumentException);
      }
      var made: seq<Order> := [];
      var i := 0;
      while i < |names|
        invariant 0 <= i <= |names| && |made| == i
        invariant forall k :: 0 <= k < i ==> PropertyPaths.HasText(names[k]) && made[k] == Order(direction, names[k])
      {
        var order := NewOrder(direction, names[i]);
        if order.Err? {
          return Err(order.error);
        }
        made := made + [order.value];
        i := i + 1;
      }
      var list := new List(made);
      var sort := new Sort(list);
      return Ok(sort);
    }

    /** `new Sort(params string[])`: the default direction. */
    static method FromNames(properties: Option<seq<string>>) returns (r: Result<Sort, SortError>)
      ensures r.Ok? ==> forall k :: 0 <= k < |r.value.orders.elements| ==> r.value.orders.elements[k].IsAscending()
      ensures r.Ok? <==> properties.Some? && |properties.value| > 0
                         && forall k :: 0 <= k < |properties.value| ==> PropertyPaths.HasText(properties.value[k])
    {
      r := FromProperties(DefaultDirection, properties);
    }

    /** `And(sort)`: null gives this sort; otherwise a new sort over a copy of these orders followed by the other's. */
    method And(sort: Sort?) returns (r: Sort)
      requires Valid()
      ensures r.Valid()
      ensures sort == null ==> r == this
      ensures sort != null ==> fresh(r) && fresh(r.orders)
                               && r.orders.elements == orders.elements + sort.orders.elements
    {
      if sort == null {
        return this;
      }
      var these := orders.elements + sort.orders.elements;
      var list := new List(these);
      r := new Sort(list);
    }

    /** `GetOrderFor(property)`. */
    function GetOrderFor(property: string): (r: Option<Order>)
      ensures r.Some? ==> r.value in orders.elements && r.value.property == property
      ensures r.None? <==> forall k :: 0 <= k < |orders.elements| ==> orders.elements[k].property != property
    {
      FirstOrderFor(orders.elements, property)
    }

    /** `Equals`: the same sort, or a sort over the very same list object. */
    predicate Equals(that: Sort?)
    {
      this == that || (that != null && orders == that.orders)
    }

    /** `Order.WithProperties(properties)`: a sort for the properties in this order's direction. */
    static method WithProperties(order: Order, properties: Option<seq<string>>) returns (r: Result<Sort, SortError>)
      ensures r.Ok? ==> forall k :: 0 <= k < |r.value.orders.elements| ==>
                          r.value.orders.elements[k].direction == order.direction
      ensures r.Ok? <==> properties.Some? && |properties.value| > 0
                         && forall k :: 0 <= k < |properties.value| ==> PropertyPaths.HasText(properties.value[k])
    {
      r := FromProperties(order.direction, properties);
    }
  }

  /**
   * Sort equality is an equivalence that ignores contents: sorts over the
   * same list are equal, and sorts over different lists are not, whatever they hold.
   */
  lemma SortEqualsIsListIdentity(a: Sort, b: Sort, c: Sort)
    ensures a.Equals(a)
    ensures a.Equals(b) <==> a.orders == b.orders
    ensures a.Equals(b) ==> b.Equals(a)
    ensures a.Equals(b) && b.Equals(c) ==> a.Equals(c)
  {
  }
}
