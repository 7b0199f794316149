/**
 * The request handlers of the e-commerce API over an in-memory store with
 * one table per mapped class. Each handler is one method (or, for reads, one
 * function) of `Store`; the status it answers with is part of its reply.
 */
module Shop {

  import opened Wrappers
  import opened Http
  import opened Tables
  import opened Payload
  import opened Entities

  /** A loaded order body: `customer_id` is required, `items` is read unchecked. */
  datatype OrderData = OrderData(customerId: int, items: Option<seq<int>>)

  /** `resolved` holds, position by position, the product lookup of each submitted id. */
  ghost predicate Resolves(products: Table<Product>, items: seq<int>, resolved: seq<Option<Row<Product>>>)
  {
    && |resolved| == |items|
    && forall i :: 0 <= i < |items| ==>
         && (resolved[i].Some? <==> items[i] in products.rows)
         && (resolved[i].Some? ==> resolved[i].value == Row(items[i], products.rows[items[i]]))
  }

  class Store {

    var customers: Table<Customer>
    var products: Table<Product>
    var accounts: Table<Account>
    var orders: Table<Order>

    ghost predicate Valid()
      reads this
    {
      WellFormed(customers) && WellFormed(products) && WellFormed(accounts) && WellFormed(orders)
    }

    /** The freshly created schema: every table empty. */
    constructor ()
      ensures Valid()
      ensures customers.rows == map[] && products.rows == map[]
      ensures accounts.rows == map[] && orders.rows == map[]
    {
      customers := Empty();
      products := Empty();
      accounts := Empty();
      orders := Empty();
    }

    // ============================================================ customers

    /** `get_customers`: every customer row, an empty list for an empty table. */
    function GetCustomers(): (rows: seq<Row<Customer>>)
      reads this
      requires Valid()
      ensures Lists(customers.rows, rows)
      ensures customers.rows == map[] ==> rows == []
    {
      All(customers)
    }

    /** `get_customer`: the stored row, or 404. */
    function GetCustomer(id: int): (r: Reply<Row<Customer>>)
      reads this
      ensures r.outcome.Success? <==> id in customers.rows
      ensures r.outcome.Success? ==> r.status == StatusOk && r.outcome.value == Row(id, customers.rows[id])
      ensures r.outcome.Failure? ==> r == Reply(StatusNotFound, Failure(NotFound))
    {
      if id in customers.rows then Reply(StatusOk, Success(Row(id, customers.rows[id])))
      else Reply(StatusNotFound, Failure(NotFound))
    }

    /**
     * `add_customer`: a rejected body is a 400; a body without `email` or
     * `phone` makes the handler raise (500); otherwise exactly one new row,
     * holding every submitted value, under a fresh id.
     */
    method AddCustomer(body: Loaded<seq<CustomerField>>) returns (reply: Reply<int>)
      requires Valid()
      requires body.Loaded? ==> CustomerLoaded(body.data)
      modifies this
      ensures Valid()
      ensures products == old(products) && accounts == old(accounts) && orders == old(orders)
      ensures body.Rejected? ==> reply == Reply(StatusBadRequest, Failure(BadRequest)) && customers == old(customers)
      ensures body.Loaded? && !(Mentions(body.data, CustomerKey, "email") && Mentions(body.data, CustomerKey, "phone")) ==>
        reply == Reply(StatusServerError, Failure(ServerError)) && customers == old(customers)
      ensures reply.outcome.Success? ==>
        && body.Loaded?
        && reply.status == StatusCreated
        && reply.outcome.value !in old(customers.rows)
        && old(customers.nextId) <= reply.outcome.value < customers.nextId
        && customers.rows.Keys == old(customers.rows.Keys) + {reply.outcome.value}
        && (forall id :: id in old(customers.rows) ==> customers.rows[id] == old(customers.rows[id]))
        && GetCustomer(reply.outcome.value).outcome.Success?
        && (forall i :: 0 <= i < |body.data| ==> CustomerHas(GetCustomer(reply.outcome.value).outcome.value.record, body.data[i]))
      ensures body.Loaded? && Mentions(body.data, CustomerKey, "email") && Mentions(body.data, CustomerKey, "phone") ==>
        reply.outcome.Success?
    {
      if body.Rejected? {
        return Reply(StatusBadRequest, Failure(BadRequest));
      }
      var customer := NewCustomer(body.data);
      if customer.None? {
        return Reply(StatusServerError, Failure(ServerError));
      }
      var (table, id) := Insert(customers, customer.value);
      customers := table;
      reply := Reply(StatusCreated, Success(id));
    }

    /**
     * `update_customer`: an unknown id is a 404 before the body is looked at;
     * a rejected body is a 400; otherwise the row's attributes named in the
     * body are overwritten and nothing else in the store changes.
     */
    method UpdateCustomer(id: int, body: Loaded<seq<CustomerField>>) returns (reply: Reply<()>)
      requires Valid()
      requires body.Loaded? ==> CustomerLoaded(body.data)
      modifies this
      ensures Valid()
      ensures products == old(products) && accounts == old(accounts) && orders == old(orders)
      ensures customers.nextId == old(customers.nextId) && customers.rows.Keys == old(customers.rows.Keys)
      ensures forall k :: k in customers.rows && k != id ==> customers.rows[k] == old(customers.rows[k])
      ensures id !in old(customers.rows) ==> reply == Reply(StatusNotFound, Failure(NotFound)) && customers == old(customers)
      ensures id in old(customers.rows) && body.Rejected? ==>
        reply == Reply(StatusBadRequest, Failure(BadRequest)) && customers == old(customers)
      ensures id in old(customers.rows) && body.Loaded? ==>
        && reply == Reply(StatusOk, Success(()))
        && GetCustomer(id).outcome.Success?
        && CustomerPatched(old(customers.rows[id]), body.data, GetCustomer(id).outcome.value.record)
    {
      if id !in customers.rows {
        return Reply(StatusNotFound, Failure(NotFound));
      }
      if body.Rejected? {
        return Reply(StatusBadRequest, Failure(BadRequest));
      }
      var customer := ApplyCustomerFields(customers.rows[id], body.data);
      customers := customers.(rows := customers.rows[id := customer]);
      reply := Reply(StatusOk, Success(()));
    }

    /**
     * `delete_customer`: the row is gone afterwards. An unknown id is
     * reported as not found, but with status 200: this handler omits the 404.
     */
    method DeleteCustomer(id: int) returns (reply: Reply<()>)
      requires Valid()
      modifies this
      ensures Valid()
      ensures products == old(products) && accounts == old(accounts) && orders == old(orders)
      ensures customers.rows == old(customers.rows) - {id} && customers.nextId == old(customers.nextId)
      ensures GetCustomer(id) == Reply(StatusNotFound, Failure(NotFound))
      ensures id in old(customers.rows) ==> reply == Reply(StatusOk, Success(()))
      ensures id !in old(customers.rows) ==> reply == Reply(StatusOk, Failure(NotFound))
    {
      var (table, rowCount) := Delete(customers, id);
      if rowCount == 0 {
        return Reply(StatusOk, Failure(NotFound));
      }
      customers := table;
      reply := Reply(StatusOk, Success(()));
    }

    // ============================================================= products

    /** `add_product`: one new row holding the submitted values, with `stock` 0. */
    method AddProduct(body: Loaded<seq<ProductField>>) returns (reply: Reply<int>)
      requires Valid()
      requires body.Loaded? ==> ProductLoaded(body.data)
      modifies this
      ensures Valid()
      ensures customers == old(customers) && accounts == old(accounts) && orders == old(orders)
      ensures body.Rejected? ==> reply == Reply(StatusBadRequest, Failure(BadRequest)) && products == old(products)
      ensures body.Loaded? ==>
        && reply.status == StatusCreated && reply.outcome.Success?
        && reply.outcome.value !in old(products.rows)
        && old(products.nextId) <= reply.outcome.value < products.nextId
        && products.rows.Keys == old(products.rows.Keys) + {reply.outcome.value}
        && (forall id :: id in old(products.rows) ==> products.rows[id] == old(products.rows[id]))
        && products.rows[reply.outcome.value].stock == 0
        && GetProduct(reply.outcome.value).outcome.Success?
        && (forall i :: 0 <= i < |body.data| ==> ProductHas(GetProduct(reply.outcome.value).outcome.value.record, body.data[i]))
    {
      if body.Rejected? {
        return Reply(StatusBadRequest, Failure(BadRequest));
      }
      var (table, id) := Insert(products, NewProduct(body.data));
      products := table;
      reply := Reply(StatusCreated, Success(id));
    }

    /** `get_products`: every product row, an empty list for an empty table. */
    function GetProducts(): (rows: seq<Row<Product>>)
      reads this
      requires Valid()
      ensures Lists(products.rows, rows)
      ensures products.rows == map[] ==> rows == []
    {
      All(products)
    }

    /** `get_product`: the stored row, or 404. */
    function GetProduct(id: int): (r: Reply<Row<Product>>)
      reads this
      ensures r.outcome.Success? <==> id in products.rows
      ensures r.outcome.Success? ==> r.status == StatusOk && r.outcome.value == Row(id, products.rows[id])
      ensures r.outcome.Failure? ==> r == Reply(StatusNotFound, Failure(NotFound))
    {
      if id in products.rows then Reply(StatusOk, Success(Row(id, products.rows[id])))
      else Reply(StatusNotFound, Failure(NotFound))
    }

    /** `update_product`: as UpdateCustomer; `stock` is never touched. */
    method UpdateProduct(id: int, body: Loaded<seq<ProductField>>) returns (reply: Reply<()>)
      requires Valid()
      requires body.Loaded? ==> ProductLoaded(body.data)
      modifies this
      ensures Valid()
      ensures customers == old(customers) && accounts == old(accounts) && orders == old(orders)
      ensures products.nextId == old(products.nextId) && products.rows.Keys == old(products.rows.Keys)
      ensures forall k :: k in products.rows && k != id ==> products.rows[k] == old(products.rows[k])
      ensures id !in old(products.rows) ==> reply == Reply(StatusNotFound, Failure(NotFound)) && products == old(products)
      ensures id in old(products.rows) && body.Rejected? ==>
        reply == Reply(StatusBadRequest, Failure(BadRequest)) && products == old(products)
      ensures id in old(products.rows) && body.Loaded? ==>
        && reply == Reply(StatusOk, Success(()))
        && GetProduct(id).outcome.Success?
        && ProductPatched(old(products.rows[id]), body.data, GetProduct(id).outcome.value.record)
    {
      if id !in products.rows {
        return Reply(StatusNotFound, Failure(NotFound));
      }
      if body.Rejected? {
        return Reply(StatusBadRequest, Failure(BadRequest));
      }
      var product := ApplyProductFields(products.rows[id], body.data);
      products := products.(rows := products.rows[id := product]);
      reply := Reply(StatusOk, Success(()));
    }

    /** `delete_product`: the row is gone afterwards; an unknown id is a 404. */
    method DeleteProduct(id: int) returns (reply: Reply<()>)
      requires Valid()
      modifies this
      ensures Valid()
      ensures customers == old(customers) && accounts == old(accounts) && orders == old(orders)
      ensures products.rows == old(products.rows) - {id} && products.nextId == old(products.nextId)
      ensures GetProduct(id) == Reply(StatusNotFound, Failure(NotFound))
      ensures id in old(products.rows) ==> reply == Reply(StatusOk, Success(()))
      ensures id !in old(products.rows) ==> reply == Reply(StatusNotFound, Failure(NotFound))
    {
      var (table, rowCount) := Delete(products, id);
      if rowCount == 0 {
        return Reply(StatusNotFound, Failure(NotFound));
      }
      products := table;
      reply := Reply(StatusOk, Success(()));
    }

    // ==================================================== customer accounts

    /** `add_customer_account`: one new row holding the submitted values. */
    method AddAccount(body: Loaded<seq<AccountField>>) returns (reply: Reply<int>)
      requires Valid()
      requires body.Loaded? ==> AccountLoaded(body.data)
      modifies this
      ensures Valid()
      ensures customers == old(customers) && products == old(products) && orders == old(orders)
      ensures body.Rejected? ==> reply == Reply(StatusBadRequest, Failure(BadRequest)) && accounts == old(accounts)
      ensures body.Loaded? ==>
        && reply.status == StatusCreated && reply.outcome.Success?
        && reply.outcome.value !in old(accounts.rows)
        && old(accounts.nextId) <= reply.outcome.value < accounts.nextId
        && accounts.rows.Keys == old(accounts.rows.Keys) + {reply.outcome.value}
        && (forall id :: id in old(accounts.rows) ==> accounts.rows[id] == old(accounts.rows[id]))
        && GetAccount(reply.outcome.value).outcome.Success?
        && (forall i :: 0 <= i < |body.data| ==> AccountHas(GetAccount(reply.outcome.value).outcome.value.record, body.data[i]))
    {
      if body.Rejected? {
        return Reply(StatusBadRequest, Failure(BadRequest));
      }
      var (table, id) := Insert(accounts, NewAccount(body.data));
      accounts := table;
      reply := Reply(StatusCreated, Success(id));
    }

    /** `get_customer_accounts`: every account row, an empty list for an empty table. */
    function GetAccounts(): (rows: seq<Row<Account>>)
      reads this
      requires Valid()
      ensures Lists(accounts.rows, rows)
      ensures accounts.rows == map[] ==> rows == []
    {
      All(accounts)
    }

    /** `get_customer_account`: the stored row, or 404. */
    function GetAccount(id: int): (r: Reply<Row<Account>>)
      reads this
      ensures r.outcome.Success? <==> id in accounts.rows
      ensures r.outcome.Success? ==> r.status == StatusOk && r.outcome.value == Row(id, accounts.rows[id])
      ensures r.outcome.Failure? ==> r == Reply(StatusNotFound, Failure(NotFound))
    {
      if id in accounts.rows then Reply(StatusOk, Success(Row(id, accounts.rows[id])))
      else Reply(StatusNotFound, Failure(NotFound))
    }

    /** `update_customer_account`: as UpdateCustomer. */
    method UpdateAccount(id: int, body: Loaded<seq<AccountField>>) returns (reply: Reply<()>)
      requires Valid()
      requires body.Loaded? ==> AccountLoaded(body.data)
      modifies this
      ensures Valid()
      ensures customers == old(customers) && products == old(products) && orders == old(orders)
      ensures accounts.nextId == old(accounts.nextId) && accounts.rows.Keys == old(accounts.rows.Keys)
      ensures forall k :: k in accounts.rows && k != id ==> accounts.rows[k] == old(accounts.rows[k])
      ensures id !in old(accounts.rows) ==> reply == Reply(StatusNotFound, Failure(NotFound)) && accounts == old(accounts)
      ensures id in old(accounts.rows) && body.Rejected? ==>
        reply == Reply(StatusBadRequest, Failure(BadRequest)) && accounts == old(accounts)
      ensures id in old(accounts.rows) && body.Loaded? ==>
        && reply == Reply(StatusOk, Success(()))
        && GetAccount(id).outcome.Success?
        && AccountPatched(old(accounts.rows[id]), body.data, GetAccount(id).outcome.value.record)
    {
      if id !in accounts.rows {
        return Reply(StatusNotFound, Failure(NotFound));
      }
      if body.Rejected? {
        return Reply(StatusBadRequest, Failure(BadRequest));
      }
      var account := ApplyAccountFields(accounts.rows[id], body.data);
      accounts := accounts.(rows := accounts.rows[id := account]);
      reply := Reply(StatusOk, Success(()));
    }

    /** `delete_customer_account`: the row is gone afterwards; an unknown id is a 404. */
    method DeleteAccount(id: int) returns (reply: Reply<()>)
      requires Valid()
      modifies this
      ensures Valid()
      ensures customers == old(customers) && products == old(products) && orders == old(orders)
      ensures accounts.rows == old(accounts.rows) - {id} && accounts.nextId == old(accounts.nextId)
      ensures GetAccount(id) == Reply(StatusNotFound, Failure(NotFound))
      ensures id in old(accounts.rows) ==> reply == Reply(StatusOk, Success(()))
      ensures id !in old(accounts.rows) ==> reply == Reply(StatusNotFound, Failure(NotFound))
    {
      var (table, rowCount) := Delete(accounts, id);
      if rowCount == 0 {
        return Reply(StatusNotFound, Failure(NotFound));
      }
      accounts := table;
      reply := Reply(StatusOk, Success(()));
    }

    // =============================================================== orders

    /**
     * The `for item_id in order_data['items']` loop of `add_order`: one
     * lookup per submitted id, in submission order, a missing product
     * contributing None.
     */
    method ResolveItems(items: seq<int>) returns (resolved: seq<Option<Row<Product>>>)
      ensures Resolves(products, items, resolved)
    {
      resolved := [];
      for i := 0 to |items|
        invariant Resolves(products, items[..i], resolved)
      {
        var found := GetProduct(items[i]);
        var item := if found.outcome.Success? then Some(found.outcome.value) else None;
        resolved := resolved + [item];
      }
      assert items[..|items|] == items;
    }

    /**
     * `add_order`: a rejected body is a 400; a body without `items` makes the
     * subscript raise (500); otherwise exactly one new order, dated `today`,
     * for the submitted customer, whose products are the lookups of the
     * submitted ids in order, and `order_items` on its id returns them.
     */
    method AddOrder(body: Loaded<OrderData>, today: Date) returns (reply: Reply<int>)
      requires Valid()
      modifies this
      ensures Valid()
      ensures customers == old(customers) && products == old(products) && accounts == old(accounts)
      ensures body.Rejected? ==> reply == Reply(StatusBadRequest, Failure(BadRequest)) && orders == old(orders)
      ensures body.Loaded? && body.data.items.None? ==>
        reply == Reply(StatusServerError, Failure(ServerError)) && orders == old(orders)
      ensures body.Loaded? && body.data.items.Some? ==>
        && reply.status == StatusCreated && reply.outcome.Success?
        && reply.outcome.value !in old(orders.rows)
        && old(orders.nextId) <= reply.outcome.value < orders.nextId
        && orders.rows.Keys == old(orders.rows.Keys) + {reply.outcome.value}
        && (forall id :: id in old(orders.rows) ==> orders.rows[id] == old(orders.rows[id]))
        && orders.rows[reply.outcome.value].orderDate == today
        && orders.rows[reply.outcome.value].customerId == body.data.customerId
        && Resolves(products, body.data.items.value, orders.rows[reply.outcome.value].products)
        && OrderItems(reply.outcome.value) == Reply(StatusOk, Success(orders.rows[reply.outcome.value].products))
    {
      if body.Rejected? {
        return Reply(StatusBadRequest, Failure(BadRequest));
      }
      if body.data.items.None? {
        return Reply(StatusServerError, Failure(ServerError));
      }
      var resolved := ResolveItems(body.data.items.value);
      var (table, id) := Insert(orders, Order(today, body.data.customerId, resolved));
      orders := table;
      reply := Reply(StatusCreated, Success(id));
    }

    /**
     * `order_items`: the product list of the order. An unknown id leaves the
     * handler dereferencing None, which raises (500).
     */
    function OrderItems(id: int): (r: Reply<seq<Option<Row<Product>>>>)
      reads this
      ensures r.outcome.Success? <==> id in orders.rows
      ensures r.outcome.Success? ==> r == Reply(StatusOk, Success(orders.rows[id].products))
      ensures r.outcome.Failure? ==> r == Reply(StatusServerError, Failure(ServerError))
    {
      if id in orders.rows then Reply(StatusOk, Success(orders.rows[id].products))
      else Reply(StatusServerError, Failure(ServerError))
    }
  }
}
