# E-commerce API store, modelled in Dafny

This project models the request handlers of a small Flask e-commerce API (`app.py`).
It covers customers, products, customer accounts and orders. Each database table is
an in-memory table value: rows keyed by an auto-increment primary key
(`Tables.Table`). A `Shop.Store` object holds the four tables, and every handler is
a method or function of it:

- The `get_*` collection reads list every row. The selects have no `order_by`, so the
  database picks the order; the model fixes ascending id order.
- The single-row reads return the row or a 404.
- `add_*` inserts one row under a fresh id.
- `update_*` answers 404 for an unknown id *before* looking at the body, and 400 for
  a rejected body. Otherwise it runs the handler's `setattr` loop over the loaded
  fields (`Entities.Apply*Fields`).
- `delete_*` removes the row and reports a missing id from the delete's row count.
- `add_order` looks up each submitted product id in order, then inserts the order.
  `order_items` returns that order's product list.

Schema loading is not modelled; it is an input. A handler receives
`Http.Loaded(data)` or `Http.Rejected`. The loaded dict is a sequence of field
entries with distinct keys, and the required keys are present: `customer_name` for
customers; `product_name` and `price` for products; and `customer_id`, `username`
and `password` for accounts, the non-nullable columns that the generated schema
makes required. `date.today()` is a parameter of `AddOrder`.

Behaviour of the code that the model keeps as written:

- `add_customer` reads `data['email']` and `data['phone']` without checking they
  are present. A body without either raises `KeyError`, and the model answers 500
  with nothing stored.
- `add_order` reads `data['items']` unchecked. A missing key is likewise a 500.
- `add_order` does not check each product lookup. An unknown product id adds a
  `None` entry to the order's product list, and the model still creates the order
  (see `Shop.Store.AddOrder` under "## Left out" for what the commit may do instead).
- `add_order` does not check that the customer exists.
- `delete_customer` of an unknown id returns an error body with status 200, not 404.
  The product and account deletes do return 404.
- `order_items` of an unknown order id dereferences `None`, which raises. The model
  answers 500.
- The customer schema requires `customer_name` on PUT as well. So a PUT that carries
  only `email` is rejected with 400; it is not a partial update of the email alone.
- `Customer` declares no `id` column (app.py:21-26), but every handler selects by
  `Customer.id`. The model gives customers an auto-increment id like the other tables.
- The `order_products` association table declares its foreign key on `products.id`
  (app.py:39), but the product table is named `product` (app.py:42). The model assumes
  the intended link: an order's entries refer to rows of the product table.

## Model

| member | source | states |
|---|---|---|
| Tables.Empty | app.py:64-66 | A freshly created table has no rows and a valid id counter. |
| Tables.RowsBelow | app.py:138-140 | The rows with id below n: every one of them, only stored rows with their stored records, in strictly ascending id order. |
| Tables.All | app.py:138-140 | The result lists the table: every stored row once, each with its stored record, ascending by id. An empty table gives an empty list. |
| Tables.ListsUnique | app.py:138-140 | Two results that both list the same table are equal, so the listing contract fixes the result completely. |
| Tables.Insert | app.py:164-166 | A new row gets an id that no current row holds. The id is at least the old counter and below the new one, so the counter only grows. The table becomes the old rows plus that one row. |
| Tables.DeletedIdNotReused | app.py:164-166 | An insert after deleting a row never hands out the deleted row's id. |
| Tables.Delete | app.py:194-198 | Afterwards the id is absent and all other rows are unchanged. The row count equals the number of rows that disappeared, and it is 0 exactly when the id was absent. |
| Payload.Lookup | app.py:164 | `data[k]` is found exactly when the body mentions key k. What it finds is an entry of the body under key k. |
| Entities.ApplyCustomerFields | app.py:185-186 | After the `setattr` loop, each attribute named in the body holds the body's value, and every attribute the body does not name keeps its old value. |
| Entities.CustomerPatchedUnique | app.py:185-186 | The customer patch specification admits only one result for a given record and body. |
| Entities.NewCustomer | app.py:164 | A record is built exactly when the body carries both `email` and `phone` (otherwise the subscript raises). The built record holds every submitted value. |
| Entities.ApplyProductFields | app.py:252-253 | After the `setattr` loop, `product_name` and `price` hold the body's values where given and keep their old values otherwise. `stock` never changes. |
| Entities.ProductPatchedUnique | app.py:252-253 | The product patch specification admits only one result for a given record and body. |
| Entities.NewProduct | app.py:214 | The new product holds the submitted name and price, and its `stock` is the column default 0 (app.py:46). |
| Entities.ApplyAccountFields | app.py:316-317 | After the `setattr` loop, each of `customer_id`, `username` and `password` holds the body's value where given and keeps its old value otherwise. |
| Entities.AccountPatchedUnique | app.py:316-317 | The account patch specification admits only one result for a given record and body. |
| Entities.NewAccount | app.py:277 | The new account holds the submitted `customer_id`, `username` and `password`. |
| Shop.Store.constructor | app.py:64-66 | After `drop_all`/`create_all`, all four tables are empty. |
| Shop.Store.GetCustomers | app.py:136-142 | Lists every customer row once, ascending by id. An empty table gives an empty list, not an error. |
| Shop.Store.GetCustomer | app.py:145-153 | Succeeds with status 200 and the stored row exactly when the id is present, and answers 404 otherwise. A function: it cannot change the store. |
| Shop.Store.AddCustomer | app.py:157-168 | A rejected body gives 400; a body missing `email` or `phone` gives 500; both leave the store unchanged. Otherwise 201 and exactly one new customer under a fresh id, and reading that id back returns every submitted value. All other rows and tables are unchanged. |
| Shop.Store.UpdateCustomer | app.py:171-189 | An unknown id gives 404 whatever the body. A rejected body gives 400 with the row unchanged. Otherwise 200, and reading the row back shows the body's attributes overwritten and the rest kept. No other row or table changes. |
| Shop.Store.DeleteCustomer | app.py:192-202 | Exactly that row is removed, and a later read answers 404. An unknown id changes nothing and reports not-found with status 200. |
| Shop.Store.AddProduct | app.py:207-218 | A rejected body gives 400 with nothing stored. Otherwise 201 and exactly one new product under a fresh id, with the submitted name and price and `stock` 0. Existing rows are unchanged. |
| Shop.Store.GetProducts | app.py:220-226 | Lists every product row once, ascending by id. An empty table gives an empty list. |
| Shop.Store.GetProduct | app.py:228-236 | Succeeds with status 200 and the stored row exactly when the id is present, and answers 404 otherwise. |
| Shop.Store.UpdateProduct | app.py:238-256 | An unknown id gives 404 before validation. A rejected body gives 400 with the row unchanged. Otherwise the named attributes are overwritten, `stock` and the other rows are untouched, and the reply is 200. |
| Shop.Store.DeleteProduct | app.py:258-267 | Exactly that row is removed. An unknown id changes nothing and answers 404. |
| Shop.Store.AddAccount | app.py:270-281 | A rejected body gives 400 with nothing stored. Otherwise 201 and exactly one new account under a fresh id, holding the submitted values. Existing rows are unchanged. |
| Shop.Store.GetAccounts | app.py:283-289 | Lists every account row once, ascending by id. An empty table gives an empty list. |
| Shop.Store.GetAccount | app.py:292-300 | Succeeds with status 200 and the stored row exactly when the id is present, and answers 404 otherwise. |
| Shop.Store.UpdateAccount | app.py:302-320 | An unknown id gives 404 before validation. A rejected body gives 400 with the row unchanged. Otherwise the named attributes are overwritten, the rest kept, and the reply is 200. |
| Shop.Store.DeleteAccount | app.py:322-331 | Exactly that row is removed. An unknown id changes nothing and answers 404. |
| Shop.Store.ResolveItems | app.py:346-349 | One entry per submitted id, in submission order. Each entry is the product row under that id, or None where there is no such product. |
| Shop.Store.AddOrder | app.py:337-353 | A rejected body gives 400; a body without `items` gives 500; both leave the orders unchanged. Otherwise 201 and exactly one new order under a fresh id. Its date is today, its customer is the submitted one, and its products are the per-position lookups of the submitted ids. `order_items` on that id returns exactly this list. No other table changes. |
| Shop.Store.OrderItems | app.py:356-361 | Returns the stored order's product list with status 200 exactly when the order exists. An unknown id makes the handler raise (500). |

## Left out

- Flask routing, `request.json`, `jsonify` and serialisation. A reply is a status code plus a value or an error kind. The message texts are not modelled, and neither is the malformed `jsonify({e.messages})` on a rejected customer body (app.py:162), which the model treats as a plain 400.
- Marshmallow schema loading (app.py:68-126): its rules belong to the library, so the loaded body is an input. The model assumes the keys the schemas require, that each value has its declared type, and, for orders, that `items` (undeclared, app.py:93) is a list of integers when present.
- A loaded body that carries `id`: the handlers would `setattr` the primary key itself. Changing a row's key is not modelled.
- The SQLAlchemy session and transactions, the MySQL connection, and the destructive `drop_all`/`create_all` at start-up (app.py:13, app.py:18, app.py:64-66); the store starts empty.
- Constraints that only the database enforces: unique `username`, the foreign keys (`customer.id`, `orders.id`, and the association table's `products.id`, which names no table), the composite key of `order_products`, the column lengths, and `nullable`. The model does not claim the handlers check them. For the same reason, deleting a customer that orders or accounts still reference is not modelled as failing.
- The `OrderItem` table and its schema (app.py:56-62, app.py:103-111): no handler uses them.
- `price` is a float column; the model uses `real`, since it is only stored and returned.
- Tables.All: lists rows by ascending id. The selects (app.py:138, app.py:222, app.py:285) have no `order_by`, so the real order is the database's. The model does not cover other orders.
- Shop.Store.AddOrder: stores a `None` entry for each unknown product id and answers 201. SQLAlchemy may instead refuse to flush a `None` in the `products` collection at commit (app.py:352), which would be a 500 with nothing stored; that is not modelled. A loaded `items` value that is not a list, which would make the loop at app.py:346 raise (500), is not modelled either.
- Shop.Store.OrderItems: returns the product list as `add_order` assembled it. The order keeps copies of the product rows, not references, so product updates or deletes made after the order are not seen. It does not model what the database would reload through the association table: rows for `None` entries are never written, the order of association rows is the store's, and duplicate product ids break the composite key.
- `home` (app.py:128-130) and the `app.run` entry point (app.py:364-365).
- Stock changes and concurrency: no handler touches `stock`, and each request runs alone.
