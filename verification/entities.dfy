/**
 * The mapped classes `Customer`, `CustomerAccount`, `Products` and `Orders`
 * as records, the fields their schemas load, and the field-by-field update
 * that the PUT handlers run over a loaded body.
 */
module Entities {

  import opened Wrappers
  import opened Tables
  import opened Payload

  /** A calendar date, as `date.today()` returns it. */
  datatype Date = Date(year: int, month: int, day: int)

  datatype Customer = Customer(name: string, email: string, phone: string)

  /** `price` is a float column; it is only stored and returned, never computed with. */
  datatype Product = Product(name: string, price: real, stock: int)

  datatype Account = Account(customerId: int, username: string, password: string)

  /** An order and its product list, one entry per submitted item (None where the lookup failed). */
  datatype Order = Order(orderDate: Date, customerId: int, products: seq<Option<Row<Product>>>)

  // ---------------------------------------------------------------- customer

  /** An entry of a loaded customer body. */
  datatype CustomerField = CustomerName(value: string) | Email(value: string) | Phone(value: string)

  function CustomerKey(f: CustomerField): string
  {
    match f
    case CustomerName(_) => "customer_name"
    case Email(_) => "email"
    case Phone(_) => "phone"
  }

  /** What `customer_schema.load` guarantees: a dict with the required `customer_name`. */
  ghost predicate CustomerLoaded(d: seq<CustomerField>)
  {
    DistinctKeys(d, CustomerKey) && Mentions(d, CustomerKey, "customer_name")
  }

  /** `setattr(customer, field, value)` */
  function SetCustomerAttr(c: Customer, f: CustomerField): Customer
  {
    match f
    case CustomerName(v) => c.(name := v)
    case Email(v) => c.(email := v)
    case Phone(v) => c.(phone := v)
  }

  /** The record holds the value of entry `f` in the attribute `f` names. */
  predicate CustomerHas(c: Customer, f: CustomerField)
  {
    match f
    case CustomerName(v) => c.name == v
    case Email(v) => c.email == v
    case Phone(v) => c.phone == v
  }

  /**
   * `after` is `before` with exactly the attributes named in `d` overwritten:
   * each entry's value is in place, and every attribute the body does not
   * name keeps its old value.
   */
  ghost predicate CustomerPatched(before: Customer, d: seq<CustomerField>, after: Customer)
  {
    && (forall i :: 0 <= i < |d| ==> CustomerHas(after, d[i]))
    && (!Mentions(d, CustomerKey, "customer_name") ==> after.name == before.name)
    && (!Mentions(d, CustomerKey, "email") ==> after.email == before.email)
    && (!Mentions(d, CustomerKey, "phone") ==> after.phone == before.phone)
  }

  /** The `for field, value in customer_data.items(): setattr(...)` loop of `update_customer`. */
  method ApplyCustomerFields(c: Customer, d: seq<CustomerField>) returns (r: Customer)
    requires DistinctKeys(d, CustomerKey)
    ensures CustomerPatched(c, d, r)
  {
    r := c;
    for i := 0 to |d|
      invariant CustomerPatched(c, d[..i], r)
    {
      r := SetCustomerAttr(r, d[i]);
      assert d[..i + 1] == d[..i] + [d[i]];
    }
    assert d[..|d|] == d;
  }

  /** The patch spec leaves no freedom: a body determines the updated record. */
  lemma CustomerPatchedUnique(before: Customer, d: seq<CustomerField>, a: Customer, b: Customer)
    requires CustomerPatched(before, d, a) && CustomerPatched(before, d, b)
    ensures a == b
  {
  }

  /**
   * The record `add_customer` builds from `data['customer_name']`,
   * `data['email']` and `data['phone']`; None where a key is missing and the
   * subscript raises.
   */
  function NewCustomer(d: seq<CustomerField>): (c: Option<Customer>)
    requires CustomerLoaded(d)
    ensures c.Some? <==> Mentions(d, CustomerKey, "email") && Mentions(d, CustomerKey, "phone")
    ensures c.Some? ==> forall i :: 0 <= i < |d| ==> CustomerHas(c.value, d[i])
  {
    var name := Lookup(d, CustomerKey, "customer_name");
    var email := Lookup(d, CustomerKey, "email");
    var phone := Lookup(d, CustomerKey, "phone");
    if email.None? || phone.None? then None
    else
      Some(Customer(name.value.value, email.value.value, phone.value.value))
  }

  // ----------------------------------------------------------------- product

  /** An entry of a loaded product body. */
  datatype ProductField = ProductName(name: string) | Price(price: real)

  function ProductKey(f: ProductField): string
  {
    match f
    case ProductName(_) => "product_name"
    case Price(_) => "price"
  }

  /** What `product_schema.load` guarantees: both `product_name` and `price`. */
  ghost predicate ProductLoaded(d: seq<ProductField>)
  {
    && DistinctKeys(d, ProductKey)
    && Mentions(d, ProductKey, "product_name")
    && Mentions(d, ProductKey, "price")
  }

  function SetProductAttr(p: Product, f: ProductField): Product
  {
    match f
    case ProductName(v) => p.(name := v)
    case Price(v) => p.(price := v)
  }

  predicate ProductHas(p: Product, f: ProductField)
  {
    match f
    case ProductName(v) => p.name == v
    case Price(v) => p.price == v
  }

  /** As CustomerPatched; `stock` is in no product body, so it never changes. */
  ghost predicate ProductPatched(before: Product, d: seq<ProductField>, after: Product)
  {
    && (forall i :: 0 <= i < |d| ==> ProductHas(after, d[i]))
    && (!Mentions(d, ProductKey, "product_name") ==> after.name == before.name)
    && (!Mentions(d, ProductKey, "price") ==> after.price == before.price)
    && after.stock == before.stock
  }

  /** The `setattr` loop of `update_product`. */
  method ApplyProductFields(p: Product, d: seq<ProductField>) returns (r: Product)
    requires DistinctKeys(d, ProductKey)
    ensures ProductPatched(p, d, r)
  {
    r := p;
    for i := 0 to |d|
      invariant ProductPatched(p, d[..i], r)
    {
      r := SetProductAttr(r, d[i]);
      assert d[..i + 1] == d[..i] + [d[i]];
    }
    assert d[..|d|] == d;
  }

  /** The patch spec leaves no freedom: a body determines the updated record. */
  lemma ProductPatchedUnique(before: Product, d: seq<ProductField>, a: Product, b: Product)
    requires ProductPatched(before, d, a) && ProductPatched(before, d, b)
    ensures a == b
  {
  }

  /** The record `add_product` builds; `stock` takes its column default 0. */
  function NewProduct(d: seq<ProductField>): (p: Product)
    requires ProductLoaded(d)
    ensures p.stock == 0
    ensures forall i :: 0 <= i < |d| ==> ProductHas(p, d[i])
  {
    var name := Lookup(d, ProductKey, "product_name");
    var price := Lookup(d, ProductKey, "price");
    Product(name.value.name, price.value.price, 0)
  }

  // ---------------------------------------------------------------- account

  /** An entry of a loaded customer-account body. */
  datatype AccountField = AccountCustomerId(customerId: int) | Username(username: string) | Password(password: string)

  function AccountKey(f: AccountField): string
  {
    match f
    case AccountCustomerId(_) => "customer_id"
    case Username(_) => "username"
    case Password(_) => "password"
  }

  /** What `customer_account_schema.load` guarantees: the three non-nullable columns. */
  ghost predicate AccountLoaded(d: seq<AccountField>)
  {
    && DistinctKeys(d, AccountKey)
    && Mentions(d, AccountKey, "customer_id")
    && Mentions(d, AccountKey, "username")
    && Mentions(d, AccountKey, "password")
  }

  function SetAccountAttr(a: Account, f: AccountField): Account
  {
    match f
    case AccountCustomerId(v) => a.(customerId := v)
    case Username(v) => a.(username := v)
    case Password(v) => a.(password := v)
  }

  predicate AccountHas(a: Account, f: AccountField)
  {
    match f
    case AccountCustomerId(v) => a.customerId == v
    case Username(v) => a.username == v
    case Password(v) => a.password == v
  }

  ghost predicate AccountPatched(before: Account, d: seq<AccountField>, after: Account)
  {
    && (forall i :: 0 <= i < |d| ==> AccountHas(after, d[i]))
    && (!Mentions(d, AccountKey, "customer_id") ==> after.customerId == before.customerId)
    && (!Mentions(d, AccountKey, "username") ==> after.username == before.username)
    && (!Mentions(d, AccountKey, "password") ==> after.password == before.password)
  }

  /** The `setattr` loop of `update_customer_account`. */
  method ApplyAccountFields(a: Account, d: seq<AccountField>) returns (r: Account)
    requires DistinctKeys(d, AccountKey)
    ensures AccountPatched(a, d, r)
  {
    r := a;
    for i := 0 to |d|
      invariant AccountPatched(a, d[..i], r)
    {
      r := SetAccountAttr(r, d[i]);
      assert d[..i + 1] == d[..i] + [d[i]];
    }
    assert d[..|d|] == d;
  }

  /** The patch spec leaves no freedom: a body determines the updated record. */
  lemma AccountPatchedUnique(before: Account, d: seq<AccountField>, a: Account, b: Account)
    requires AccountPatched(before, d, a) && AccountPatched(before, d, b)
    ensures a == b
  {
  }

  /** The record `add_customer_account` builds. */
  function NewAccount(d: seq<AccountField>): (a: Account)
    requires AccountLoaded(d)
    ensures forall i :: 0 <= i < |d| ==> AccountHas(a, d[i])
  {
    var customerId := Lookup(d, AccountKey, "customer_id");
    var username := Lookup(d, AccountKey, "username");
    var password := Lookup(d, AccountKey, "password");
    Account(customerId.value.customerId, username.value.username, password.value.password)
  }
}
