/*
 * The customer repository (CustomerDBDAO) over the customers table and the
 * purchases join table.
 */
module CustomersDao {
  import opened Entities
  import CouponsDao

  /** The keys of the customers whose email and password both match. */
  function CustomerIdsWith(db: Db, email: string, password: string): (ids: set<int>)
    ensures forall k :: k in ids <==> k in db.customers && db.customers[k].email == email && db.customers[k].password == password
  {
    set k | k in db.customers && db.customers[k].email == email && db.customers[k].password == password
  }

  /** `isCustomerExists`: some customer has exactly this email and password. */
  function IsCustomerExists(db: Db, email: string, password: string): (r: bool)
    ensures r <==> exists k :: k in db.customers && db.customers[k].email == email
                               && db.customers[k].password == password
  {
    var ids := CustomerIdsWith(db, email, password);
    if ids == {} then
      assert forall k :: k in db.customers && db.customers[k].email == email && db.customers[k].password == password ==> k in ids;
      false
    else
      assert exists k :: k in ids by {
        var w := NonEmptyHasMember(ids);
      }
      true
  }

  /** `addCustomer`: inserts the four columns under a fresh key. */
  function AddCustomer(db: Db, data: CustomerData): (r: Inserted)
    ensures Valid(db) ==> r.id !in db.customers && r.id >= 1 && Valid(r.db)
    ensures r.db.customers.Keys == db.customers.Keys + {r.id}
    ensures r.db.customers[r.id] == data
    ensures forall k :: k in db.customers && k != r.id ==> r.db.customers[k] == db.customers[k]
    ensures r.db.companies == db.companies && r.db.coupons == db.coupons
    ensures r.db.purchases == db.purchases
  {
    var id := db.nextCustomerId;
    Inserted(db.(customers := db.customers[id := data], nextCustomerId := id + 1), id)
  }

  /**
   * `updateCustomer`: overwrites first name, last name, email and password of
   * the row with that key and touches nothing else.
   */
  function UpdateCustomer(db: Db, c: Customer): (r: Db)
    ensures c.id in db.customers ==> r.customers.Keys == db.customers.Keys && r.customers[c.id] == c.data
    ensures c.id !in db.customers ==> r == db
    ensures forall k :: k in db.customers && k != c.id ==> r.customers[k] == db.customers[k]
    ensures r.companies == db.companies && r.coupons == db.coupons && r.purchases == db.purchases
    ensures Valid(db) ==> Valid(r)
  {
    if c.id in db.customers then db.(customers := db.customers[c.id := c.data]) else db
  }

  /** `deleteCustomer`: removes the customer row only. */
  function DeleteCustomer(db: Db, customerId: int): (r: Db)
    ensures r.customers.Keys == db.customers.Keys - {customerId}
    ensures forall k :: k in r.customers ==> r.customers[k] == db.customers[k]
    ensures r.companies == db.companies && r.coupons == db.coupons && r.purchases == db.purchases
    ensures Valid(db) ==> Valid(r)
  {
    db.(customers := db.customers - {customerId})
  }

  /** A stored customer together with the coupons it has purchased. */
  function ViewOf(db: Db, customerId: int): (v: CustomerView)
    requires customerId in db.customers
    ensures v.id == customerId && v.data == db.customers[customerId]
    ensures forall k :: k in v.coupons <==> k in db.coupons && Purchase(customerId, k) in db.purchases
    ensures forall k :: k in v.coupons ==> v.coupons[k] == db.coupons[k]
  {
    CustomerView(customerId, db.customers[customerId], CouponsDao.CustomerCoupons(db, customerId))
  }

  /** `getAllCustomers`: every customer, each with its purchased coupons. */
  function GetAllCustomers(db: Db): (r: map<int, CustomerView>)
    ensures r.Keys == db.customers.Keys
    ensures forall k :: k in r ==> r[k] == ViewOf(db, k)
  {
    map k | k in db.customers :: ViewOf(db, k)
  }

  /**
   * `getOneCustomer`: null when no row has that key; otherwise the row with
   * exactly the stored coupons k for which (key, k) is a purchase.
   */
  function GetOneCustomer(db: Db, customerId: int): (r: Option<CustomerView>)
    ensures r.None? <==> customerId !in db.customers
    ensures r.Some? ==> r.value.id == customerId && r.value.data == db.customers[customerId]
    ensures r.Some? ==> forall k :: k in r.value.coupons <==> k in db.coupons && Purchase(customerId, k) in db.purchases
    ensures r.Some? ==> forall k :: k in r.value.coupons ==> r.value.coupons[k] == db.coupons[k]
  {
    if customerId in db.customers then Some(ViewOf(db, customerId)) else None
  }

  /** `getIDByEmail`: the key of a customer with that email, or -1. */
  function GetIdByEmail(db: Db, email: string): (r: int)
    ensures r != -1 ==> r in db.customers && db.customers[r].email == email
    ensures !EmailAlreadyExists(db, email) ==> r == -1
    ensures Valid(db) ==> (r == -1 <==> !EmailAlreadyExists(db, email))
  {
    var ids := set k | k in db.customers && db.customers[k].email == email;
    if ids == {} then
      assert forall k :: k in db.customers && db.customers[k].email == email ==> k in ids;
      -1
    else
      SmallestOf(ids)
  }

  /** `emailAlreadyExists` (customers): some customer carries that email. */
  function EmailAlreadyExists(db: Db, email: string): (r: bool)
    ensures r <==> exists k :: k in db.customers && db.customers[k].email == email
  {
    email in (set k | k in db.customers :: db.customers[k].email)
  }

  /** `alreadyPurchased`: the pair is in the join table. */
  function AlreadyPurchased(db: Db, customerId: int, couponId: int): (r: bool)
    ensures r <==> exists p :: p in db.purchases && p.customerId == customerId && p.couponId == couponId
  {
    Purchase(customerId, couponId) in db.purchases
  }

  /**
   * `getID`: the key of a customer matching both email and password, or -1;
   * under the auto-increment discipline -1 means no customer matches.
   */
  function GetId(db: Db, email: string, password: string): (r: int)
    ensures r != -1 ==> r in db.customers && db.customers[r].email == email && db.customers[r].password == password
    ensures !IsCustomerExists(db, email, password) ==> r == -1
    ensures Valid(db) ==> (r == -1 <==> !IsCustomerExists(db, email, password))
  {
    var ids := CustomerIdsWith(db, email, password);
    if ids == {} then -1 else SmallestOf(ids)
  }
}
