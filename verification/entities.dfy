/*
 * The value objects of the coupon marketplace and the abstract database state
 * they are stored in. Every table is a map from its primary key to the row's
 * remaining columns; the purchases join table is a set of pairs.
 *
 * Dates and "now" share one integer timeline: a stored date is the instant of
 * its midnight, "now" is the current instant.
 */
module Entities {

  /** Coupon categories, in declaration order (Java's `Category.values()`). */
  datatype Category = Food | Electricity | Restaurant | Vacation

  /** The enum's `values()` array. */
  const Categories: seq<Category> := [Food, Electricity, Restaurant, Vacation]

  datatype CompanyData = CompanyData(name: string, email: string, password: string)

  datatype CustomerData = CustomerData(firstName: string, lastName: string, email: string, password: string)

  /** The non-key columns of a coupon row. Price is kept on an integer scale. */
  datatype CouponData = CouponData(
    companyId: int,
    category: Category,
    title: string,
    description: string,
    startDate: int,
    endDate: int,
    amount: int,
    price: int,
    image: string)

  /** A company object as the caller hands it to an update: key plus columns. */
  datatype Company = Company(id: int, data: CompanyData)

  datatype Customer = Customer(id: int, data: CustomerData)

  datatype Coupon = Coupon(id: int, data: CouponData)

  /** One row of the customers-vs-coupons join table. */
  datatype Purchase = Purchase(customerId: int, couponId: int)

  /**
   * The database. Each table has its own auto-increment counter: the id the
   * next insert receives.
   */
  datatype Db = Db(
    companies: map<int, CompanyData>,
    customers: map<int, CustomerData>,
    coupons: map<int, CouponData>,
    purchases: set<Purchase>,
    nextCompanyId: int,
    nextCustomerId: int,
    nextCouponId: int)

  /** A company read back together with its derived coupon list. */
  datatype CompanyView = CompanyView(id: int, data: CompanyData, coupons: map<int, CouponData>)

  /** A customer read back together with the coupons it has purchased. */
  datatype CustomerView = CustomerView(id: int, data: CustomerData, coupons: map<int, CouponData>)

  /** The state after an insert, and the generated key the insert set on the object. */
  datatype Inserted = Inserted(db: Db, id: int)

  /** The state after a purchase, and the caller's coupon object as the purchase left it. */
  datatype Purchased = Purchased(db: Db, copy: Coupon)

  /** The exceptions the facades throw, as kinds with their payloads. */
  datatype Error =
    | AlreadyExists(value: string, column: string)
    | NoSuchCompany(companyId: int)
    | NoSuchCustomer(customerId: int)
    | NoSuchCoupon(couponId: int)
    | FieldNotMutable(field: string)
    | InvalidCredentials
    | AlreadyPurchased
    | OutOfStock
    | DateExpired

  datatype Result<T> = Ok(value: T) | Err(error: Error)

  datatype Option<T> = None | Some(value: T)

  /**
   * A facade's `login`: whether it succeeded, and the key the facade keeps as
   * its session (the `getID` answer, -1 when no row matches).
   */
  datatype SessionLogin = SessionLogin(ok: bool, id: int)

  /** The empty database as created by the schema: every counter starts at 1. */
  const EmptyDb: Db := Db(map[], map[], map[], {}, 1, 1, 1)

  /** Milliseconds in a day. */
  const Day: int := 86_400_000

  /** The midnight that starts the day holding instant `t` (times in UTC). */
  function Midnight(t: int): (m: int)
    ensures m <= t < m + Day
    ensures m % Day == 0
  {
    t - t % Day
  }

  /** Both dates of a coupon row are midnights, as a DATE column holds them. */
  predicate DatesAtMidnight(d: CouponData) {
    d.startDate % Day == 0 && d.endDate % Day == 0
  }

  /**
   * A coupon row as the store keeps it: the two DATE columns drop the time
   * of day, every other column is written unchanged.
   */
  function AsStored(d: CouponData): (s: CouponData)
    ensures DatesAtMidnight(s)
    ensures d.startDate - Day < s.startDate <= d.startDate && d.endDate - Day < s.endDate <= d.endDate
    ensures s.(startDate := d.startDate, endDate := d.endDate) == d
    ensures DatesAtMidnight(d) ==> s == d
  {
    d.(startDate := Midnight(d.startDate), endDate := Midnight(d.endDate))
  }

  /**
   * The auto-increment discipline: generated keys start at 1 and every stored
   * key is below its table's counter, so the counter is a fresh key. Stored
   * coupon dates are midnights, since the columns are DATEs.
   */
  predicate Valid(db: Db) {
    && db.nextCompanyId >= 1
    && db.nextCustomerId >= 1
    && db.nextCouponId >= 1
    && (forall k :: k in db.companies ==> 1 <= k < db.nextCompanyId)
    && (forall k :: k in db.customers ==> 1 <= k < db.nextCustomerId)
    && (forall k :: k in db.coupons ==> 1 <= k < db.nextCouponId)
    && (forall k :: k in db.coupons ==> DatesAtMidnight(db.coupons[k]))
  }

  /** No purchase or coupon row points at a missing parent row. */
  predicate RefIntegrity(db: Db) {
    && (forall p :: p in db.purchases ==> p.customerId in db.customers && p.couponId in db.coupons)
    && (forall k :: k in db.coupons ==> db.coupons[k].companyId in db.companies)
  }

  predicate CompanyNamesUnique(db: Db) {
    forall a, b :: a in db.companies && b in db.companies && db.companies[a].name == db.companies[b].name ==> a == b
  }

  predicate CompanyEmailsUnique(db: Db) {
    forall a, b :: a in db.companies && b in db.companies && db.companies[a].email == db.companies[b].email ==> a == b
  }

  predicate CustomerEmailsUnique(db: Db) {
    forall a, b :: a in db.customers && b in db.customers && db.customers[a].email == db.customers[b].email ==> a == b
  }

  /** A title is unique among the coupons of one company (not globally). */
  predicate TitlesUniquePerCompany(db: Db) {
    forall a, b ::
      a in db.coupons && b in db.coupons
      && db.coupons[a].companyId == db.coupons[b].companyId
      && db.coupons[a].title == db.coupons[b].title
      ==> a == b
  }

  predicate StockNonNegative(db: Db) {
    forall k :: k in db.coupons ==> db.coupons[k].amount >= 0
  }

  /** `java.sql.Date.before`: the stored end date lies strictly before now. */
  predicate Expired(endDate: int, now: int) {
    endDate < now
  }

  /**
   * Cascade-deletes a set of coupons: their purchase rows, then the coupons.
   * Every coupon deletion of the system (company facade, admin cascade,
   * expiration job) ends in this state.
   */
  function WithoutCoupons(db: Db, ks: set<int>): (r: Db)
    ensures r.coupons.Keys == db.coupons.Keys - ks
    ensures forall k :: k in r.coupons ==> r.coupons[k] == db.coupons[k]
    ensures forall p :: p in r.purchases <==> p in db.purchases && p.couponId !in ks
    ensures r.companies == db.companies && r.customers == db.customers
    ensures Valid(db) ==> Valid(r)
  {
    db.(coupons := db.coupons - ks,
        purchases := set p | p in db.purchases && p.couponId !in ks)
  }

  /** Removing coupon sets one after another is removing their union. */
  lemma WithoutCouponsCompose(db: Db, a: set<int>, b: set<int>)
    ensures WithoutCoupons(WithoutCoupons(db, a), b) == WithoutCoupons(db, a + b)
  {
    var lhs := WithoutCoupons(WithoutCoupons(db, a), b);
    var rhs := WithoutCoupons(db, a + b);
    assert lhs.coupons == rhs.coupons;
    assert lhs.purchases == rhs.purchases;
  }

  /** A coupon cascade never leaves a dangling reference behind. */
  lemma WithoutCouponsKeepsIntegrity(db: Db, ks: set<int>)
    requires RefIntegrity(db)
    ensures RefIntegrity(WithoutCoupons(db, ks))
  {
  }

  /** A set other than the empty set has a member; `y` is one. */
  lemma NonEmptyHasMember<T>(s: set<T>) returns (y: T)
    requires s != {}
    ensures y in s
  {
    if forall x :: x !in s {
      assert false;
    }
    y :| y in s;
  }

  /** Every nonempty finite set of integers has a least element. */
  lemma {:induction false} SmallestExists(s: set<int>)
    requires s != {}
    ensures exists m :: m in s && forall k :: k in s ==> m <= k
  {
    var x := NonEmptyHasMember(s);
    var rest := s - {x};
    assert s == rest + {x};
    if rest == {} {
      forall k | k in s
        ensures x <= k
      {
        assert k in rest + {x};
      }
    } else {
      SmallestExists(rest);
      var m :| m in rest && forall k :: k in rest ==> m <= k;
      var least := if x < m then x else m;
      forall k | k in s
        ensures least <= k
      {
        assert k in rest + {x};
      }
      assert least in s;
    }
  }

  /**
   * The key a single-row `SELECT id ... WHERE ...` answers with. SQL leaves the
   * row order open; the model answers with the smallest matching key.
   */
  function SmallestOf(s: set<int>): (m: int)
    requires s != {}
    ensures m in s
    ensures forall k :: k in s ==> m <= k
  {
    SmallestExists(s);
    var m :| m in s && forall k :: k in s ==> m <= k;
    m
  }
}
