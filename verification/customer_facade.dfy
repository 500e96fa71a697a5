/*
 * The customer facade (CustomerFacade). The logged-in customer's key is the
 * `session` argument; `now` stands for the clock the expiry check reads.
 */
module CustomerFacade {
  import opened Entities
  import CouponsDao
  import CustomersDao

  /**
   * `login`: the session is the key `getID` answers with, and the login
   * succeeds exactly when that key is not -1.
   */
  function Login(db: Db, email: string, password: string): (r: SessionLogin)
    ensures r.ok <==> r.id != -1
    ensures r.ok ==> r.id in db.customers && db.customers[r.id].email == email
                     && db.customers[r.id].password == password
    ensures !CustomersDao.IsCustomerExists(db, email, password) ==> !r.ok
    ensures Valid(db) ==> (r.ok <==> CustomersDao.IsCustomerExists(db, email, password))
  {
    var id := CustomersDao.GetId(db, email, password);
    SessionLogin(id != -1, id)
  }

  /**
   * The three refusals of `purchaseCoupon`, in the order they are checked:
   * a repeat purchase, an exhausted (or missing) coupon, an expired coupon.
   * All three read the stored row of the coupon's key.
   */
  function PurchaseRefusal(db: Db, session: int, c: Coupon, now: int): (e: Option<Error>)
    ensures Purchase(session, c.id) in db.purchases ==> e == Some(AlreadyPurchased)
    ensures Purchase(session, c.id) !in db.purchases && !(c.id in db.coupons && db.coupons[c.id].amount > 0)
            ==> e == Some(OutOfStock)
    ensures (Purchase(session, c.id) !in db.purchases && c.id in db.coupons && db.coupons[c.id].amount > 0
             && db.coupons[c.id].endDate < now) ==> e == Some(DateExpired)
    ensures e.None? <==> Purchase(session, c.id) !in db.purchases && c.id in db.coupons
                         && db.coupons[c.id].amount > 0 && !Expired(db.coupons[c.id].endDate, now)
  {
    if CustomersDao.AlreadyPurchased(db, session, c.id) then Some(AlreadyPurchased)
    else if !CouponsDao.StillInStock(db, c.id) then Some(OutOfStock)
    else if CouponsDao.DateExpired(db, c, now) then Some(DateExpired)
    else None
  }

  /**
   * `purchaseCoupon` as written: after the checks it records the purchase,
   * lowers the amount of the CALLER's coupon object by one, and writes that
   * object back, so every column of the stored row, company id included,
   * takes the caller's value. The caller keeps the lowered object (`copy`).
   */
  function PurchaseCouponAsWritten(db: Db, session: int, c: Coupon, now: int): (r: Result<Purchased>)
    ensures r.Err? <==> PurchaseRefusal(db, session, c, now).Some?
    ensures r.Err? ==> r.error == PurchaseRefusal(db, session, c, now).value
    ensures r.Ok? ==> r.value.copy == Coupon(c.id, c.data.(amount := c.data.amount - 1))
    ensures r.Ok? ==> forall p :: p in r.value.db.purchases <==> p in db.purchases || p == Purchase(session, c.id)
    ensures r.Ok? ==> r.value.db.coupons.Keys == db.coupons.Keys
    ensures r.Ok? ==> r.value.db.coupons[c.id] == AsStored(r.value.copy.data)
    ensures r.Ok? && c.data == db.coupons[c.id] ==> 0 <= r.value.db.coupons[c.id].amount == db.coupons[c.id].amount - 1
    ensures r.Ok? ==> forall k :: k in db.coupons && k != c.id ==> r.value.db.coupons[k] == db.coupons[k]
    ensures r.Ok? ==> r.value.db.companies == db.companies && r.value.db.customers == db.customers
  {
    match PurchaseRefusal(db, session, c, now)
    case Some(e) => Err(e)
    case None =>
      var recorded := CouponsDao.AddCouponPurchase(db, session, c.id);
      var copy := Coupon(c.id, c.data.(amount := c.data.amount - 1));
      Ok(Purchased(CouponsDao.UpdateCoupon(recorded, copy), copy))
  }

  /**
   * The write-back takes its columns from the caller's copy, not from the
   * table: a copy claiming 10 left raises a stored stock of 1 to 9, a copy
   * claiming 0 left drives a stored stock of 5 to -1, and a copy naming
   * company 7 moves the coupon to company 7.
   */
  lemma PurchaseAsWrittenCorruptsStock()
    ensures var stored := CouponData(1, Food, "Pizza", "", 0, 10 * Day, 1, 30, "");
            var db := EmptyDb.(coupons := map[1 := stored], nextCouponId := 2);
            var r := PurchaseCouponAsWritten(db, 1, Coupon(1, stored.(amount := 10)), 5);
            Valid(db) && StockNonNegative(db) && r.Ok? && r.value.db.coupons[1].amount == 9
    ensures var stored := CouponData(1, Food, "Pizza", "", 0, 10 * Day, 5, 30, "");
            var db := EmptyDb.(coupons := map[1 := stored], nextCouponId := 2);
            var r := PurchaseCouponAsWritten(db, 1, Coupon(1, stored.(amount := 0)), 5);
            Valid(db) && StockNonNegative(db) && r.Ok? && !StockNonNegative(r.value.db)
    ensures var stored := CouponData(1, Food, "Pizza", "", 0, 10 * Day, 5, 30, "");
            var db := EmptyDb.(coupons := map[1 := stored], nextCouponId := 2);
            var r := PurchaseCouponAsWritten(db, 1, Coupon(1, stored.(companyId := 7)), 5);
            Valid(db) && r.Ok? && r.value.db.coupons[1].companyId == 7
  {
    var s1 := CouponData(1, Food, "Pizza", "", 0, 10 * Day, 1, 30, "");
    var db1 := EmptyDb.(coupons := map[1 := s1], nextCouponId := 2);
    assert PurchaseRefusal(db1, 1, Coupon(1, s1.(amount := 10)), 5).None?;
    var s2 := CouponData(1, Food, "Pizza", "", 0, 10 * Day, 5, 30, "");
    var db2 := EmptyDb.(coupons := map[1 := s2], nextCouponId := 2);
    assert PurchaseRefusal(db2, 1, Coupon(1, s2.(amount := 0)), 5).None?;
    var r2 := PurchaseCouponAsWritten(db2, 1, Coupon(1, s2.(amount := 0)), 5);
    assert r2.value.db.coupons[1].amount == -1;
    assert PurchaseRefusal(db2, 1, Coupon(1, s2.(companyId := 7)), 5).None?;
  }

  /**
   * `purchaseCoupon` with the evidently intended write: the same checks, the
   * purchase row, and the STORED coupon with only its amount lowered by one.
   */
  function PurchaseCoupon(db: Db, session: int, c: Coupon, now: int): (r: Result<Db>)
    ensures r.Err? <==> PurchaseRefusal(db, session, c, now).Some?
    ensures r.Err? ==> r.error == PurchaseRefusal(db, session, c, now).value
    ensures r.Ok? ==> forall p :: p in r.value.purchases <==> p in db.purchases || p == Purchase(session, c.id)
    ensures r.Ok? ==> r.value.coupons.Keys == db.coupons.Keys
    ensures r.Ok? ==> r.value.coupons[c.id] == db.coupons[c.id].(amount := db.coupons[c.id].amount - 1)
    ensures r.Ok? ==> r.value.coupons[c.id].amount >= 0
    ensures r.Ok? ==> forall k :: k in db.coupons && k != c.id ==> r.value.coupons[k] == db.coupons[k]
    ensures r.Ok? ==> r.value.companies == db.companies && r.value.customers == db.customers
  {
    match PurchaseRefusal(db, session, c, now)
    case Some(e) => Err(e)
    case None =>
      var stored := db.coupons[c.id];
      var recorded := CouponsDao.AddCouponPurchase(db, session, c.id);
      Ok(recorded.(coupons := recorded.coupons[c.id := stored.(amount := stored.amount - 1)]))
  }

  /**
   * A successful purchase keeps every invariant of the store: stock never
   * negative, titles unique per company, references resolved when the buyer
   * exists, and the key counters.
   */
  lemma PurchaseCouponKeepsInvariants(db: Db, session: int, c: Coupon, now: int)
    requires PurchaseCoupon(db, session, c, now).Ok?
    ensures StockNonNegative(db) ==> StockNonNegative(PurchaseCoupon(db, session, c, now).value)
    ensures TitlesUniquePerCompany(db) ==> TitlesUniquePerCompany(PurchaseCoupon(db, session, c, now).value)
    ensures RefIntegrity(db) && session in db.customers ==> RefIntegrity(PurchaseCoupon(db, session, c, now).value)
    ensures Valid(db) ==> Valid(PurchaseCoupon(db, session, c, now).value)
  {
    var r := PurchaseCoupon(db, session, c, now).value;
    if TitlesUniquePerCompany(db) {
      forall a, b | a in r.coupons && b in r.coupons && r.coupons[a].companyId == r.coupons[b].companyId
                    && r.coupons[a].title == r.coupons[b].title
        ensures a == b
      {
        assert r.coupons[a].companyId == db.coupons[a].companyId && r.coupons[a].title == db.coupons[a].title;
        assert r.coupons[b].companyId == db.coupons[b].companyId && r.coupons[b].title == db.coupons[b].title;
      }
    }
  }

  /**
   * When the caller's copy is the stored row, the code as written does the
   * intended thing, and the caller's lowered object equals the new row.
   */
  lemma PurchaseAgreesOnFreshCopy(db: Db, session: int, c: Coupon, now: int)
    requires Valid(db) && c.id in db.coupons && c.data == db.coupons[c.id]
    ensures var w := PurchaseCouponAsWritten(db, session, c, now);
            var f := PurchaseCoupon(db, session, c, now);
            && (w.Ok? <==> f.Ok?)
            && (w.Err? ==> w.error == f.error)
            && (w.Ok? ==> w.value.db == f.value && w.value.copy.data == f.value.coupons[c.id])
  {
    var w := PurchaseCouponAsWritten(db, session, c, now);
    if w.Ok? {
      var f := PurchaseCoupon(db, session, c, now);
      assert w.value.db.coupons == f.value.coupons;
    }
  }

  /**
   * The caller's object stays in step with the row: a second customer who
   * buys with the object the first purchase left behind lowers the stored
   * stock by one more.
   */
  lemma CopyStaysInStep(db: Db, first: int, second: int, c: Coupon, now: int)
    requires Valid(db) && c.id in db.coupons && c.data == db.coupons[c.id]
    requires PurchaseCouponAsWritten(db, first, c, now).Ok?
    ensures var p := PurchaseCouponAsWritten(db, first, c, now).value;
            var q := PurchaseCouponAsWritten(p.db, second, p.copy, now);
            q.Ok? ==> q.value.db.coupons[c.id].amount == db.coupons[c.id].amount - 2
  {
  }

  /**
   * With the corrected purchase, a coupon once bought cannot be bought again
   * by the same customer, whatever object with that key is handed in.
   */
  lemma NoRepeatPurchase(db: Db, session: int, c: Coupon, c2: Coupon, now: int, later: int)
    requires PurchaseCoupon(db, session, c, now).Ok? && c2.id == c.id
    ensures PurchaseCoupon(PurchaseCoupon(db, session, c, now).value, session, c2, later) == Err(AlreadyPurchased)
  {
    var r := PurchaseCoupon(db, session, c, now).value;
    assert Purchase(session, c.id) in r.purchases;
  }

  /**
   * The same holds for the code as written: after a successful purchase, any
   * object with that key is refused as AlreadyPurchased.
   */
  lemma NoRepeatPurchaseAsWritten(db: Db, session: int, c: Coupon, c2: Coupon, now: int, later: int)
    requires PurchaseCouponAsWritten(db, session, c, now).Ok? && c2.id == c.id
    ensures PurchaseCouponAsWritten(PurchaseCouponAsWritten(db, session, c, now).value.db, session, c2, later)
            == Err(AlreadyPurchased)
  {
    var r := PurchaseCouponAsWritten(db, session, c, now).value.db;
    assert Purchase(session, c.id) in r.purchases;
  }

  /* ---------------- session-scoped reads ---------------- */

  /** `getCustomerCoupons()`: the coupons the logged-in customer bought that still exist. */
  function GetCustomerCoupons(db: Db, session: int): (r: map<int, CouponData>)
    ensures forall k :: k in r ==> (k in db.coupons && r[k] == db.coupons[k] && Purchase(session, k) in db.purchases)
    ensures forall p :: p in db.purchases && p.customerId == session && p.couponId in db.coupons ==> p.couponId in r
  {
    CouponsDao.CustomerCoupons(db, session)
  }

  /** `getCustomerCoupons(category)`: the logged-in customer's coupons of that category. */
  function GetCustomerCouponsByCategory(db: Db, session: int, category: Category): (r: map<int, CouponData>)
    ensures forall k :: k in r ==> (k in db.coupons && r[k] == db.coupons[k] && Purchase(session, k) in db.purchases
                                    && r[k].category == category)
    ensures forall p :: (p in db.purchases && p.customerId == session && p.couponId in db.coupons
                         && db.coupons[p.couponId].category == category) ==> p.couponId in r
  {
    CouponsDao.CustomerCouponsByCategory(db, session, category)
  }

  /** `getCustomerCoupons(maxPrice)`: the logged-in customer's coupons priced at most `maxPrice`. */
  function GetCustomerCouponsUpToPrice(db: Db, session: int, maxPrice: int): (r: map<int, CouponData>)
    ensures forall k :: k in r ==> (k in db.coupons && r[k] == db.coupons[k] && Purchase(session, k) in db.purchases
                                    && r[k].price <= maxPrice)
    ensures forall p :: (p in db.purchases && p.customerId == session && p.couponId in db.coupons
                         && db.coupons[p.couponId].price <= maxPrice) ==> p.couponId in r
  {
    CouponsDao.CustomerCouponsUpToPrice(db, session, maxPrice)
  }

  /** A successful corrected purchase adds the coupon to the buyer's read, where it was absent. */
  lemma PurchaseShowsInCustomerCoupons(db: Db, session: int, c: Coupon, now: int)
    requires PurchaseCoupon(db, session, c, now).Ok?
    ensures var r := PurchaseCoupon(db, session, c, now).value;
            c.id in GetCustomerCoupons(r, session) && c.id !in GetCustomerCoupons(db, session)
  {
    var r := PurchaseCoupon(db, session, c, now).value;
    assert Purchase(session, c.id) in r.purchases;
  }

  /**
   * A successful purchase as written also adds the coupon to the buyer's
   * read, where it was absent, and the read shows the row as written back.
   */
  lemma PurchaseAsWrittenShowsInCustomerCoupons(db: Db, session: int, c: Coupon, now: int)
    requires PurchaseCouponAsWritten(db, session, c, now).Ok?
    ensures var r := PurchaseCouponAsWritten(db, session, c, now).value;
            && c.id in GetCustomerCoupons(r.db, session) && c.id !in GetCustomerCoupons(db, session)
            && GetCustomerCoupons(r.db, session)[c.id] == AsStored(r.copy.data)
  {
    var r := PurchaseCouponAsWritten(db, session, c, now).value;
    assert Purchase(session, c.id) in r.db.purchases;
  }

  /** `getCustomerDetails`: the logged-in customer with its coupons; null when the row is gone. */
  function GetCustomerDetails(db: Db, session: int): (r: Option<CustomerView>)
    ensures r.None? <==> session !in db.customers
    ensures r.Some? ==> r.value.id == session && r.value.data == db.customers[session]
    ensures r.Some? ==> r.value.coupons == GetCustomerCoupons(db, session)
  {
    CustomersDao.GetOneCustomer(db, session)
  }
}
