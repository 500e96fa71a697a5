/*
 * The coupon repository (CouponsDBDAO): every SQL statement becomes a lookup,
 * filter, insert or overwrite on the coupons table and the purchases join
 * table. Multi-row reads return the selected rows keyed by coupon id.
 */
module CouponsDao {
  import opened Entities

  /* ---------------- category id encoding ---------------- */

  /**
   * The search loop of `findCategoryID` from position `i` on: one plus the
   * first position holding `c`, or 0 when no later position does.
   */
  function CategoryIdFrom(c: Category, i: nat): (r: int)
    requires i <= |Categories|
    ensures r == 0 <==> c !in Categories[i..]
    ensures r != 0 ==> i < r <= |Categories| && Categories[r - 1] == c
    ensures r != 0 ==> c !in Categories[i..r - 1]
    decreases |Categories| - i
  {
    if i == |Categories| then 0
    else if Categories[i] == c then i + 1
    else CategoryIdFrom(c, i + 1)
  }

  /** Every category appears in `values()`. */
  lemma CategoryListed(c: Category)
    ensures c in Categories
  {
    match c
    case Food => assert Categories[0] == c;
    case Electricity => assert Categories[1] == c;
    case Restaurant => assert Categories[2] == c;
    case Vacation => assert Categories[3] == c;
  }

  /** `findCategoryID`: the category's ordinal plus one, as stored in category_id. */
  function FindCategoryId(c: Category): (r: int)
    ensures 1 <= r <= |Categories|
    ensures Categories[r - 1] == c
  {
    CategoryListed(c);
    CategoryIdFrom(c, 0)
  }

  /** `Category.values()[id - 1]`, the decoding every coupon read applies. */
  function CategoryOf(id: int): (c: Category)
    requires 1 <= id <= |Categories|
  {
    Categories[id - 1]
  }

  /** Decoding a stored category id gives the category back. */
  lemma CategoryRoundTrip(c: Category)
    ensures CategoryOf(FindCategoryId(c)) == c
  {
  }

  /** Encoding is onto 1..|Categories| and inverse to decoding. */
  lemma CategoryIdOfDecoded(id: int)
    requires 1 <= id <= |Categories|
    ensures FindCategoryId(CategoryOf(id)) == id
  {
    var c := CategoryOf(id);
    var r := FindCategoryId(c);
    assert c !in Categories[0..r - 1] by {
      assert CategoryIdFrom(c, 0) == r;
    }
    if r < id {
      assert false;
    } else if r > id {
      assert false;
    }
  }

  /** Two categories share an id only if they are the same category. */
  lemma CategoryIdInjective(a: Category, b: Category)
    ensures FindCategoryId(a) == FindCategoryId(b) <==> a == b
  {
  }

  /* ---------------- single-row writes ---------------- */

  /**
   * `addCoupon`: inserts one row under the auto-increment key and hands the
   * key back (the source sets it on the coupon object). The two dates go
   * into DATE columns and keep only their day.
   */
  function AddCoupon(db: Db, data: CouponData): (r: Inserted)
    ensures Valid(db) ==> r.id !in db.coupons && r.id >= 1 && Valid(r.db)
    ensures r.db.coupons.Keys == db.coupons.Keys + {r.id}
    ensures r.db.coupons[r.id] == AsStored(data)
    ensures forall k :: k in db.coupons && k != r.id ==> r.db.coupons[k] == db.coupons[k]
    ensures r.db.companies == db.companies && r.db.customers == db.customers
    ensures r.db.purchases == db.purchases
  {
    var id := db.nextCouponId;
    Inserted(db.(coupons := db.coupons[id := AsStored(data)], nextCouponId := id + 1), id)
  }

  /**
   * `updateCoupon`: overwrites every column, company_id and amount included,
   * of the row whose id is the coupon's, the dates cut to their day; a
   * missing id updates nothing.
   */
  function UpdateCoupon(db: Db, c: Coupon): (r: Db)
    ensures c.id in db.coupons ==> r.coupons.Keys == db.coupons.Keys && r.coupons[c.id] == AsStored(c.data)
    ensures c.id !in db.coupons ==> r == db
    ensures forall k :: k in db.coupons && k != c.id ==> r.coupons[k] == db.coupons[k]
    ensures r.companies == db.companies && r.customers == db.customers && r.purchases == db.purchases
    ensures Valid(db) ==> Valid(r)
  {
    if c.id in db.coupons then db.(coupons := db.coupons[c.id := AsStored(c.data)]) else db
  }

  /** `deleteCoupon`: removes the row only; purchases are left to the caller. */
  function DeleteCoupon(db: Db, id: int): (r: Db)
    ensures r.coupons.Keys == db.coupons.Keys - {id}
    ensures forall k :: k in r.coupons ==> r.coupons[k] == db.coupons[k]
    ensures r.companies == db.companies && r.customers == db.customers && r.purchases == db.purchases
    ensures Valid(db) ==> Valid(r)
  {
    db.(coupons := db.coupons - {id})
  }

  /** `getOneCoupon`: the row with that key, or null. */
  function GetOneCoupon(db: Db, id: int): (r: Option<Coupon>)
    ensures r.None? <==> id !in db.coupons
    ensures r.Some? ==> r.value.id == id && r.value.data == db.coupons[id]
  {
    if id in db.coupons then Some(Coupon(id, db.coupons[id])) else None
  }

  /**
   * `getAllCoupons`: one coupon object per stored row, carrying that row's
   * key; the list order is left open, so the result is a set.
   */
  function GetAllCoupons(db: Db): (r: set<Coupon>)
    ensures forall c :: c in r <==> c.id in db.coupons && c.data == db.coupons[c.id]
    ensures forall a, b :: a in r && b in r && a.id == b.id ==> a == b
  {
    set k | k in db.coupons :: Coupon(k, db.coupons[k])
  }

  /** `addCouponPurchase`: records that the customer holds the coupon. */
  function AddCouponPurchase(db: Db, customerId: int, couponId: int): (r: Db)
    ensures forall p :: p in r.purchases <==> p in db.purchases || p == Purchase(customerId, couponId)
    ensures r.companies == db.companies && r.customers == db.customers && r.coupons == db.coupons
    ensures Valid(db) ==> Valid(r)
  {
    db.(purchases := db.purchases + {Purchase(customerId, couponId)})
  }

  /** `deleteCouponPurchase`: removes the one pair. */
  function DeleteCouponPurchase(db: Db, customerId: int, couponId: int): (r: Db)
    ensures forall p :: p in r.purchases <==> p in db.purchases && p != Purchase(customerId, couponId)
    ensures r.companies == db.companies && r.customers == db.customers && r.coupons == db.coupons
    ensures Valid(db) ==> Valid(r)
  {
    db.(purchases := db.purchases - {Purchase(customerId, couponId)})
  }

  /** Deleting a pair that was just added, and was not there before, restores the store. */
  lemma PurchaseRoundTrip(db: Db, customerId: int, couponId: int)
    requires Purchase(customerId, couponId) !in db.purchases
    ensures DeleteCouponPurchase(AddCouponPurchase(db, customerId, couponId), customerId, couponId) == db
  {
    var back := DeleteCouponPurchase(AddCouponPurchase(db, customerId, couponId), customerId, couponId);
    assert back.purchases == db.purchases;
  }

  /* ---------------- multi-row deletes ---------------- */

  /** `deletePurchaseByCouponID`: removes exactly the pairs naming that coupon. */
  function DeletePurchasesByCoupon(db: Db, couponId: int): (r: Db)
    ensures forall p :: p in r.purchases <==> p in db.purchases && p.couponId != couponId
    ensures r.companies == db.companies && r.customers == db.customers && r.coupons == db.coupons
    ensures Valid(db) ==> Valid(r)
  {
    db.(purchases := set p | p in db.purchases && p.couponId != couponId)
  }

  /** `deletePurchaseByCustomerID`: removes exactly the pairs naming that customer. */
  function DeletePurchasesByCustomer(db: Db, customerId: int): (r: Db)
    ensures forall p :: p in r.purchases <==> p in db.purchases && p.customerId != customerId
    ensures r.companies == db.companies && r.customers == db.customers && r.coupons == db.coupons
    ensures Valid(db) ==> Valid(r)
  {
    db.(purchases := set p | p in db.purchases && p.customerId != customerId)
  }

  /** `deleteCouponsByCompanyID`: removes exactly the coupons the company owns. */
  function DeleteCouponsByCompany(db: Db, companyId: int): (r: Db)
    ensures forall k :: k in r.coupons <==> k in db.coupons && db.coupons[k].companyId != companyId
    ensures forall k :: k in r.coupons ==> r.coupons[k] == db.coupons[k]
    ensures r.companies == db.companies && r.customers == db.customers && r.purchases == db.purchases
    ensures Valid(db) ==> Valid(r)
  {
    db.(coupons := map k | k in db.coupons && db.coupons[k].companyId != companyId :: db.coupons[k])
  }

  /* ---------------- existence checks ---------------- */

  /** `stillInStock`: the stored amount is positive; a missing coupon is not in stock. */
  function StillInStock(db: Db, couponId: int): (r: bool)
    ensures r <==> couponId in db.coupons && db.coupons[couponId].amount > 0
  {
    match GetOneCoupon(db, couponId)
    case Some(c) => c.data.amount > 0
    case None => false
  }

  /** The titles a company already uses. */
  function TitlesOf(db: Db, companyId: int): set<string> {
    set k | k in db.coupons && db.coupons[k].companyId == companyId :: db.coupons[k].title
  }

  /**
   * `titleInCompanyExists`: some stored coupon has both the title and the
   * company id of the given coupon; the same title elsewhere does not count.
   */
  function TitleInCompanyExists(db: Db, data: CouponData): (r: bool)
    ensures r <==> exists k :: k in db.coupons && db.coupons[k].title == data.title
                               && db.coupons[k].companyId == data.companyId
  {
    data.title in TitlesOf(db, data.companyId)
  }

  /**
   * `dateExpired`: reads the STORED end date of the coupon's id, ignoring the
   * end date carried by the argument; a missing coupon is not expired.
   */
  function DateExpired(db: Db, c: Coupon, now: int): (r: bool)
    ensures r <==> c.id in db.coupons && db.coupons[c.id].endDate < now
  {
    match GetOneCoupon(db, c.id)
    case Some(stored) => Expired(stored.data.endDate, now)
    case None => false
  }

  /* ---------------- scoped reads ---------------- */

  /** `getCompanyCoupons` / `getCompanyCouponsByID`: the rows owned by the company. */
  function CompanyCoupons(db: Db, companyId: int): (r: map<int, CouponData>)
    ensures forall k :: k in r <==> k in db.coupons && db.coupons[k].companyId == companyId
    ensures forall k :: k in r ==> r[k] == db.coupons[k]
  {
    map k | k in db.coupons && db.coupons[k].companyId == companyId :: db.coupons[k]
  }

  /**
   * `getCompanyCouponsByCategory`: the SQL compares stored category ids with
   * `findCategoryID(category)`; the result is the company's coupons of that
   * category.
   */
  function CompanyCouponsByCategory(db: Db, companyId: int, category: Category): (r: map<int, CouponData>)
    ensures forall k :: k in r <==> k in db.coupons && db.coupons[k].companyId == companyId
                                    && db.coupons[k].category == category
    ensures forall k :: k in r ==> r[k] == db.coupons[k]
  {
    map k | k in db.coupons && db.coupons[k].companyId == companyId
                           && FindCategoryId(db.coupons[k].category) == FindCategoryId(category)
          :: db.coupons[k]
  }

  /** `getCompanyCouponsUpToPrice`: the company's coupons priced at most `maxPrice`. */
  function CompanyCouponsUpToPrice(db: Db, companyId: int, maxPrice: int): (r: map<int, CouponData>)
    ensures forall k :: k in r <==> k in db.coupons && db.coupons[k].companyId == companyId
                                    && db.coupons[k].price <= maxPrice
    ensures forall k :: k in r ==> r[k] == db.coupons[k]
  {
    map k | k in CompanyCoupons(db, companyId) && CompanyCoupons(db, companyId)[k].price <= maxPrice
          :: db.coupons[k]
  }

  /**
   * `getCustomerCoupons` / `getCustomerCouponsByID`: the inner join of the
   * customer's purchase pairs with the coupons table, so a pair whose coupon
   * row is gone contributes nothing.
   */
  function CustomerCoupons(db: Db, customerId: int): (r: map<int, CouponData>)
    ensures forall k :: k in r <==> k in db.coupons && Purchase(customerId, k) in db.purchases
    ensures forall k :: k in r ==> r[k] == db.coupons[k]
  {
    map k | k in db.coupons && Purchase(customerId, k) in db.purchases :: db.coupons[k]
  }

  /** `getCustomerCouponsByCategory`. */
  function CustomerCouponsByCategory(db: Db, customerId: int, category: Category): (r: map<int, CouponData>)
    ensures forall k :: k in r <==> k in db.coupons && Purchase(customerId, k) in db.purchases
                                    && db.coupons[k].category == category
    ensures forall k :: k in r ==> r[k] == db.coupons[k]
  {
    map k | k in db.coupons && Purchase(customerId, k) in db.purchases
                           && FindCategoryId(db.coupons[k].category) == FindCategoryId(category)
          :: db.coupons[k]
  }

  /** `getCustomerCouponsUpToPrice`. */
  function CustomerCouponsUpToPrice(db: Db, customerId: int, maxPrice: int): (r: map<int, CouponData>)
    ensures forall k :: k in r <==> k in db.coupons && Purchase(customerId, k) in db.purchases
                                    && db.coupons[k].price <= maxPrice
    ensures forall k :: k in r ==> r[k] == db.coupons[k]
  {
    map k | k in CustomerCoupons(db, customerId) && CustomerCoupons(db, customerId)[k].price <= maxPrice
          :: db.coupons[k]
  }

  /* ---------------- relations between the reads ---------------- */

  /**
   * The category reads partition a company's coupons: every coupon of the
   * company appears in exactly the read for its own category.
   */
  lemma CompanyCategoryReadsPartition(db: Db, companyId: int, k: int)
    requires k in CompanyCoupons(db, companyId)
    ensures forall c: Category :: k in CompanyCouponsByCategory(db, companyId, c) <==> c == db.coupons[k].category
  {
  }

  /** Raising the price bound never drops a coupon from the result. */
  lemma UpToPriceMonotone(db: Db, companyId: int, customerId: int, lo: int, hi: int)
    requires lo <= hi
    ensures CompanyCouponsUpToPrice(db, companyId, lo).Keys <= CompanyCouponsUpToPrice(db, companyId, hi).Keys
    ensures CustomerCouponsUpToPrice(db, customerId, lo).Keys <= CustomerCouponsUpToPrice(db, customerId, hi).Keys
  {
  }
}
