/*
 * The company facade (CompanyFacade). The logged-in company's key is the
 * `session` argument of the scoped reads; the coupon writes take the coupon as
 * the caller hands it over, exactly as the facade does.
 */
module CompanyFacade {
  import opened Entities
  import CouponsDao
  import CompaniesDao

  /**
   * `login`: the session is the key `getID` answers with, and the login
   * succeeds exactly when that key is not -1.
   */
  function Login(db: Db, email: string, password: string): (r: SessionLogin)
    ensures r.ok <==> r.id != -1
    ensures r.ok ==> r.id in db.companies && db.companies[r.id].email == email
                     && db.companies[r.id].password == password
    ensures !CompaniesDao.IsCompanyExists(db, email, password) ==> !r.ok
    ensures Valid(db) ==> (r.ok <==> CompaniesDao.IsCompanyExists(db, email, password))
  {
    var id := CompaniesDao.GetId(db, email, password);
    SessionLogin(id != -1, id)
  }

  /**
   * `addCoupon`: refused when the coupon's own company already has a coupon
   * with that title; otherwise one coupon row is added.
   */
  function AddCoupon(db: Db, data: CouponData): (r: Result<Inserted>)
    ensures r.Err? <==> exists k :: k in db.coupons && db.coupons[k].companyId == data.companyId
                                    && db.coupons[k].title == data.title
    ensures r.Err? ==> r.error == AlreadyExists(data.title, "title, for this company")
    ensures r.Ok? ==> r.value.db.coupons.Keys == db.coupons.Keys + {r.value.id}
    ensures r.Ok? ==> r.value.db.coupons[r.value.id] == AsStored(data)
    ensures r.Ok? ==> forall k :: k in db.coupons && k != r.value.id ==> r.value.db.coupons[k] == db.coupons[k]
    ensures r.Ok? ==> r.value.db.companies == db.companies && r.value.db.customers == db.customers
                      && r.value.db.purchases == db.purchases
    ensures r.Ok? && Valid(db) ==> r.value.id !in db.coupons && Valid(r.value.db)
  {
    if CouponsDao.TitleInCompanyExists(db, data) then
      Err(AlreadyExists(data.title, "title, for this company"))
    else
      Ok(CouponsDao.AddCoupon(db, data))
  }

  /**
   * A successful `addCoupon` keeps titles unique within each company, and
   * keeps every reference resolved when the coupon's company exists.
   */
  lemma AddCouponKeepsInvariants(db: Db, data: CouponData)
    requires Valid(db) && AddCoupon(db, data).Ok?
    ensures TitlesUniquePerCompany(db) ==> TitlesUniquePerCompany(AddCoupon(db, data).value.db)
    ensures RefIntegrity(db) && data.companyId in db.companies ==> RefIntegrity(AddCoupon(db, data).value.db)
  {
    var ins := AddCoupon(db, data).value;
    var t := ins.db.coupons;
    if TitlesUniquePerCompany(db) {
      forall a, b | a in t && b in t && t[a].companyId == t[b].companyId && t[a].title == t[b].title
        ensures a == b
      {
        if a != ins.id && b != ins.id {
          assert t[a] == db.coupons[a] && t[b] == db.coupons[b];
        } else if a != b {
          assert false;
        }
      }
    }
  }

  /**
   * `updateCoupon`: a missing key, then a changed company id, are refused;
   * otherwise every other column is overwritten, the title included, with no
   * title check.
   */
  function UpdateCoupon(db: Db, c: Coupon): (r: Result<Db>)
    ensures c.id !in db.coupons ==> r == Err(NoSuchCoupon(c.id))
    ensures c.id in db.coupons && c.data.companyId != db.coupons[c.id].companyId
            ==> r == Err(FieldNotMutable("company_id"))
    ensures r.Ok? <==> c.id in db.coupons && c.data.companyId == db.coupons[c.id].companyId
    ensures r.Ok? ==> r.value.coupons.Keys == db.coupons.Keys && r.value.coupons[c.id] == AsStored(c.data)
    ensures r.Ok? ==> forall k :: k in db.coupons && k != c.id ==> r.value.coupons[k] == db.coupons[k]
    ensures r.Ok? ==> r.value.companies == db.companies && r.value.customers == db.customers
                      && r.value.purchases == db.purchases
    ensures r.Ok? && RefIntegrity(db) ==> RefIntegrity(r.value)
    ensures r.Ok? && Valid(db) ==> Valid(r.value)
  {
    match CouponsDao.GetOneCoupon(db, c.id)
    case None => Err(NoSuchCoupon(c.id))
    case Some(stored) =>
      if c.data.companyId != stored.data.companyId then Err(FieldNotMutable("company_id"))
      else Ok(CouponsDao.UpdateCoupon(db, c))
  }

  /**
   * Since `updateCoupon` checks no title, one company can end up with two
   * coupons of the same title.
   */
  lemma UpdateCouponCanDuplicateTitle()
    ensures var a := CouponData(1, Food, "Pizza", "", 0, 10 * Day, 5, 30, "");
            var b := CouponData(1, Food, "Pasta", "", 0, 10 * Day, 5, 40, "");
            var db := EmptyDb.(companies := map[1 := CompanyData("Dominos", "d@x.com", "p")],
                               coupons := map[1 := a, 2 := b], nextCompanyId := 2, nextCouponId := 3);
            var r := UpdateCoupon(db, Coupon(2, b.(title := "Pizza")));
            Valid(db) && TitlesUniquePerCompany(db) && r.Ok? && !TitlesUniquePerCompany(r.value)
  {
    var a := CouponData(1, Food, "Pizza", "", 0, 10 * Day, 5, 30, "");
    var b := CouponData(1, Food, "Pasta", "", 0, 10 * Day, 5, 40, "");
    assert "Pizza" != "Pasta" by {
      assert "Pizza"[1] != "Pasta"[1];
    }
    var db := EmptyDb.(companies := map[1 := CompanyData("Dominos", "d@x.com", "p")],
                       coupons := map[1 := a, 2 := b], nextCompanyId := 2, nextCouponId := 3);
    var r := UpdateCoupon(db, Coupon(2, b.(title := "Pizza")));
    assert r.value.coupons[1].title == r.value.coupons[2].title;
  }

  /**
   * `deleteCoupon`: the existence check, then the coupon's purchases, then
   * the coupon.
   */
  function DeleteCoupon(db: Db, couponId: int): (r: Result<Db>)
    ensures r.Err? <==> couponId !in db.coupons
    ensures r.Err? ==> r.error == NoSuchCoupon(couponId)
    ensures r.Ok? ==> r.value.coupons.Keys == db.coupons.Keys - {couponId}
    ensures r.Ok? ==> forall k :: k in r.value.coupons ==> r.value.coupons[k] == db.coupons[k]
    ensures r.Ok? ==> forall p :: p in r.value.purchases <==> p in db.purchases && p.couponId != couponId
    ensures r.Ok? ==> r.value.companies == db.companies && r.value.customers == db.customers
    ensures r.Ok? && RefIntegrity(db) ==> RefIntegrity(r.value)
    ensures r.Ok? && TitlesUniquePerCompany(db) ==> TitlesUniquePerCompany(r.value)
    ensures r.Ok? && Valid(db) ==> Valid(r.value)
  {
    match CouponsDao.GetOneCoupon(db, couponId)
    case None => Err(NoSuchCoupon(couponId))
    case Some(_) =>
      var withoutPurchases := CouponsDao.DeletePurchasesByCoupon(db, couponId);
      Ok(CouponsDao.DeleteCoupon(withoutPurchases, couponId))
  }

  /** The facade's coupon deletion is the shared one-coupon cascade. */
  lemma DeleteCouponIsCascade(db: Db, couponId: int)
    requires couponId in db.coupons
    ensures DeleteCoupon(db, couponId) == Ok(WithoutCoupons(db, {couponId}))
  {
    var lhs := DeleteCoupon(db, couponId).value;
    var rhs := WithoutCoupons(db, {couponId});
    assert lhs.coupons == rhs.coupons;
    assert lhs.purchases == rhs.purchases;
  }

  /* ---------------- session-scoped reads ---------------- */

  /** `getCompanyCoupons()`: the coupons of the logged-in company, and no other. */
  function GetCompanyCoupons(db: Db, session: int): (r: map<int, CouponData>)
    ensures forall k :: k in r ==> k in db.coupons && r[k] == db.coupons[k] && r[k].companyId == session
    ensures forall k :: k in db.coupons && db.coupons[k].companyId == session ==> k in r
  {
    CouponsDao.CompanyCoupons(db, session)
  }

  /** `getCompanyCoupons(category)`: the logged-in company's coupons of that category. */
  function GetCompanyCouponsByCategory(db: Db, session: int, category: Category): (r: map<int, CouponData>)
    ensures forall k :: k in r ==> (k in db.coupons && r[k] == db.coupons[k]
                                    && r[k].companyId == session && r[k].category == category)
    ensures forall k :: k in db.coupons && db.coupons[k].companyId == session && db.coupons[k].category == category
                        ==> k in r
  {
    CouponsDao.CompanyCouponsByCategory(db, session, category)
  }

  /** `getCompanyCoupons(maxPrice)`: the logged-in company's coupons priced at most `maxPrice`. */
  function GetCompanyCouponsUpToPrice(db: Db, session: int, maxPrice: int): (r: map<int, CouponData>)
    ensures forall k :: k in r ==> (k in db.coupons && r[k] == db.coupons[k]
                                    && r[k].companyId == session && r[k].price <= maxPrice)
    ensures forall k :: k in db.coupons && db.coupons[k].companyId == session && db.coupons[k].price <= maxPrice
                        ==> k in r
  {
    CouponsDao.CompanyCouponsUpToPrice(db, session, maxPrice)
  }

  /** The filtered reads are sub-maps of the unfiltered read. */
  lemma FilteredReadsRefineAll(db: Db, session: int, category: Category, maxPrice: int)
    ensures GetCompanyCouponsByCategory(db, session, category).Items <= GetCompanyCoupons(db, session).Items
    ensures GetCompanyCouponsUpToPrice(db, session, maxPrice).Items <= GetCompanyCoupons(db, session).Items
  {
    var all := GetCompanyCoupons(db, session);
    var byCat := GetCompanyCouponsByCategory(db, session, category);
    var byPrice := GetCompanyCouponsUpToPrice(db, session, maxPrice);
    forall it | it in byCat.Items
      ensures it in all.Items
    {
      assert it.0 in byCat && byCat[it.0] == it.1;
    }
    forall it | it in byPrice.Items
      ensures it in all.Items
    {
      assert it.0 in byPrice && byPrice[it.0] == it.1;
    }
  }

  /** `getCompanyDetails`: the logged-in company with its coupons; null when the row is gone. */
  function GetCompanyDetails(db: Db, session: int): (r: Option<CompanyView>)
    ensures r.None? <==> session !in db.companies
    ensures r.Some? ==> r.value.id == session && r.value.data == db.companies[session]
    ensures r.Some? ==> r.value.coupons == GetCompanyCoupons(db, session)
  {
    CompaniesDao.GetOneCompany(db, session)
  }
}
