/*
 * The administrator facade (AdminFacade): company and customer management with
 * uniqueness checks, immutability checks and children-before-parents cascades.
 * A thrown exception is an `Err` result; the caller then keeps its old state,
 * so "nothing changes on error" holds by construction.
 */
module AdminFacade {
  import opened Entities
  import CouponsDao
  import CompaniesDao
  import CustomersDao

  /**
   * `login`: the administrator is no stored row; the credential is one fixed
   * pair, whose email and password are both non-empty and differ.
   */
  function Login(email: string, password: string): (r: bool)
    ensures r ==> email != "" && password != "" && email != password
  {
    email == "admin@admin.com" && password == "admin"
  }

  /* ---------------- companies ---------------- */

  /**
   * `addCompany`: a taken name is reported before a taken email; otherwise
   * exactly one company row is added.
   */
  function AddCompany(db: Db, data: CompanyData): (r: Result<Inserted>)
    ensures CompaniesDao.NameAlreadyExists(db, data.name) ==> r == Err(AlreadyExists(data.name, "name"))
    ensures !CompaniesDao.NameAlreadyExists(db, data.name) && CompaniesDao.EmailAlreadyExists(db, data.email)
            ==> r == Err(AlreadyExists(data.email, "email"))
    ensures r.Ok? <==> !CompaniesDao.NameAlreadyExists(db, data.name) && !CompaniesDao.EmailAlreadyExists(db, data.email)
    ensures r.Ok? ==> r.value.db.companies.Keys == db.companies.Keys + {r.value.id}
    ensures r.Ok? ==> r.value.db.companies[r.value.id] == data
    ensures r.Ok? ==> forall k :: k in db.companies && k != r.value.id ==> r.value.db.companies[k] == db.companies[k]
    ensures r.Ok? ==> r.value.db.customers == db.customers && r.value.db.coupons == db.coupons
                      && r.value.db.purchases == db.purchases
    ensures r.Ok? && Valid(db) ==> r.value.id !in db.companies && Valid(r.value.db)
  {
    if CompaniesDao.NameAlreadyExists(db, data.name) then
      Err(AlreadyExists(data.name, "name"))
    else if CompaniesDao.EmailAlreadyExists(db, data.email) then
      Err(AlreadyExists(data.email, "email"))
    else
      Ok(CompaniesDao.AddCompany(db, data))
  }

  /** A successful `addCompany` keeps company names and emails unique. */
  lemma AddCompanyKeepsUniqueness(db: Db, data: CompanyData)
    requires Valid(db) && CompanyNamesUnique(db) && CompanyEmailsUnique(db)
    requires AddCompany(db, data).Ok?
    ensures CompanyNamesUnique(AddCompany(db, data).value.db)
    ensures CompanyEmailsUnique(AddCompany(db, data).value.db)
  {
    var ins := AddCompany(db, data).value;
    var t := ins.db.companies;
    forall a, b | a in t && b in t && t[a].name == t[b].name
      ensures a == b
    {
      if a != ins.id && b != ins.id {
        assert t[a] == db.companies[a] && t[b] == db.companies[b];
      } else if a != b {
        assert false;
      }
    }
    forall a, b | a in t && b in t && t[a].email == t[b].email
      ensures a == b
    {
      if a != ins.id && b != ins.id {
        assert t[a] == db.companies[a] && t[b] == db.companies[b];
      } else if a != b {
        assert false;
      }
    }
  }

  /**
   * `updateCompany`: a missing key, then a changed name, then a changed email
   * are refused in that order; on success only the password can change.
   */
  function UpdateCompany(db: Db, c: Company): (r: Result<Db>)
    ensures c.id !in db.companies ==> r == Err(NoSuchCompany(c.id))
    ensures c.id in db.companies && c.data.name != db.companies[c.id].name
            ==> r == Err(FieldNotMutable("company name"))
    ensures c.id in db.companies && c.data.name == db.companies[c.id].name && c.data.email != db.companies[c.id].email
            ==> r == Err(FieldNotMutable("company email"))
    ensures r.Ok? <==> c.id in db.companies && c.data.name == db.companies[c.id].name
                       && c.data.email == db.companies[c.id].email
    ensures r.Ok? ==> r.value.companies.Keys == db.companies.Keys
    ensures r.Ok? ==> r.value.companies[c.id] == db.companies[c.id].(password := c.data.password)
    ensures r.Ok? ==> forall k :: k in db.companies && k != c.id ==> r.value.companies[k] == db.companies[k]
    ensures r.Ok? ==> r.value.customers == db.customers && r.value.coupons == db.coupons
                      && r.value.purchases == db.purchases
    ensures r.Ok? && CompanyNamesUnique(db) ==> CompanyNamesUnique(r.value)
    ensures r.Ok? && CompanyEmailsUnique(db) ==> CompanyEmailsUnique(r.value)
    ensures r.Ok? && RefIntegrity(db) ==> RefIntegrity(r.value)
    ensures r.Ok? && Valid(db) ==> Valid(r.value)
  {
    match CompaniesDao.GetOneCompany(db, c.id)
    case None => Err(NoSuchCompany(c.id))
    case Some(stored) =>
      if c.data.name != stored.data.name then Err(FieldNotMutable("company name"))
      else if c.data.email != stored.data.email then Err(FieldNotMutable("company email"))
      else Ok(CompaniesDao.UpdateCompany(db, c))
  }

  /**
   * `deleteCompany`: after the existence check, deletes the purchases of each
   * of the company's coupons (one statement per coupon, in list order), then
   * the coupons, then the company row.
   */
  method DeleteCompany(db: Db, companyId: int) returns (r: Result<Db>)
    ensures r.Err? <==> companyId !in db.companies
    ensures r.Err? ==> r.error == NoSuchCompany(companyId)
    ensures r.Ok? ==> r.value.companies.Keys == db.companies.Keys - {companyId}
    ensures r.Ok? ==> forall k :: k in r.value.companies ==> r.value.companies[k] == db.companies[k]
    ensures r.Ok? ==> forall k :: k in r.value.coupons <==> k in db.coupons && db.coupons[k].companyId != companyId
    ensures r.Ok? ==> forall k :: k in r.value.coupons ==> r.value.coupons[k] == db.coupons[k]
    ensures r.Ok? ==> forall p :: p in r.value.purchases <==>
                        p in db.purchases && !(p.couponId in db.coupons && db.coupons[p.couponId].companyId == companyId)
    ensures r.Ok? ==> r.value.customers == db.customers
    ensures r.Ok? && RefIntegrity(db) ==> RefIntegrity(r.value)
    ensures r.Ok? && Valid(db) ==> Valid(r.value)
  {
    if CompaniesDao.GetOneCompany(db, companyId).None? {
      return Err(NoSuchCompany(companyId));
    }
    var owned := CouponsDao.CompanyCoupons(db, companyId).Keys;
    var cur := db;
    var todo := owned;
    while todo != {}
      invariant todo <= owned
      invariant cur.companies == db.companies && cur.customers == db.customers && cur.coupons == db.coupons
      invariant cur.nextCompanyId == db.nextCompanyId && cur.nextCustomerId == db.nextCustomerId
      invariant cur.nextCouponId == db.nextCouponId
      invariant forall p :: p in cur.purchases <==> p in db.purchases && p.couponId !in owned - todo
      decreases todo
    {
      ghost var w := NonEmptyHasMember(todo);
      var k :| k in todo;
      cur := CouponsDao.DeletePurchasesByCoupon(cur, k);
      todo := todo - {k};
    }
    cur := CouponsDao.DeleteCouponsByCompany(cur, companyId);
    cur := CompaniesDao.DeleteCompany(cur, companyId);
    return Ok(cur);
  }

  /** `getOneCompany`: the stored company with its coupons, or NoSuchCompany. */
  function GetOneCompany(db: Db, companyId: int): (r: Result<CompanyView>)
    ensures r.Err? <==> companyId !in db.companies
    ensures r.Err? ==> r.error == NoSuchCompany(companyId)
    ensures r.Ok? ==> r.value.id == companyId && r.value.data == db.companies[companyId]
    ensures r.Ok? ==> r.value.coupons == CouponsDao.CompanyCoupons(db, companyId)
  {
    match CompaniesDao.GetOneCompany(db, companyId)
    case None => Err(NoSuchCompany(companyId))
    case Some(v) => Ok(v)
  }

  /* ---------------- customers ---------------- */

  /** `addCustomer`: a taken email is refused; otherwise one customer row is added. */
  function AddCustomer(db: Db, data: CustomerData): (r: Result<Inserted>)
    ensures r.Err? <==> CustomersDao.EmailAlreadyExists(db, data.email)
    ensures r.Err? ==> r.error == AlreadyExists(data.email, "email")
    ensures r.Ok? ==> r.value.db.customers.Keys == db.customers.Keys + {r.value.id}
    ensures r.Ok? ==> r.value.db.customers[r.value.id] == data
    ensures r.Ok? ==> forall k :: k in db.customers && k != r.value.id ==> r.value.db.customers[k] == db.customers[k]
    ensures r.Ok? ==> r.value.db.companies == db.companies && r.value.db.coupons == db.coupons
                      && r.value.db.purchases == db.purchases
    ensures r.Ok? && Valid(db) ==> r.value.id !in db.customers && Valid(r.value.db)
  {
    if CustomersDao.EmailAlreadyExists(db, data.email) then
      Err(AlreadyExists(data.email, "email"))
    else
      Ok(CustomersDao.AddCustomer(db, data))
  }

  /** A successful `addCustomer` keeps customer emails unique. */
  lemma AddCustomerKeepsUniqueness(db: Db, data: CustomerData)
    requires Valid(db) && CustomerEmailsUnique(db)
    requires AddCustomer(db, data).Ok?
    ensures CustomerEmailsUnique(AddCustomer(db, data).value.db)
  {
    var ins := AddCustomer(db, data).value;
    var t := ins.db.customers;
    forall a, b | a in t && b in t && t[a].email == t[b].email
      ensures a == b
    {
      if a != ins.id && b != ins.id {
        assert t[a] == db.customers[a] && t[b] == db.customers[b];
      } else if a != b {
        assert false;
      }
    }
  }

  /**
   * `updateCustomer`: only the existence check; every column of the row is
   * overwritten, the email included, with no uniqueness check.
   */
  function UpdateCustomer(db: Db, c: Customer): (r: Result<Db>)
    ensures r.Err? <==> c.id !in db.customers
    ensures r.Err? ==> r.error == NoSuchCustomer(c.id)
    ensures r.Ok? ==> r.value.customers.Keys == db.customers.Keys && r.value.customers[c.id] == c.data
    ensures r.Ok? ==> forall k :: k in db.customers && k != c.id ==> r.value.customers[k] == db.customers[k]
    ensures r.Ok? ==> r.value.companies == db.companies && r.value.coupons == db.coupons
                      && r.value.purchases == db.purchases
    ensures r.Ok? && RefIntegrity(db) ==> RefIntegrity(r.value)
  {
    match CustomersDao.GetOneCustomer(db, c.id)
    case None => Err(NoSuchCustomer(c.id))
    case Some(_) => Ok(CustomersDao.UpdateCustomer(db, c))
  }

  /**
   * Since `updateCustomer` checks no email, two customers can end up sharing
   * one: the update below succeeds on a database whose emails are unique and
   * leaves them duplicated.
   */
  lemma UpdateCustomerCanDuplicateEmail()
    ensures var db := EmptyDb.(customers := map[1 := CustomerData("Bill", "Black", "b@x.com", "p"),
                                                 2 := CustomerData("Bruce", "Willis", "w@x.com", "q")],
                               nextCustomerId := 3);
            var r := UpdateCustomer(db, Customer(2, CustomerData("Bruce", "Willis", "b@x.com", "q")));
            Valid(db) && CustomerEmailsUnique(db) && r.Ok? && !CustomerEmailsUnique(r.value)
  {
    var db := EmptyDb.(customers := map[1 := CustomerData("Bill", "Black", "b@x.com", "p"),
                                        2 := CustomerData("Bruce", "Willis", "w@x.com", "q")],
                       nextCustomerId := 3);
    assert "b@x.com" != "w@x.com" by {
      assert "b@x.com"[0] != "w@x.com"[0];
    }
    var r := UpdateCustomer(db, Customer(2, CustomerData("Bruce", "Willis", "b@x.com", "q")));
    assert r.value.customers[1].email == r.value.customers[2].email;
  }

  /**
   * `deleteCustomer`: deletes the customer's purchases, then the customer;
   * every coupon stays.
   */
  function DeleteCustomer(db: Db, customerId: int): (r: Result<Db>)
    ensures r.Err? <==> customerId !in db.customers
    ensures r.Err? ==> r.error == NoSuchCustomer(customerId)
    ensures r.Ok? ==> r.value.customers.Keys == db.customers.Keys - {customerId}
    ensures r.Ok? ==> forall k :: k in r.value.customers ==> r.value.customers[k] == db.customers[k]
    ensures r.Ok? ==> forall p :: p in r.value.purchases <==> p in db.purchases && p.customerId != customerId
    ensures r.Ok? ==> r.value.companies == db.companies && r.value.coupons == db.coupons
    ensures r.Ok? && RefIntegrity(db) ==> RefIntegrity(r.value)
    ensures r.Ok? && CustomerEmailsUnique(db) ==> CustomerEmailsUnique(r.value)
    ensures r.Ok? && Valid(db) ==> Valid(r.value)
  {
    match CustomersDao.GetOneCustomer(db, customerId)
    case None => Err(NoSuchCustomer(customerId))
    case Some(_) =>
      var withoutPurchases := CouponsDao.DeletePurchasesByCustomer(db, customerId);
      Ok(CustomersDao.DeleteCustomer(withoutPurchases, customerId))
  }

  /** `getOneCustomer`: the stored customer with its purchased coupons, or NoSuchCustomer. */
  function GetOneCustomer(db: Db, customerId: int): (r: Result<CustomerView>)
    ensures r.Err? <==> customerId !in db.customers
    ensures r.Err? ==> r.error == NoSuchCustomer(customerId)
    ensures r.Ok? ==> r.value.id == customerId && r.value.data == db.customers[customerId]
    ensures r.Ok? ==> r.value.coupons == CouponsDao.CustomerCoupons(db, customerId)
  {
    match CustomersDao.GetOneCustomer(db, customerId)
    case None => Err(NoSuchCustomer(customerId))
    case Some(v) => Ok(v)
  }
}
