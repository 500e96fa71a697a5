/*
 * The company repository (CompaniesDBDAO) over the companies table. Reads that
 * assemble a company's coupon list use the coupon repository's scoped read.
 */
module CompaniesDao {
  import opened Entities
  import CouponsDao

  /** The keys of the companies whose email and password both match. */
  function CompanyIdsWith(db: Db, email: string, password: string): (ids: set<int>)
    ensures forall k :: k in ids <==> k in db.companies && db.companies[k].email == email && db.companies[k].password == password
  {
    set k | k in db.companies && db.companies[k].email == email && db.companies[k].password == password
  }

  /** `isCompanyExists`: some company has exactly this email and password. */
  function IsCompanyExists(db: Db, email: string, password: string): (r: bool)
    ensures r <==> exists k :: k in db.companies && db.companies[k].email == email
                               && db.companies[k].password == password
  {
    var ids := CompanyIdsWith(db, email, password);
    if ids == {} then
      assert forall k :: k in db.companies && db.companies[k].email == email && db.companies[k].password == password ==> k in ids;
      false
    else
      assert exists k :: k in ids by {
        var w := NonEmptyHasMember(ids);
      }
      true
  }

  /** `addCompany`: inserts name, email and password under a fresh key. */
  function AddCompany(db: Db, data: CompanyData): (r: Inserted)
    ensures Valid(db) ==> r.id !in db.companies && r.id >= 1 && Valid(r.db)
    ensures r.db.companies.Keys == db.companies.Keys + {r.id}
    ensures r.db.companies[r.id] == data
    ensures forall k :: k in db.companies && k != r.id ==> r.db.companies[k] == db.companies[k]
    ensures r.db.customers == db.customers && r.db.coupons == db.coupons
    ensures r.db.purchases == db.purchases
  {
    var id := db.nextCompanyId;
    Inserted(db.(companies := db.companies[id := data], nextCompanyId := id + 1), id)
  }

  /** `updateCompany`: overwrites name, email and password of the row with that key. */
  function UpdateCompany(db: Db, c: Company): (r: Db)
    ensures c.id in db.companies ==> r.companies.Keys == db.companies.Keys && r.companies[c.id] == c.data
    ensures c.id !in db.companies ==> r == db
    ensures forall k :: k in db.companies && k != c.id ==> r.companies[k] == db.companies[k]
    ensures r.customers == db.customers && r.coupons == db.coupons && r.purchases == db.purchases
    ensures Valid(db) ==> Valid(r)
  {
    if c.id in db.companies then db.(companies := db.companies[c.id := c.data]) else db
  }

  /**
   * `deleteCompany`: removes the company row and nothing else; the cascade
   * over its coupons and their purchases is the facade's job.
   */
  function DeleteCompany(db: Db, companyId: int): (r: Db)
    ensures r.companies.Keys == db.companies.Keys - {companyId}
    ensures forall k :: k in r.companies ==> r.companies[k] == db.companies[k]
    ensures r.customers == db.customers && r.coupons == db.coupons && r.purchases == db.purchases
    ensures Valid(db) ==> Valid(r)
  {
    db.(companies := db.companies - {companyId})
  }

  /** A stored company together with the coupons whose company_id is its key. */
  function ViewOf(db: Db, companyId: int): (v: CompanyView)
    requires companyId in db.companies
    ensures v.id == companyId && v.data == db.companies[companyId]
    ensures forall k :: k in v.coupons <==> k in db.coupons && db.coupons[k].companyId == companyId
    ensures forall k :: k in v.coupons ==> v.coupons[k] == db.coupons[k]
  {
    CompanyView(companyId, db.companies[companyId], CouponsDao.CompanyCoupons(db, companyId))
  }

  /** `getAllCompanies`: every company, each with its coupons. */
  function GetAllCompanies(db: Db): (r: map<int, CompanyView>)
    ensures r.Keys == db.companies.Keys
    ensures forall k :: k in r ==> r[k] == ViewOf(db, k)
  {
    map k | k in db.companies :: ViewOf(db, k)
  }

  /**
   * `getOneCompany`: null when no row has that key; otherwise the row with
   * exactly the coupons whose company_id is that key.
   */
  function GetOneCompany(db: Db, companyId: int): (r: Option<CompanyView>)
    ensures r.None? <==> companyId !in db.companies
    ensures r.Some? ==> r.value.id == companyId && r.value.data == db.companies[companyId]
    ensures r.Some? ==> forall k :: k in r.value.coupons <==> k in db.coupons && db.coupons[k].companyId == companyId
    ensures r.Some? ==> forall k :: k in r.value.coupons ==> r.value.coupons[k] == db.coupons[k]
  {
    if companyId in db.companies then Some(ViewOf(db, companyId)) else None
  }

  /** `getIDByName`: the key of a company with that name, or -1. */
  function GetIdByName(db: Db, name: string): (r: int)
    ensures r != -1 ==> r in db.companies && db.companies[r].name == name
    ensures !NameAlreadyExists(db, name) ==> r == -1
    ensures Valid(db) ==> (r == -1 <==> !NameAlreadyExists(db, name))
  {
    var ids := set k | k in db.companies && db.companies[k].name == name;
    if ids == {} then
      assert forall k :: k in db.companies && db.companies[k].name == name ==> k in ids;
      -1
    else
      SmallestOf(ids)
  }

  /** `nameAlreadyExists`: some company carries that name. */
  function NameAlreadyExists(db: Db, name: string): (r: bool)
    ensures r <==> exists k :: k in db.companies && db.companies[k].name == name
  {
    name in (set k | k in db.companies :: db.companies[k].name)
  }

  /** `emailAlreadyExists` (companies): some company carries that email. */
  function EmailAlreadyExists(db: Db, email: string): (r: bool)
    ensures r <==> exists k :: k in db.companies && db.companies[k].email == email
  {
    email in (set k | k in db.companies :: db.companies[k].email)
  }

  /**
   * `getID`: the key of a company matching both email and password, or -1.
   * Under the auto-increment discipline no key is -1, so the answer is -1
   * exactly when `isCompanyExists` is false.
   */
  function GetId(db: Db, email: string, password: string): (r: int)
    ensures r != -1 ==> r in db.companies && db.companies[r].email == email && db.companies[r].password == password
    ensures !IsCompanyExists(db, email, password) ==> r == -1
    ensures Valid(db) ==> (r == -1 <==> !IsCompanyExists(db, email, password))
  {
    var ids := CompanyIdsWith(db, email, password);
    if ids == {} then -1 else SmallestOf(ids)
  }
}
