/*
 * The login manager (LoginManger): dispatches on the client type to the
 * matching facade's `login` and hands back that facade, bound to the session
 * key, or refuses with InvalidCredentials.
 */
module LoginManager {
  import opened Entities
  import CompaniesDao
  import CustomersDao
  import AdminFacade
  import CompanyFacade
  import CustomerFacade

  /** The three kinds of client (`ClientType`). */
  datatype ClientType = Administrator | CompanyClient | CustomerClient

  /** The facade handed back, with the key it stores after its `login`. */
  datatype Session = AdminSession | CompanySession(companyId: int) | CustomerSession(customerId: int)

  /** The session kind that belongs to each client type. */
  predicate Serves(s: Session, t: ClientType) {
    match t
    case Administrator => s.AdminSession?
    case CompanyClient => s.CompanySession?
    case CustomerClient => s.CustomerSession?
  }

  /** `login`: every refusal is InvalidCredentials. */
  function Login(db: Db, email: string, password: string, t: ClientType): (r: Result<Session>)
    ensures r.Err? ==> r.error == InvalidCredentials
    ensures r.Ok? ==> Serves(r.value, t)
    ensures t == Administrator ==> (r.Ok? <==> email == "admin@admin.com" && password == "admin")
    ensures r.Ok? && r.value.CompanySession? ==>
              r.value.companyId in db.companies && db.companies[r.value.companyId].email == email
              && db.companies[r.value.companyId].password == password
    ensures r.Ok? && r.value.CustomerSession? ==>
              r.value.customerId in db.customers && db.customers[r.value.customerId].email == email
              && db.customers[r.value.customerId].password == password
    ensures Valid(db) && t == CompanyClient ==> (r.Ok? <==> CompaniesDao.IsCompanyExists(db, email, password))
    ensures Valid(db) && t == CustomerClient ==> (r.Ok? <==> CustomersDao.IsCustomerExists(db, email, password))
  {
    match t
    case Administrator =>
      if AdminFacade.Login(email, password) then Ok(AdminSession) else Err(InvalidCredentials)
    case CompanyClient =>
      var l := CompanyFacade.Login(db, email, password);
      if l.ok then Ok(CompanySession(l.id)) else Err(InvalidCredentials)
    case CustomerClient =>
      var l := CustomerFacade.Login(db, email, password);
      if l.ok then Ok(CustomerSession(l.id)) else Err(InvalidCredentials)
  }

  /**
   * Credentials open at most one session per role: in a store whose company
   * emails are unique, a company login always lands on the same key, and
   * likewise for customers.
   */
  lemma LoginDeterminesAccount(db: Db, email: string, password: string, k: int, t: ClientType)
    requires CompanyEmailsUnique(db) && CustomerEmailsUnique(db)
    requires Login(db, email, password, t).Ok?
    ensures t == CompanyClient && k in db.companies && db.companies[k].email == email
            ==> Login(db, email, password, t) == Ok(CompanySession(k))
    ensures t == CustomerClient && k in db.customers && db.customers[k].email == email
            ==> Login(db, email, password, t) == Ok(CustomerSession(k))
  {
  }

  /**
   * The administrator is no stored row: whether an administrator login
   * succeeds does not depend on the database at all.
   */
  lemma AdminLoginIgnoresStore(db1: Db, db2: Db, email: string, password: string)
    ensures Login(db1, email, password, Administrator) == Login(db2, email, password, Administrator)
  {
  }
}
