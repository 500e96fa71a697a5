# Coupon marketplace: business rules over an abstract database

A Dafny model of the business layer of a coupon marketplace. Companies publish
discount coupons, customers buy them, and an administrator manages both kinds
of account.

The relational store becomes one immutable value, `Entities.Db`, with four tables:

- companies: key ↦ name, email, password
- customers: key ↦ first name, last name, email, password
- coupons: key ↦ owner company, category, title, description, start and end date, amount, price, image
- purchases: a set of (customer, coupon) pairs

Each table has its own auto-increment counter. `Entities.Valid` states the
auto-increment discipline: every key lies in `1 .. counter-1`. So the counter
is always a fresh key, and -1 is never a key. It also says that stored dates
are midnights. The other invariants are:

- `RefIntegrity`: no purchase or coupon points at a missing row.
- Unique company names, unique company emails, unique customer emails.
- Titles unique within one company.
- Stock never negative.

Every repository method (`CouponsDBDAO`, `CompaniesDBDAO`, `CustomerDBDAO`) is a
pure function on `Db`. Each facade operation (`AdminFacade`, `CompanyFacade`,
`CustomerFacade`) returns `Err(kind)` or `Ok(new state)`. On an error the
caller keeps its old state, so "nothing changes when a check fails" holds by
construction. `LoginManager.Login` dispatches on the client type and returns
a session or `InvalidCredentials`. It returns no database, so a login never
changes the store.

One cycle of the daily expiration job is `ExpirationJob.RunCycle`: a loop
over the coupon list, proved equal to the reference state
`ExpirationJob.Swept`.

Dates and the clock share one integer timeline, in milliseconds, and "now" is
a parameter. The start and end columns are DATEs, so `CouponsDao.AddCoupon`
and `CouponsDao.UpdateCoupon` keep only the day of the dates they are given
(`Entities.AsStored`), and `Entities.Valid` also says that every stored date
is a midnight. A coupon is expired when its stored end date lies strictly
before now. So a coupon counts as expired from the first instant after its
end date's midnight, which is during the whole of its last day.

Modules follow the source: `Entities`, `CouponsDao`, `CompaniesDao`,
`CustomersDao`, `AdminFacade`, `CompanyFacade`, `CustomerFacade`,
`LoginManager`, `ExpirationJob`.

`purchaseCoupon` writes back the caller's copy of the coupon, with its amount
lowered by one, rather than lowering the stored amount (see Findings).

`updateCustomer` and `updateCoupon` check no uniqueness, unlike the add
operations. The model keeps them as written and shows the duplicate on a
concrete database:

- `updateCustomer` checks no email (`AdminFacade.UpdateCustomerCanDuplicateEmail`).
- `updateCoupon` checks no title (`CompanyFacade.UpdateCouponCanDuplicateTitle`).

The table schema, and any unique keys it declares, is not part of this model.

## Model

| member | source | states |
|---|---|---|
| `Entities.WithoutCoupons` | couponsFinalProjectJB/src/BL/CompanyFacade.java:107-108 | the cascade for a set of coupons removes exactly those coupon rows and exactly the purchases that name them; companies, customers and the remaining coupons are untouched |
| `Entities.WithoutCouponsCompose` | couponsFinalProjectJB/src/CleanupThread/CouponExpirationDailyJob.java:36-41 | cascading one set of coupons after another equals cascading their union, so deletion order does not matter |
| `Entities.WithoutCouponsKeepsIntegrity` | couponsFinalProjectJB/src/BL/CompanyFacade.java:107-108 | deleting purchases before their coupons never leaves a dangling reference |
| `CouponsDao.CategoryIdFrom` | couponsFinalProjectJB/src/DAOs/CouponsDBDAO.java:59-63 | the search loop from position i finds the first later position holding the category, or 0 exactly when there is none |
| `CouponsDao.FindCategoryId` | couponsFinalProjectJB/src/DAOs/CouponsDBDAO.java:58-64 | the stored id of a category lies in 1..4 and indexes that category in `values()` |
| `CouponsDao.CategoryRoundTrip` | couponsFinalProjectJB/src/DAOs/CouponsDBDAO.java:138 | decoding `values()[id-1]` of an encoded category gives the category back |
| `CouponsDao.CategoryIdOfDecoded` | couponsFinalProjectJB/src/DAOs/CouponsDBDAO.java:176 | every id in 1..4 decodes to a category that encodes back to that id |
| `CouponsDao.CategoryIdInjective` | couponsFinalProjectJB/src/DAOs/CouponsDBDAO.java:458-487 | two categories share an id exactly when they are equal, so the id comparison in the category reads is a category comparison |
| `Entities.AsStored` | couponsFinalProjectJB/src/DAOs/CouponsDBDAO.java:36-37 | a row written to the store keeps only the day of its start and end dates, each cut to the midnight at or before it, and every other column as given; a row whose dates are midnights is stored unchanged |
| `CouponsDao.AddCoupon` | couponsFinalProjectJB/src/DAOs/CouponsDBDAO.java:23-50 | inserts one row, its dates cut to their day, under a key that was not in use, returns that key, leaves other rows and tables unchanged |
| `CouponsDao.UpdateCoupon` | couponsFinalProjectJB/src/DAOs/CouponsDBDAO.java:73-97 | overwrites every column of the row with that key, owner and amount included, the dates cut to their day; other rows unchanged; a missing key changes nothing |
| `CouponsDao.DeleteCoupon` | couponsFinalProjectJB/src/DAOs/CouponsDBDAO.java:106-117 | removes exactly that coupon row and leaves purchases alone |
| `CouponsDao.GetAllCoupons` | couponsFinalProjectJB/src/DAOs/CouponsDBDAO.java:126-153 | one coupon object per stored row, carrying that row's key and columns, and no two with the same key |
| `CouponsDao.GetOneCoupon` | couponsFinalProjectJB/src/DAOs/CouponsDBDAO.java:163-191 | null exactly when no row has that key; otherwise the stored row |
| `CouponsDao.AddCouponPurchase` | couponsFinalProjectJB/src/DAOs/CouponsDBDAO.java:203-215 | the purchases grow by exactly the given pair |
| `CouponsDao.DeleteCouponPurchase` | couponsFinalProjectJB/src/DAOs/CouponsDBDAO.java:227-239 | the purchases lose exactly the given pair |
| `CouponsDao.PurchaseRoundTrip` | couponsFinalProjectJB/src/DAOs/CouponsDBDAO.java:227-239 | deleting a pair just added, that was not stored before, gives back the original store |
| `CouponsDao.DeletePurchasesByCoupon` | couponsFinalProjectJB/src/DAOs/CouponsDBDAO.java:249-260 | removes exactly the purchases of that coupon; all other pairs remain |
| `CouponsDao.DeletePurchasesByCustomer` | couponsFinalProjectJB/src/DAOs/CouponsDBDAO.java:270-281 | removes exactly the purchases of that customer; all other pairs remain |
| `CouponsDao.DeleteCouponsByCompany` | couponsFinalProjectJB/src/DAOs/CouponsDBDAO.java:291-302 | removes exactly the coupons owned by that company; the rest keep their contents |
| `CouponsDao.StillInStock` | couponsFinalProjectJB/src/DAOs/CouponsDBDAO.java:315-332 | true exactly when a row with that key exists and its stored amount is positive |
| `CouponsDao.TitleInCompanyExists` | couponsFinalProjectJB/src/DAOs/CouponsDBDAO.java:343-359 | true exactly when a stored coupon has both the title and the owner of the given coupon; the same title under another company does not count |
| `CouponsDao.DateExpired` | couponsFinalProjectJB/src/DAOs/CouponsDBDAO.java:371-391 | true exactly when a row with the coupon's key exists and its stored end date is before now; the passed coupon's own end date plays no part |
| `CouponsDao.CompanyCoupons` | couponsFinalProjectJB/src/DAOs/CouponsDBDAO.java:404-426 | exactly the stored coupons owned by the company, with their stored contents |
| `CouponsDao.CompanyCouponsByCategory` | couponsFinalProjectJB/src/DAOs/CouponsDBDAO.java:458-487 | exactly the company's coupons of that category |
| `CouponsDao.CompanyCouponsUpToPrice` | couponsFinalProjectJB/src/DAOs/CouponsDBDAO.java:500-530 | exactly the company's coupons priced at most the bound |
| `CouponsDao.CustomerCoupons` | couponsFinalProjectJB/src/DAOs/CouponsDBDAO.java:542-567 | exactly the stored coupons the customer holds a purchase of; a pair whose coupon row is gone contributes nothing |
| `CouponsDao.CustomerCouponsByCategory` | couponsFinalProjectJB/src/DAOs/CouponsDBDAO.java:598-629 | exactly the customer's purchased coupons of that category |
| `CouponsDao.CustomerCouponsUpToPrice` | couponsFinalProjectJB/src/DAOs/CouponsDBDAO.java:641-673 | exactly the customer's purchased coupons priced at most the bound |
| `CouponsDao.CompanyCategoryReadsPartition` | couponsFinalProjectJB/src/DAOs/CouponsDBDAO.java:437-487 | each coupon of a company appears in the category read of its own category and of no other |
| `CouponsDao.UpToPriceMonotone` | couponsFinalProjectJB/src/DAOs/CouponsDBDAO.java:500-673 | raising the price bound never drops a coupon from either price read |
| `CompaniesDao.IsCompanyExists` | couponsFinalProjectJB/src/DAOs/CompaniesDBDAO.java:26-40 | true exactly when some company has both that email and that password |
| `CompaniesDao.AddCompany` | couponsFinalProjectJB/src/DAOs/CompaniesDBDAO.java:48-66 | stores name, email and password as given under a fresh key; other rows and tables unchanged |
| `CompaniesDao.UpdateCompany` | couponsFinalProjectJB/src/DAOs/CompaniesDBDAO.java:74-90 | overwrites the three columns of the row with that key; a missing key changes nothing |
| `CompaniesDao.DeleteCompany` | couponsFinalProjectJB/src/DAOs/CompaniesDBDAO.java:98-109 | removes only the company row; coupons and purchases are not touched |
| `CompaniesDao.ViewOf` | couponsFinalProjectJB/src/DAOs/CompaniesDBDAO.java:158-166 | a company read back carries exactly the coupons it owns |
| `CompaniesDao.GetAllCompanies` | couponsFinalProjectJB/src/DAOs/CompaniesDBDAO.java:116-139 | one entry per stored company, each with its owned coupons |
| `CompaniesDao.GetOneCompany` | couponsFinalProjectJB/src/DAOs/CompaniesDBDAO.java:147-171 | null exactly when no row has that key; otherwise the row and exactly the coupons owned by it |
| `CompaniesDao.GetIdByName` | couponsFinalProjectJB/src/DAOs/CompaniesDBDAO.java:179-194 | a key whose company has that name, or -1; under the key discipline -1 exactly when no company has that name |
| `CompaniesDao.NameAlreadyExists` | couponsFinalProjectJB/src/DAOs/CompaniesDBDAO.java:202-217 | true exactly when some company has that name |
| `CompaniesDao.EmailAlreadyExists` | couponsFinalProjectJB/src/DAOs/CompaniesDBDAO.java:225-240 | true exactly when some company has that email |
| `CompaniesDao.GetId` | couponsFinalProjectJB/src/DAOs/CompaniesDBDAO.java:253-270 | a key whose company matches both email and password, or -1; -1 exactly when `isCompanyExists` is false (under the key discipline) |
| `CustomersDao.IsCustomerExists` | couponsFinalProjectJB/src/DAOs/CustomerDBDAO.java:18-33 | true exactly when some customer has both that email and that password |
| `CustomersDao.AddCustomer` | couponsFinalProjectJB/src/DAOs/CustomerDBDAO.java:36-55 | stores the four columns as given under a fresh key; other rows and tables unchanged |
| `CustomersDao.UpdateCustomer` | couponsFinalProjectJB/src/DAOs/CustomerDBDAO.java:58-75 | overwrites first name, last name, email and password of that row and nothing else; a missing key changes nothing |
| `CustomersDao.DeleteCustomer` | couponsFinalProjectJB/src/DAOs/CustomerDBDAO.java:78-89 | removes only the customer row; purchases are not touched |
| `CustomersDao.ViewOf` | couponsFinalProjectJB/src/DAOs/CustomerDBDAO.java:132-141 | a customer read back carries exactly the stored coupons it has purchased |
| `CustomersDao.GetAllCustomers` | couponsFinalProjectJB/src/DAOs/CustomerDBDAO.java:92-116 | one entry per stored customer, each with its purchased coupons |
| `CustomersDao.GetOneCustomer` | couponsFinalProjectJB/src/DAOs/CustomerDBDAO.java:119-144 | null exactly when no row has that key; otherwise the row and exactly the coupons k with a purchase (key, k) |
| `CustomersDao.GetIdByEmail` | couponsFinalProjectJB/src/DAOs/CustomerDBDAO.java:146-163 | a key whose customer has that email, or -1; under the key discipline -1 exactly when no customer has it |
| `CustomersDao.EmailAlreadyExists` | couponsFinalProjectJB/src/DAOs/CustomerDBDAO.java:165-178 | true exactly when some customer has that email |
| `CustomersDao.AlreadyPurchased` | couponsFinalProjectJB/src/DAOs/CustomerDBDAO.java:180-194 | true exactly when the pair is in the purchases table |
| `CustomersDao.GetId` | couponsFinalProjectJB/src/DAOs/CustomerDBDAO.java:196-213 | a key whose customer matches both email and password, or -1; -1 exactly when `isCustomerExists` is false (under the key discipline) |
| `AdminFacade.Login` | couponsFinalProjectJB/src/BL/AdminFacade.java:27-29 | an accepted credential has a non-empty email and a non-empty password, and the two differ |
| `AdminFacade.AddCompany` | couponsFinalProjectJB/src/BL/AdminFacade.java:43-51 | a taken name gives AlreadyExists(name, "name") before a taken email gives AlreadyExists(email, "email"); success exactly when both are free, and then one new company under a fresh key |
| `AdminFacade.AddCompanyKeepsUniqueness` | couponsFinalProjectJB/src/BL/AdminFacade.java:44-49 | a successful add keeps company names and emails unique |
| `AdminFacade.UpdateCompany` | couponsFinalProjectJB/src/BL/AdminFacade.java:66-76 | NoSuchCompany, then FieldNotMutable("company name"), then FieldNotMutable("company email"); on success only the password can change, and every invariant is kept |
| `AdminFacade.DeleteCompany` | couponsFinalProjectJB/src/BL/AdminFacade.java:90-102 | NoSuchCompany exactly when the key is absent; otherwise the company, exactly its coupons, and exactly the purchases of those coupons are gone, everything else is kept, and references stay resolved |
| `AdminFacade.GetOneCompany` | couponsFinalProjectJB/src/BL/AdminFacade.java:127-133 | NoSuchCompany exactly when the key is absent; otherwise the stored company with its coupons |
| `AdminFacade.AddCustomer` | couponsFinalProjectJB/src/BL/AdminFacade.java:146-151 | AlreadyExists(email, "email") exactly when the email is taken; otherwise one new customer under a fresh key |
| `AdminFacade.AddCustomerKeepsUniqueness` | couponsFinalProjectJB/src/BL/AdminFacade.java:146-151 | a successful add keeps customer emails unique |
| `AdminFacade.UpdateCustomer` | couponsFinalProjectJB/src/BL/AdminFacade.java:164-170 | NoSuchCustomer exactly when the key is absent; otherwise that row takes the given columns, email included, and references stay resolved |
| `AdminFacade.UpdateCustomerCanDuplicateEmail` | couponsFinalProjectJB/src/BL/AdminFacade.java:164-170 | a concrete update that succeeds on a store with unique customer emails and leaves two customers sharing one |
| `AdminFacade.DeleteCustomer` | couponsFinalProjectJB/src/BL/AdminFacade.java:184-192 | NoSuchCustomer exactly when the key is absent; otherwise the customer and exactly its purchases are gone, all coupons stay, invariants are kept |
| `AdminFacade.GetOneCustomer` | couponsFinalProjectJB/src/BL/AdminFacade.java:217-223 | NoSuchCustomer exactly when the key is absent; otherwise the stored customer with its coupons |
| `CompanyFacade.Login` | couponsFinalProjectJB/src/BL/CompanyFacade.java:41-47 | the session is the `getID` key; the login fails exactly when that key is -1, which under the key discipline is exactly when no company matches |
| `CompanyFacade.AddCoupon` | couponsFinalProjectJB/src/BL/CompanyFacade.java:60-65 | AlreadyExists(title, "title, for this company") exactly when the coupon's own company has that title; otherwise one new coupon, its dates cut to their day, under a fresh key |
| `CompanyFacade.AddCouponKeepsInvariants` | couponsFinalProjectJB/src/BL/CompanyFacade.java:60-65 | a successful add keeps titles unique per company, and references resolved when the owner exists |
| `CompanyFacade.UpdateCoupon` | couponsFinalProjectJB/src/BL/CompanyFacade.java:80-88 | NoSuchCoupon, then FieldNotMutable("company_id"); on success the owner is unchanged, the other columns take the given values with the dates cut to their day, and references stay resolved |
| `CompanyFacade.UpdateCouponCanDuplicateTitle` | couponsFinalProjectJB/src/BL/CompanyFacade.java:80-88 | a concrete update that succeeds and leaves one company with two coupons of the same title |
| `CompanyFacade.DeleteCoupon` | couponsFinalProjectJB/src/BL/CompanyFacade.java:102-110 | NoSuchCoupon exactly when the key is absent; otherwise that coupon and exactly its purchases are gone, and references, titles and keys stay sound |
| `CompanyFacade.DeleteCouponIsCascade` | couponsFinalProjectJB/src/BL/CompanyFacade.java:106-109 | a facade coupon deletion ends in the same state as the shared one-coupon cascade |
| `CompanyFacade.GetCompanyCoupons` | couponsFinalProjectJB/src/BL/CompanyFacade.java:120-122 | only the logged-in company's coupons, and all of them |
| `CompanyFacade.GetCompanyCouponsByCategory` | couponsFinalProjectJB/src/BL/CompanyFacade.java:134-136 | only and all of the logged-in company's coupons of that category |
| `CompanyFacade.GetCompanyCouponsUpToPrice` | couponsFinalProjectJB/src/BL/CompanyFacade.java:148-150 | only and all of the logged-in company's coupons priced at most the bound |
| `CompanyFacade.FilteredReadsRefineAll` | couponsFinalProjectJB/src/BL/CompanyFacade.java:120-150 | the category and price reads are sub-maps of the unfiltered read |
| `CompanyFacade.GetCompanyDetails` | couponsFinalProjectJB/src/BL/CompanyFacade.java:160-162 | the logged-in company with exactly its coupons; null once its row is gone |
| `CustomerFacade.Login` | couponsFinalProjectJB/src/BL/CustomerFacade.java:38-44 | the session is the `getID` key; the login fails exactly when that key is -1, which under the key discipline is exactly when no customer matches |
| `CustomerFacade.PurchaseRefusal` | couponsFinalProjectJB/src/BL/CustomerFacade.java:63-68 | AlreadyPurchased before OutOfStock (a missing coupon included) before DateExpired; no refusal exactly when the pair is new, the stored stock is positive and the stored end date is not before now |
| `CustomerFacade.PurchaseCouponAsWritten` | couponsFinalProjectJB/src/BL/CustomerFacade.java:62-74 | on a refusal the state is kept; on success exactly the pair is added, the caller's object is left with its amount one lower, and the stored row becomes that object, owner included, with its dates cut to their day; when the object was the stored row, the new amount is the stored amount minus one, never negative |
| `CustomerFacade.PurchaseAsWrittenCorruptsStock` | couponsFinalProjectJB/src/BL/CustomerFacade.java:70-72 | three concrete purchases: one raises the stored stock from 1 to 9, one drives it from 5 to -1, and one whose copy names company 7 moves coupon 1 to company 7 |
| `CustomerFacade.PurchaseCoupon` | couponsFinalProjectJB/src/BL/CustomerFacade.java:62-74 | the same refusals; on success exactly the pair is added and only the stored amount changes, to the stored amount minus one, which is never negative |
| `CustomerFacade.PurchaseCouponKeepsInvariants` | couponsFinalProjectJB/src/BL/CustomerFacade.java:70-72 | the corrected purchase, when it succeeds, keeps stock non-negative, titles unique per company, the keys in range, and references resolved when the buyer exists |
| `CustomerFacade.PurchaseAgreesOnFreshCopy` | couponsFinalProjectJB/src/BL/CustomerFacade.java:70-72 | when the caller hands in the stored row, the code as written and the corrected purchase refuse alike or reach the same store, and the caller's lowered object equals the new row |
| `CustomerFacade.CopyStaysInStep` | couponsFinalProjectJB/src/BL/CustomerFacade.java:71-72 | a second purchase made with the object the first one lowered takes the stored stock down by two in all |
| `CustomerFacade.NoRepeatPurchase` | couponsFinalProjectJB/src/BL/CustomerFacade.java:63-64 | with the corrected purchase, buying the same coupon again, with any object of that key and at any later time, fails with AlreadyPurchased |
| `CustomerFacade.NoRepeatPurchaseAsWritten` | couponsFinalProjectJB/src/BL/CustomerFacade.java:63-64 | with the purchase as written, buying the same coupon again, with any object of that key and at any later time, fails with AlreadyPurchased |
| `CustomerFacade.GetCustomerCoupons` | couponsFinalProjectJB/src/BL/CustomerFacade.java:84-86 | only and all of the stored coupons the logged-in customer has purchased |
| `CustomerFacade.GetCustomerCouponsByCategory` | couponsFinalProjectJB/src/BL/CustomerFacade.java:98-100 | only and all of the logged-in customer's purchased coupons of that category |
| `CustomerFacade.GetCustomerCouponsUpToPrice` | couponsFinalProjectJB/src/BL/CustomerFacade.java:112-114 | only and all of the logged-in customer's purchased coupons priced at most the bound |
| `CustomerFacade.PurchaseShowsInCustomerCoupons` | couponsFinalProjectJB/src/BL/CustomerFacade.java:70-86 | a successful corrected purchase adds the coupon to the buyer's read, where it was absent before |
| `CustomerFacade.PurchaseAsWrittenShowsInCustomerCoupons` | couponsFinalProjectJB/src/BL/CustomerFacade.java:70-86 | a successful purchase as written adds the coupon to the buyer's read, where it was absent before, and the read shows the row as written back from the caller's object |
| `CustomerFacade.GetCustomerDetails` | couponsFinalProjectJB/src/BL/CustomerFacade.java:124-126 | the logged-in customer with exactly its purchased coupons; null once its row is gone |
| `LoginManager.Login` | couponsFinalProjectJB/src/BL/LoginManger.java:35-56 | every refusal is InvalidCredentials; a session always has the requested role; the administrator gets in exactly with the fixed pair; a company or customer session holds a key whose row matches both credentials, and such a session exists exactly when a matching row does |
| `LoginManager.LoginDeterminesAccount` | couponsFinalProjectJB/src/BL/LoginManger.java:42-53 | with unique emails, a successful login lands on the one account carrying that email |
| `LoginManager.AdminLoginIgnoresStore` | couponsFinalProjectJB/src/BL/AdminFacade.java:27-29 | the administrator's login does not depend on the database |
| `ExpirationJob.ExpiredIds` | couponsFinalProjectJB/src/DAOs/CouponsDBDAO.java:384 | exactly the stored coupons whose end date lies before now |
| `ExpirationJob.Swept` | couponsFinalProjectJB/src/CleanupThread/CouponExpirationDailyJob.java:34-40 | no expired coupon remains; every coupon that has not expired stays with its contents; exactly the purchases of expired coupons are gone; companies and customers are unchanged; references stay resolved |
| `ExpirationJob.CascadeStep` | couponsFinalProjectJB/src/CleanupThread/CouponExpirationDailyJob.java:38-39 | the job's two deletes for one coupon are the shared one-coupon cascade |
| `ExpirationJob.RunCycle` | couponsFinalProjectJB/src/CleanupThread/CouponExpirationDailyJob.java:34-41 | whatever order the coupon list comes in, one cycle ends in the reference sweep, with no expired coupon left |
| `ExpirationJob.SweptIdempotent` | couponsFinalProjectJB/src/CleanupThread/CouponExpirationDailyJob.java:34-41 | a second cycle at the same instant changes nothing |
| `ExpirationJob.SweptCompose` | couponsFinalProjectJB/src/CleanupThread/CouponExpirationDailyJob.java:32-41 | a cycle at an earlier instant followed by one at a later instant leaves what a single cycle at the later instant leaves |

## Left out

- The connection pool (`ConnectionPool`), all JDBC plumbing (SQL text, statement binding, result-set columns, generated-key retrieval) and the `SQLException` paths. A storage failure is not modelled.
- Concurrency. The check-then-act race of `purchaseCoupon` lies outside a sequential model. Nothing here claims atomicity, or no overselling under concurrent purchases.
- The sweeper's thread loop: the 24-hour sleep, the quit flag, interrupts, and rethrowing `SQLException` as `RuntimeException`. Only one cycle is modelled.
- Prices are `double` in the source and integers here. The reads only compare prices with `<=`.
- The clock (`System.currentTimeMillis`) is the `now` parameter.
- `ExpirationJob.RunCycle`: one `now` serves the whole cycle, while `dateExpired` reads the clock again for every coupon. A coupon whose end passes during the cycle may be kept by the model and deleted by the source.
- `Entities.Midnight`: a DATE column cuts a date at the midnight of the JVM's time zone. The model cuts at multiples of a day, that is at UTC midnights; the time zone is not modelled.
- `CompaniesDao.IsCompanyExists`: SQL string equality is taken to be exact. The store's collation, which may ignore case and trailing spaces, is not modelled. The same goes for the members below.
- `CompaniesDao.NameAlreadyExists`: compares names exactly, as above.
- `CompaniesDao.EmailAlreadyExists`: compares emails exactly, as above.
- `CompaniesDao.GetIdByName`: compares names exactly, as above.
- `CompaniesDao.GetId`: compares email and password exactly, as above.
- `CustomersDao.IsCustomerExists`: compares email and password exactly, as above.
- `CustomersDao.EmailAlreadyExists`: compares emails exactly, as above.
- `CustomersDao.GetIdByEmail`: compares emails exactly, as above.
- `CustomersDao.GetId`: compares email and password exactly, as above.
- `CouponsDao.TitleInCompanyExists`: compares titles exactly, as above. `AdminFacade.UpdateCompany` compares names with Java's exact `equals`, which matches the model.
- Singletons (`getInstance`), the `ClientFacade` base-class wiring, the repository interfaces and the exception message strings. An error is a kind with its payload.
- `Test.java` and `program.java` are demo drivers: they call the facades and print the results, and add no rules of their own.
- `ClientType` and `Category` are not part of this model's sources.
  - `ClientType` has exactly three roles here. So the final `else` of `LoginManger.login`, which throws InvalidCredentials for any other role, cannot be reached. A null role makes the source fail before any branch is taken.
  - `Category` is taken to list Food, Electricity, Restaurant, Vacation in that order. The proved round trip needs only that the ids are the positions plus one.
- Null arguments (a null category, title or email) are not modelled. Strings and enums are plain values.
- `AdminFacade.getAllCompanies` and `AdminFacade.getAllCustomers` only forward to `CompaniesDao.GetAllCompanies` and `CustomersDao.GetAllCustomers`. They have no members of their own.
- Result order: lists come back in database order in the source. Here they are maps keyed by coupon or company id.
- `CompaniesDao.GetId`: the source answers with the first matching row in unspecified order. The model picks the smallest matching key, and the contract promises only "some matching key".
- `CustomersDao.GetId`: same as `CompaniesDao.GetId`. The same holds for `GetIdByName` and `GetIdByEmail`.
- `CustomerFacade.PurchaseCouponAsWritten`: the Java `int` subtraction `amount - 1` wraps around at the minimum integer. The model uses unbounded integers, so a caller copy holding the minimum `int` is not modelled.
- Foreign keys declared by the schema are not modelled. `CompanyFacade.AddCoupon` takes the coupon's owner as given, and so does `CustomerFacade.PurchaseCoupon` with the buyer. Integrity is therefore proved on condition that the referenced row exists.
- `CompanyFacade.AddCoupon`, `CompanyFacade.UpdateCoupon` and `CompanyFacade.DeleteCoupon` do not check that the coupon belongs to the logged-in company, and neither does the source. These operations take no session.

## Findings

| source | as written | input that shows it | evidently intended | confidence | as-written member | corrected member |
|---|---|---|---|---|---|---|
| couponsFinalProjectJB/src/BL/CustomerFacade.java:70-72 | after the checks on the stored row, the caller's coupon object is written back with its own amount lowered by one, so the stored amount and every other column take the caller's values | stored amount 1 and a caller copy with amount 10 leave 9 in stock; stored amount 5 and a copy with amount 0 leave -1; a copy of coupon 1 naming company 7 moves coupon 1 to company 7 | the stored amount is lowered by exactly one and nothing else of the row changes | not executed | `CustomerFacade.PurchaseCouponAsWritten` (counterexample `CustomerFacade.PurchaseAsWrittenCorruptsStock`) | `CustomerFacade.PurchaseCoupon` (kept invariants in `CustomerFacade.PurchaseCouponKeepsInvariants`) |
