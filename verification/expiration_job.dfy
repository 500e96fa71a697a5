/*
 * One cycle of the daily expiration job (CouponExpirationDailyJob): read every
 * coupon, and for each whose stored end date lies before now, delete its
 * purchases and then the coupon itself. The thread loop around the cycle, its
 * sleep and its quit flag are not modelled; `now` is the clock reading.
 */
module ExpirationJob {
  import opened Entities
  import CouponsDao

  /** The keys of the stored coupons that have expired at `now`. */
  function ExpiredIds(db: Db, now: int): (ks: set<int>)
    ensures forall k :: k in ks <==> k in db.coupons && Expired(db.coupons[k].endDate, now)
  {
    set k | k in db.coupons && Expired(db.coupons[k].endDate, now)
  }

  /**
   * The state a cycle leaves behind: no expired coupon and no purchase of one
   * remains, and nothing else is touched.
   */
  function Swept(db: Db, now: int): (r: Db)
    ensures forall k :: k in r.coupons ==> !Expired(r.coupons[k].endDate, now)
    ensures forall k :: k in db.coupons && !Expired(db.coupons[k].endDate, now)
                        ==> k in r.coupons && r.coupons[k] == db.coupons[k]
    ensures r.coupons.Keys <= db.coupons.Keys
    ensures forall p :: p in r.purchases <==>
                        p in db.purchases && !(p.couponId in db.coupons && Expired(db.coupons[p.couponId].endDate, now))
    ensures r.companies == db.companies && r.customers == db.customers
    ensures RefIntegrity(db) ==> RefIntegrity(r)
    ensures Valid(db) ==> Valid(r)
  {
    WithoutCoupons(db, ExpiredIds(db, now))
  }

  /** The job's two deletes for one coupon are the shared one-coupon cascade. */
  lemma CascadeStep(db: Db, k: int)
    ensures CouponsDao.DeleteCoupon(CouponsDao.DeletePurchasesByCoupon(db, k), k) == WithoutCoupons(db, {k})
  {
    var lhs := CouponsDao.DeleteCoupon(CouponsDao.DeletePurchasesByCoupon(db, k), k);
    var rhs := WithoutCoupons(db, {k});
    assert lhs.coupons == rhs.coupons;
    assert lhs.purchases == rhs.purchases;
  }

  /**
   * The cycle body: walks the coupon list read at the start, asks
   * `dateExpired` about each, and cascade-deletes the expired ones. Whatever
   * order the list comes in, the cycle ends in `Swept(db, now)`.
   */
  method RunCycle(db: Db, now: int) returns (r: Db)
    ensures r == Swept(db, now)
    ensures forall k :: k in r.coupons ==> !Expired(r.coupons[k].endDate, now)
  {
    var listed := CouponsDao.GetAllCoupons(db);
    var todo := listed;
    ghost var removed: set<int> := {};
    r := db;
    while todo != {}
      invariant todo <= listed
      invariant forall k :: k in db.coupons ==> (Coupon(k, db.coupons[k]) in todo ==> k !in removed)
      invariant forall k :: k in db.coupons && Coupon(k, db.coupons[k]) !in todo
                            ==> (k in removed <==> Expired(db.coupons[k].endDate, now))
      invariant removed <= db.coupons.Keys
      invariant r == WithoutCoupons(db, removed)
      decreases todo
    {
      ghost var w := NonEmptyHasMember(todo);
      var c :| c in todo;
      if CouponsDao.DateExpired(r, c, now) {
        CascadeStep(r, c.id);
        WithoutCouponsCompose(db, removed, {c.id});
        r := CouponsDao.DeleteCoupon(CouponsDao.DeletePurchasesByCoupon(r, c.id), c.id);
        removed := removed + {c.id};
      }
      todo := todo - {c};
    }
    forall k | k in db.coupons
      ensures k in removed <==> k in ExpiredIds(db, now)
    {
      assert Coupon(k, db.coupons[k]) !in todo;
    }
    assert removed == ExpiredIds(db, now);
  }

  /** A second cycle at the same instant finds nothing to delete. */
  lemma SweptIdempotent(db: Db, now: int)
    ensures Swept(Swept(db, now), now) == Swept(db, now)
  {
    var once := Swept(db, now);
    var twice := Swept(once, now);
    assert ExpiredIds(once, now) == {};
    assert twice.coupons == once.coupons;
    assert twice.purchases == once.purchases;
  }

  /**
   * Cycles at successive instants compose: a cycle at `earlier` followed by
   * one at `later` leaves what a single cycle at `later` leaves.
   */
  lemma SweptCompose(db: Db, earlier: int, later: int)
    requires earlier <= later
    ensures Swept(Swept(db, earlier), later) == Swept(db, later)
  {
    var first := ExpiredIds(db, earlier);
    var second := ExpiredIds(Swept(db, earlier), later);
    WithoutCouponsCompose(db, first, second);
    assert first + second == ExpiredIds(db, later);
  }
}
