/**
 * The read-only payment queries: the requester's own payments and the
 * admin listing and detail. `emails` maps a user profile id to its user's
 * email, which is what the admin search joins through.
 */
module PaymentCrud {
  import opened Common
  import opened Seqs
  import opened Text
  import opened PaymentModel
  import opened Shop

  /** The requester's payments, in table order. */
  function PaymentsOf(payments: seq<Payment>, user: nat): (r: seq<Payment>)
    ensures forall p :: p in r <==> p in payments && p.userProfileId == user
  {
    Filter(payments, (p: Payment) => p.userProfileId == user)
  }

  /** `payments_list`: one page of the requester's payments and the number of them. */
  function PaymentsList(payments: seq<Payment>, user: nat, skip: nat, limit: nat): (r: (seq<Payment>, nat))
    ensures r.0 == Page(PaymentsOf(payments, user), skip, limit)
    ensures forall p :: p in r.0 ==> p in payments && p.userProfileId == user
    ensures |r.0| <= limit
    ensures r.1 == |PaymentsOf(payments, user)|
    ensures skip == 0 && r.1 <= limit ==> forall p :: p in payments && p.userProfileId == user ==> p in r.0
  {
    var mine := PaymentsOf(payments, user);
    var page := Page(mine, skip, limit);
    assert forall p :: p in page ==> p in mine;
    assert skip == 0 && |mine| <= limit ==> page == mine;
    (page, |mine|)
  }

  /**
   * `payment_detail_page`: another user's payment is refused; a missing
   * payment is not an error, the guard meant for it tests the class and
   * never fires, so None comes back.
   */
  function PaymentDetail(payments: seq<Payment>, user: nat, paymentId: nat): (r: Result<Option<Payment>>)
    requires DistinctKeys(payments, PaymentKey)
    ensures r.Err? <==> exists p | p in payments :: p.id == paymentId && p.userProfileId != user
    ensures r.Err? ==> r.error == UserDontHavePermission
    ensures r.Ok? && r.value.Some? ==> r.value.value in payments && r.value.value.id == paymentId && r.value.value.userProfileId == user
    ensures r == Ok(None) <==> forall p | p in payments :: p.id != paymentId
  {
    match FindFirst(payments, (p: Payment) => p.id == paymentId)
    case None => Ok(None)
    case Some(p) =>
      if p.userProfileId != user then Err(UserDontHavePermission)
      else
        assert forall q | q in payments && q.id == paymentId :: q.userProfileId == user by {
          forall q | q in payments && q.id == paymentId ensures q.userProfileId == user {
            FindByKeyUnique(payments, PaymentKey, paymentId, q);
          }
        }
        Ok(Some(p))
  }

  /** The filters of the admin payment listing that the request sets. */
  predicate AdminPaymentMatches(p: Payment, emails: map<nat, string>, search: Option<string>, since: Option<int>, status: Option<string>)
  {
    (search.None? || search.value == ""
      || (p.userProfileId in emails && ContainsIgnoreCase(emails[p.userProfileId], search.value)))
    && (status.None? || ParsePaymentStatus(status.value).None? || p.status == ParsePaymentStatus(status.value).value)
    && (since.None? || p.createdAt >= since.value)
  }

  /** The payments that pass the filters of the admin listing, in table order. */
  function AdminPaymentsMatching(payments: seq<Payment>, emails: map<nat, string>,
                                 search: Option<string>, since: Option<int>, status: Option<string>): (r: seq<Payment>)
    ensures forall p :: p in r <==> p in payments && AdminPaymentMatches(p, emails, search, since, status)
  {
    Filter(payments, (p: Payment) => AdminPaymentMatches(p, emails, search, since, status))
  }

  /** The admin listing's outcome: a page with the number of matching payments, or the `detail_404` marker. */
  datatype AdminPaymentPage = PaymentsPage(payments: seq<Payment>, totalItems: nat) | PaymentsNotFound

  /**
   * `admin_payment_user_list`: refused to base-role users; otherwise one
   * page of the payments that pass the filters and the number of those
   * payments, or the not-found marker when the page is empty.
   */
  function AdminPaymentUserList(payments: seq<Payment>, emails: map<nat, string>, who: Requester,
                                search: Option<string>, status: Option<string>, since: Option<int>,
                                skip: nat, limit: nat): (r: Result<AdminPaymentPage>)
    ensures IsBaseRole(who.role) <==> r == Err(UserDontHavePermission)
    ensures r.Ok? && r.value.PaymentsPage? ==>
      r.value.payments == Page(AdminPaymentsMatching(payments, emails, search, since, status), skip, limit)
      && 0 < |r.value.payments| <= limit
      && r.value.totalItems == |AdminPaymentsMatching(payments, emails, search, since, status)|
      && forall p :: p in r.value.payments ==> p in payments && AdminPaymentMatches(p, emails, search, since, status)
    ensures r == Ok(PaymentsNotFound) <==>
      !IsBaseRole(who.role)
      && (limit == 0 || skip >= |AdminPaymentsMatching(payments, emails, search, since, status)|)
    ensures r.Ok? && r.value.PaymentsPage? && since.Some? ==> forall p :: p in r.value.payments ==> p.createdAt >= since.value
    ensures r.Ok? && r.value.PaymentsPage? && status.Some? && ParsePaymentStatus(status.value).Some? ==>
      forall p :: p in r.value.payments ==> PaymentStatusValue(p.status) == status.value
  {
    if IsBaseRole(who.role) then Err(UserDontHavePermission)
    else
      var matching := AdminPaymentsMatching(payments, emails, search, since, status);
      var page := Page(matching, skip, limit);
      assert forall p :: p in page ==> p in matching;
      if page == [] then Ok(PaymentsNotFound) else Ok(PaymentsPage(page, |matching|))
  }

  /** A status value outside SUCCESSFUL, CANCELED and REFUNDED filters nothing. */
  lemma UnknownPaymentStatusIgnored(payments: seq<Payment>, emails: map<nat, string>, who: Requester,
                                    search: Option<string>, status: string, since: Option<int>, skip: nat, limit: nat)
    requires ParsePaymentStatus(status).None?
    ensures AdminPaymentUserList(payments, emails, who, search, Some(status), since, skip, limit)
         == AdminPaymentUserList(payments, emails, who, search, None, since, skip, limit)
  {
    FilterCongruent(payments,
      (p: Payment) => AdminPaymentMatches(p, emails, search, since, Some(status)),
      (p: Payment) => AdminPaymentMatches(p, emails, search, since, None));
  }

  /**
   * `admin_user_payment_detail`: refused to base-role users; otherwise the
   * query's result, which may hold no payment: the guard meant for a
   * missing payment tests the result object and never fires.
   */
  function AdminUserPaymentDetail(payments: seq<Payment>, who: Requester, paymentId: nat): (r: Result<Option<Payment>>)
    ensures IsBaseRole(who.role) <==> r.Err?
    ensures r.Err? ==> r.error == UserDontHavePermission
    ensures r.Ok? && r.value.Some? ==> r.value.value in payments && r.value.value.id == paymentId
    ensures r.Ok? ==> (r.value.None? <==> forall p | p in payments :: p.id != paymentId)
  {
    if IsBaseRole(who.role) then Err(UserDontHavePermission)
    else Ok(FindFirst(payments, (p: Payment) => p.id == paymentId))
  }
}
