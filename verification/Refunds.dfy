/** Admin refunds of one paid order, and the commission clawbacks that follow each refund in
    transactions of their own. */
module Refunds {
  import opened Options
  import opened Wallets

  datatype OrderStatus = Open | Refunded
  datatype PaymentStatus = Unpaid | Paid | PaymentRefunded

  /** Work that runs after a refund commits: take back everything, or first look up a share. */
  datatype Task = TakeBackAll | TakeBackShare(refund: int) | TakeBack(requested: Option<real>)

  /** One order with the wallet of its customer and the wallet of the referring affiliate.
      `commission` is what the order row still records as paid out. */
  datatype Case = Case(id: nat, total: int, status: OrderStatus, payment: PaymentStatus,
                       customer: Wallet, affiliate: Wallet, hasAffiliate: bool, commission: int,
                       pending: seq<Task>)
  {
    function RefundedSoFar(): int { Amounts(Matching(customer.rows, RefundOrder, AdminRefundRef, id)) }
    function CreditRows(): seq<Row> { Matching(affiliate.rows, AffiliateCommission, OrderRef, id) }
    function Credited(): int { Amounts(CreditRows()) }
    function ClawedBack(): int { -Amounts(Matching(affiliate.rows, RefundOrder, OrderRef, id)) }
  }

  // ---- Transactions ----------------------------------------------------------------------

  predicate CanRefund(s: Case, amount: int) {
    && s.status != Refunded && s.payment == Paid
    && 0 < Max(0, s.total - s.RefundedSoFar())
    && amount <= Max(0, s.total - s.RefundedSoFar())
  }

  /** The request is validated to be a positive whole number before the service sees it. */
  function AdminRefund(s: Case, amount: Amount): Case {
    if !CanRefund(s, amount) then s
    else
      var full := s.RefundedSoFar() + amount >= s.total;
      s.(customer := GiveBack(s.customer, AdminRefundRef, s.id, amount, amount, 0),
         status := if full then Refunded else s.status,
         payment := if full then PaymentRefunded else s.payment,
         pending := s.pending + [if full then TakeBackAll else TakeBackShare(amount)])
  }

  function Credit(s: Case, amount: int): Case {
    s.(affiliate := Post(s.affiliate, s.affiliate.main, s.affiliate.commission + amount,
                         Row(VND, AffiliateCommission, OrderRef, s.id, amount, s.affiliate.main, s.affiliate.main,
                             Some(s.affiliate.commission), Some(s.affiliate.commission + amount))),
       hasAffiliate := true, commission := amount)
  }

  /** Rounding to whole hundredths, ties upwards. */
  function Rounded(x: real): int { (x + 0.5).Floor }

  /** The clawback amount, in hundredths. A missing or non-positive request means "all of it". */
  function ClawbackAmount(current: int, requested: Option<real>): int {
    if requested.Some? && requested.value > 0.0 && requested.value < current as real
    then Rounded(requested.value)
    else current
  }

  function Revoke(s: Case, requested: Option<real>): Case {
    var amount := ClawbackAmount(s.commission, requested);
    if !s.hasAffiliate || amount <= 0 then s else ClawBack(s, amount)
  }

  function ClawBack(s: Case, amount: int): Case {
    s.(affiliate := Post(s.affiliate, s.affiliate.main, s.affiliate.commission - amount,
                         Row(VND, RefundOrder, OrderRef, s.id, -amount, s.affiliate.main, s.affiliate.main,
                             Some(s.affiliate.commission), Some(s.affiliate.commission - amount))),
       commission := s.commission - amount)
  }

  /** The share of the original commission that belongs to a partial refund. */
  function RefundShare(original: int, remaining: int, total: int, refund: int): real {
    if original <= 0 || remaining <= 0 || total <= 0 || refund <= 0 then 0.0
    else
      var share := if refund < total then original as real * (refund as real / total as real) else original as real;
      if share < remaining as real then share else remaining as real
  }

  /** The share never exceeds what is left, and is the commission's exact proportion of the refund exactly
      if that much is left. */
  lemma ShareIsProportional(original: int, remaining: int, total: int, refund: int)
    requires 0 < original && 0 < remaining && 0 < refund <= total
    ensures var share := RefundShare(original, remaining, total, refund);
            var exact := original as real * refund as real;
      && 0.0 < share <= remaining as real
      && share * total as real <= exact
      && (share * total as real == exact <==> exact <= remaining as real * total as real)
  {
    var o, m, t, r := original as real, remaining as real, total as real, refund as real;
    Proportion(o, t, r);
    RealOrder(if refund < total then o * (r / t) else o, m, t);
  }

  lemma Proportion(o: real, t: real, r: real)
    requires 0.0 < t && 0.0 < o && 0.0 < r
    ensures 0.0 < o * (r / t) && (o * (r / t)) * t == o * r
  {
    var q := r / t;
    assert q * t == r && 0.0 < q;
    assert (o * q) * t == o * (q * t);
  }

  lemma RealOrder(a: real, b: real, t: real)
    requires 0.0 < t
    ensures a <= b <==> a * t <= b * t
    ensures a == b <==> a * t == b * t
  {
    assert (b - a) * t == b * t - a * t;
  }

  /** The lookup before a partial clawback; None when there is nothing to claw back. An order without credit rows
      is taken to have been credited what it records. */
  function ShareTask(s: Case, refund: int): Option<Task> {
    if refund <= 0 || !s.hasAffiliate || s.total <= 0 then None
    else
      var original := if s.CreditRows() == [] then s.commission else s.Credited();
      if original <= 0 then None else Some(TakeBack(Some(RefundShare(original, s.commission, s.total, refund))))
  }

  // ---- Runs ------------------------------------------------------------------------------

  datatype Event = Refunding(amount: Amount) | Crediting(amount: Amount) | Resume(task: nat)

  function Step(s: Case, e: Event): Case {
    match e
    case Refunding(a) => AdminRefund(s, a)
    case Crediting(a) => Credit(s, a)
    case Resume(k) =>
      if |s.pending| <= k then s
      else
        var rest := s.pending[..k] + s.pending[k + 1..];
        match s.pending[k]
        case TakeBackAll => Revoke(s, None).(pending := rest)
        case TakeBack(requested) => Revoke(s, requested).(pending := rest)
        case TakeBackShare(refund) =>
          match ShareTask(s, refund)
          case None => s.(pending := rest)
          case Some(task) => s.(pending := rest + [task])
  }

  function Run(s: Case, es: seq<Event>): Case
    decreases |es|
  {
    if es == [] then s else Run(Step(s, es[0]), es[1..])
  }

  // ---- The customer side -----------------------------------------------------------------

  /** Refund rows never exceed the order, and the order is marked refunded exactly when they reach it. */
  ghost predicate RefundsFit(s: Case) {
    && 0 <= s.RefundedSoFar() <= Max(0, s.total)
    && (s.status == Refunded <==> 0 < s.total && s.RefundedSoFar() == s.total)
    && (s.payment == PaymentRefunded <==> s.status == Refunded)
  }

  lemma RefundAdds(s: Case, amount: Amount)
    requires CanRefund(s, amount)
    ensures AdminRefund(s, amount).RefundedSoFar() == s.RefundedSoFar() + amount
  {
    var r := AdminRefund(s, amount).customer.rows[|s.customer.rows|];
    Appended(s.customer.rows, r, AdminRefundRef, s.id);
    AmountsAppended(Matching(s.customer.rows, RefundOrder, AdminRefundRef, s.id), r);
  }

  lemma OthersLeaveCustomer(s: Case, e: Event)
    requires !e.Refunding?
    ensures var t := Step(s, e);
      && t.id == s.id && t.customer == s.customer && t.total == s.total
      && t.status == s.status && t.payment == s.payment
  {}

  lemma FitsAlike(s: Case, t: Case)
    requires RefundsFit(s)
    requires t.id == s.id && t.customer == s.customer && t.total == s.total
    requires t.status == s.status && t.payment == s.payment
    ensures RefundsFit(t)
  {}

  lemma RefundKeepsRefundsFit(s: Case, amount: Amount)
    requires RefundsFit(s)
    ensures RefundsFit(AdminRefund(s, amount)) && AdminRefund(s, amount).total == s.total
  {
    if CanRefund(s, amount) { RefundAdds(s, amount); }
  }

  lemma StepKeepsRefundsFit(s: Case, e: Event)
    requires RefundsFit(s)
    ensures RefundsFit(Step(s, e))
    ensures Step(s, e).total == s.total
  {
    if e.Refunding? {
      RefundKeepsRefundsFit(s, e.amount);
    } else {
      OthersLeaveCustomer(s, e);
      FitsAlike(s, Step(s, e));
    }
  }

  lemma {:induction false} RunKeepsRefundsFit(s: Case, es: seq<Event>)
    requires RefundsFit(s)
    ensures RefundsFit(Run(s, es)) && Run(s, es).total == s.total
    decreases |es|
  {
    if es != [] {
      StepKeepsRefundsFit(s, es[0]);
      RunKeepsRefundsFit(Step(s, es[0]), es[1..]);
    }
  }

  // ---- What the transactions do ----------------------------------------------------------

  /** A refund happens exactly if the order is paid and not refunded and the amount fits; it goes to the main
      balance only, and is followed up in full exactly if it completes the order's total. */
  lemma RefundHappensExactly(s: Case, amount: Amount)
    ensures var t := AdminRefund(s, amount);
      && (t != s <==> s.status == Open && s.payment == Paid && s.RefundedSoFar() + amount <= s.total)
      && (t != s ==>
            && t.customer.main == s.customer.main + amount && t.customer.commission == s.customer.commission
            && t.pending == s.pending + [if s.RefundedSoFar() + amount == s.total then TakeBackAll
                                         else TakeBackShare(amount)]
            && t.affiliate == s.affiliate && t.commission == s.commission)
  {
    if CanRefund(s, amount) { assert |AdminRefund(s, amount).pending| == |s.pending| + 1; }
  }

  /** A clawback without a positive request takes everything, and one that comes to nothing posts nothing. */
  lemma ClawbackTakes(s: Case, requested: Option<real>)
    requires 0 <= s.commission
    ensures var t := Revoke(s, requested);
      && (requested == None || requested.value <= 0.0 ==> t.commission == if s.hasAffiliate then 0 else s.commission)
      && (t.commission == s.commission <==> t == s)
      && t.affiliate.commission - s.affiliate.commission == t.commission - s.commission
  {}

  /** What a partial refund orders is never nothing while commission is recorded, as that would take all. */
  lemma TaskIsPositive(s: Case, refund: int)
    requires 0 < s.commission
    ensures match ShareTask(s, refund)
            case Some(TakeBack(Some(x))) => 0.0 < x <= s.commission as real
            case Some(_) => false
            case None => true
  {
    var original := if s.CreditRows() == [] then s.commission else s.Credited();
    if 0 < original && 0 < refund && 0 < s.total {
      if refund < s.total { Proportion(original as real, s.total as real, refund as real); }
    }
  }

  // ---- After a partial refund ----------------------------------------------------------------

  /** Every hundredth ever credited is still recorded on the order or was clawed back. */
  ghost predicate Balanced(s: Case) {
    && s.Credited() == s.commission + s.ClawedBack()
    && 0 <= s.commission
    && (!s.hasAffiliate ==> s.commission == 0)
  }

  lemma ClawbackFits(current: int, requested: Option<real>)
    ensures 0 <= current ==> 0 <= ClawbackAmount(current, requested) <= current
    ensures requested == None ==> ClawbackAmount(current, requested) == current
  {}

  lemma RevokeKeepsBalanced(s: Case, requested: Option<real>)
    requires Balanced(s)
    ensures Balanced(Revoke(s, requested))
    ensures Revoke(s, requested).commission <= s.commission
    ensures requested == None ==> Revoke(s, requested).commission == 0
  {
    var amount := ClawbackAmount(s.commission, requested);
    ClawbackFits(s.commission, requested);
    ClawBackBalance(s, amount);
  }

  lemma ClawBackBalance(s: Case, amount: int)
    ensures ClawBack(s, amount).Credited() == s.Credited()
    ensures ClawBack(s, amount).ClawedBack() == s.ClawedBack() + amount
  {
    var r := ClawBack(s, amount).affiliate.rows[|s.affiliate.rows|];
    Appended(s.affiliate.rows, r, OrderRef, s.id);
    AmountsAppended(Matching(s.affiliate.rows, RefundOrder, OrderRef, s.id), r);
  }

  lemma CreditBalance(s: Case, amount: int)
    ensures Credit(s, amount).Credited() == s.Credited() + amount
    ensures Credit(s, amount).ClawedBack() == s.ClawedBack()
  {
    var r := Credit(s, amount).affiliate.rows[|s.affiliate.rows|];
    Appended(s.affiliate.rows, r, OrderRef, s.id);
    AmountsAppended(Matching(s.affiliate.rows, AffiliateCommission, OrderRef, s.id), r);
  }

  /** Commission is written, not added, by a credit: the books stay balanced exactly when a credit
      lands on an order that records none. */
  lemma StepKeepsBalancedExactly(s: Case, e: Event)
    requires Balanced(s)
    ensures Balanced(Step(s, e)) <==> (e.Crediting? ==> s.commission == 0)
  {
    match e
    case Refunding(_) =>
    case Crediting(a) => CreditBalance(s, a);
    case Resume(k) =>
      if k < |s.pending| && !s.pending[k].TakeBackShare? {
        RevokeKeepsBalanced(s, if s.pending[k].TakeBack? then s.pending[k].requested else None);
      }
  }

  predicate CreditsLandOnZero(s: Case, es: seq<Event>)
    decreases |es|
  {
    es != [] ==> (es[0].Crediting? ==> s.commission == 0) && CreditsLandOnZero(Step(s, es[0]), es[1..])
  }

  ghost predicate AlwaysBalanced(s: Case, es: seq<Event>)
    decreases |es|
  {
    Balanced(s) && (es != [] ==> AlwaysBalanced(Step(s, es[0]), es[1..]))
  }

  lemma {:induction false} RunBalancedExactly(s: Case, es: seq<Event>)
    requires Balanced(s)
    ensures AlwaysBalanced(s, es) <==> CreditsLandOnZero(s, es)
    ensures CreditsLandOnZero(s, es) ==> Balanced(Run(s, es))
    decreases |es|
  {
    if es != [] {
      StepKeepsBalancedExactly(s, es[0]);
      if es[0].Crediting? ==> s.commission == 0 { RunBalancedExactly(Step(s, es[0]), es[1..]); }
    }
  }

  // ---- After a partial refund ------------------------------------------------------------

  /** `taken` is `part / whole`, rounded to a whole number, ties upwards. */
  predicate IsRounded(taken: int, part: real, whole: int) {
    (taken as real - 0.5) * whole as real <= part < (taken as real + 0.5) * whole as real
  }

  lemma RoundsOff(share: real, whole: int)
    requires 0 < whole
    ensures IsRounded(Rounded(share), share * whole as real, whole)
  {
    var taken := Rounded(share) as real;
    assert taken <= share + 0.5 < taken + 1.0;
    RealOrder(taken - 0.5, share, whole as real);
    RealOrder(taken + 0.5, share, whole as real);
  }

  /** The refund orders a clawback of its share, and that is what runs in the end. */
  lemma PartialRefundRuns(s: Case, amount: Amount) returns (s1: Case, s3: Case)
    requires s.status != Refunded && s.payment == Paid && s.RefundedSoFar() + amount < s.total && s.pending == []
    requires s.hasAffiliate && 0 < s.Credited() && 0 <= s.RefundedSoFar()
    ensures s1 == Step(s, Refunding(amount)) && s3 == Step(Step(s1, Resume(0)), Resume(0))
    ensures s1 == s.(customer := s1.customer, pending := [TakeBackShare(amount)])
    ensures s1.customer.main == s.customer.main + amount
    ensures s3 == Revoke(s1, Some(RefundShare(s.Credited(), s.commission, s.total, amount))).(pending := [])
  {
    s1 := Step(s, Refunding(amount));
    assert s1.pending == [TakeBackShare(amount)] && s1.Credited() == s.Credited();
    assert s1.pending[..0] + s1.pending[1..] == [];
    var s2 := Step(s1, Resume(0));
    assert s2.pending == [TakeBack(Some(RefundShare(s.Credited(), s.commission, s.total, amount)))];
    assert s2.pending[..0] + s2.pending[1..] == [];
    s3 := Step(s2, Resume(0));
  }

  lemma RevokeTakes(s: Case, share: real)
    requires s.hasAffiliate && 0 < s.commission && 0.0 < share <= s.commission as real
    ensures var t := Revoke(s, Some(share));
            var taken := TakenFor(share, s.commission);
      && t.commission == s.commission - taken && t.customer == s.customer
      && t.affiliate.commission == s.affiliate.commission - taken && t.affiliate.main == s.affiliate.main
  {}

  /** What a clawback of a share takes from the commission that remains. */
  function TakenFor(share: real, remaining: int): int {
    if share < remaining as real then Rounded(share) else remaining
  }

  lemma TakenIsShare(original: int, remaining: int, total: int, refund: int)
    requires 0 < original && 0 < remaining && 0 < refund <= total
    ensures var share, part := RefundShare(original, remaining, total, refund), original as real * refund as real;
      && 0.0 < share <= remaining as real
      && (if part < remaining as real * total as real then IsRounded(TakenFor(share, remaining), part, total)
          else TakenFor(share, remaining) == remaining)
  {
    ShareIsProportional(original, remaining, total, refund);
    ShareFits(original, remaining, total, refund);
    RoundsOff(RefundShare(original, remaining, total, refund), total);
  }

  /** What a clawback of the share of a partial refund leaves. */
  predicate TakesShare(s: Case, amount: int, credited: int, t: Case) {
    var taken, part := s.commission - t.commission, credited as real * amount as real;
    && t.affiliate.commission == s.affiliate.commission - taken && t.affiliate.main == s.affiliate.main
    && (if part < s.commission as real * s.total as real then IsRounded(taken, part, s.total)
        else taken == s.commission)
  }

  lemma ShareIsTaken(s: Case, s1: Case, s3: Case, amount: int, credited: int)
    requires s.hasAffiliate && 0 < s.commission && 0 < credited && 0 < amount <= s.total
    requires s1 == s.(customer := s1.customer, pending := s1.pending)
    requires s3 == Revoke(s1, Some(RefundShare(credited, s.commission, s.total, amount))).(pending := [])
    ensures TakesShare(s, amount, credited, s3) && s3.customer == s1.customer
  {
    TakenIsShare(credited, s.commission, s.total, amount);
    RevokeTakes(s1, RefundShare(credited, s.commission, s.total, amount));
  }

  /** A partial refund takes back its share: once its task and the clawback that this orders have run, the
      affiliate and the order's record have lost the commission's proportion of the refund, rounded to a
      hundredth, or what was left if that was less. */
  lemma PartialRefundTakesShare(s: Case, amount: Amount) returns (s1: Case, s3: Case)
    requires s.status != Refunded && s.payment == Paid && s.RefundedSoFar() + amount < s.total && s.pending == []
    requires s.hasAffiliate && 0 < s.commission && 0 < s.Credited() && 0 <= s.RefundedSoFar()
    ensures s1 == Step(s, Refunding(amount)) && s3 == Step(Step(s1, Resume(0)), Resume(0))
    ensures s1.customer.main == s.customer.main + amount && s1.status == s.status && s1.commission == s.commission
    ensures s3.pending == [] && s3.customer == s1.customer && TakesShare(s, amount, s.Credited(), s3)
  {
    s1, s3 := PartialRefundRuns(s, amount);
    ShareIsTaken(s, s1, s3, amount, s.Credited());
  }

  lemma ShareFits(original: int, remaining: int, total: int, refund: int)
    requires 0 < original && 0 < remaining && 0 < refund <= total
    ensures var share, part := RefundShare(original, remaining, total, refund), original as real * refund as real;
      && (part < remaining as real * total as real <==> share < remaining as real)
      && (part < remaining as real * total as real ==> share * total as real == part)
  {
    var o, m, t, r := original as real, remaining as real, total as real, refund as real;
    Proportion(o, t, r);
    RealOrder(if refund < total then o * (r / t) else o, m, t);
    RealOrder(m, if refund < total then o * (r / t) else o, t);
  }

  // ---- After a full refund ---------------------------------------------------------------

  /** After a full refund the commission is gone, or the clawback that removes it is still to run. */
  ghost predicate Settling(s: Case) {
    s.status == Refunded ==> s.commission == 0 || TakeBackAll in s.pending
  }

  /** What every run keeps, balanced or not. */
  ghost predicate Sane(s: Case) {
    0 <= s.commission && (!s.hasAffiliate ==> s.commission == 0)
  }

  /** A credit is late if the order is refunded and its full clawback has already run. */
  predicate Late(s: Case, e: Event) {
    e.Crediting? && s.status == Refunded && TakeBackAll !in s.pending
  }

  lemma RevokeKeepsSane(s: Case, requested: Option<real>)
    requires Sane(s)
    ensures Sane(Revoke(s, requested)) && Revoke(s, requested).commission <= s.commission
    ensures requested == None ==> Revoke(s, requested).commission == 0
    ensures Revoke(s, requested).status == s.status && Revoke(s, requested).pending == s.pending
  {
    ClawbackFits(s.commission, requested);
  }

  lemma ResumeKeepsSettling(s: Case, k: nat)
    requires Sane(s) && Settling(s) && k < |s.pending|
    ensures Sane(Step(s, Resume(k))) && Settling(Step(s, Resume(k)))
  {
    var s2 := Step(s, Resume(k));
    if !s.pending[k].TakeBackShare? {
      RevokeKeepsSane(s, if s.pending[k].TakeBack? then s.pending[k].requested else None);
    }
    if TakeBackAll in s.pending && s.pending[k] != TakeBackAll {
      var j :| 0 <= j < |s.pending| && s.pending[j] == TakeBackAll;
      assert s2.pending[if j < k then j else j - 1] == TakeBackAll;
    }
  }

  /** One step keeps the promise exactly if it is not a late credit. */
  lemma StepKeepsSettlingExactly(s: Case, e: Event)
    requires Sane(s) && Settling(s)
    ensures Sane(Step(s, e))
    ensures Settling(Step(s, e)) <==> !Late(s, e)
  {
    var s2 := Step(s, e);
    match e
    case Refunding(a) =>
      if s2 != s { assert s2.pending[|s.pending|] in s2.pending; }
      forall t <- s.pending ensures t in s2.pending {}
    case Crediting(_) =>
    case Resume(k) => if k < |s.pending| { ResumeKeepsSettling(s, k); }
  }

  predicate NoLateCredit(s: Case, es: seq<Event>)
    decreases |es|
  {
    es != [] ==> !Late(s, es[0]) && NoLateCredit(Step(s, es[0]), es[1..])
  }

  ghost predicate AlwaysSettling(s: Case, es: seq<Event>)
    decreases |es|
  {
    Settling(s) && (es != [] ==> AlwaysSettling(Step(s, es[0]), es[1..]))
  }

  /** Over every run of refunds, credits and clawbacks: that a fully refunded order records no commission
      once its clawback has run holds throughout exactly if no credit is late; credits before the refund,
      or between the refund and its clawback, do no harm. */
  lemma {:induction false} FullRefundClearsExactly(s: Case, es: seq<Event>)
    requires Sane(s) && Settling(s)
    ensures Sane(Run(s, es))
    ensures AlwaysSettling(s, es) <==> NoLateCredit(s, es)
    ensures NoLateCredit(s, es) && Run(s, es).status == Refunded && TakeBackAll !in Run(s, es).pending
            ==> Run(s, es).commission == 0
    decreases |es|
  {
    if es != [] {
      StepKeepsSettlingExactly(s, es[0]);
      if Late(s, es[0]) {
        RunKeepsSane(Step(s, es[0]), es[1..]);
      } else {
        FullRefundClearsExactly(Step(s, es[0]), es[1..]);
      }
    }
  }

  lemma {:induction false} RunKeepsSane(s: Case, es: seq<Event>)
    requires Sane(s)
    ensures Sane(Run(s, es))
    decreases |es|
  {
    if es != [] {
      if es[0].Resume? && es[0].task < |s.pending| && !s.pending[es[0].task].TakeBackShare? {
        var t := s.pending[es[0].task];
        RevokeKeepsSane(s, if t.TakeBack? then t.requested else None);
      }
      RunKeepsSane(Step(s, es[0]), es[1..]);
    }
  }

  /** A paid order that nothing was refunded from and nobody was credited for. */
  function PaidCase(id: nat, total: int): Case {
    Case(id, total, Open, Paid, Wallet(0, 0, []), Wallet(0, 0, []), false, 0, [])
  }

  /** The failing run: refund in full, claw back, then credit. The commission stands, and nothing is pending
      that would remove it. */
  lemma LateCreditStands(id: nat, total: Amount, amount: Amount)
    ensures var s1 := Step(PaidCase(id, total), Refunding(total));
            var s2 := Step(s1, Resume(0));
            var s3 := Step(s2, Crediting(amount));
      && s1.status == Refunded && s1.pending == [TakeBackAll] && s2.pending == [] && Late(s2, Crediting(amount))
      && s3.status == Refunded && s3.commission == amount && s3.pending == []
  {
    var s := PaidCase(id, total);
    assert Matching([], RefundOrder, AdminRefundRef, id) == [];
    assert s.RefundedSoFar() == 0;
    var s1 := Step(s, Refunding(total));
    assert s1.pending == [TakeBackAll];
    assert s1.pending[..0] + s1.pending[1..] == [];
  }

  // ---- The services ----------------------------------------------------------------------

  class RefundDesk {
    const id: nat
    const total: int
    var status: OrderStatus
    var payment: PaymentStatus
    var customer: Wallet
    var affiliate: Wallet
    var hasAffiliate: bool
    var commission: int
    var pending: seq<Task>

    constructor (id: nat, total: int, customer: Wallet, affiliate: Wallet)
      ensures View() == Case(id, total, Open, Paid, customer, affiliate, false, 0, [])
    {
      this.id, this.total, status, payment := id, total, Open, Paid;
      this.customer, this.affiliate, hasAffiliate, commission, pending := customer, affiliate, false, 0, [];
    }

    ghost function View(): Case
      reads this
    {
      Case(id, total, status, payment, customer, affiliate, hasAffiliate, commission, pending)
    }

    method RefundToWallet(amount: Amount) returns (ok: bool)
      modifies this
      ensures ok == CanRefund(old(View()), amount)
      ensures View() == AdminRefund(old(View()), amount)
    {
      var refundedBefore := Amounts(Matching(customer.rows, RefundOrder, AdminRefundRef, id));
      if status == Refunded || payment != Paid { return false; }
      var remaining := Max(0, total - refundedBefore);
      if remaining <= 0 || amount > remaining { return false; }
      var balanceBefore := customer.main;
      var balanceAfter := balanceBefore + amount;
      var isFullRefund := refundedBefore + amount >= total;
      customer := Post(customer, balanceAfter, customer.commission,
                       Row(VND, RefundOrder, AdminRefundRef, id, amount, balanceBefore, balanceAfter,
                           Some(customer.commission), Some(customer.commission)));
      if isFullRefund {
        status, payment := Refunded, PaymentRefunded;
        pending := pending + [TakeBackAll];
      } else {
        pending := pending + [TakeBackShare(amount)];
      }
      return true;
    }

    method RevokeCommission(requested: Option<real>)
      modifies this
      ensures View() == Revoke(old(View()), requested)
    {
      if !hasAffiliate { return; }
      var current := commission;
      var wanted := if requested.Some? && requested.value > 0.0 then requested.value else current as real;
      var amount := Rounded(if wanted < current as real then wanted else current as real);
      if amount <= 0 { return; }
      commission := current - amount;
      var commissionBefore := affiliate.commission;
      affiliate := Post(affiliate, affiliate.main, commissionBefore - amount,
                        Row(VND, RefundOrder, OrderRef, id, -amount, affiliate.main, affiliate.main,
                            Some(commissionBefore), Some(commissionBefore - amount)));
    }

    method CreditCommission(amount: int)
      modifies this
      ensures View() == Credit(old(View()), amount)
    {
      hasAffiliate, commission := true, amount;
      var commissionBefore := affiliate.commission;
      affiliate := Post(affiliate, affiliate.main, commissionBefore + amount,
                        Row(VND, AffiliateCommission, OrderRef, id, amount, affiliate.main, affiliate.main,
                            Some(commissionBefore), Some(commissionBefore + amount)));
    }
  }
}
