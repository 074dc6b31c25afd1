/**
 The canonical text of a validated POST /applications body, whose digest decides whether two
 uses of an Idempotency-Key are the same request.
 */
module CanonicalRequest {
  import opened Wrappers
  import opened JsonText

  // --- Decimals ---------------------------------------------------------

  /** Python's Decimal: (-1)^neg * coeff * 10^exp. */
  datatype Dec = Dec(neg: bool, coeff: nat, exp: int)

  function Pow10(n: nat): (p: nat)
    ensures p > 0
  {
    if n == 0 then 1 else 10 * Pow10(n - 1)
  }

  lemma {:induction false} Pow10Add(a: nat, b: nat)
    ensures Pow10(a + b) == Pow10(a) * Pow10(b)
  {
    if a > 0 {
      Pow10Add(a - 1, b);
      assert Pow10(a) == 10 * Pow10(a - 1) && Pow10(a + b) == 10 * Pow10(a - 1 + b);
      assert 10 * (Pow10(a - 1) * Pow10(b)) == 10 * Pow10(a - 1) * Pow10(b);
    }
  }

  /** The coefficient at the smaller exponent `m`. */
  function At(d: Dec, m: int): nat
    requires m <= d.exp
  {
    d.coeff * Pow10(d.exp - m)
  }

  function Min(a: int, b: int): int {
    if a < b then a else b
  }

  /** Numerically equal, whatever the representation; zero has no sign. */
  predicate SameAmount(a: Dec, b: Dec) {
    var m := Min(a.exp, b.exp);
    At(a, m) == At(b, m) && (At(a, m) != 0 ==> a.neg == b.neg)
  }

  /** Decimal.quantize(Decimal("0.01")), rounding half to even; the sign is kept. */
  function Quantize(d: Dec): Dec {
    if d.exp >= -2 then Dec(d.neg, At(d, -2), -2)
    else Dec(d.neg, RoundedQuotient(d.coeff, Pow10(-2 - d.exp)), -2)
  }

  /** n / p to the nearest whole number, halves to even. */
  function RoundedQuotient(n: nat, p: nat): nat
    requires p > 0
  {
    var (q, r) := DivMod(n, p);
    if 2 * r > p || (2 * r == p && q % 2 == 1) then q + 1 else q
  }

  /** No other whole number is nearer, and of two equally near ones it is the even one. */
  lemma RoundedQuotientIs(n: nat, p: nat)
    requires p > 0
    ensures var k := RoundedQuotient(n, p);
            var twice: int := 2 * (n - k * p);
            twice <= p && -twice <= p && (twice == p || -twice == p ==> k % 2 == 0)
  {
    var (q, r) := DivMod(n, p);
    assert (q + 1) * p == q * p + p;
  }

  function DivMod(n: nat, p: nat): (qr: (nat, nat))
    requires p > 0
    ensures n == qr.0 * p + qr.1 && qr.1 < p
  {
    if n < p then (0, n)
    else
      var (q, r) := DivMod(n - p, p);
      (q + 1, r)
  }

  const MAX_CENTS := 1_000_000_000_000

  /** ge=0, max_digits=12, decimal_places=2, trailing zeros not counted: the value is a whole number
      of cents that NUMERIC(12, 2) can hold. */
  ghost predicate Accepted(d: Dec) {
    && (d.neg ==> d.coeff == 0)
    && exists cents: nat :: cents < MAX_CENTS && SameAmount(d, Dec(false, cents, -2))
  }

  lemma MulAssociative(x: nat, y: nat, z: nat)
    ensures x * (y * z) == x * y * z
  {
  }

  /** Bringing a decimal to an even smaller exponent scales its coefficient. */
  lemma AtShift(d: Dec, m: int, k: nat)
    requires m <= d.exp
    ensures At(d, m - k) == At(d, m) * Pow10(k)
  {
    Pow10Add(d.exp - m, k);
    assert d.exp - (m - k) == d.exp - m + k;
    MulAssociative(d.coeff, Pow10(d.exp - m), Pow10(k));
  }

  lemma SameProduct(x: nat, y: nat, p: nat)
    requires p > 0
    ensures x * p == y * p <==> x == y
  {
    if x * p == y * p {
      assert (x - y) * p == 0;
    }
  }

  /** Amounts may be compared at any common exponent. */
  lemma SameAmountAt(a: Dec, b: Dec, m: int)
    requires m <= a.exp && m <= b.exp
    ensures At(a, m) == At(b, m) <==> At(a, Min(a.exp, b.exp)) == At(b, Min(a.exp, b.exp))
    ensures At(a, m) == 0 <==> a.coeff == 0
  {
    var n := Min(a.exp, b.exp);
    AtShift(a, n, n - m);
    AtShift(b, n, n - m);
    SameProduct(At(a, n), At(b, n), Pow10(n - m));
    SameProduct(a.coeff, 0, Pow10(a.exp - m));
  }

  /** No accepted budget is rounded. */
  lemma QuantizeExact(d: Dec)
    requires Accepted(d)
    ensures SameAmount(Quantize(d), d) && Quantize(d).exp == -2 && Quantize(d).neg == d.neg
            && Quantize(d).coeff < MAX_CENTS
  {
    var cents: nat :| cents < MAX_CENTS && SameAmount(d, Dec(false, cents, -2));
    var c := Dec(false, cents, -2);
    if d.exp >= -2 {
      assert At(c, -2) == cents * Pow10(0) == cents;
      AtShift(Quantize(d), -2, 0);
      assert At(Quantize(d), -2) == At(d, -2);
    } else {
      var p := Pow10(-2 - d.exp);
      assert At(d, d.exp) == d.coeff * Pow10(0) == d.coeff;
      assert d.coeff == cents * p;
      DivExact(cents, p);
      assert Quantize(d).coeff == cents;
    }
  }

  lemma {:induction false} DivExact(c: nat, p: nat)
    requires p > 0
    ensures DivMod(c * p, p) == (c, 0)
  {
    if c > 0 {
      assert c * p == (c - 1) * p + p;
      assert (c - 1) * p >= 0;
      DivExact(c - 1, p);
    }
  }

  /** Equal amounts quantize to the same number of cents, and only they do. */
  lemma QuantizeDecides(a: Dec, b: Dec)
    requires Accepted(a) && Accepted(b)
    ensures SameAmount(a, b) <==> Quantize(a).coeff == Quantize(b).coeff
  {
    var qa, qb := Quantize(a), Quantize(b);
    QuantizeExact(a);
    QuantizeExact(b);
    var m := Min(Min(a.exp, b.exp), -2);
    SameAmountAt(qa, a, m);
    SameAmountAt(qb, b, m);
    SameAmountAt(a, b, m);
    assert At(qa, m) == qa.coeff * Pow10(-2 - m) && At(qb, m) == qb.coeff * Pow10(-2 - m);
    SameProduct(qa.coeff, qb.coeff, Pow10(-2 - m));
  }

  /** str() of a decimal with two decimal places. */
  function CentsText(neg: bool, cents: nat): string {
    (if neg then "-" else "") + Unsigned(cents)
  }

  function Unsigned(cents: nat): string {
    Decimal(cents / 100) + Fraction(cents)
  }

  function Fraction(cents: nat): string {
    ['.', Digit(cents / 10 % 10), Digit(cents % 10)]
  }

  lemma UnsignedInjective(c1: nat, c2: nat)
    requires Unsigned(c1) == Unsigned(c2)
    ensures c1 == c2
  {
    var t1, t2 := Fraction(c1), Fraction(c2);
    DecimalPrefixFree(c1 / 100, c2 / 100, t1, t2);
    assert t1[1] == t2[1] && t1[2] == t2[2];
    ThreeParts(c1);
    ThreeParts(c2);
  }

  lemma ThreeParts(c: nat)
    ensures c == 100 * (c / 100) + 10 * (c / 10 % 10) + c % 10
    ensures forall d: nat, e: nat {:trigger Digit(d), Digit(e)} :: d < 10 && e < 10 && Digit(d) == Digit(e) ==> d == e
  {
    assert c / 100 == c / 10 / 10;
  }

  lemma CentsTextInjective(n1: bool, c1: nat, n2: bool, c2: nat)
    requires CentsText(n1, c1) == CentsText(n2, c2)
    ensures n1 == n2 && c1 == c2
  {
    DecimalRoundTrip(c1 / 100);
    DecimalRoundTrip(c2 / 100);
    assert IsDigit(Unsigned(c1)[0]) && IsDigit(Unsigned(c2)[0]);
    assert CentsText(n1, c1)[0] == CentsText(n2, c2)[0];
    assert n1 == n2;
    SignPeels(n1, Unsigned(c1), Unsigned(c2));
    UnsignedInjective(c1, c2);
  }

  lemma SignPeels(neg: bool, u: string, v: string)
    requires (if neg then "-" else "") + u == (if neg then "-" else "") + v
    ensures u == v
  {
    if neg {
      assert ("-" + u)[1..] == u && ("-" + v)[1..] == v;
    } else {
      assert "" + u == u && "" + v == v;
    }
  }

  // --- Requests ---------------------------------------------------------

  /** A validated ApplicationCreate. */
  datatype ApplicationCreate = ApplicationCreate(
    firstName: string, lastName: string, middleName: Option<string>, contactData: string, businessNiche: string,
    companySize: string, businessInfo: string, taskScope: string, requesterRole: string, businessSize: string,
    needScope: string, deadline: string, taskType: string, budget: Dec, preferredContactMethod: string,
    preferredContactTime: string, comment: Option<string>, serviceId: nat)

  function Optional(o: Option<string>): Value {
    match o case Some(s) => Str(s) case None => Null
  }

  /** The dumped model with its budget quantized, in the order sort_keys gives the keys. */
  function Payload(r: ApplicationCreate): seq<Item> {
    var b := Quantize(r.budget);
    [Item("budget", Str(CentsText(b.neg, b.coeff))),
     Item("business_info", Str(r.businessInfo)),
     Item("business_niche", Str(r.businessNiche)),
     Item("business_size", Str(r.businessSize)),
     Item("comment", Optional(r.comment)),
     Item("company_size", Str(r.companySize)),
     Item("contact_data", Str(r.contactData)),
     Item("deadline", Str(r.deadline)),
     Item("first_name", Str(r.firstName)),
     Item("last_name", Str(r.lastName)),
     Item("middle_name", Optional(r.middleName)),
     Item("need_scope", Str(r.needScope)),
     Item("preferred_contact_method", Str(r.preferredContactMethod)),
     Item("preferred_contact_time", Str(r.preferredContactTime)),
     Item("requester_role", Str(r.requesterRole)),
     Item("service_id", Num(r.serviceId)),
     Item("task_scope", Str(r.taskScope)),
     Item("task_type", Str(r.taskType))]
  }

  function CanonicalText(r: ApplicationCreate): string {
    Dumps(Payload(r))
  }

  const ZERO := Dec(false, 0, 0)

  /** The same request up to how its budget is written. */
  predicate SameRequest(a: ApplicationCreate, b: ApplicationCreate) {
    a.(budget := ZERO) == b.(budget := ZERO) && SameAmount(a.budget, b.budget)
  }

  lemma PayloadDecides(a: ApplicationCreate, b: ApplicationCreate)
    requires Payload(a) == Payload(b)
    ensures a.(budget := ZERO) == b.(budget := ZERO)
    ensures CentsText(Quantize(a.budget).neg, Quantize(a.budget).coeff)
            == CentsText(Quantize(b.budget).neg, Quantize(b.budget).coeff)
  {
    var p, q := Payload(a), Payload(b);
    assert p[0] == q[0] && p[1] == q[1] && p[2] == q[2] && p[3] == q[3] && p[4] == q[4] && p[5] == q[5];
    assert p[6] == q[6] && p[7] == q[7] && p[8] == q[8] && p[9] == q[9] && p[10] == q[10] && p[11] == q[11];
    assert p[12] == q[12] && p[13] == q[13] && p[14] == q[14] && p[15] == q[15] && p[16] == q[16] && p[17] == q[17];
  }

  /** Two accepted requests have the same canonical text exactly when they are the same request with
      equal budget amounts, however the amounts were written, and with the same sign on a zero. */
  lemma CanonicalTextDecides(a: ApplicationCreate, b: ApplicationCreate)
    requires Accepted(a.budget) && Accepted(b.budget)
    ensures CanonicalText(a) == CanonicalText(b) <==> SameRequest(a, b) && a.budget.neg == b.budget.neg
  {
    QuantizeExact(a.budget);
    QuantizeExact(b.budget);
    QuantizeDecides(a.budget, b.budget);
    if CanonicalText(a) == CanonicalText(b) {
      DumpsInjective(Payload(a), Payload(b));
      PayloadDecides(a, b);
      CentsTextInjective(Quantize(a.budget).neg, Quantize(a.budget).coeff, Quantize(b.budget).neg,
              Quantize(b.budget).coeff);
    }
  }

  /** The sign matters only for zero: without a "-0" the text decides exactly the request. */
  lemma WithoutNegativeZero(a: ApplicationCreate, b: ApplicationCreate)
    requires Accepted(a.budget) && Accepted(b.budget)
    ensures (CanonicalText(a) == CanonicalText(b) <==> SameRequest(a, b))
            <==> (SameRequest(a, b) ==> a.budget.neg == b.budget.neg)
    ensures a.budget.neg != b.budget.neg && SameAmount(a.budget, b.budget) ==>
            a.budget.coeff == 0 && b.budget.coeff == 0
  {
    CanonicalTextDecides(a, b);
    SameAmountAt(a.budget, b.budget, Min(a.budget.exp, b.budget.exp));
    SameAmountAt(b.budget, a.budget, Min(a.budget.exp, b.budget.exp));
  }

  lemma ZeroAccepted(neg: bool)
    ensures Accepted(Dec(neg, 0, 0))
  {
    var cents: nat := 0;
    assert SameAmount(Dec(neg, 0, 0), Dec(false, cents, -2));
  }

  /** A zero budget written "-0" is accepted, is the same amount as "0", and still reads as a
      different request. */
  lemma NegativeZeroDiffers(r: ApplicationCreate)
    ensures var a, b := r.(budget := Dec(false, 0, 0)), r.(budget := Dec(true, 0, 0));
            Accepted(a.budget) && Accepted(b.budget) && SameRequest(a, b) && CanonicalText(a) != CanonicalText(b)
  {
    var a, b := r.(budget := Dec(false, 0, 0)), r.(budget := Dec(true, 0, 0));
    ZeroAccepted(false);
    ZeroAccepted(true);
    CanonicalTextDecides(a, b);
  }
}
