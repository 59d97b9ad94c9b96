/** `ImpliedVolatility` of internal/options/black76.go: bisection over a price that depends on the volatility. */
module ImpliedVolatility {
  import opened Options

  const LOW: real := 0.0001
  const HIGH: real := 5.0
  const TOLERANCE: real := 0.00000001
  const ROUNDS: nat := 100

  function Power2(k: nat): (p: real)
    ensures p >= 1.0
  {
    if k == 0 then 1.0 else 2.0 * Power2(k - 1)
  }

  /** The bracket after `k` halvings. */
  ghost predicate Bracket(f: real -> real, price: real, low: real, high: real, k: nat) {
    && LOW <= low < high <= HIGH
    && f(low) <= price <= f(high)
    && (high - low) * Power2(k) == HIGH - LOW
  }

  ghost predicate Increasing(f: real -> real) {
    forall a, b :: LOW <= a < b <= HIGH ==> f(a) < f(b)
  }

  lemma Halved(f: real -> real, price: real, low: real, high: real, k: nat)
    requires Bracket(f, price, low, high, k)
    ensures f((low + high) / 2.0) <= price ==> Bracket(f, price, (low + high) / 2.0, high, k + 1)
    ensures price <= f((low + high) / 2.0) ==> Bracket(f, price, low, (low + high) / 2.0, k + 1)
  {
    var p := Power2(k);
    assert Power2(k + 1) == 2.0 * p;
    assert ((high - low) / 2.0) * (2.0 * p) == (high - low) * p;
  }

  /** The answer is a price match or the middle of a bracket halved `rounds` times. */
  ghost predicate Answers(f: real -> real, price: real, vol: real, rounds: nat) {
    || -0.00000001 < f(vol) - price < 0.00000001
    || exists low, high :: Bracket(f, price, low, high, rounds) && vol == (low + high) / 2.0
  }

  method Solve(price: real, future: real, strike: real, years: real, f: real -> real) returns (r: Option<real>)
    ensures r.Some? <==> price > 0.0 && future > 0.0 && strike > 0.0 && years > 0.0 && f(0.0001) <= price <= f(5.0)
    ensures r.Some? ==> 0.0001 <= r.value <= 5.0 && Answers(f, price, r.value, 100)
  {
    if price <= 0.0 || future <= 0.0 || strike <= 0.0 || years <= 0.0 {
      return None;
    }
    var low, high := LOW, HIGH;
    if price < f(low) || price > f(high) {
      return None;
    }
    for i := 0 to ROUNDS
      invariant Bracket(f, price, low, high, i)
    {
      var mid := (low + high) / 2.0;
      Halved(f, price, low, high, i);
      if -TOLERANCE < f(mid) - price < TOLERANCE {
        return Some(mid);
      }
      if f(mid) < price {
        low := mid;
      } else {
        high := mid;
      }
    }
    return Some((low + high) / 2.0);
  }

  /** Within (HIGH - LOW) / 2^n of each other. */
  ghost predicate Near(vol: real, root: real, n: nat) {
    -(HIGH - LOW) <= (vol - root) * Power2(n) <= HIGH - LOW
  }

  lemma RootInBracket(f: real -> real, price: real, low: real, high: real, root: real, k: nat)
    requires Increasing(f) && LOW <= root <= HIGH && f(root) == price && Bracket(f, price, low, high, k)
    ensures Near((low + high) / 2.0, root, k + 1)
  {
    assert !(root < low);
    assert !(high < root);
    Between(low, high, root, Power2(k));
    assert Power2(k + 1) == 2.0 * Power2(k);
  }

  /** With a price that increases in the volatility, an answer that is not a price match is within
      (HIGH - LOW) / 2^(rounds + 1) of the volatility that has the price. */
  lemma NearTheRoot(f: real -> real, price: real, vol: real, root: real, rounds: nat)
    requires Increasing(f) && LOW <= root <= HIGH && f(root) == price && Answers(f, price, vol, rounds)
    ensures || -TOLERANCE < f(vol) - price < TOLERANCE
            || Near(vol, root, rounds + 1)
  {
    if !(-TOLERANCE < f(vol) - price < TOLERANCE) {
      var low, high :| Bracket(f, price, low, high, rounds) && vol == (low + high) / 2.0;
      RootInBracket(f, price, low, high, root, rounds);
    }
  }

  lemma Between(low: real, high: real, root: real, p: real)
    requires low <= root <= high && p > 0.0
    ensures -((high - low) * p) <= ((low + high) / 2.0 - root) * (2.0 * p) <= (high - low) * p
  {
    var d := (low + high) - 2.0 * root;
    assert ((low + high) / 2.0 - root) * (2.0 * p) == d * p;
    assert (high - low - d) * p >= 0.0 && (high - low + d) * p >= 0.0;
    assert (high - low - d) * p == (high - low) * p - d * p;
    assert (high - low + d) * p == (high - low) * p + d * p;
  }
}
