/** The warning shown before a send, against the route the send will really take. */
module SecondCheck {
  import opened Wrappers
  import opened Keys
  import opened Spend
  import M = Money
  import B = Builders

  datatype SecondCheckReason = AboveDailyLimit | AboveRemaining | NoLimit

  datatype Warning = Warning(reason: SecondCheckReason, certain: bool)

  /** The limit an Account reports: not loaded, known to have none, or one. */
  datatype KnownLimit = Unloaded | Absent | Present(limit: B.SpendingLimit)

  function DescribeSecondCheck(known: KnownLimit, usdcMint: Key, amount: string): Option<Warning> {
    var raw := M.ToUsdcRaw(amount);
    if known.Unloaded? then None
    else if raw.None? || raw.value == 0 then None
    else if known.Absent? then Some(Warning(NoLimit, true))
    else if known.limit.mint != usdcMint then None
    else if raw.value > known.limit.maxPerUse then Some(Warning(AboveDailyLimit, true))
    else if raw.value > known.limit.remainingInPeriod then Some(Warning(AboveRemaining, false))
    else None
  }

  /** The route's reason, in the words of the warning. */
  function WarningFor(reason: Reason): Option<SecondCheckReason> {
    match reason
    case NoSpendingLimit => Some(NoLimit)
    case ExceedsPerUse => Some(AboveDailyLimit)
    case ExceedsRemaining => Some(AboveRemaining)
    case DifferentMint => None
    case DestinationNotAllowed => None
  }

  function Limits(known: KnownLimit): seq<B.SpendingLimit> {
    if known.Present? then [known.limit] else []
  }

  /**
   * With no limit, or one USDC limit that names no destinations, a USDC send of a
   * real amount is warned about exactly when its route takes two signatures, for
   * the route's own reason.
   */
  lemma WarnsAsRouted(known: KnownLimit, usdcMint: Key, amount: string, request: SpendRequest, aboveLimit: Key,
                      route: Route)
    requires !known.Unloaded?
    requires known.Present? ==> known.limit.mint == usdcMint && known.limit.destinations == []
    requires request.mint == usdcMint && request.amount > 0 && M.ToUsdcRaw(amount) == Some(request.amount)
    requires IsRoute(route, request, Limits(known), aboveLimit)
    ensures DescribeSecondCheck(known, usdcMint, amount).None? <==> route.LimitRoute?
    ensures route.TwoSignature? ==>
              Some(DescribeSecondCheck(known, usdcMint, amount).value.reason) == WarningFor(route.reason)
  {
    if known.Present? {
      var limits := Limits(known);
      assert limits[0] == known.limit;
      if Admits(limits[0], request) {
        assert AnyAdmits(limits, request);
      } else {
        assert !AnyAdmits(limits, request);
        assert LastInMint(limits, request.mint, |limits|, 0);
      }
    }
  }

  /** A limit naming destinations is where the two part: such a send is never warned of and may still need two. */
  lemma DestinationsGoUnwarned(known: KnownLimit, usdcMint: Key, amount: string, request: SpendRequest, aboveLimit: Key,
                               route: Route)
    requires known.Present? && known.limit.mint == usdcMint && request.mint == usdcMint
    requires request.amount > 0 && M.ToUsdcRaw(amount) == Some(request.amount)
    requires IsRoute(route, request, Limits(known), aboveLimit)
    ensures (DescribeSecondCheck(known, usdcMint, amount).None? && route.TwoSignature?)
       <==> (request.amount <= known.limit.maxPerUse && request.amount <= known.limit.remainingInPeriod
             && known.limit.destinations != [] && request.destination !in known.limit.destinations)
  {
    var limits := Limits(known);
    assert limits[0] == known.limit;
    if Admits(limits[0], request) {
      assert AnyAdmits(limits, request);
    } else {
      assert !AnyAdmits(limits, request);
    }
  }

  /** What is not known, or is no amount, or is no USDC limit's to say, is never warned of; nor is what fits. */
  lemma SilentIff(known: KnownLimit, usdcMint: Key, amount: string)
    ensures DescribeSecondCheck(known, usdcMint, amount).None? <==>
      || known.Unloaded? || M.ToUsdcRaw(amount) == None || M.ToUsdcRaw(amount) == Some(0)
      || (known.Present?
          && (known.limit.mint != usdcMint
              || (M.ToUsdcRaw(amount).value <= known.limit.maxPerUse
                  && M.ToUsdcRaw(amount).value <= known.limit.remainingInPeriod)))
  {
  }

  /** The limit as it would be with some other sum left of its period. */
  function Refilled(known: KnownLimit, left: nat): KnownLimit {
    if known.Present? then Present(known.limit.(remainingInPeriod := left)) else known
  }

  /** A warning is certain exactly when it would be given whatever is left of the period, which a refill can change. */
  lemma CertainIff(known: KnownLimit, usdcMint: Key, amount: string)
    requires DescribeSecondCheck(known, usdcMint, amount).Some?
    ensures DescribeSecondCheck(known, usdcMint, amount).value.certain
       <==> forall left: nat :: DescribeSecondCheck(Refilled(known, left), usdcMint, amount).Some?
  {
    if known.Present? {
      var left := M.ToUsdcRaw(amount).value;
      assert DescribeSecondCheck(Refilled(known, left), usdcMint, amount).Some? <==> left > known.limit.maxPerUse;
    }
  }
}
