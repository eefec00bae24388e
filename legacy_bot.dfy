/**
 * The earlier bot (main_original.py). Its rounding, grid levels and fill
 * handling are the same code as the current bot's and are modelled by
 * MainBot; its bootstrap differs: the balance check only warns, and a
 * failing balance fetch is not caught.
 */
module LegacyBot {
  import opened Wrappers
  import opened MainBot

  /**
   * `bootstrap_buys`: `ticker` is the last price, `None` when fetching it
   * failed; `balance` the free USDT in live mode, `None` when fetching it
   * raised, which escapes.
   */
  function LegacyBootstrap(cfg: Config, mkt: Market, mode: Mode, ticker: Option<real>, balance: Option<real>, accepts: BuyPlacer): Placement
    requires ValidGridArgs(cfg.low, cfg.high, cfg.stepPct)
  {
    if ticker.None? then Placement([], false)
    else if mode == Live && balance.None? then Placement([], true)
    else
      var cands := Candidates(GridLevels(cfg.low, cfg.high, cfg.stepPct), ticker.value);
      var free := if mode == Live then balance.value else cfg.maxCycleUsd;
      PlaceAll(Head(cands, MaxBootstrapOrders), cfg.maxCycleUsd, free, cfg, mkt, accepts)
  }

  /**
   * The two bootstraps agree except in two cases: a short balance, where
   * the current bot places nothing and the earlier one goes on, and a
   * failing balance fetch, which the current bot catches and the earlier
   * one lets escape.
   */
  lemma BootstrapsAgree(cfg: Config, mkt: Market, mode: Mode, ticker: Option<real>, balance: Option<real>, accepts: BuyPlacer)
    requires ValidGridArgs(cfg.low, cfg.high, cfg.stepPct)
    ensures ticker.Some? && mode == Live && balance.None? ==>
      LegacyBootstrap(cfg, mkt, mode, ticker, balance, accepts).raised
      && Bootstrap(cfg, mkt, mode, ticker, balance, accepts) == Placement([], false)
    ensures ticker.Some? && !(mode == Live && balance.None?) ==>
      var cands := Candidates(GridLevels(cfg.low, cfg.high, cfg.stepPct), ticker.value);
      var free := if mode == Live then balance.value else cfg.maxCycleUsd;
      (ShortOfFunds(|cands|, free, cfg) ==> Bootstrap(cfg, mkt, mode, ticker, balance, accepts) == Placement([], false))
      && (!ShortOfFunds(|cands|, free, cfg) ==>
          Bootstrap(cfg, mkt, mode, ticker, balance, accepts) == LegacyBootstrap(cfg, mkt, mode, ticker, balance, accepts))
    ensures mode == Paper ==> Bootstrap(cfg, mkt, mode, ticker, balance, accepts) == LegacyBootstrap(cfg, mkt, mode, ticker, balance, accepts)
  {
    if mode == Paper && ticker.Some? {
      var cands := Candidates(GridLevels(cfg.low, cfg.high, cfg.stepPct), ticker.value);
      PaperNeverShort(|cands|, cfg);
    }
  }

  /**
   * The earlier bootstrap keeps the same bounds as the current one: at most
   * seven orders, within the cycle budget, each positive, accepted and at
   * or below the last price.
   */
  lemma LegacyBootstrapBounds(cfg: Config, mkt: Market, mode: Mode, ticker: Option<real>, balance: Option<real>, accepts: BuyPlacer)
    requires ValidGridArgs(cfg.low, cfg.high, cfg.stepPct)
    ensures var p := LegacyBootstrap(cfg, mkt, mode, ticker, balance, accepts);
      |p.orders| <= MaxBootstrapOrders
      && (p.orders != [] ==> Spent(|p.orders|, cfg.baseOrderUsd) <= cfg.maxCycleUsd)
      && (p.orders != [] ==> ticker.Some? && OrdersWithin(p.orders, accepts, ticker.value, mkt))
  {
    if ticker.Some? && !(mode == Live && balance.None?) {
      var cands := Candidates(GridLevels(cfg.low, cfg.high, cfg.stepPct), ticker.value);
      var free := if mode == Live then balance.value else cfg.maxCycleUsd;
      HeadOfCandidates(GridLevels(cfg.low, cfg.high, cfg.stepPct), ticker.value, MaxBootstrapOrders);
      PlaceAllBudget(Head(cands, MaxBootstrapOrders), cfg.maxCycleUsd, free, cfg, mkt, accepts);
      PlaceAllWithin(Head(cands, MaxBootstrapOrders), cfg.maxCycleUsd, free, cfg, mkt, accepts, ticker.value);
    }
  }

  /** `bootstrap_buys` as the source runs it. */
  method BootstrapBuys(cfg: Config, mkt: Market, mode: Mode, ticker: Option<real>, balance: Option<real>, accepts: BuyPlacer)
    returns (placed: nat, orders: seq<BuyOrder>, raised: bool)
    requires ValidGridArgs(cfg.low, cfg.high, cfg.stepPct)
    ensures LegacyBootstrap(cfg, mkt, mode, ticker, balance, accepts) == Placement(orders, raised)
    ensures placed == |orders| <= MaxBootstrapOrders
  {
    placed, orders, raised := 0, [], false;
    if ticker.None? {
      return;
    }
    var levels := ComputeGridLevels(cfg.low, cfg.high, cfg.stepPct);
    var buyLevels := Candidates(levels, ticker.value);
    var usdtFree: real;
    if mode == Live {
      if balance.None? {
        raised := true;
        return;
      }
      usdtFree := balance.value;
    } else {
      usdtFree := cfg.maxCycleUsd;
    }
    // a short balance is only logged
    orders, raised := PlaceBuyOrders(Head(buyLevels, MaxBootstrapOrders), cfg.maxCycleUsd, usdtFree, cfg, mkt, accepts);
    LegacyBootstrapBounds(cfg, mkt, mode, ticker, balance, accepts);
    placed := |orders|;
  }
}
