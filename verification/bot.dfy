/** The chat-bot side: the `/monitor` toggle, the on-demand reply to a
    strategy button, and one pass of the periodic monitoring job. Message text
    is abstracted to a list of items (section headers and listed
    opportunities with their "recommended" tag). */
module Bot {
  import opened Market
  import opened Ranking
  import opened Arbitrage
  import opened Predictor

  type UserId = int

  /* ---------------------------------------------------------------------- */
  /* Monitoring registry                                                    */
  /* ---------------------------------------------------------------------- */

  /** The confirmation `/monitor` sends back. */
  datatype Ack = MonitoringOn | MonitoringOff

  /** `/monitor`: adds an absent user, removes a present one. */
  function Toggle(users: set<UserId>, u: UserId): (r: (set<UserId>, Ack))
    ensures u in r.0 <==> u !in users
    ensures forall x :: x != u ==> (x in r.0 <==> x in users)
    ensures r.1 == MonitoringOn <==> u in r.0
  {
    if u !in users then (users + {u}, MonitoringOn) else (users - {u}, MonitoringOff)
  }

  lemma ToggleTwiceRestores(users: set<UserId>, u: UserId)
    ensures Toggle(Toggle(users, u).0, u).0 == users
  {
  }

  /* ---------------------------------------------------------------------- */
  /* Inputs of one handler run                                              */
  /* ---------------------------------------------------------------------- */

  /** The spread predictor as the handlers see it: the stored history of every
      (venue, symbol) and the regressor. */
  datatype Advisor = Advisor(history: (VenueId, Symbol) -> History, reg: Regressor)

  /** What the gateways answered during one symbol's turn: the price
      collection made by the handler itself, the one made inside the
      cross-venue calculation, the tickers read by the triangular loops, and
      the Binance peer-to-peer price. */
  datatype Round = Round(symbol: Symbol,
                         first: VenueId -> Reading,
                         second: VenueId -> Reading,
                         tickers: (VenueId, Symbol) -> Option<Ticker>,
                         p2p: Option<real>)

  /** `amount=1` of the cross-venue calls. */
  const TradeAmount: real := 1.0

  /** `amount=10000` of the peer-to-peer calls. */
  const P2PAmount: real := 10000.0

  /** Opportunities listed per symbol on demand. */
  const ListingWindow: nat := 3

  /** A monitoring alert needs a best opportunity above this percentage. */
  const AlertThreshold: real := 1.0

  /** The venues the triangular part of the monitoring job walks through. */
  const MonitoredVenues: seq<VenueId> := ["binance", "bybit", "okx", "kraken", "kucoin"]

  /** The at most `n` first elements. */
  function Take<T>(s: seq<T>, n: nat): (r: seq<T>)
    ensures |r| == if |s| < n then |s| else n
    ensures r <= s
  {
    if |s| <= n then s else s[..n]
  }

  lemma SnapshotOfConfig(config: Config, read: VenueId -> Reading)
    requires WellFormed(config)
    ensures DistinctVenues(FetchPrices(config.venues, read))
  {
  }

  /** Only cross-venue opportunities. */
  predicate CrossVenueOnly(ops: seq<Opportunity>) {
    forall i :: 0 <= i < |ops| ==> ops[i].CrossVenue?
  }

  lemma CrossVenueOnlyTake(ops: seq<Opportunity>, n: nat)
    requires CrossVenueOnly(ops)
    ensures CrossVenueOnly(Take(ops, n))
  {
    var top := Take(ops, n);
    assert forall i :: 0 <= i < |top| ==> top[i] == ops[i];
  }

  lemma CrossVenueOnlyAppend(a: seq<Opportunity>, b: seq<Opportunity>)
    requires CrossVenueOnly(a) && CrossVenueOnly(b)
    ensures CrossVenueOnly(a + b)
  {
    forall i | 0 <= i < |a + b|
      ensures (a + b)[i].CrossVenue?
    {
      if i >= |a| {
        assert (a + b)[i] == b[i - |a|];
      }
    }
  }

  /** The handler's own price dictionary, used only for the predictor checks. */
  function PricesShown(config: Config, round: Round): Snapshot {
    FetchPrices(config.venues, round.first)
  }

  /** `calculate_inter_exchange_arbitrage(symbol, amount=1)` on the second collection. */
  function RankedCross(config: Config, round: Round): (r: seq<Opportunity>)
    requires WellFormed(config)
    ensures SortedDesc(r)
    ensures CrossVenueOnly(r)
  {
    var s := FetchPrices(config.venues, round.second);
    SnapshotOfConfig(config, round.second);
    CrossVenueSound(s, TradeAmount, config.fees);
    var r := CalculateCrossVenue(s, TradeAmount, config.fees);
    assert forall i :: 0 <= i < |r| ==> IsCrossOpportunity(s, TradeAmount, config.fees, r[i]);
    r
  }

  /* ---------------------------------------------------------------------- */
  /* Predictor annotation                                                   */
  /* ---------------------------------------------------------------------- */

  /** `predictor.is_profitable(venue, symbol, data) if data else False`, with
      `data = prices.get(venue, {})`: a venue missing from the dictionary is
      never approved and never reaches the predictor. */
  function VenueApproves(adv: Advisor, prices: Snapshot, venue: VenueId, symbol: Symbol): (r: Outcome<bool>)
    ensures Lookup(prices, venue).None? ==> r == Ok(false)
    ensures Lookup(prices, venue).Some? ==>
              r == IsProfitable(adv.history(venue, symbol), adv.reg, Lookup(prices, venue).value)
  {
    match Lookup(prices, venue)
    case None => Ok(false)
    case Some(q) => IsProfitable(adv.history(venue, symbol), adv.reg, q)
  }

  /** `buy_pred or sell_pred`: the buy venue is checked first and an exception
      from either check propagates. */
  function Recommend(adv: Advisor, prices: Snapshot, symbol: Symbol, op: Opportunity): (r: Outcome<bool>)
    requires op.CrossVenue?
    ensures Lookup(prices, op.buyVenue).None? && Lookup(prices, op.sellVenue).None? ==> r == Ok(false)
    ensures r.Raised? <==> VenueApproves(adv, prices, op.buyVenue, symbol).Raised?
                           || VenueApproves(adv, prices, op.sellVenue, symbol).Raised?
    ensures r == Ok(true) <==> (VenueApproves(adv, prices, op.buyVenue, symbol) == Ok(true)
                                && VenueApproves(adv, prices, op.sellVenue, symbol).Ok?)
                               || (VenueApproves(adv, prices, op.buyVenue, symbol) == Ok(false)
                                   && VenueApproves(adv, prices, op.sellVenue, symbol) == Ok(true))
  {
    match VenueApproves(adv, prices, op.buyVenue, symbol)
    case Raised(e) => Raised(e)
    case Ok(buyPred) =>
      match VenueApproves(adv, prices, op.sellVenue, symbol)
      case Raised(e) => Raised(e)
      case Ok(sellPred) => Ok(buyPred || sellPred)
  }

  /* ---------------------------------------------------------------------- */
  /* Message items                                                          */
  /* ---------------------------------------------------------------------- */

  datatype Section = CrossSection(symbol: Symbol) | TriangularSection(venue: VenueId) | P2PSection

  /** One piece of a message: a section header, an opportunity with or without
      the "[AI рекомендує]" tag, or a bare blank line. */
  datatype Item = Header(section: Section) | Listed(op: Opportunity, recommended: bool) | Blank

  /** The opportunities a message lists, in order. */
  function OpsOf(items: seq<Item>): seq<Opportunity> {
    if items == [] then []
    else (if items[0].Listed? then [items[0].op] else []) + OpsOf(items[1..])
  }

  lemma {:induction false} OpsOfAppend(a: seq<Item>, b: seq<Item>)
    ensures OpsOf(a + b) == OpsOf(a) + OpsOf(b)
  {
    if a == [] {
      assert a + b == b;
    } else {
      var head := if a[0].Listed? then [a[0].op] else [];
      assert (a + b)[0] == a[0];
      assert (a + b)[1..] == a[1..] + b;
      OpsOfAppend(a[1..], b);
      assert OpsOf(a + b) == head + (OpsOf(a[1..]) + OpsOf(b));
      ConcatAssoc(head, OpsOf(a[1..]), OpsOf(b));
    }
  }

  /** Lists opportunities without any tag. */
  function Plain(ops: seq<Opportunity>): (items: seq<Item>)
    ensures |items| == |ops|
    ensures forall i :: 0 <= i < |ops| ==> items[i] == Listed(ops[i], false)
  {
    if ops == [] then [] else [Listed(ops[0], false)] + Plain(ops[1..])
  }

  /** Runs two steps in order: the second only if the first returned. */
  function Then(a: Outcome<seq<Item>>, b: Outcome<seq<Item>>): (r: Outcome<seq<Item>>)
    ensures r.Ok? <==> a.Ok? && b.Ok?
    ensures r.Ok? ==> r.value == a.value + b.value
    ensures r.Raised? ==> r.error == if a.Raised? then a.error else b.error
  {
    match a
    case Raised(e) => Raised(e)
    case Ok(x) =>
      match b
      case Raised(e) => Raised(e)
      case Ok(y) => Ok(x + y)
  }

  /* ---------------------------------------------------------------------- */
  /* On-demand reply                                                        */
  /* ---------------------------------------------------------------------- */

  /** Lists each opportunity with its predictor tag. */
  function Annotate(adv: Advisor, prices: Snapshot, symbol: Symbol, ops: seq<Opportunity>): (r: Outcome<seq<Item>>)
    requires CrossVenueOnly(ops)
    ensures r.Ok? ==> |r.value| == |ops|
    ensures r.Ok? ==> forall i :: 0 <= i < |ops| ==>
              Recommend(adv, prices, symbol, ops[i]).Ok?
              && r.value[i] == Listed(ops[i], Recommend(adv, prices, symbol, ops[i]).value)
    ensures r.Raised? <==> exists i :: 0 <= i < |ops| && Recommend(adv, prices, symbol, ops[i]).Raised?
  {
    if ops == [] then Ok([])
    else
      var rest := Annotate(adv, prices, symbol, ops[1..]);
      assert forall i :: 1 <= i < |ops| ==> ops[1..][i - 1] == ops[i];
      assert forall i :: 0 <= i < |ops| - 1 ==> ops[1..][i] == ops[i + 1];
      match Recommend(adv, prices, symbol, ops[0])
      case Raised(e) => Raised(e)
      case Ok(rec) =>
        match rest
        case Raised(e) => Raised(e)
        case Ok(items) =>
          var all := [Listed(ops[0], rec)] + items;
          assert forall i :: 1 <= i < |all| ==> all[i] == items[i - 1];
          Ok(all)
  }

  lemma {:induction false} AnnotatedOps(items: seq<Item>, ops: seq<Opportunity>)
    requires |items| == |ops|
    requires forall i :: 0 <= i < |ops| ==> items[i].Listed? && items[i].op == ops[i]
    ensures OpsOf(items) == ops
  {
    if items != [] {
      AnnotatedOps(items[1..], ops[1..]);
    }
  }

  /** Every item is a listed opportunity. */
  predicate AllListed(items: seq<Item>) {
    forall i :: 0 <= i < |items| ==> items[i].Listed?
  }

  lemma AllListedAppend(a: seq<Item>, b: seq<Item>)
    requires AllListed(a) && AllListed(b)
    ensures AllListed(a + b)
  {
    forall i | 0 <= i < |a + b|
      ensures (a + b)[i].Listed?
    {
      if i >= |a| {
        assert (a + b)[i] == b[i - |a|];
      }
    }
  }

  /** One symbol's part of the cross-venue reply: its best `ListingWindow`
      opportunities in rank order, each with its predictor tag. */
  function SymbolListing(ranked: seq<Opportunity>, adv: Advisor, prices: Snapshot, symbol: Symbol): (r: Outcome<seq<Item>>)
    requires CrossVenueOnly(ranked)
    ensures r.Ok? ==> AllListed(r.value)
    ensures r.Ok? ==> OpsOf(r.value) == Take(ranked, ListingWindow)
    ensures ranked == [] ==> r == Ok([])
    ensures var top := Take(ranked, ListingWindow);
            r.Raised? <==> exists i :: 0 <= i < |top| && Recommend(adv, prices, symbol, top[i]).Raised?
    ensures var top := Take(ranked, ListingWindow);
            r.Ok? ==> |r.value| == |top| && forall i :: 0 <= i < |top| ==> r.value[i] == Listed(top[i], Recommend(adv, prices, symbol, top[i]).value)
  {
    var top := Take(ranked, ListingWindow);
    CrossVenueOnlyTake(ranked, ListingWindow);
    var r := Annotate(adv, prices, symbol, top);
    if r.Ok? then
      AnnotatedOps(r.value, top);
      r
    else r
  }

  /** One symbol's part of the cross-venue reply for one turn. */
  function RoundListing(config: Config, adv: Advisor, round: Round): Outcome<seq<Item>>
    requires WellFormed(config)
  {
    SymbolListing(RankedCross(config, round), adv, PricesShown(config, round), round.symbol)
  }

  /** The opportunities the on-demand cross-venue reply lists: the best
      `ListingWindow` of every symbol, symbol by symbol. */
  function Shown(config: Config, rounds: seq<Round>): (ops: seq<Opportunity>)
    requires WellFormed(config)
    ensures |ops| <= ListingWindow * |rounds|
    ensures CrossVenueOnly(ops)
    ensures rounds != [] ==> ops == Take(RankedCross(config, rounds[0]), ListingWindow) + Shown(config, rounds[1..])
  {
    if rounds == [] then []
    else
      var ranked := RankedCross(config, rounds[0]);
      var top := Take(ranked, ListingWindow);
      var rest := Shown(config, rounds[1..]);
      CrossVenueOnlyTake(ranked, ListingWindow);
      CrossVenueOnlyAppend(top, rest);
      top + rest
  }

  /** The cross-venue button: each symbol's best three opportunities, each
      listed whatever the predictor says; the predictor only sets the tag. */
  function InterListing(config: Config, adv: Advisor, rounds: seq<Round>): (r: Outcome<seq<Item>>)
    requires WellFormed(config)
    ensures r.Ok? ==> AllListed(r.value)
    ensures r.Ok? ==> OpsOf(r.value) == Shown(config, rounds)
    ensures Shown(config, rounds) == [] ==> r == Ok([])
    ensures r.Raised? <==> exists k :: 0 <= k < |rounds| && RoundListing(config, adv, rounds[k]).Raised?
    ensures r.Ok? && rounds != [] ==>
              && RoundListing(config, adv, rounds[0]).Ok? && InterListing(config, adv, rounds[1..]).Ok?
              && r.value == RoundListing(config, adv, rounds[0]).value + InterListing(config, adv, rounds[1..]).value
  {
    if rounds == [] then Ok([])
    else
      var ranked := RankedCross(config, rounds[0]);
      var here := RoundListing(config, adv, rounds[0]);
      var rest := InterListing(config, adv, rounds[1..]);
      ExistsCons(rounds, round => WellFormed(config) && RoundListing(config, adv, round).Raised?);
      assert Shown(config, rounds) == Take(ranked, ListingWindow) + Shown(config, rounds[1..]);
      if here.Ok? && rest.Ok? then
        OpsOfAppend(here.value, rest.value);
        AllListedAppend(here.value, rest.value);
        Then(here, rest)
      else Then(here, rest)
  }

  /** The three strategy buttons. */
  datatype Request = InterRequest | IntraRequest | P2PRequest

  /** The on-demand reply: the listing, the "no opportunities" text when
      nothing was appended after the title, or the generic error text. */
  datatype Reply = NoOpportunities | Report(items: seq<Item>) | ErrorReply

  /** What `handle_arbitrage_type` appends after the title line. The triangular
      branch reads `symbol`, which only the cross-venue branch binds, so it
      always raises. */
  function RequestBody(config: Config, adv: Advisor, req: Request, rounds: seq<Round>, p2p: Option<real>): (r: Outcome<seq<Item>>)
    requires WellFormed(config)
    ensures req == IntraRequest ==> r == Raised(NameError)
    ensures req == InterRequest ==> r == InterListing(config, adv, rounds)
    ensures req == InterRequest ==>
              (r.Raised? <==> exists k :: 0 <= k < |rounds| && RoundListing(config, adv, rounds[k]).Raised?)
    ensures req == InterRequest && r.Ok? ==> OpsOf(r.value) == Shown(config, rounds)
    ensures req == P2PRequest ==>
              r.Ok? && OpsOf(r.value) == Take(CalculateP2P(FetchP2P(config.venues, p2p), P2PAmount), ListingWindow)
  {
    match req
    case InterRequest => InterListing(config, adv, rounds)
    case IntraRequest => Raised(NameError)
    case P2PRequest =>
      var ops := CalculateP2P(FetchP2P(config.venues, p2p), P2PAmount);
      if ops == [] then Ok([])
      else
        var listed := Plain(Take(ops, ListingWindow));
        AnnotatedOps(listed, Take(ops, ListingWindow));
        assert ([Header(P2PSection)] + listed)[1..] == listed;
        Ok([Header(P2PSection)] + listed)
  }

  /** `handle_arbitrage_type`. */
  function HandleRequest(config: Config, adv: Advisor, req: Request, rounds: seq<Round>, p2p: Option<real>): (r: Reply)
    requires WellFormed(config)
    ensures req == IntraRequest ==> r == ErrorReply
    ensures req == P2PRequest ==> r == NoOpportunities
    ensures req == InterRequest && Shown(config, rounds) == [] ==> r == NoOpportunities
    ensures req == InterRequest && r.Report? ==> OpsOf(r.items) == Shown(config, rounds) != []
    ensures req == InterRequest ==>
              (r == ErrorReply <==> exists k :: 0 <= k < |rounds| && RoundListing(config, adv, rounds[k]).Raised?)
    ensures req == InterRequest && r.Report? ==> r.items == InterListing(config, adv, rounds).value
    ensures r == NoOpportunities <==> RequestBody(config, adv, req, rounds, p2p) == Ok([])
  {
    P2PSingleVenueNeverReports(config.venues, p2p, P2PAmount);
    match RequestBody(config, adv, req, rounds, p2p)
    case Raised(_) => ErrorReply
    case Ok(items) =>
      if items == [] then NoOpportunities
      else
        assert req == InterRequest ==> OpsOf(items) == Shown(config, rounds);
        Report(items)
  }

  /* ---------------------------------------------------------------------- */
  /* Monitoring job                                                         */
  /* ---------------------------------------------------------------------- */

  /** Every listed opportunity clears the alert threshold. */
  predicate AboveThreshold(items: seq<Item>) {
    forall i :: 0 <= i < |items| && items[i].Listed? ==> items[i].op.profitPercent > AlertThreshold
  }

  /** The cross-venue alert of one symbol, from its ranked opportunities, as
      the code builds it. When the best opportunity earns more than 1 %, the
      alert is a header and then either that opportunity tagged "recommended",
      when the predictor approves, or a bare blank line: the three detail lines
      and the tag form one implicit string concatenation, which binds tighter
      than the conditional expression around it. */
  function InterAlert(ranked: seq<Opportunity>, adv: Advisor, prices: Snapshot, symbol: Symbol): (r: Outcome<seq<Item>>)
    requires CrossVenueOnly(ranked)
    ensures r.Raised? <==> ranked != [] && ranked[0].profitPercent > AlertThreshold
                           && Recommend(adv, prices, symbol, ranked[0]).Raised?
    ensures r.Ok? ==> AboveThreshold(r.value)
    ensures r.Ok? ==> (r.value != [] <==> ranked != [] && ranked[0].profitPercent > AlertThreshold)
    ensures r.Ok? && r.value != [] ==>
              && ranked != [] && Recommend(adv, prices, symbol, ranked[0]).Ok?
              && |r.value| == 2 && r.value[0] == Header(CrossSection(symbol))
              && OpsOf(r.value) == if Recommend(adv, prices, symbol, ranked[0]).value then [ranked[0]] else []
  {
    if ranked == [] || ranked[0].profitPercent <= AlertThreshold then Ok([])
    else
      match Recommend(adv, prices, symbol, ranked[0])
      case Raised(e) => Raised(e)
      case Ok(rec) =>
        var last := if rec then Listed(ranked[0], true) else Blank;
        var items := [Header(CrossSection(symbol)), last];
        assert items[1..] == [last] && items[1..][1..] == [];
        assert OpsOf(items) == OpsOf([last]);
        Ok(items)
  }

  /** The cross-venue alert as evidently intended: the header and the best
      opportunity, tagged with the predictor's verdict, when it earns more
      than 1 %. */
  function IntendedInterAlert(ranked: seq<Opportunity>, adv: Advisor, prices: Snapshot, symbol: Symbol): (r: Outcome<seq<Item>>)
    requires CrossVenueOnly(ranked)
    ensures r.Ok? ==> AboveThreshold(r.value)
    ensures r.Ok? && r.value != [] ==> |r.value| == 2 && r.value[0] == Header(CrossSection(symbol))
  {
    if ranked == [] || ranked[0].profitPercent <= AlertThreshold then Ok([])
    else
      match Recommend(adv, prices, symbol, ranked[0])
      case Raised(e) => Raised(e)
      case Ok(rec) => Ok([Header(CrossSection(symbol)), Listed(ranked[0], rec)])
  }

  /** The intended alert is sent exactly when the best opportunity earns more
      than 1 %, and it lists that opportunity, which no other one beats, with
      the predictor's verdict as its tag. */
  lemma InterAlertShowsBest(ranked: seq<Opportunity>, adv: Advisor, prices: Snapshot, symbol: Symbol)
    requires SortedDesc(ranked) && CrossVenueOnly(ranked)
    requires IntendedInterAlert(ranked, adv, prices, symbol).Ok?
    ensures IntendedInterAlert(ranked, adv, prices, symbol).value != [] <==>
              ranked != [] && ranked[0].profitPercent > AlertThreshold
    ensures var items := IntendedInterAlert(ranked, adv, prices, symbol).value;
            items != [] ==>
              && items[1] == Listed(ranked[0], Recommend(adv, prices, symbol, ranked[0]).value)
              && forall i :: 0 <= i < |ranked| ==> ranked[i].profitPercent <= items[1].op.profitPercent
  {
  }

  /** Without a recommendation the alert as written is a bare header: the
      opportunity itself is not shown. With one it is the intended alert. */
  lemma PrecedenceDropsDetails(ranked: seq<Opportunity>, adv: Advisor, prices: Snapshot, symbol: Symbol, rec: bool)
    requires CrossVenueOnly(ranked)
    requires ranked != [] && ranked[0].profitPercent > AlertThreshold
    requires Recommend(adv, prices, symbol, ranked[0]) == Ok(rec)
    ensures !rec ==> InterAlert(ranked, adv, prices, symbol) == Ok([Header(CrossSection(symbol)), Blank])
    ensures !rec ==> OpsOf(InterAlert(ranked, adv, prices, symbol).value) == []
    ensures rec ==> InterAlert(ranked, adv, prices, symbol) == IntendedInterAlert(ranked, adv, prices, symbol)
  {
  }

  /** The symbols one triangular check asks for: `[symbol, 'ETH/USDT', 'BTC/ETH']`. */
  function TriangleSymbolsFor(symbol: Symbol): seq<Symbol> {
    [symbol, EthUsdt, BtcEth]
  }

  /** The tickers venue `v` answered during a turn. */
  function TickersAt(round: Round, v: VenueId): Symbol -> Option<Ticker> {
    s => round.tickers(v, s)
  }

  /** A venue's triangular alert: header and the single opportunity, when it
      earns more than 1 %. */
  function TriangularAlertOf(venue: VenueId, ops: seq<Opportunity>): (items: seq<Item>)
    ensures AboveThreshold(items)
    ensures items != [] <==> ops != [] && ops[0].profitPercent > AlertThreshold
    ensures items != [] ==> OpsOf(items) == [ops[0]]
  {
    if ops != [] && ops[0].profitPercent > AlertThreshold then
      var items := [Header(TriangularSection(venue)), Listed(ops[0], false)];
      assert items[1..] == [Listed(ops[0], false)];
      assert OpsOf(items[1..]) == [ops[0]] + OpsOf(items[1..][1..]);
      items
    else []
  }

  /** The result of the triangular loop venue `v` runs during a turn. */
  function VenueLoop(config: Config, round: Round, v: VenueId): seq<Opportunity> {
    TriangularLoop(config.fees, v, TriangleSymbolsFor(round.symbol), TickersAt(round, v))
  }

  /** Venue `v` has an exchange client and its loop earns more than 1 %. */
  predicate LoopAlerts(config: Config, round: Round, v: VenueId) {
    v in config.venues && VenueLoop(config, round, v) != [] && VenueLoop(config, round, v)[0].profitPercent > AlertThreshold
  }

  /** The opportunity venue `v` should alert on during a turn, if any. */
  function VenueOps(config: Config, round: Round, v: VenueId): seq<Opportunity> {
    if LoopAlerts(config, round, v) then [VenueLoop(config, round, v)[0]] else []
  }

  /** One venue's part of the intended triangular alerts: nothing for a venue
      without an exchange client. */
  function IntendedVenueAlert(config: Config, round: Round, v: VenueId): (items: seq<Item>)
    ensures AboveThreshold(items)
    ensures OpsOf(items) == if LoopAlerts(config, round, v) then [VenueLoop(config, round, v)[0]] else []
  {
    if v in config.venues then TriangularAlertOf(v, VenueLoop(config, round, v)) else []
  }

  /** The triangular alerts over `venues` as evidently intended: a venue
      without an exchange client contributes nothing, and every other venue
      whose loop earns more than 1 % contributes that opportunity. */
  function IntendedTriangularAlerts(config: Config, round: Round, venues: seq<VenueId>): (items: seq<Item>)
    ensures AboveThreshold(items)
    ensures round.symbol != BtcUsdt ==> items == []
    ensures forall o :: o in OpsOf(items) <==> exists v :: v in venues && o in VenueOps(config, round, v)
  {
    if venues == [] then []
    else
      var v := venues[0];
      var here := IntendedVenueAlert(config, round, v);
      var rest := IntendedTriangularAlerts(config, round, venues[1..]);
      assert forall i :: |here| <= i < |here + rest| ==> (here + rest)[i] == rest[i - |here|];
      OpsOfAppend(here, rest);
      PickCons(venues, v => VenueOps(config, round, v), OpsOf(here), OpsOf(rest));
      here + rest
  }

  /** The triangular alerts over `venues` as written: `self.exchanges[ex_name]`
      comes before the `try`, so the first venue without a client raises
      `KeyError`; when every venue has one, the alerts are the intended ones. */
  function TriangularAlerts(config: Config, round: Round, venues: seq<VenueId>): (r: Outcome<seq<Item>>)
    ensures r.Raised? <==> exists v :: v in venues && v !in config.venues
    ensures r.Raised? ==> r.error == KeyError
    ensures r.Ok? ==> r.value == IntendedTriangularAlerts(config, round, venues)
    ensures r.Ok? ==> AboveThreshold(r.value)
    ensures r.Ok? && round.symbol != BtcUsdt ==> r.value == []
  {
    if venues == [] then Ok([])
    else
      var v := venues[0];
      InCons(venues);
      match CalculateTriangular(config, v, TriangleSymbolsFor(round.symbol), TickersAt(round, v))
      case Raised(e) => Raised(e)
      case Ok(ops) => Then(Ok(TriangularAlertOf(v, ops)), TriangularAlerts(config, round, venues[1..]))
  }

  /** The peer-to-peer alert of one symbol's turn. */
  function P2PAlert(config: Config, round: Round): (items: seq<Item>)
    ensures AboveThreshold(items)
  {
    var ops := CalculateP2P(FetchP2P(config.venues, round.p2p), P2PAmount);
    if ops != [] && ops[0].profitPercent > AlertThreshold then [Header(P2PSection), Listed(ops[0], false)] else []
  }

  /** With a single peer-to-peer venue the monitoring job never reports one. */
  lemma P2PAlertNeverSent(config: Config, round: Round)
    ensures P2PAlert(config, round) == []
  {
    P2PSingleVenueNeverReports(config.venues, round.p2p, P2PAmount);
  }

  lemma AboveThresholdAppend(a: seq<Item>, b: seq<Item>)
    requires AboveThreshold(a) && AboveThreshold(b)
    ensures AboveThreshold(a + b)
  {
    forall i | 0 <= i < |a + b| && (a + b)[i].Listed?
      ensures (a + b)[i].op.profitPercent > AlertThreshold
    {
      if i >= |a| {
        assert (a + b)[i] == b[i - |a|];
      }
    }
  }

  /** The cross-venue alert of one symbol's turn of the monitoring job, as
      written: it shows at most the pair's best opportunity. */
  function CrossAlert(config: Config, adv: Advisor, round: Round): (r: Outcome<seq<Item>>)
    requires WellFormed(config)
    ensures r.Ok? ==> AboveThreshold(r.value)
    ensures r.Ok? && OpsOf(r.value) != [] ==>
              RankedCross(config, round) != [] && OpsOf(r.value) == [RankedCross(config, round)[0]]
    ensures r.Raised? ==> RankedCross(config, round) != [] && RankedCross(config, round)[0].profitPercent > AlertThreshold
  {
    InterAlert(RankedCross(config, round), adv, PricesShown(config, round), round.symbol)
  }

  /** The cross-venue alert of one symbol's turn as evidently intended. */
  function IntendedCrossAlert(config: Config, adv: Advisor, round: Round): (r: Outcome<seq<Item>>)
    requires WellFormed(config)
    ensures r.Ok? ==> AboveThreshold(r.value)
  {
    IntendedInterAlert(RankedCross(config, round), adv, PricesShown(config, round), round.symbol)
  }

  /** One symbol's turn of the monitoring job as written: cross-venue, then
      the five triangular venues, then peer-to-peer. It raises when the
      predictor check raises or when a monitored venue has no exchange client. */
  function RoundAlerts(config: Config, adv: Advisor, round: Round): (r: Outcome<seq<Item>>)
    requires WellFormed(config)
    ensures r.Raised? <==> CrossAlert(config, adv, round).Raised?
                           || exists v :: v in MonitoredVenues && v !in config.venues
    ensures r.Ok? ==> AboveThreshold(r.value)
    ensures r.Ok? ==> r.value == CrossAlert(config, adv, round).value
                                 + TriangularAlerts(config, round, MonitoredVenues).value
  {
    var inter := CrossAlert(config, adv, round);
    var triangular := TriangularAlerts(config, round, MonitoredVenues);
    P2PAlertNeverSent(config, round);
    var r := Then(inter, Then(triangular, Ok(P2PAlert(config, round))));
    if r.Ok? then
      assert triangular.value + [] == triangular.value;
      AboveThresholdAppend(inter.value, triangular.value);
      r
    else r
  }

  /** One symbol's turn as evidently intended: both corrections applied. */
  function IntendedRoundAlerts(config: Config, adv: Advisor, round: Round): (r: Outcome<seq<Item>>)
    requires WellFormed(config)
    ensures r.Ok? ==> AboveThreshold(r.value)
    ensures r.Raised? <==> IntendedCrossAlert(config, adv, round).Raised?
    ensures r.Ok? ==> OpsOf(r.value) == OpsOf(IntendedCrossAlert(config, adv, round).value)
                                        + OpsOf(IntendedTriangularAlerts(config, round, MonitoredVenues))
    ensures r.Ok? ==> |IntendedTriangularAlerts(config, round, MonitoredVenues)| <= |r.value|
  {
    var inter := IntendedCrossAlert(config, adv, round);
    var triangular := IntendedTriangularAlerts(config, round, MonitoredVenues);
    var rest := triangular + P2PAlert(config, round);
    P2PAlertNeverSent(config, round);
    assert rest == triangular;
    if inter.Ok? then
      AboveThresholdAppend(inter.value, rest);
      OpsOfAppend(inter.value, rest);
      Then(inter, Ok(rest))
    else Then(inter, Ok(rest))
  }

  /** Runs the steps in order; the first one that raises ends the run. */
  function Sequence(steps: seq<Outcome<seq<Item>>>): (r: Outcome<seq<Item>>)
    ensures r.Raised? <==> exists k :: 0 <= k < |steps| && steps[k].Raised?
  {
    if steps == [] then Ok([])
    else
      var rest := Sequence(steps[1..]);
      assert forall k :: 1 <= k < |steps| ==> steps[k] == steps[1..][k - 1];
      Then(steps[0], rest)
  }

  /** Every step returned. */
  predicate AllReturned(steps: seq<Outcome<seq<Item>>>) {
    forall k :: 0 <= k < |steps| ==> steps[k].Ok?
  }

  /** The items a step contributed: none when it raised. */
  function ItemsOf(step: Outcome<seq<Item>>): seq<Item> {
    if step.Ok? then step.value else []
  }

  /** The items of the steps, one step after the other. */
  function Joined(steps: seq<Outcome<seq<Item>>>): seq<Item> {
    if steps == [] then [] else Joined(steps[..|steps| - 1]) + ItemsOf(steps[|steps| - 1])
  }

  lemma {:induction false} JoinedAppend(a: seq<Outcome<seq<Item>>>, b: seq<Outcome<seq<Item>>>)
    ensures Joined(a + b) == Joined(a) + Joined(b)
  {
    if b == [] {
      assert a + b == a;
    } else {
      var init, last := b[..|b| - 1], b[|b| - 1];
      assert (a + b)[..|a + b| - 1] == a + init;
      assert (a + b)[|a + b| - 1] == last;
      JoinedAppend(a, init);
      ConcatAssoc(Joined(a), Joined(init), ItemsOf(last));
    }
  }

  lemma JoinedSingle(step: Outcome<seq<Item>>)
    ensures Joined([step]) == ItemsOf(step)
  {
    assert [step][..0] == [];
  }

  lemma JoinedAround(before: seq<Outcome<seq<Item>>>, step: Outcome<seq<Item>>, after: seq<Outcome<seq<Item>>>)
    ensures Joined(before + [step] + after) == Joined(before) + ItemsOf(step) + Joined(after)
  {
    JoinedSingle(step);
    JoinedAppend(before, [step]);
    JoinedAppend(before + [step], after);
  }

  /** Each step's items appear whole, in step order, in the joined items. */
  lemma JoinedPart(steps: seq<Outcome<seq<Item>>>, k: int)
    requires 0 <= k < |steps|
    ensures Joined(steps) == Joined(steps[..k]) + ItemsOf(steps[k]) + Joined(steps[k + 1..])
  {
    SplitAt(steps, k);
    JoinedAround(steps[..k], steps[k], steps[k + 1..]);
  }

  /** A run completes exactly when every step returned, and then it holds
      every step's items, one step after the other. */
  lemma {:induction false} SequenceHolds(steps: seq<Outcome<seq<Item>>>)
    ensures Sequence(steps).Ok? <==> AllReturned(steps)
    ensures Sequence(steps).Ok? ==> Sequence(steps).value == Joined(steps)
  {
    if steps != [] && Sequence(steps).Ok? {
      var rest := steps[1..];
      assert forall k :: 1 <= k < |steps| ==> steps[k] == rest[k - 1];
      SequenceHolds(rest);
      JoinedSingle(steps[0]);
      JoinedAppend([steps[0]], rest);
      assert steps == [steps[0]] + rest;
    }
  }

  /** A completed run lists only opportunities above the threshold when every
      step does. */
  lemma {:induction false} SequenceAbove(steps: seq<Outcome<seq<Item>>>)
    requires forall k :: 0 <= k < |steps| && steps[k].Ok? ==> AboveThreshold(steps[k].value)
    ensures Sequence(steps).Ok? ==> AboveThreshold(Sequence(steps).value)
  {
    if steps != [] {
      assert forall k :: 1 <= k < |steps| ==> steps[k] == steps[1..][k - 1];
      SequenceAbove(steps[1..]);
      if Sequence(steps).Ok? {
        AboveThresholdAppend(steps[0].value, Sequence(steps[1..]).value);
      }
    }
  }

  /** Each symbol's turn as written, in order. */
  function Turns(config: Config, adv: Advisor, rounds: seq<Round>): (t: seq<Outcome<seq<Item>>>)
    requires WellFormed(config)
    ensures |t| == |rounds|
    ensures forall k :: 0 <= k < |rounds| ==> t[k] == RoundAlerts(config, adv, rounds[k])
  {
    seq(|rounds|, k requires 0 <= k < |rounds| => RoundAlerts(config, adv, rounds[k]))
  }

  /** Each symbol's intended turn, in order. */
  function IntendedTurns(config: Config, adv: Advisor, rounds: seq<Round>): (t: seq<Outcome<seq<Item>>>)
    requires WellFormed(config)
    ensures |t| == |rounds|
    ensures forall k :: 0 <= k < |rounds| ==> t[k] == IntendedRoundAlerts(config, adv, rounds[k])
  {
    seq(|rounds|, k requires 0 <= k < |rounds| => IntendedRoundAlerts(config, adv, rounds[k]))
  }

  /** Everything appended after the title line during one pass as written;
      an exception in any symbol's turn abandons the pass. */
  function CycleBody(config: Config, adv: Advisor, rounds: seq<Round>): (r: Outcome<seq<Item>>)
    requires WellFormed(config)
    ensures r.Ok? ==> AboveThreshold(r.value)
  {
    var turns := Turns(config, adv, rounds);
    SequenceAbove(turns);
    Sequence(turns)
  }

  /** A pass as written is abandoned exactly when there is a symbol and either
      a monitored venue has no exchange client or some predictor check raised. */
  lemma CycleBodyRaises(config: Config, adv: Advisor, rounds: seq<Round>)
    requires WellFormed(config)
    ensures CycleBody(config, adv, rounds).Raised? <==>
              rounds != [] && ((exists v :: v in MonitoredVenues && v !in config.venues)
                               || exists k :: 0 <= k < |rounds| && CrossAlert(config, adv, rounds[k]).Raised?)
  {
    var turns := Turns(config, adv, rounds);
    assert CycleBody(config, adv, rounds) == Sequence(turns);
    if rounds != [] && exists v :: v in MonitoredVenues && v !in config.venues {
      assert turns[0].Raised?;
    }
    if exists k :: 0 <= k < |rounds| && CrossAlert(config, adv, rounds[k]).Raised? {
      var k :| 0 <= k < |rounds| && CrossAlert(config, adv, rounds[k]).Raised?;
      assert turns[k].Raised?;
    }
    if Sequence(turns).Raised? {
      var k :| 0 <= k < |turns| && turns[k].Raised?;
      assert RoundAlerts(config, adv, rounds[k]).Raised?;
    }
  }

  /** A pass as written that completes holds every symbol's alerts, symbol by
      symbol. */
  lemma CycleBodyHolds(config: Config, adv: Advisor, rounds: seq<Round>)
    requires WellFormed(config)
    ensures CycleBody(config, adv, rounds).Ok? ==>
              && (forall k :: 0 <= k < |rounds| ==> RoundAlerts(config, adv, rounds[k]).Ok?)
              && CycleBody(config, adv, rounds).value == Joined(Turns(config, adv, rounds))
  {
    var turns := Turns(config, adv, rounds);
    assert CycleBody(config, adv, rounds) == Sequence(turns);
    SequenceHolds(turns);
  }

  /** The intended pass. */
  function IntendedCycleBody(config: Config, adv: Advisor, rounds: seq<Round>): (r: Outcome<seq<Item>>)
    requires WellFormed(config)
    ensures r.Ok? ==> AboveThreshold(r.value)
  {
    var turns := IntendedTurns(config, adv, rounds);
    SequenceAbove(turns);
    Sequence(turns)
  }

  /** The intended pass is abandoned exactly when some predictor check raised. */
  lemma IntendedCycleBodyRaises(config: Config, adv: Advisor, rounds: seq<Round>)
    requires WellFormed(config)
    ensures IntendedCycleBody(config, adv, rounds).Raised? <==>
              exists k :: 0 <= k < |rounds| && IntendedCrossAlert(config, adv, rounds[k]).Raised?
  {
    var turns := IntendedTurns(config, adv, rounds);
    assert IntendedCycleBody(config, adv, rounds) == Sequence(turns);
    if exists k :: 0 <= k < |rounds| && IntendedCrossAlert(config, adv, rounds[k]).Raised? {
      var k :| 0 <= k < |rounds| && IntendedCrossAlert(config, adv, rounds[k]).Raised?;
      assert turns[k].Raised?;
    }
  }

  /** An intended pass that completes holds every symbol's alerts, symbol by
      symbol. */
  lemma IntendedCycleBodyHolds(config: Config, adv: Advisor, rounds: seq<Round>)
    requires WellFormed(config)
    ensures IntendedCycleBody(config, adv, rounds).Ok? ==>
              && IntendedCycleBody(config, adv, rounds).value == Joined(IntendedTurns(config, adv, rounds))
  {
    var turns := IntendedTurns(config, adv, rounds);
    assert IntendedCycleBody(config, adv, rounds) == Sequence(turns);
    SequenceHolds(turns);
  }

  /** What one pass sends: the same message to every monitoring user, or nothing. */
  datatype Delivery = Silent | Broadcast(recipients: set<UserId>, body: seq<Item>)

  /** Sends only when something was appended after the title and someone is
      monitoring; a pass that raised is only logged. */
  function Deliver(users: set<UserId>, body: Outcome<seq<Item>>): (d: Delivery)
    ensures d.Broadcast? <==> body.Ok? && body.value != [] && users != {}
    ensures d.Broadcast? ==> d.recipients == users && d.body == body.value
  {
    if body.Ok? && body.value != [] && users != {} then Broadcast(users, body.value) else Silent
  }

  /** One pass of `monitor_arbitrage` as written. A message goes only to the
      monitoring users, only with content, only with opportunities above 1 %,
      and only when every monitored venue has an exchange client. */
  function MonitorCycle(config: Config, adv: Advisor, users: set<UserId>, rounds: seq<Round>): (d: Delivery)
    requires WellFormed(config)
    ensures d.Broadcast? ==> d.recipients == users && users != {} && d.body != []
    ensures d.Broadcast? ==> AboveThreshold(d.body)
    ensures d.Broadcast? ==> rounds != [] && forall v :: v in MonitoredVenues ==> v in config.venues
    ensures users == {} ==> d == Silent
  {
    CycleBodyRaises(config, adv, rounds);
    assert rounds == [] ==> Turns(config, adv, rounds) == [];
    Deliver(users, CycleBody(config, adv, rounds))
  }

  /** One pass of `monitor_arbitrage` with both corrections applied. */
  function IntendedMonitorCycle(config: Config, adv: Advisor, users: set<UserId>, rounds: seq<Round>): (d: Delivery)
    requires WellFormed(config)
    ensures d.Broadcast? ==> d.recipients == users && users != {} && d.body != []
    ensures d.Broadcast? ==> AboveThreshold(d.body)
    ensures users == {} ==> d == Silent
  {
    Deliver(users, IntendedCycleBody(config, adv, rounds))
  }

  /** A single monitored venue without an exchange client silences every pass. */
  lemma MissingClientSilencesMonitor(config: Config, adv: Advisor, users: set<UserId>, rounds: seq<Round>)
    requires WellFormed(config)
    requires exists v :: v in MonitoredVenues && v !in config.venues
    ensures MonitorCycle(config, adv, users, rounds) == Silent
  {
  }

  /** With the bot's own three clients, "kraken" and "kucoin" have none, so
      the monitoring job never notifies anyone. */
  lemma SourceMonitorNeverNotifies(adv: Advisor, users: set<UserId>, rounds: seq<Round>)
    ensures MonitorCycle(SourceConfig, adv, users, rounds) == Silent
  {
    assert "kraken" in MonitoredVenues && "kraken" !in SourceConfig.venues;
    assert WellFormed(SourceConfig);
    MissingClientSilencesMonitor(SourceConfig, adv, users, rounds);
  }

  /** With both corrections, a monitored venue with an exchange client whose
      loop earns more than 1 % reaches every monitoring user, provided no
      predictor check raised: the broadcast lists that opportunity. */
  lemma CorrectedMonitorNotifies(config: Config, adv: Advisor, users: set<UserId>, rounds: seq<Round>, k: int, v: VenueId)
    requires WellFormed(config)
    requires users != {}
    requires forall j :: 0 <= j < |rounds| ==> IntendedCrossAlert(config, adv, rounds[j]).Ok?
    requires 0 <= k < |rounds| && v in MonitoredVenues && LoopAlerts(config, rounds[k], v)
    ensures IntendedMonitorCycle(config, adv, users, rounds).Broadcast?
    ensures IntendedMonitorCycle(config, adv, users, rounds).recipients == users
    ensures VenueLoop(config, rounds[k], v)[0] in OpsOf(IntendedMonitorCycle(config, adv, users, rounds).body)
  {
    var turns := IntendedTurns(config, adv, rounds);
    var op := VenueLoop(config, rounds[k], v)[0];
    IntendedCycleBodyRaises(config, adv, rounds);
    IntendedCycleBodyHolds(config, adv, rounds);
    assert turns[k] == IntendedRoundAlerts(config, adv, rounds[k]);
    assert op in VenueOps(config, rounds[k], v);
    assert op in OpsOf(IntendedTriangularAlerts(config, rounds[k], MonitoredVenues));
    assert op in OpsOf(turns[k].value);
    var before, after := Joined(turns[..k]), Joined(turns[k + 1..]);
    JoinedPart(turns, k);
    OpsOfAppend(before, turns[k].value);
    OpsOfAppend(before + turns[k].value, after);
    var body := IntendedCycleBody(config, adv, rounds).value;
    assert op in OpsOf(body);
    assert body != [];
  }
}
