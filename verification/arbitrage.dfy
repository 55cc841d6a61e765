/** `ArbitrageBot`: price collection from the configured venues and the three
    profit models (cross-venue, triangular within one venue, peer-to-peer).
    Every network read is an input: a reading either carries the venue's
    answer or `None` for a call that raised. */
module Arbitrage {
  import opened Market
  import opened Ranking

  /* ---------------------------------------------------------------------- */
  /* Price snapshot                                                         */
  /* ---------------------------------------------------------------------- */

  /** The ticker fields the bot uses; the exchange may leave either unset. */
  datatype Ticker = Ticker(bid: Option<real>, ask: Option<real>)

  /** One order-book level: price and size. */
  datatype Level = Level(price: real, size: real)

  /** What one venue answered for one symbol: the ticker and the bid side of
      the order book, each `None` when that call raised. */
  datatype Reading = Reading(ticker: Option<Ticker>, bids: Option<seq<Level>>)

  /** Number of bid levels summed into the liquidity figure. */
  const BookDepth: nat := 5

  function SumSizes(levels: seq<Level>): real {
    if levels == [] then 0.0 else levels[0].size + SumSizes(levels[1..])
  }

  lemma {:induction false} SumSizesNonNegative(levels: seq<Level>)
    requires forall i :: 0 <= i < |levels| ==> levels[i].size >= 0.0
    ensures SumSizes(levels) >= 0.0
  {
    if levels != [] {
      SumSizesNonNegative(levels[1..]);
    }
  }

  /** The levels the liquidity figure looks at: `bids[:5]`. */
  function TopLevels(bids: seq<Level>): (top: seq<Level>)
    ensures |top| == if |bids| < BookDepth then |bids| else BookDepth
    ensures top <= bids
  {
    bids[..if |bids| < BookDepth then |bids| else BookDepth]
  }

  /** Bid-side liquidity: the total size of the best five bid levels. */
  function Liquidity(bids: seq<Level>): (l: real)
    ensures (forall i :: 0 <= i < |bids| ==> bids[i].size >= 0.0) ==> l >= 0.0
  {
    var top := TopLevels(bids);
    assert forall i :: 0 <= i < |top| ==> top[i] == bids[i];
    if forall i :: 0 <= i < |bids| ==> bids[i].size >= 0.0 then
      SumSizesNonNegative(top);
      SumSizes(top)
    else
      SumSizes(top)
  }

  /** Levels below the fifth never change the liquidity figure. */
  lemma DeepLevelsIgnored(bids: seq<Level>, deeper: seq<Level>)
    requires |bids| >= BookDepth
    ensures Liquidity(bids + deeper) == Liquidity(bids)
  {
    assert TopLevels(bids + deeper) == TopLevels(bids);
  }

  /** A shallow book contributes every level it has. */
  lemma ShallowBookSummed(bids: seq<Level>)
    requires |bids| <= BookDepth
    ensures Liquidity(bids) == SumSizes(bids)
  {
    assert TopLevels(bids) == bids;
  }

  /** Both reads of the venue returned. */
  predicate Succeeded(r: Reading) {
    r.ticker.Some? && r.bids.Some?
  }

  function QuoteOf(r: Reading): Quote
    requires Succeeded(r)
  {
    Quote(r.ticker.value.bid, r.ticker.value.ask, Liquidity(r.bids.value))
  }

  /** `fetch_prices`: one entry per configured venue whose reads both
      succeeded, in configuration order; a failing venue is left out. */
  function FetchPrices(venues: seq<VenueId>, read: VenueId -> Reading): (s: Snapshot)
    ensures forall v :: Lookup(s, v) == if v in venues && Succeeded(read(v)) then Some(QuoteOf(read(v))) else None
    ensures forall i :: 0 <= i < |s| ==> s[i].venue in venues
    ensures |s| <= |venues|
    ensures Subsequence(Venues(s), venues)
    ensures Distinct(venues) ==> DistinctVenues(s)
  {
    if venues == [] then []
    else
      var rest := FetchPrices(venues[1..], read);
      var v := venues[0];
      if Succeeded(read(v)) then
        var e := Entry(v, QuoteOf(read(v)));
        FetchPricesKeepLookup(venues, read, rest, e);
        FetchPricesKeepShape(venues, rest, e);
        [e] + rest
      else
        FetchPricesSkip(venues, read, rest);
        rest
  }

  /** Looking up in a snapshot with a new first entry. */
  lemma LookupCons(e: Entry, rest: Snapshot, u: VenueId)
    ensures Lookup([e] + rest, u) == if e.venue == u then Some(e.quote) else Lookup(rest, u)
  {
    assert ([e] + rest)[1..] == rest;
  }

  /** The lookups after the step of `FetchPrices` for a first venue whose
      reads succeeded. */
  lemma FetchPricesKeepLookup(venues: seq<VenueId>, read: VenueId -> Reading, rest: Snapshot, e: Entry)
    requires venues != [] && Succeeded(read(venues[0]))
    requires e == Entry(venues[0], QuoteOf(read(venues[0])))
    requires forall v :: Lookup(rest, v) == if v in venues[1..] && Succeeded(read(v)) then Some(QuoteOf(read(v))) else None
    ensures forall v :: Lookup([e] + rest, v) == if v in venues && Succeeded(read(v)) then Some(QuoteOf(read(v))) else None
  {
    InCons(venues);
    forall v
      ensures Lookup([e] + rest, v) == if v in venues && Succeeded(read(v)) then Some(QuoteOf(read(v))) else None
    {
      LookupCons(e, rest, v);
    }
  }

  /** The keys after the step of `FetchPrices` for a first venue whose reads
      succeeded. */
  lemma FetchPricesKeepShape(venues: seq<VenueId>, rest: Snapshot, e: Entry)
    requires venues != [] && e.venue == venues[0]
    requires forall i :: 0 <= i < |rest| ==> rest[i].venue in venues[1..]
    requires |rest| <= |venues[1..]|
    requires Subsequence(Venues(rest), venues[1..])
    requires Distinct(venues[1..]) ==> DistinctVenues(rest)
    ensures forall i :: 0 <= i < |[e] + rest| ==> ([e] + rest)[i].venue in venues
    ensures |[e] + rest| <= |venues|
    ensures Subsequence(Venues([e] + rest), venues)
    ensures Distinct(venues) ==> DistinctVenues([e] + rest)
  {
    var s := [e] + rest;
    InCons(venues);
    forall i | 1 <= i < |s|
      ensures s[i] == rest[i - 1]
    {
    }
    VenuesCons(e, rest);
    SubsequenceCons(e.venue, Venues(rest), venues);
    if Distinct(venues) {
      DistinctTail(venues);
    }
  }

  /** The step of `FetchPrices` for a first venue whose reads failed. */
  lemma FetchPricesSkip(venues: seq<VenueId>, read: VenueId -> Reading, rest: Snapshot)
    requires venues != [] && !Succeeded(read(venues[0]))
    requires forall v :: Lookup(rest, v) == if v in venues[1..] && Succeeded(read(v)) then Some(QuoteOf(read(v))) else None
    requires forall i :: 0 <= i < |rest| ==> rest[i].venue in venues[1..]
    requires |rest| <= |venues[1..]|
    requires Subsequence(Venues(rest), venues[1..])
    requires Distinct(venues[1..]) ==> DistinctVenues(rest)
    ensures forall v :: Lookup(rest, v) == if v in venues && Succeeded(read(v)) then Some(QuoteOf(read(v))) else None
    ensures forall i :: 0 <= i < |rest| ==> rest[i].venue in venues
    ensures |rest| <= |venues|
    ensures Subsequence(Venues(rest), venues)
    ensures Distinct(venues) ==> DistinctVenues(rest)
  {
    InCons(venues);
    SubsequenceOfTail(Venues(rest), venues);
    if Distinct(venues) {
      DistinctTail(venues);
    }
  }

  /** The snapshot with venue `v`'s entry removed. */
  function Without(s: Snapshot, v: VenueId): (r: Snapshot)
    ensures forall u :: Lookup(r, u) == if u == v then None else Lookup(s, u)
  {
    if s == [] then []
    else if s[0].venue == v then Without(s[1..], v)
    else
      var r := [s[0]] + Without(s[1..], v);
      assert r[1..] == Without(s[1..], v);
      r
  }

  /** A venue whose gateway call fails is simply missing from the snapshot:
      every other venue's entry, and the order, stay as they were. */
  lemma {:induction false} FailingVenueOmitted(venues: seq<VenueId>, read: VenueId -> Reading,
                                               read': VenueId -> Reading, v: VenueId)
    requires forall u :: u != v ==> read'(u) == read(u)
    requires !Succeeded(read'(v))
    ensures FetchPrices(venues, read') == Without(FetchPrices(venues, read), v)
  {
    if venues != [] {
      FailingVenueOmitted(venues[1..], read, read', v);
    }
  }

  /* ---------------------------------------------------------------------- */
  /* Cross-venue strategy                                                   */
  /* ---------------------------------------------------------------------- */

  /** Net result of buying `amount` at `buyPrice` on one venue and selling it at
      `sellPrice` on another: taker fee on both legs and the USDT network fee
      of both venues. */
  function CrossProfit(buyPrice: real, sellPrice: real, amount: real,
                       buyFee: FeeSchedule, sellFee: FeeSchedule): (p: real)
    ensures buyFee.taker == 0.0 && sellFee.taker == 0.0 &&
            buyFee.networkUsdt == 0.0 && sellFee.networkUsdt == 0.0
            ==> p == (sellPrice - buyPrice) * amount
  {
    var sellFeePaid := sellPrice * amount * sellFee.taker;
    var buyFeePaid := buyPrice * amount * buyFee.taker;
    var networkFee := buyFee.networkUsdt + sellFee.networkUsdt;
    (sellPrice * amount - sellFeePaid) - (buyPrice * amount + buyFeePaid + networkFee)
  }

  /** With non-negative fees and prices the net profit never exceeds the raw
      price difference. */
  lemma CrossProfitAtMostSpread(buyPrice: real, sellPrice: real, amount: real,
                                buyFee: FeeSchedule, sellFee: FeeSchedule)
    requires buyPrice >= 0.0 && sellPrice >= 0.0 && amount > 0.0
    requires buyFee.taker >= 0.0 && sellFee.taker >= 0.0
    requires buyFee.networkUsdt >= 0.0 && sellFee.networkUsdt >= 0.0
    ensures CrossProfit(buyPrice, sellPrice, amount, buyFee, sellFee) <= (sellPrice - buyPrice) * amount
  {
    assert sellPrice * amount * sellFee.taker >= 0.0 by {
      assert sellPrice * amount >= 0.0;
    }
    assert buyPrice * amount * buyFee.taker >= 0.0 by {
      assert buyPrice * amount >= 0.0;
    }
    assert (sellPrice - buyPrice) * amount == sellPrice * amount - buyPrice * amount;
  }

  /** The guards of the inner loop before any arithmetic: distinct venues,
      enough depth on the buy venue, a truthy ask to buy at and a truthy bid to
      sell at. */
  predicate Tradable(buy: Entry, sell: Entry, amount: real) {
    && buy.venue != sell.venue
    && buy.quote.liquidity > amount
    && Truthy(buy.quote.ask)
    && Truthy(sell.quote.bid)
  }

  function CrossOf(buy: Entry, sell: Entry, amount: real, fees: FeeTable): (o: Opportunity)
    requires Tradable(buy, sell, amount) && amount > 0.0
    requires buy.venue in fees && sell.venue in fees
    ensures o.CrossVenue? && o.buyVenue == buy.venue && o.sellVenue == sell.venue
    ensures Some(o.buyPrice) == buy.quote.ask && Some(o.sellPrice) == sell.quote.bid
    ensures o.profit == CrossProfit(o.buyPrice, o.sellPrice, amount, fees[buy.venue], fees[sell.venue])
    ensures o.profitPercent * (o.buyPrice * amount) == o.profit * 100.0
  {
    var buyPrice := buy.quote.ask.value;
    var sellPrice := sell.quote.bid.value;
    var profit := CrossProfit(buyPrice, sellPrice, amount, fees[buy.venue], fees[sell.venue]);
    CrossVenue(buy.venue, sell.venue, buyPrice, sellPrice, profit, profit / (buyPrice * amount) * 100.0)
  }

  /** The pair (buy, sell) yields an opportunity. */
  predicate CrossEmits(buy: Entry, sell: Entry, amount: real, fees: FeeTable)
    requires amount > 0.0
  {
    && Tradable(buy, sell, amount)
    && buy.venue in fees && sell.venue in fees
    && CrossOf(buy, sell, amount, fees).profitPercent > 0.0
  }

  /** Inner loop of `calculate_inter_exchange_arbitrage`: one buy venue against
      every sell venue, in snapshot order. */
  function CrossFrom(buy: Entry, sells: Snapshot, amount: real, fees: FeeTable): seq<Opportunity>
    requires amount > 0.0
  {
    if sells == [] then []
    else
      (if CrossEmits(buy, sells[0], amount, fees) then [CrossOf(buy, sells[0], amount, fees)] else [])
      + CrossFrom(buy, sells[1..], amount, fees)
  }

  /** Outer loop: every buy venue in snapshot order. */
  function CrossCandidates(buys: Snapshot, sells: Snapshot, amount: real, fees: FeeTable): seq<Opportunity>
    requires amount > 0.0
  {
    if buys == [] then []
    else CrossFrom(buys[0], sells, amount, fees) + CrossCandidates(buys[1..], sells, amount, fees)
  }

  /** Buy entry `i` and sell entry `j` yield the opportunity `o`. */
  predicate EmitsAt(buys: Snapshot, sells: Snapshot, amount: real, fees: FeeTable, i: int, j: int, o: Opportunity)
    requires amount > 0.0
  {
    && 0 <= i < |buys| && 0 <= j < |sells|
    && CrossEmits(buys[i], sells[j], amount, fees)
    && o == CrossOf(buys[i], sells[j], amount, fees)
  }

  lemma {:induction false} CrossFromMembers(buy: Entry, sells: Snapshot, amount: real, fees: FeeTable, o: Opportunity)
    requires amount > 0.0
    ensures o in CrossFrom(buy, sells, amount, fees) <==> exists j :: EmitsAt([buy], sells, amount, fees, 0, j, o)
  {
    if sells != [] {
      CrossFromMembers(buy, sells[1..], amount, fees, o);
      if CrossEmits(buy, sells[0], amount, fees) && o == CrossOf(buy, sells[0], amount, fees) {
        assert EmitsAt([buy], sells, amount, fees, 0, 0, o);
      }
      if exists j :: EmitsAt([buy], sells, amount, fees, 0, j, o) {
        var j :| EmitsAt([buy], sells, amount, fees, 0, j, o);
        if j > 0 {
          assert EmitsAt([buy], sells[1..], amount, fees, 0, j - 1, o);
        }
      }
      if exists j :: EmitsAt([buy], sells[1..], amount, fees, 0, j, o) {
        var j :| EmitsAt([buy], sells[1..], amount, fees, 0, j, o);
        assert EmitsAt([buy], sells, amount, fees, 0, j + 1, o);
      }
    }
  }

  lemma {:induction false} CrossCandidatesMembers(buys: Snapshot, sells: Snapshot, amount: real, fees: FeeTable, o: Opportunity)
    requires amount > 0.0
    ensures o in CrossCandidates(buys, sells, amount, fees) <==> exists i, j :: EmitsAt(buys, sells, amount, fees, i, j, o)
  {
    if buys != [] {
      CrossFromMembers(buys[0], sells, amount, fees, o);
      CrossCandidatesMembers(buys[1..], sells, amount, fees, o);
      if exists i, j :: EmitsAt(buys, sells, amount, fees, i, j, o) {
        var i, j :| EmitsAt(buys, sells, amount, fees, i, j, o);
        if i > 0 {
          assert EmitsAt(buys[1..], sells, amount, fees, i - 1, j, o);
        } else {
          assert EmitsAt([buys[0]], sells, amount, fees, 0, j, o);
        }
      }
      if exists j :: EmitsAt([buys[0]], sells, amount, fees, 0, j, o) {
        var j :| EmitsAt([buys[0]], sells, amount, fees, 0, j, o);
        assert EmitsAt(buys, sells, amount, fees, 0, j, o);
      }
      if exists i, j :: EmitsAt(buys[1..], sells, amount, fees, i, j, o) {
        var i, j :| EmitsAt(buys[1..], sells, amount, fees, i, j, o);
        assert EmitsAt(buys, sells, amount, fees, i + 1, j, o);
      }
    }
  }

  /** What every reported cross-venue opportunity satisfies, read back from the
      snapshot by venue name. */
  ghost predicate IsCrossOpportunity(s: Snapshot, amount: real, fees: FeeTable, o: Opportunity)
    requires amount > 0.0
  {
    && o.CrossVenue?
    && o.buyVenue != o.sellVenue
    && o.buyVenue in fees && o.sellVenue in fees
    && Lookup(s, o.buyVenue).Some? && Lookup(s, o.sellVenue).Some?
    && Lookup(s, o.buyVenue).value.liquidity > amount
    && Lookup(s, o.buyVenue).value.ask == Some(o.buyPrice) && o.buyPrice != 0.0
    && Lookup(s, o.sellVenue).value.bid == Some(o.sellPrice) && o.sellPrice != 0.0
    && o.profit == CrossProfit(o.buyPrice, o.sellPrice, amount, fees[o.buyVenue], fees[o.sellVenue])
    && o.profitPercent == o.profit / (o.buyPrice * amount) * 100.0
    && o.profitPercent > 0.0
  }

  lemma CrossOfSound(s: Snapshot, amount: real, fees: FeeTable, i: int, j: int)
    requires amount > 0.0
    requires DistinctVenues(s)
    requires 0 <= i < |s| && 0 <= j < |s| && CrossEmits(s[i], s[j], amount, fees)
    ensures IsCrossOpportunity(s, amount, fees, CrossOf(s[i], s[j], amount, fees))
  {
    LookupEntry(s, i);
    LookupEntry(s, j);
    var buyPrice, sellPrice := s[i].quote.ask.value, s[j].quote.bid.value;
    var profit := CrossProfit(buyPrice, sellPrice, amount, fees[s[i].venue], fees[s[j].venue]);
    var o := CrossOf(s[i], s[j], amount, fees);
    assert o == CrossVenue(s[i].venue, s[j].venue, buyPrice, sellPrice, profit, profit / (buyPrice * amount) * 100.0);
    assert o.profit == profit && o.buyPrice == buyPrice;
  }

  lemma CrossCandidateSound(s: Snapshot, amount: real, fees: FeeTable, o: Opportunity)
    requires amount > 0.0
    requires DistinctVenues(s)
    requires o in CrossCandidates(s, s, amount, fees)
    ensures IsCrossOpportunity(s, amount, fees, o)
  {
    CrossCandidatesMembers(s, s, amount, fees, o);
    var i, j :| EmitsAt(s, s, amount, fees, i, j, o);
    CrossOfSound(s, amount, fees, i, j);
  }

  lemma SameMembers(a: seq<Opportunity>, b: seq<Opportunity>)
    requires multiset(a) == multiset(b)
    ensures forall o :: o in a <==> o in b
  {
    forall o
      ensures o in a <==> o in b
    {
      assert o in a <==> o in multiset(a);
      assert o in b <==> o in multiset(b);
    }
  }

  /** `calculate_inter_exchange_arbitrage` on a snapshot: every ordered pair of
      venues is tried and the emitted opportunities come out ranked. */
  function CalculateCrossVenue(s: Snapshot, amount: real, fees: FeeTable): (r: seq<Opportunity>)
    requires amount > 0.0
    requires DistinctVenues(s)
    ensures SortedDesc(r)
    ensures multiset(r) == multiset(CrossCandidates(s, s, amount, fees))
  {
    Rank(CrossCandidates(s, s, amount, fees))
  }

  /** Every reported opportunity is a profitable, tradable pair of the snapshot. */
  lemma CrossVenueSound(s: Snapshot, amount: real, fees: FeeTable)
    requires amount > 0.0
    requires DistinctVenues(s)
    ensures forall o :: o in CalculateCrossVenue(s, amount, fees) ==> IsCrossOpportunity(s, amount, fees, o)
  {
    var r := CalculateCrossVenue(s, amount, fees);
    SameMembers(r, CrossCandidates(s, s, amount, fees));
    forall o | o in r
      ensures IsCrossOpportunity(s, amount, fees, o)
    {
      CrossCandidateSound(s, amount, fees, o);
    }
  }

  /** Every profitable, tradable pair of the snapshot is reported. */
  lemma CrossVenueComplete(s: Snapshot, amount: real, fees: FeeTable)
    requires amount > 0.0
    requires DistinctVenues(s)
    ensures forall i, j :: 0 <= i < |s| && 0 <= j < |s| && CrossEmits(s[i], s[j], amount, fees)
                           ==> CrossOf(s[i], s[j], amount, fees) in CalculateCrossVenue(s, amount, fees)
  {
    var r := CalculateCrossVenue(s, amount, fees);
    SameMembers(r, CrossCandidates(s, s, amount, fees));
    forall i, j | 0 <= i < |s| && 0 <= j < |s| && CrossEmits(s[i], s[j], amount, fees)
      ensures CrossOf(s[i], s[j], amount, fees) in r
    {
      CrossCandidatesMembers(s, s, amount, fees, CrossOf(s[i], s[j], amount, fees));
      assert EmitsAt(s, s, amount, fees, i, j, CrossOf(s[i], s[j], amount, fees));
    }
  }

  /** Buying at an ask no lower than the bid sold into, with non-negative fees,
      never shows a positive percentage. */
  lemma NotCrossedNotEmitted(buy: Entry, sell: Entry, amount: real, fees: FeeTable)
    requires amount > 0.0
    requires forall v :: v in fees ==> fees[v].taker >= 0.0 && fees[v].networkUsdt >= 0.0
    requires buy.quote.ask.Some? && sell.quote.bid.Some? ==> 0.0 <= sell.quote.bid.value <= buy.quote.ask.value
    ensures !CrossEmits(buy, sell, amount, fees)
  {
    if Tradable(buy, sell, amount) && buy.venue in fees && sell.venue in fees {
      var buyPrice, sellPrice := buy.quote.ask.value, sell.quote.bid.value;
      var o := CrossOf(buy, sell, amount, fees);
      CrossProfitAtMostSpread(buyPrice, sellPrice, amount, fees[buy.venue], fees[sell.venue]);
      assert (sellPrice - buyPrice) * amount <= 0.0;
      assert buyPrice * amount > 0.0;
      assert o.profit <= 0.0;
      assert o.profit / (buyPrice * amount) <= 0.0;
    }
  }

  lemma {:induction false} CrossCandidatesNone(buys: Snapshot, sells: Snapshot, amount: real, fees: FeeTable)
    requires amount > 0.0
    requires forall i, j :: 0 <= i < |buys| && 0 <= j < |sells| ==> !CrossEmits(buys[i], sells[j], amount, fees)
    ensures CrossCandidates(buys, sells, amount, fees) == []
  {
    if buys != [] {
      CrossFromNone(buys[0], sells, amount, fees);
      CrossCandidatesNone(buys[1..], sells, amount, fees);
    }
  }

  lemma {:induction false} CrossFromNone(buy: Entry, sells: Snapshot, amount: real, fees: FeeTable)
    requires amount > 0.0
    requires forall j :: 0 <= j < |sells| ==> !CrossEmits(buy, sells[j], amount, fees)
    ensures CrossFrom(buy, sells, amount, fees) == []
  {
    if sells != [] {
      CrossFromNone(buy, sells[1..], amount, fees);
    }
  }

  /** No bid above any ask, on any pair of venues, leaves nothing to report
      once fees are non-negative. */
  lemma NoCrossedQuotesNoOpportunity(s: Snapshot, amount: real, fees: FeeTable)
    requires amount > 0.0
    requires DistinctVenues(s)
    requires forall v :: v in fees ==> fees[v].taker >= 0.0 && fees[v].networkUsdt >= 0.0
    requires forall i, j :: 0 <= i < |s| && 0 <= j < |s| && s[i].quote.ask.Some? && s[j].quote.bid.Some?
                            ==> 0.0 <= s[j].quote.bid.value <= s[i].quote.ask.value
    ensures CalculateCrossVenue(s, amount, fees) == []
  {
    forall i, j | 0 <= i < |s| && 0 <= j < |s|
      ensures !CrossEmits(s[i], s[j], amount, fees)
    {
      NotCrossedNotEmitted(s[i], s[j], amount, fees);
    }
    CrossCandidatesNone(s, s, amount, fees);
    assert multiset(CalculateCrossVenue(s, amount, fees)) == multiset{};
  }

  /** Identical quotes on every venue: nothing to report. */
  lemma UniformQuotesNoOpportunity(s: Snapshot, amount: real, fees: FeeTable, bid: real, ask: real)
    requires amount > 0.0
    requires DistinctVenues(s)
    requires forall v :: v in fees ==> fees[v].taker >= 0.0 && fees[v].networkUsdt >= 0.0
    requires 0.0 <= bid <= ask
    requires forall i :: 0 <= i < |s| ==> s[i].quote.bid == Some(bid) && s[i].quote.ask == Some(ask)
    ensures CalculateCrossVenue(s, amount, fees) == []
  {
    NoCrossedQuotesNoOpportunity(s, amount, fees);
  }

  const NoFees := FeeSchedule(0.0, 0.0, 0.0, 0.0)

  /** Venue A quotes 100/101, venue B 103/104, both ten deep; buying one unit
      on A and selling on B without fees earns 2, that is 200/101 percent. */
  lemma TwoVenueExample()
    ensures CalculateCrossVenue(
              [Entry("A", Quote(Some(100.0), Some(101.0), 10.0)), Entry("B", Quote(Some(103.0), Some(104.0), 10.0))],
              1.0, map["A" := NoFees, "B" := NoFees])
            == [CrossVenue("A", "B", 101.0, 103.0, 2.0, 200.0 / 101.0)]
  {
    var a := Entry("A", Quote(Some(100.0), Some(101.0), 10.0));
    var b := Entry("B", Quote(Some(103.0), Some(104.0), 10.0));
    var s := [a, b];
    var fees := map["A" := NoFees, "B" := NoFees];
    assert "A" != "B";
    assert DistinctVenues(s);
    var ab := CrossOf(a, b, 1.0, fees);
    assert ab == CrossVenue("A", "B", 101.0, 103.0, 2.0, 200.0 / 101.0);
    assert !CrossEmits(a, a, 1.0, fees);
    assert !CrossEmits(b, b, 1.0, fees);
    assert CrossOf(b, a, 1.0, fees).profit == -4.0;
    assert !CrossEmits(b, a, 1.0, fees);
    assert CrossFrom(a, s[1..], 1.0, fees) == [ab] + CrossFrom(a, s[2..], 1.0, fees);
    assert CrossFrom(a, s, 1.0, fees) == [ab];
    assert CrossFrom(b, s[1..], 1.0, fees) == [] + CrossFrom(b, s[2..], 1.0, fees);
    assert CrossFrom(b, s, 1.0, fees) == [];
    assert s[1..] == [b] && s[1..][1..] == [];
    assert CrossCandidates(s[1..], s, 1.0, fees) == CrossFrom(b, s, 1.0, fees) + CrossCandidates([], s, 1.0, fees);
    assert CrossCandidates(s, s, 1.0, fees) == CrossFrom(a, s, 1.0, fees) + CrossCandidates(s[1..], s, 1.0, fees);
    assert Rank([ab]) == [ab];
  }

  /* ---------------------------------------------------------------------- */
  /* Triangular strategy                                                    */
  /* ---------------------------------------------------------------------- */

  const BtcUsdt: Symbol := "BTC/USDT"
  const EthUsdt: Symbol := "ETH/USDT"
  const BtcEth: Symbol := "BTC/ETH"

  const TrianglePath: string := "BTC -> ETH -> USDT -> BTC"

  /** The five prices the loop reads. */
  datatype Legs = Legs(btcUsdtAsk: real, btcUsdtBid: real, ethUsdtAsk: real, ethUsdtBid: real, btcEthAsk: real)

  /** Every requested ticker was fetched (the dictionary comprehension raises
      on the first failure). */
  predicate AllFetched(symbols: seq<Symbol>, fetch: Symbol -> Option<Ticker>) {
    forall s :: s in symbols ==> fetch(s).Some?
  }

  /** The five prices, when every ticker was fetched, the three pairs were
      requested and none of the five prices is `None`. */
  function ReadLegs(symbols: seq<Symbol>, fetch: Symbol -> Option<Ticker>): (l: Option<Legs>)
    ensures l.Some? ==> AllFetched(symbols, fetch)
    ensures l.Some? ==> BtcUsdt in symbols && EthUsdt in symbols && BtcEth in symbols
    ensures l.Some? ==> fetch(BtcUsdt).value == Ticker(Some(l.value.btcUsdtBid), Some(l.value.btcUsdtAsk))
                        && fetch(EthUsdt).value == Ticker(Some(l.value.ethUsdtBid), Some(l.value.ethUsdtAsk))
                        && fetch(BtcEth).value.ask == Some(l.value.btcEthAsk)
    ensures && AllFetched(symbols, fetch)
            && BtcUsdt in symbols && EthUsdt in symbols && BtcEth in symbols
            && fetch(BtcUsdt).value.bid.Some? && fetch(BtcUsdt).value.ask.Some?
            && fetch(EthUsdt).value.bid.Some? && fetch(EthUsdt).value.ask.Some?
            && fetch(BtcEth).value.ask.Some?
            ==> l.Some?
  {
    if !AllFetched(symbols, fetch) || BtcUsdt !in symbols || EthUsdt !in symbols || BtcEth !in symbols then None
    else
      var btcUsdt, ethUsdt, btcEth := fetch(BtcUsdt).value, fetch(EthUsdt).value, fetch(BtcEth).value;
      if btcUsdt.bid.None? || btcUsdt.ask.None? || ethUsdt.bid.None? || ethUsdt.ask.None? || btcEth.ask.None? then None
      else Some(Legs(btcUsdt.ask.value, btcUsdt.bid.value, ethUsdt.ask.value, ethUsdt.bid.value, btcEth.ask.value))
  }

  /** Neither division of the loop is by zero. */
  predicate Divisible(l: Legs) {
    l.btcEthAsk != 0.0 && l.btcUsdtBid != 0.0
  }

  /** ETH obtained for one BTC: the code divides by the BTC/ETH ask, so the
      amount times that ask is one. */
  function EthAmount(l: Legs): (eth: real)
    requires l.btcEthAsk != 0.0
    ensures eth * l.btcEthAsk == 1.0
  {
    1.0 / l.btcEthAsk
  }

  /** USDT obtained by selling the ETH amount at the ETH/USDT bid. */
  function UsdtAmount(l: Legs): (usdt: real)
    requires l.btcEthAsk != 0.0
    ensures usdt * l.btcEthAsk == l.ethUsdtBid
  {
    EthAmount(l) * l.ethUsdtBid
  }

  /** BTC bought back by selling the USDT amount at the BTC/USDT bid. */
  function FinalBtc(l: Legs): (btc: real)
    requires Divisible(l)
    ensures btc * l.btcUsdtBid == UsdtAmount(l)
  {
    UsdtAmount(l) / l.btcUsdtBid
  }

  /** The fee term of the loop: the taker rate applied to the BTC/USDT ask, to
      the ETH amount valued at the ETH/USDT ask, and to the USDT amount. */
  function LoopFees(l: Legs, taker: real): (f: real)
    requires l.btcEthAsk != 0.0
    ensures taker == 0.0 ==> f == 0.0
    ensures taker >= 0.0 && l.btcUsdtAsk >= 0.0 && l.ethUsdtAsk >= 0.0 && l.ethUsdtBid >= 0.0 && l.btcEthAsk > 0.0 ==> f >= 0.0
  {
    l.btcUsdtAsk * taker + EthAmount(l) * l.ethUsdtAsk * taker + UsdtAmount(l) * taker
  }

  /** Net profit of the loop on one BTC: what comes back beyond the one BTC,
      less the fees. */
  function LoopProfit(l: Legs, taker: real): (p: real)
    requires Divisible(l)
    ensures p + LoopFees(l, taker) + 1.0 == FinalBtc(l)
    ensures taker == 0.0 ==> p == FinalBtc(l) - 1.0
  {
    (FinalBtc(l) - 1.0) - LoopFees(l, taker)
  }

  /** The part of `calculate_intra_exchange_arbitrage` inside its `try`: any
      failed fetch, missing pair, `None` price, zero divisor or missing fee row
      makes it return no opportunity instead of raising. */
  function TriangularLoop(fees: FeeTable, venue: VenueId, symbols: seq<Symbol>,
                          fetch: Symbol -> Option<Ticker>): (r: seq<Opportunity>)
    ensures |r| <= 1
    ensures !AllFetched(symbols, fetch) ==> r == []
    ensures BtcUsdt !in symbols || EthUsdt !in symbols || BtcEth !in symbols ==> r == []
    ensures r != [] <==>
              && ReadLegs(symbols, fetch).Some?
              && Divisible(ReadLegs(symbols, fetch).value)
              && venue in fees
              && LoopProfit(ReadLegs(symbols, fetch).value, fees[venue].taker) > 0.0
    ensures r != [] ==>
              r[0] == Triangular(venue, TrianglePath,
                                 LoopProfit(ReadLegs(symbols, fetch).value, fees[venue].taker),
                                 LoopProfit(ReadLegs(symbols, fetch).value, fees[venue].taker) * 100.0)
              && r[0].profitPercent > 0.0
  {
    match ReadLegs(symbols, fetch)
    case None => []
    case Some(l) =>
      if !Divisible(l) || venue !in fees then []
      else
        var profit := LoopProfit(l, fees[venue].taker);
        var profitPercent := (profit / 1.0) * 100.0;
        if profitPercent > 0.0 then [Triangular(venue, TrianglePath, profit, profitPercent)] else []
  }

  /** `calculate_intra_exchange_arbitrage`: the exchange client is looked up
      before the `try`, so an unconfigured venue raises `KeyError`. */
  function CalculateTriangular(config: Config, venue: VenueId, symbols: seq<Symbol>,
                               fetch: Symbol -> Option<Ticker>): (r: Outcome<seq<Opportunity>>)
    ensures r.Raised? <==> venue !in config.venues
    ensures r.Raised? ==> r.error == KeyError
    ensures r.Ok? ==> r.value == TriangularLoop(config.fees, venue, symbols, fetch)
  {
    if venue !in config.venues then Raised(KeyError)
    else Ok(TriangularLoop(config.fees, venue, symbols, fetch))
  }

  /** With quotes that admit no arbitrage (bid equals ask and the BTC/USDT price
      equals BTC/ETH times ETH/USDT) the loop as computed does not return to
      one BTC but to 1/(BTC/ETH)^2: the first leg divides by the cross rate
      where a conversion of one BTC into ETH would multiply by it. */
  lemma ConsistentQuotesReturnInverseSquare(l: Legs)
    requires l.btcEthAsk > 0.0 && l.ethUsdtBid > 0.0
    requires l.btcUsdtBid == l.btcEthAsk * l.ethUsdtBid
    ensures FinalBtc(l) * (l.btcEthAsk * l.btcEthAsk) == 1.0
  {
    var e, u := l.btcEthAsk, l.ethUsdtBid;
    calc {
      FinalBtc(l) * (e * e);
      ((1.0 / e) * u) / (e * u) * (e * e);
      { assert ((1.0 / e) * u) / (e * u) == 1.0 / (e * e); }
      1.0 / (e * e) * (e * e);
      1.0;
    }
  }

  /* ---------------------------------------------------------------------- */
  /* Peer-to-peer strategy                                                  */
  /* ---------------------------------------------------------------------- */

  /** One venue's peer-to-peer USDT/UAH prices; Python reads them from the
      response, so either may be `None`. */
  datatype P2PQuote = P2PQuote(buy: Option<real>, sell: Option<real>)
  datatype P2PEntry = P2PEntry(venue: VenueId, quote: P2PQuote)
  type P2PBook = seq<P2PEntry>

  /** The only venue whose peer-to-peer feed is implemented. */
  const P2PVenue: VenueId := "binance"

  /** `fetch_p2p_prices`: only the Binance branch exists, and it records the
      first advertised price as both the buy and the sell price. `reference`
      is that price, or `None` when the request raised. */
  function FetchP2P(venues: seq<VenueId>, reference: Option<real>): (book: P2PBook)
    ensures forall i :: 0 <= i < |book| ==> book[i] == P2PEntry(P2PVenue, P2PQuote(reference, reference))
    ensures book != [] <==> P2PVenue in venues && reference.Some?
  {
    if venues == [] then []
    else
      var rest := FetchP2P(venues[1..], reference);
      assert forall v :: v in venues <==> v == venues[0] || v in venues[1..];
      if venues[0] == P2PVenue && reference.Some? then
        var book := [P2PEntry(P2PVenue, P2PQuote(reference, reference))] + rest;
        assert forall i :: 1 <= i < |book| ==> book[i] == rest[i - 1];
        book
      else rest
  }

  function P2POf(buy: P2PEntry, sell: P2PEntry, amount: real): (o: Opportunity)
    requires Truthy(buy.quote.buy) && Truthy(sell.quote.sell) && amount > 0.0
    ensures o.PeerToPeer? && o.buyVenue == buy.venue && o.sellVenue == sell.venue
    ensures Some(o.buyPrice) == buy.quote.buy && Some(o.sellPrice) == sell.quote.sell
    ensures o.profit == (o.sellPrice - o.buyPrice) * amount
    ensures o.profitPercent * (o.buyPrice * amount) == o.profit * 100.0
  {
    var buyPrice := buy.quote.buy.value;
    var sellPrice := sell.quote.sell.value;
    var profit := (sellPrice * amount) - (buyPrice * amount);
    PeerToPeer(buy.venue, sell.venue, buyPrice, sellPrice, profit, (profit / (buyPrice * amount)) * 100.0)
  }

  predicate P2PEmits(buy: P2PEntry, sell: P2PEntry, amount: real)
    requires amount > 0.0
  {
    && buy.venue != sell.venue
    && Truthy(buy.quote.buy) && Truthy(sell.quote.sell)
    && P2POf(buy, sell, amount).profitPercent > 0.0
  }

  function P2PFrom(buy: P2PEntry, sells: P2PBook, amount: real): seq<Opportunity>
    requires amount > 0.0
  {
    if sells == [] then []
    else (if P2PEmits(buy, sells[0], amount) then [P2POf(buy, sells[0], amount)] else []) + P2PFrom(buy, sells[1..], amount)
  }

  function P2PCandidates(buys: P2PBook, sells: P2PBook, amount: real): seq<Opportunity>
    requires amount > 0.0
  {
    if buys == [] then [] else P2PFrom(buys[0], sells, amount) + P2PCandidates(buys[1..], sells, amount)
  }

  predicate P2PEmitsAt(buys: P2PBook, sells: P2PBook, amount: real, i: int, j: int, o: Opportunity)
    requires amount > 0.0
  {
    && 0 <= i < |buys| && 0 <= j < |sells|
    && P2PEmits(buys[i], sells[j], amount)
    && o == P2POf(buys[i], sells[j], amount)
  }

  lemma {:induction false} P2PFromMembers(buy: P2PEntry, sells: P2PBook, amount: real, o: Opportunity)
    requires amount > 0.0
    ensures o in P2PFrom(buy, sells, amount) <==> exists j :: P2PEmitsAt([buy], sells, amount, 0, j, o)
  {
    if sells != [] {
      P2PFromMembers(buy, sells[1..], amount, o);
      if P2PEmits(buy, sells[0], amount) && o == P2POf(buy, sells[0], amount) {
        assert P2PEmitsAt([buy], sells, amount, 0, 0, o);
      }
      if exists j :: P2PEmitsAt([buy], sells, amount, 0, j, o) {
        var j :| P2PEmitsAt([buy], sells, amount, 0, j, o);
        if j > 0 {
          assert P2PEmitsAt([buy], sells[1..], amount, 0, j - 1, o);
        }
      }
      if exists j :: P2PEmitsAt([buy], sells[1..], amount, 0, j, o) {
        var j :| P2PEmitsAt([buy], sells[1..], amount, 0, j, o);
        assert P2PEmitsAt([buy], sells, amount, 0, j + 1, o);
      }
    }
  }

  lemma {:induction false} P2PCandidatesMembers(buys: P2PBook, sells: P2PBook, amount: real, o: Opportunity)
    requires amount > 0.0
    ensures o in P2PCandidates(buys, sells, amount) <==> exists i, j :: P2PEmitsAt(buys, sells, amount, i, j, o)
  {
    if buys != [] {
      P2PFromMembers(buys[0], sells, amount, o);
      P2PCandidatesMembers(buys[1..], sells, amount, o);
      if exists i, j :: P2PEmitsAt(buys, sells, amount, i, j, o) {
        var i, j :| P2PEmitsAt(buys, sells, amount, i, j, o);
        if i > 0 {
          assert P2PEmitsAt(buys[1..], sells, amount, i - 1, j, o);
        } else {
          assert P2PEmitsAt([buys[0]], sells, amount, 0, j, o);
        }
      }
      if exists j :: P2PEmitsAt([buys[0]], sells, amount, 0, j, o) {
        var j :| P2PEmitsAt([buys[0]], sells, amount, 0, j, o);
        assert P2PEmitsAt(buys, sells, amount, 0, j, o);
      }
      if exists i, j :: P2PEmitsAt(buys[1..], sells, amount, i, j, o) {
        var i, j :| P2PEmitsAt(buys[1..], sells, amount, i, j, o);
        assert P2PEmitsAt(buys, sells, amount, i + 1, j, o);
      }
    }
  }

  lemma {:induction false} P2PFromNone(buy: P2PEntry, sells: P2PBook, amount: real)
    requires amount > 0.0
    requires forall j :: 0 <= j < |sells| ==> !P2PEmits(buy, sells[j], amount)
    ensures P2PFrom(buy, sells, amount) == []
  {
    if sells != [] {
      P2PFromNone(buy, sells[1..], amount);
    }
  }

  lemma {:induction false} P2PCandidatesNone(buys: P2PBook, sells: P2PBook, amount: real)
    requires amount > 0.0
    requires forall i, j :: 0 <= i < |buys| && 0 <= j < |sells| ==> !P2PEmits(buys[i], sells[j], amount)
    ensures P2PCandidates(buys, sells, amount) == []
  {
    if buys != [] {
      P2PFromNone(buys[0], sells, amount);
      P2PCandidatesNone(buys[1..], sells, amount);
    }
  }

  /** What every reported peer-to-peer opportunity satisfies. */
  ghost predicate IsP2POpportunity(book: P2PBook, amount: real, o: Opportunity)
    requires amount > 0.0
  {
    && o.PeerToPeer?
    && o.buyVenue != o.sellVenue
    && o.buyPrice != 0.0 && o.sellPrice != 0.0
    && (exists i :: 0 <= i < |book| && book[i].venue == o.buyVenue && book[i].quote.buy == Some(o.buyPrice))
    && (exists j :: 0 <= j < |book| && book[j].venue == o.sellVenue && book[j].quote.sell == Some(o.sellPrice))
    && o.profit == o.sellPrice * amount - o.buyPrice * amount
    && o.profitPercent == o.profit / (o.buyPrice * amount) * 100.0
    && o.profitPercent > 0.0
  }

  lemma P2POfSound(book: P2PBook, amount: real, i: int, j: int)
    requires amount > 0.0
    requires 0 <= i < |book| && 0 <= j < |book| && P2PEmits(book[i], book[j], amount)
    ensures IsP2POpportunity(book, amount, P2POf(book[i], book[j], amount))
  {
    var o := P2POf(book[i], book[j], amount);
    assert book[i].venue == o.buyVenue && book[i].quote.buy == Some(o.buyPrice);
    assert book[j].venue == o.sellVenue && book[j].quote.sell == Some(o.sellPrice);
  }

  lemma P2PCandidateSound(book: P2PBook, amount: real, o: Opportunity)
    requires amount > 0.0
    requires o in P2PCandidates(book, book, amount)
    ensures IsP2POpportunity(book, amount, o)
  {
    P2PCandidatesMembers(book, book, amount, o);
    var i, j :| P2PEmitsAt(book, book, amount, i, j, o);
    P2POfSound(book, amount, i, j);
  }

  /** `calculate_p2p_arbitrage` on a book: fee-free, every ordered pair of
      distinct venues is tried, and the profitable ones come out ranked. */
  function CalculateP2P(book: P2PBook, amount: real): (r: seq<Opportunity>)
    requires amount > 0.0
    ensures SortedDesc(r)
    ensures multiset(r) == multiset(P2PCandidates(book, book, amount))
  {
    Rank(P2PCandidates(book, book, amount))
  }

  /** Every reported peer-to-peer opportunity is a profitable pair of the book. */
  lemma P2PSound(book: P2PBook, amount: real)
    requires amount > 0.0
    ensures forall o :: o in CalculateP2P(book, amount) ==> IsP2POpportunity(book, amount, o)
  {
    var r := CalculateP2P(book, amount);
    SameMembers(r, P2PCandidates(book, book, amount));
    forall o | o in r
      ensures IsP2POpportunity(book, amount, o)
    {
      P2PCandidateSound(book, amount, o);
    }
  }

  /** Every profitable pair of the book is reported. */
  lemma P2PComplete(book: P2PBook, amount: real)
    requires amount > 0.0
    ensures forall i, j :: 0 <= i < |book| && 0 <= j < |book| && P2PEmits(book[i], book[j], amount)
                           ==> P2POf(book[i], book[j], amount) in CalculateP2P(book, amount)
  {
    var r := CalculateP2P(book, amount);
    SameMembers(r, P2PCandidates(book, book, amount));
    forall i, j | 0 <= i < |book| && 0 <= j < |book| && P2PEmits(book[i], book[j], amount)
      ensures P2POf(book[i], book[j], amount) in r
    {
      P2PCandidatesMembers(book, book, amount, P2POf(book[i], book[j], amount));
      assert P2PEmitsAt(book, book, amount, i, j, P2POf(book[i], book[j], amount));
    }
  }

  /** Since only the reference venue is ever populated, no pair of distinct
      venues exists and the peer-to-peer strategy never reports anything. */
  lemma P2PSingleVenueNeverReports(venues: seq<VenueId>, reference: Option<real>, amount: real)
    requires amount > 0.0
    ensures CalculateP2P(FetchP2P(venues, reference), amount) == []
  {
    var book := FetchP2P(venues, reference);
    P2PCandidatesNone(book, book, amount);
    assert multiset(CalculateP2P(book, amount)) == multiset{};
  }

  /** Buying at 40.0 and selling at 40.5 for 10000 earns 5000, i.e. 1.25 %. */
  lemma P2PExample()
    ensures CalculateP2P([P2PEntry("A", P2PQuote(Some(40.0), Some(40.0))),
                          P2PEntry("B", P2PQuote(Some(40.5), Some(40.5)))], 10000.0)
            == [PeerToPeer("A", "B", 40.0, 40.5, 5000.0, 1.25)]
  {
    var a := P2PEntry("A", P2PQuote(Some(40.0), Some(40.0)));
    var b := P2PEntry("B", P2PQuote(Some(40.5), Some(40.5)));
    var book := [a, b];
    assert "A" != "B";
    var ab := P2POf(a, b, 10000.0);
    assert ab == PeerToPeer("A", "B", 40.0, 40.5, 5000.0, 1.25);
    assert !P2PEmits(a, a, 10000.0) && !P2PEmits(b, b, 10000.0);
    assert P2POf(b, a, 10000.0).profit == -5000.0;
    assert !P2PEmits(b, a, 10000.0);
    assert book[1..] == [b] && book[1..][1..] == [];
    assert P2PFrom(a, book[1..], 10000.0) == [ab] + P2PFrom(a, [], 10000.0);
    assert P2PFrom(a, book, 10000.0) == [ab];
    assert P2PFrom(b, book[1..], 10000.0) == [] + P2PFrom(b, [], 10000.0);
    assert P2PFrom(b, book, 10000.0) == [];
    assert P2PCandidates(book[1..], book, 10000.0) == P2PFrom(b, book, 10000.0) + P2PCandidates([], book, 10000.0);
    assert P2PCandidates(book, book, 10000.0) == P2PFrom(a, book, 10000.0) + P2PCandidates(book[1..], book, 10000.0);
    assert Rank([ab]) == [ab];
  }
}
