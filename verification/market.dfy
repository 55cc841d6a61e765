/** Shared vocabulary of the arbitrage engine: optional values, raised exceptions,
    per-venue quotes and snapshots, the fee table and the opportunity records that
    the three strategies produce. */
module Market {

  /** A value that may be absent: Python's `None`. */
  datatype Option<+T> = None | Some(value: T)

  /** The exceptions that escape an operation of the model. */
  datatype Error =
    | KeyError    // a dictionary lookup of a missing key
    | TypeError   // arithmetic on `None`
    | NameError   // a local variable read before it was bound
    | ValueError  // the regressor library refusing its input

  /** The result of a step that either returns or raises. */
  datatype Outcome<+T> = Ok(value: T) | Raised(error: Error)

  type VenueId = string
  type Symbol = string

  /** Python truthiness of a quoted price: `if price:` holds exactly for a
      present, non-zero number. */
  predicate Truthy(p: Option<real>) {
    p.Some? && p.value != 0.0
  }

  /** What the engine keeps of one venue for one symbol: best bid, best ask
      (either may be missing) and the bid-side depth. */
  datatype Quote = Quote(bid: Option<real>, ask: Option<real>, liquidity: real)

  /** One key/value pair of the price dictionary. */
  datatype Entry = Entry(venue: VenueId, quote: Quote)

  /** The price dictionary of one evaluation, in insertion order (the order of
      the configured venues), which fixes the iteration order of the strategies. */
  type Snapshot = seq<Entry>

  predicate Distinct<T(==)>(xs: seq<T>) {
    forall i, j :: 0 <= i < j < |xs| ==> xs[i] != xs[j]
  }

  /** `xs` can be obtained from `ys` by deleting elements: it lists some of
      `ys`'s elements in their order in `ys`. */
  predicate Subsequence<T(==)>(xs: seq<T>, ys: seq<T>) {
    if xs == [] then true
    else if ys == [] then false
    else (xs[0] == ys[0] && Subsequence(xs[1..], ys[1..])) || Subsequence(xs, ys[1..])
  }

  lemma SubsequenceCons<T>(x: T, xs: seq<T>, ys: seq<T>)
    requires ys != [] && ys[0] == x && Subsequence(xs, ys[1..])
    ensures Subsequence([x] + xs, ys)
  {
    assert ([x] + xs)[1..] == xs;
  }

  lemma SubsequenceOfTail<T>(xs: seq<T>, ys: seq<T>)
    requires ys != [] && Subsequence(xs, ys[1..])
    ensures Subsequence(xs, ys)
  {
  }

  /** Membership in a non-empty sequence is membership of its head or its tail. */
  lemma InCons<T>(xs: seq<T>)
    requires xs != []
    ensures forall u :: u in xs <==> u == xs[0] || u in xs[1..]
  {
    assert xs == [xs[0]] + xs[1..];
  }

  /** Some element satisfies `p`: the head, or one of the tail. */
  lemma ExistsCons<T>(xs: seq<T>, p: T -> bool)
    requires xs != []
    ensures (exists k :: 0 <= k < |xs| && p(xs[k])) <==> p(xs[0]) || exists k :: 0 <= k < |xs[1..]| && p(xs[1..][k])
  {
    if exists k :: 0 <= k < |xs| && p(xs[k]) {
      var k :| 0 <= k < |xs| && p(xs[k]);
      if k > 0 {
        assert xs[1..][k - 1] == xs[k];
      }
    }
    if exists k :: 0 <= k < |xs[1..]| && p(xs[1..][k]) {
      var k :| 0 <= k < |xs[1..]| && p(xs[1..][k]);
      assert xs[1..][k] == xs[k + 1];
    }
  }

  /** What the elements of a non-empty sequence pick: the head's picks and
      the tail's. */
  lemma PickCons<T, U>(xs: seq<T>, pick: T -> seq<U>, here: seq<U>, rest: seq<U>)
    requires xs != [] && here == pick(xs[0])
    requires forall u :: u in rest <==> exists x :: x in xs[1..] && u in pick(x)
    ensures forall u :: u in here + rest <==> exists x :: x in xs && u in pick(x)
  {
    InCons(xs);
  }

  /** The tail of a duplicate-free sequence is duplicate-free and misses the head. */
  lemma DistinctTail<T>(xs: seq<T>)
    requires xs != [] && Distinct(xs)
    ensures Distinct(xs[1..]) && xs[0] !in xs[1..]
  {
    forall i, j | 0 <= i < j < |xs[1..]|
      ensures xs[1..][i] != xs[1..][j]
    {
      assert xs[1..][i] == xs[i + 1] && xs[1..][j] == xs[j + 1];
    }
    forall i | 0 <= i < |xs[1..]|
      ensures xs[1..][i] != xs[0]
    {
      assert xs[1..][i] == xs[i + 1];
    }
  }

  /** Regrouping a concatenation; stated once so that inductive proofs over
      sequences can cite it instead of rediscovering it. */
  lemma ConcatAssoc<T>(a: seq<T>, b: seq<T>, c: seq<T>)
    ensures a + (b + c) == (a + b) + c
  {
  }

  lemma SplitAt<T>(s: seq<T>, k: int)
    requires 0 <= k < |s|
    ensures s == s[..k] + [s[k]] + s[k + 1..]
  {
  }

  /** A dictionary has no repeated key. */
  predicate DistinctVenues(s: Snapshot) {
    forall i, j :: 0 <= i < j < |s| ==> s[i].venue != s[j].venue
  }

  /** The keys of a snapshot, in insertion order. */
  function Venues(s: Snapshot): (vs: seq<VenueId>)
    ensures |vs| == |s|
    ensures forall i :: 0 <= i < |s| ==> vs[i] == s[i].venue
  {
    seq(|s|, i requires 0 <= i < |s| => s[i].venue)
  }

  lemma VenuesCons(e: Entry, rest: Snapshot)
    ensures Venues([e] + rest) == [e.venue] + Venues(rest)
  {
  }

  /** `prices.get(venue)`. */
  function Lookup(s: Snapshot, v: VenueId): (r: Option<Quote>)
    ensures r.None? <==> forall i :: 0 <= i < |s| ==> s[i].venue != v
    ensures r.Some? ==> exists i :: 0 <= i < |s| && s[i] == Entry(v, r.value)
  {
    if s == [] then None
    else if s[0].venue == v then Some(s[0].quote)
    else Lookup(s[1..], v)
  }

  /** In a dictionary, looking up the key of an entry finds that entry's value. */
  lemma {:induction false} LookupEntry(s: Snapshot, i: int)
    requires DistinctVenues(s)
    requires 0 <= i < |s|
    ensures Lookup(s, s[i].venue) == Some(s[i].quote)
  {
    if i > 0 {
      assert s[0].venue != s[i].venue;
      LookupEntry(s[1..], i - 1);
    }
  }

  /** The fee columns of one venue. Only `taker` and `networkUsdt` enter any
      profit formula; `maker` and `p2p` are carried for completeness. */
  datatype FeeSchedule = FeeSchedule(maker: real, taker: real, p2p: real, networkUsdt: real)

  type FeeTable = map<VenueId, FeeSchedule>

  /** The configured exchange clients, in dictionary order, and the fee table. */
  datatype Config = Config(venues: seq<VenueId>, fees: FeeTable)

  predicate WellFormed(c: Config) {
    Distinct(c.venues) && forall v :: v in c.venues ==> v in c.fees
  }

  /** The three clients and the hard-coded fee table of the bot. */
  const SourceConfig: Config := Config(
    ["binance", "bybit", "okx"],
    map[
      "binance" := FeeSchedule(0.001, 0.001, 0.0, 1.0),
      "bybit" := FeeSchedule(0.001, 0.001, 0.0, 0.8),
      "okx" := FeeSchedule(0.0008, 0.001, 0.0, 0.9)
    ])

  /** A profit opportunity; `profit` and `profitPercent` are net of the modelled fees. */
  datatype Opportunity =
    | CrossVenue(buyVenue: VenueId, sellVenue: VenueId, buyPrice: real, sellPrice: real,
                 profit: real, profitPercent: real)
    | Triangular(venue: VenueId, path: string, profit: real, profitPercent: real)
    | PeerToPeer(buyVenue: VenueId, sellVenue: VenueId, buyPrice: real, sellPrice: real,
                 profit: real, profitPercent: real)
}
