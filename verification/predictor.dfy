/** `ArbitragePredictor`: the gates around the spread regressor. The CSV history
    of one (venue, symbol) is an input, and the fitted regressor is an opaque
    pair of functions, its held-out R^2 score and its prediction. */
module Predictor {
  import opened Market

  /** One stored sample. */
  datatype RawRow = RawRow(bid: real, ask: real)

  /** One row of the frame after the derived columns are added and `dropna` ran. */
  datatype Row = Row(bid: real, ask: real, spread: real, priceChange: real, spreadChange: real)

  /** The stored samples of one (venue, symbol); `None` when the file is absent. */
  type History = Option<seq<RawRow>>

  /** The features handed to the regressor for the current quote; `None` marks
      a quotient whose divisor was zero. */
  datatype Features = Features(bid: real, ask: real, spread: real,
                               priceChange: Option<real>, spreadChange: Option<real>)

  /** The regressor library. `score` fits on a frame and returns the held-out
      R^2; `predict` fits on a frame and forecasts the spread of one feature
      row. Either may refuse its input with `ValueError` (a NaN target, an
      infinite feature), which then propagates like any other exception. */
  datatype Regressor = Regressor(score: seq<Row> -> Outcome<real>,
                                 predict: (seq<Row>, Features) -> Outcome<real>)

  /** Fewest rows, after `dropna`, the model is trained on. */
  const MinRows: nat := 100

  /** The score the fitted model must strictly exceed. */
  const MinScore: real := 0.5

  /** The predicted spread must exceed the current one by this factor. */
  const Widening: real := 1.1

  function Spread(r: RawRow): real {
    r.ask - r.bid
  }

  /** `x / prev - 1` (`pct_change`), or `None` when `prev` is zero. */
  function Change(x: real, prev: real): (c: Option<real>)
    ensures c.Some? <==> prev != 0.0
    ensures c.Some? ==> c.value * prev == x - prev
  {
    if prev == 0.0 then None else Some(x / prev - 1.0)
  }

  /** The row kept for sample `cur` that follows sample `prev`: it survives
      `dropna` exactly when neither change divides by zero. */
  function DerivedRow(prev: RawRow, cur: RawRow): (r: Option<Row>)
    ensures r.Some? <==> prev.bid != 0.0 && Spread(prev) != 0.0
    ensures r.Some? ==> r.value.bid == cur.bid && r.value.ask == cur.ask && r.value.spread == cur.ask - cur.bid
    ensures r.Some? ==> r.value.priceChange * prev.bid == cur.bid - prev.bid
    ensures r.Some? ==> r.value.spreadChange * Spread(prev) == Spread(cur) - Spread(prev)
  {
    match (Change(cur.bid, prev.bid), Change(Spread(cur), Spread(prev)))
    case (Some(pc), Some(sc)) => Some(Row(cur.bid, cur.ask, Spread(cur), pc, sc))
    case _ => None
  }

  /** `load_data` after the file was read: spread and the two percentage-change
      columns, then `dropna`. The first sample has no predecessor and is always
      dropped. */
  function Derive(raw: seq<RawRow>): (rows: seq<Row>)
    ensures |rows| < |raw| || |raw| == 0
    ensures forall i :: 0 <= i < |rows| ==> rows[i].spread == rows[i].ask - rows[i].bid
  {
    if |raw| < 2 then []
    else
      var rest := Derive(raw[1..]);
      match DerivedRow(raw[0], raw[1])
      case Some(row) =>
        var rows := [row] + rest;
        assert forall i :: 1 <= i < |rows| ==> rows[i] == rest[i - 1];
        rows
      case None => rest
  }

  /** No stored bid or spread, except possibly the last, is zero. */
  predicate NonZeroDivisors(raw: seq<RawRow>) {
    forall i :: 0 <= i < |raw| - 1 ==> raw[i].bid != 0.0 && Spread(raw[i]) != 0.0
  }

  /** With non-zero divisors exactly the first sample is lost, and row `i` of
      the frame describes sample `i + 1` relative to sample `i`. */
  lemma {:induction false} DeriveAligned(raw: seq<RawRow>)
    requires |raw| >= 1
    requires NonZeroDivisors(raw)
    ensures |Derive(raw)| == |raw| - 1
    ensures forall i :: 0 <= i < |raw| - 1 ==>
              && Derive(raw)[i].bid == raw[i + 1].bid
              && Derive(raw)[i].ask == raw[i + 1].ask
              && Derive(raw)[i].priceChange == raw[i + 1].bid / raw[i].bid - 1.0
              && Derive(raw)[i].spreadChange == Spread(raw[i + 1]) / Spread(raw[i]) - 1.0
  {
    if |raw| >= 2 {
      DeriveAligned(raw[1..]);
      var rest := Derive(raw[1..]);
      assert Derive(raw) == [Row(raw[1].bid, raw[1].ask, Spread(raw[1]),
                                 raw[1].bid / raw[0].bid - 1.0, Spread(raw[1]) / Spread(raw[0]) - 1.0)] + rest;
      forall i | 1 <= i < |raw| - 1
        ensures Derive(raw)[i] == rest[i - 1]
        ensures raw[1..][i - 1] == raw[i] && raw[1..][i] == raw[i + 1]
      {
      }
    }
  }

  /** `load_data`. */
  function LoadData(h: History): (df: Option<seq<Row>>)
    ensures df.None? <==> h.None?
  {
    match h
    case None => None
    case Some(raw) => Some(Derive(raw))
  }

  /** `train_model`: refuses an absent file or a frame of fewer than `MinRows`
      rows; otherwise fits, and accepts exactly when the score exceeds
      `MinScore`. A refusal of the library propagates. */
  function TrainModel(h: History, reg: Regressor): (r: Outcome<bool>)
    ensures h.None? || |Derive(h.value)| < MinRows ==> r == Ok(false)
    ensures r == Ok(true) ==>
              && h.Some? && |Derive(h.value)| >= MinRows && |h.value| > MinRows
              && reg.score(Derive(h.value)).Ok? && reg.score(Derive(h.value)).value > MinScore
    ensures h.Some? && |Derive(h.value)| >= MinRows ==>
              && (r.Raised? <==> reg.score(Derive(h.value)).Raised?)
              && (r.Raised? ==> r.error == reg.score(Derive(h.value)).error)
              && (r == Ok(true) <==> reg.score(Derive(h.value)).Ok? && reg.score(Derive(h.value)).value > MinScore)
  {
    match LoadData(h)
    case None => Ok(false)
    case Some(df) =>
      if |df| < MinRows then Ok(false)
      else
        match reg.score(df)
        case Raised(e) => Raised(e)
        case Ok(sc) => Ok(sc > MinScore)
  }

  /** Exactly `MinRows` stored samples are one too few: the first is dropped. */
  lemma HundredSamplesTooFew(raw: seq<RawRow>, reg: Regressor)
    requires |raw| == MinRows
    ensures TrainModel(Some(raw), reg) == Ok(false)
  {
  }

  /** One more sample, with non-zero divisors, leaves the decision to the score. */
  lemma HundredAndOneSamplesSuffice(raw: seq<RawRow>, reg: Regressor)
    requires |raw| == MinRows + 1
    requires NonZeroDivisors(raw)
    ensures TrainModel(Some(raw), reg).Raised? <==> reg.score(Derive(raw)).Raised?
    ensures TrainModel(Some(raw), reg) == Ok(true) <==>
              reg.score(Derive(raw)).Ok? && reg.score(Derive(raw)).value > MinScore
  {
    DeriveAligned(raw);
  }

  /** The feature row of the current quote, relative to the last stored row. */
  function CurrentFeatures(df: seq<Row>, bid: real, ask: real): (f: Features)
    ensures f.bid == bid && f.ask == ask && f.spread == ask - bid
    ensures |df| > 1 && df[|df| - 1].bid != 0.0 ==>
              f.priceChange.Some? && f.priceChange.value * df[|df| - 1].bid == bid - df[|df| - 1].bid
    ensures |df| > 1 && df[|df| - 1].spread != 0.0 ==>
              f.spreadChange.Some? && f.spreadChange.value * df[|df| - 1].spread == (ask - bid) - df[|df| - 1].spread
    ensures |df| <= 1 ==> f.priceChange == Some(0.0) && f.spreadChange == Some(0.0)
  {
    if |df| > 1 then
      var last := df[|df| - 1];
      Features(bid, ask, ask - bid, Change(bid, last.bid), Change(ask - bid, last.spread))
    else
      Features(bid, ask, ask - bid, Some(0.0), Some(0.0))
  }

  /** `predict_spread`: no prediction without a file or an accepted fit; a
      refusal of the library propagates; with an accepted fit a `None` bid or
      ask raises `TypeError` when the spread is formed. */
  function PredictSpread(h: History, reg: Regressor, current: Quote): (r: Outcome<Option<real>>)
    ensures r == Ok(None) <==> TrainModel(h, reg) == Ok(false)
    ensures TrainModel(h, reg).Raised? ==> r == Raised(TrainModel(h, reg).error)
    ensures TrainModel(h, reg) == Ok(true) && (current.bid.None? || current.ask.None?) ==> r == Raised(TypeError)
    ensures TrainModel(h, reg) == Ok(true) && current.bid.Some? && current.ask.Some? ==>
              var forecast := reg.predict(Derive(h.value), CurrentFeatures(Derive(h.value), current.bid.value, current.ask.value));
              && (r.Raised? <==> forecast.Raised?)
              && (forecast.Ok? ==> r == Ok(Some(forecast.value)))
    ensures r.Ok? && r.value.Some? ==> TrainModel(h, reg) == Ok(true) && current.bid.Some? && current.ask.Some?
  {
    match LoadData(h)
    case None => Ok(None)
    case Some(df) =>
      match TrainModel(h, reg)
      case Raised(e) => Raised(e)
      case Ok(trained) =>
        if !trained then Ok(None)
        else if current.bid.None? || current.ask.None? then Raised(TypeError)
        else
          match reg.predict(df, CurrentFeatures(df, current.bid.value, current.ask.value))
          case Raised(e) => Raised(e)
          case Ok(p) => Ok(Some(p))
  }

  /** `is_profitable`: false without a prediction, otherwise whether the
      predicted spread strictly exceeds the current spread widened by 10 %. */
  function IsProfitable(h: History, reg: Regressor, current: Quote): (r: Outcome<bool>)
    ensures PredictSpread(h, reg, current) == Ok(None) ==> r == Ok(false)
    ensures PredictSpread(h, reg, current).Raised? <==> r.Raised?
    ensures PredictSpread(h, reg, current).Ok? && PredictSpread(h, reg, current).value.Some? ==>
              (r == Ok(true) <==> PredictSpread(h, reg, current).value.value > (current.ask.value - current.bid.value) * Widening)
  {
    match PredictSpread(h, reg, current)
    case Raised(e) => Raised(e)
    case Ok(None) => Ok(false)
    case Ok(Some(predicted)) =>
      var currentSpread := current.ask.value - current.bid.value;
      Ok(predicted > currentSpread * Widening)
  }

  /** An approval needs a stored file of more than `MinRows` samples that
      leaves at least `MinRows` rows, a fit whose score beats `MinScore`, both
      current prices, and a forecast beyond 1.1 times the current spread. */
  lemma ApprovalNeedsTrainedModel(h: History, reg: Regressor, current: Quote)
    requires IsProfitable(h, reg, current) == Ok(true)
    ensures h.Some? && |h.value| > MinRows && |Derive(h.value)| >= MinRows
    ensures reg.score(Derive(h.value)).Ok? && reg.score(Derive(h.value)).value > MinScore
    ensures current.bid.Some? && current.ask.Some?
    ensures var forecast := reg.predict(Derive(h.value), CurrentFeatures(Derive(h.value), current.bid.value, current.ask.value));
            forecast.Ok? && forecast.value > (current.ask.value - current.bid.value) * Widening
  {
  }

  /** The comparison is strict: a forecast of exactly 1.1 times the current
      spread is not an approval. */
  lemma BoundaryForecastRejected(h: History, reg: Regressor, current: Quote)
    requires PredictSpread(h, reg, current).Ok? && PredictSpread(h, reg, current).value.Some?
    requires PredictSpread(h, reg, current).value.value == (current.ask.value - current.bid.value) * Widening
    ensures IsProfitable(h, reg, current) == Ok(false)
  {
  }
}
