/**
 * The price-prediction model header (name, symbol, timeframe, horizon and
 * registry status) and the dummy model that predicts a feature column as is.
 */
module ModelBase {
  import opened Wrappers
  import opened Strings
  import opened Trades
  import opened Candles
  import DomainCore

  datatype ModelStatus = NONE | DEV | STAGING | QA | PROD

  function StatusValue(s: ModelStatus): string
  {
    match s
    case NONE => "None"
    case DEV => "Development"
    case STAGING => "Staging"
    case QA => "QA"
    case PROD => "Production"
  }

  /** The five members have distinct values, so none is an alias of another. */
  lemma StatusValueInjective(a: ModelStatus, b: ModelStatus)
    requires StatusValue(a) == StatusValue(b)
    ensures a == b
  {
  }

  /** `from_deployment_env`: each environment to its own status, never NONE or QA. */
  function FromDeploymentEnv(e: DomainCore.DeploymentEnv): (r: ModelStatus)
    ensures r != NONE && r != QA
    ensures e == DomainCore.DEV <==> r == DEV
    ensures e == DomainCore.STAGING <==> r == STAGING
    ensures e == DomainCore.PROD <==> r == PROD
  {
    match e
    case DEV => DEV
    case STAGING => STAGING
    case PROD => PROD
  }

  lemma FromDeploymentEnvInjective(a: DomainCore.DeploymentEnv, b: DomainCore.DeploymentEnv)
    ensures FromDeploymentEnv(a) == FromDeploymentEnv(b) ==> a == b
  {
  }

  const NameBase: string := "price_predictor_xgboost"

  /** `model_name`: base, symbol, timeframe and horizon, as `<base>_<symbol>_<timeframe>x<horizon>`. */
  function ModelName(symbol: Symbol, timeframe: CandleTimeframe, targetHorizon: int): (r: string)
    ensures |r| >= 32 + |TimeframeValue(timeframe)|
    ensures r[..24] == NameBase + "_"
    ensures r[24..30] == SymbolValue(symbol) && r[30] == '_'
    ensures r[31..31 + |TimeframeValue(timeframe)|] == TimeframeValue(timeframe)
    ensures r[31 + |TimeframeValue(timeframe)|] == 'x'
    ensures r[32 + |TimeframeValue(timeframe)|..] == IntToString(targetHorizon)
  {
    SymbolShape(symbol);
    TimeframeShape(timeframe);
    JoinParts(SymbolValue(symbol), TimeframeValue(timeframe), targetHorizon);
    NameBase + "_" + SymbolValue(symbol) + "_" + TimeframeValue(timeframe) + "x" + IntToString(targetHorizon)
  }

  lemma JoinParts(sym: string, tf: string, h: int)
    requires |sym| == 6
    ensures var r := NameBase + "_" + sym + "_" + tf + "x" + IntToString(h);
            |r| >= 32 + |tf| &&
            r[..24] == NameBase + "_" && r[24..30] == sym && r[30] == '_' &&
            r[31..31 + |tf|] == tf && r[31 + |tf|] == 'x' && r[32 + |tf|..] == IntToString(h)
  {
    var hs := IntToString(h);
    var p := NameBase + "_";
    assert |p| == 24;
    var q := p + sym + "_" + tf + "x";
    assert |q| == 32 + |tf|;
    var r := q + hs;
    assert r[..|q|] == q && r[|q|..] == hs;
    assert q[..24] == p && q[24..30] == sym && q[30] == '_' && q[31..31 + |tf|] == tf && q[31 + |tf|] == 'x';
  }

  lemma TimeframeShape(tf: CandleTimeframe)
    ensures 2 <= |TimeframeValue(tf)| <= 3
    ensures forall i :: 0 <= i < |TimeframeValue(tf)| ==> TimeframeValue(tf)[i] != 'x'
  {
  }

  /** Different models never share a name: symbol, timeframe and horizon are all recoverable from it. */
  lemma ModelNameInjective(s1: Symbol, tf1: CandleTimeframe, h1: int, s2: Symbol, tf2: CandleTimeframe, h2: int)
    requires ModelName(s1, tf1, h1) == ModelName(s2, tf2, h2)
    ensures s1 == s2 && tf1 == tf2 && h1 == h2
  {
    var n := ModelName(s1, tf1, h1);
    var v1, v2 := TimeframeValue(tf1), TimeframeValue(tf2);
    SymbolShape(s1);
    SymbolShape(s2);
    TimeframeShape(tf1);
    TimeframeShape(tf2);
    SymbolValueInjective(s1, s2);
    IntToStringInjective(h1, h2);
    assert v1 == v2;
  }

  /** The fields every prediction model carries. */
  datatype ModelHeader = ModelHeader(
    name: string,
    symbol: Symbol,
    timeframe: CandleTimeframe,
    targetHorizon: int,
    status: ModelStatus)

  /** The base constructor: the name follows from the other fields, the status defaults to NONE. */
  function NewModelHeader(symbol: Symbol, timeframe: CandleTimeframe, targetHorizon: int,
                          status: ModelStatus := NONE): (r: ModelHeader)
    ensures r.symbol == symbol && r.timeframe == timeframe && r.targetHorizon == targetHorizon
    ensures r.status == status
    ensures r.name == ModelName(symbol, timeframe, targetHorizon)
  {
    ModelHeader(ModelName(symbol, timeframe, targetHorizon), symbol, timeframe, targetHorizon, status)
  }

  /** Two models with the same name describe the same symbol, timeframe and horizon. */
  lemma SameNameSameModel(a: ModelHeader, b: ModelHeader)
    requires a == NewModelHeader(a.symbol, a.timeframe, a.targetHorizon, a.status)
    requires b == NewModelHeader(b.symbol, b.timeframe, b.targetHorizon, b.status)
    requires a.name == b.name
    ensures a.symbol == b.symbol && a.timeframe == b.timeframe && a.targetHorizon == b.targetHorizon
  {
    ModelNameInjective(a.symbol, a.timeframe, a.targetHorizon, b.symbol, b.timeframe, b.targetHorizon);
  }

  /** The dummy model: predicts with the value of one feature column. */
  datatype DummyModel = DummyModel(header: ModelHeader, feature: string)

  /** The dummy model's constructor: status NONE, feature `"close"` unless given. */
  function NewDummyModel(symbol: Symbol, timeframe: CandleTimeframe, targetHorizon: int,
                         feature: string := "close"): (r: DummyModel)
    ensures r.header.status == NONE
    ensures r.header == NewModelHeader(symbol, timeframe, targetHorizon)
    ensures r.feature == feature
  {
    DummyModel(NewModelHeader(symbol, timeframe, targetHorizon, NONE), feature)
  }

  lemma DummyDefaultsToClose(symbol: Symbol, timeframe: CandleTimeframe, targetHorizon: int)
    ensures NewDummyModel(symbol, timeframe, targetHorizon).feature == "close"
    ensures NewDummyModel(symbol, timeframe, targetHorizon).header.status == NONE
  {
  }

  /** A feature table: column name to its values. */
  type Frame = map<string, seq<real>>

  /** `fit` trains nothing: the model comes back unchanged whatever the data. */
  function Fit(m: DummyModel, x: Frame, y: seq<real>, nSearchTrials: int := 0, nSplits: int := 3): (r: DummyModel)
    ensures r == m
  {
    m
  }

  /** The ValueError `predict` raises. */
  datatype PredictError = FeatureNotFound(feature: string)

  /** `predict`: the model's feature column unchanged, or an error naming the missing feature. */
  function Predict(m: DummyModel, x: Frame): (r: Result<seq<real>, PredictError>)
    ensures r.Ok? <==> m.feature in x
    ensures r.Ok? ==> r.value == x[m.feature]
    ensures r.Err? ==> r.error == FeatureNotFound(m.feature)
  {
    if m.feature in x then Ok(x[m.feature]) else Err(FeatureNotFound(m.feature))
  }

  /** Fitting changes no prediction. */
  lemma FitKeepsPredictions(m: DummyModel, x: Frame, y: seq<real>, test: Frame)
    ensures Predict(Fit(m, x, y), test) == Predict(m, test)
  {
  }

  /** The default dummy model predicts the close column as the target. */
  lemma DummyPredictsClose(symbol: Symbol, timeframe: CandleTimeframe, targetHorizon: int, x: Frame)
    requires "close" in x
    ensures Predict(NewDummyModel(symbol, timeframe, targetHorizon), x) == Ok(x["close"])
  {
  }
}
