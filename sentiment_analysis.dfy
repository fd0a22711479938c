/** News sentiment: the signal and its encoding, and unwinding one story's analysis per asset. */
module SentimentAnalysis {
  import opened Trades

  datatype SentimentSignal = BULLISH | BEARISH

  /** `SentimentSignal.encoded`: +1 for BULLISH, -1 for BEARISH. */
  function Encoded(s: SentimentSignal): (r: int)
    ensures r == 1 <==> s == BULLISH
    ensures r == -1 <==> s == BEARISH
  {
    match s
    case BULLISH => 1
    case BEARISH => -1
  }

  lemma EncodedInjectiveNonZero(a: SentimentSignal, b: SentimentSignal)
    ensures Encoded(a) != 0
    ensures Encoded(a) == Encoded(b) ==> a == b
  {
  }

  datatype LLMModel = Claude35Sonnet20240620 | Llama32_3b

  /** The analysis of one asset inside a story's analysis. */
  datatype AssetSentimentAnalysisDetails = AssetSentimentAnalysisDetails(asset: Asset, sentiment: SentimentSignal)

  /** One asset's analysis as a standalone record. */
  datatype AssetSentimentAnalysis = AssetSentimentAnalysis(
    asset: Asset, sentiment: SentimentSignal, llmModel: LLMModel, story: string, timestamp: int)

  /** An LLM's analysis of one news story, covering several assets. */
  datatype NewsStorySentimentAnalysis = NewsStorySentimentAnalysis(
    story: string, timestamp: int, llmModel: LLMModel, assetSentiments: seq<AssetSentimentAnalysisDetails>)

  /** `unwind`: one record per asset entry, in order, each carrying the story's model, text and time. */
  function Unwind(a: NewsStorySentimentAnalysis): (r: seq<AssetSentimentAnalysis>)
    ensures |r| == |a.assetSentiments|
    ensures forall i :: 0 <= i < |r| ==>
      r[i].asset == a.assetSentiments[i].asset && r[i].sentiment == a.assetSentiments[i].sentiment &&
      r[i].llmModel == a.llmModel && r[i].story == a.story && r[i].timestamp == a.timestamp
  {
    seq(|a.assetSentiments|, i requires 0 <= i < |a.assetSentiments| =>
      AssetSentimentAnalysis(a.assetSentiments[i].asset, a.assetSentiments[i].sentiment,
        a.llmModel, a.story, a.timestamp))
  }

  /** Projecting the unwound records back to (asset, sentiment) gives the original entries. */
  lemma UnwindProjectsBack(a: NewsStorySentimentAnalysis)
    ensures seq(|Unwind(a)|, i requires 0 <= i < |Unwind(a)| =>
      AssetSentimentAnalysisDetails(Unwind(a)[i].asset, Unwind(a)[i].sentiment)) == a.assetSentiments
  {
  }
}
