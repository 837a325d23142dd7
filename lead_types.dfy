/** The lead record model of src/types/Lead.ts. */
module LeadTypes {
  import opened Wrappers

  /** The score breakdown, as the sequence of (key, value) entries that
      `Object.entries` yields for it: the keys in the order the backend's JSON
      listed them. Lead.ts declares nine keys: businessType, businessClarity,
      loanRatio, turnover, loanPurpose, growthIntent, collateral, completeness
      and penalty. */
  datatype ScoreBreakdown = ScoreBreakdown(entries: seq<(string, int)>)

  /** The scoring payload computed by the backend for one lead. */
  datatype LeadInference = LeadInference(
    userId: string,
    leadScore: int,
    leadCategory: string,
    priority: string,
    recommendedAction: string,
    conversionProbability: string,
    scoreBreakdown: ScoreBreakdown,
    totalPossibleScore: int,
    processedAt: string)

  /** One sales lead. A string field that is absent from the JSON is modelled
      as the empty string: both are falsy to the `||` fallbacks that read them. */
  datatype Lead = Lead(
    userid: string,
    company: string,
    typeOfBusiness: string,
    turnover: string,
    profitMargin: string,
    loanAmount: Option<int>,
    reasonForLoan: string,
    durationOfLoan: string,
    collateral: string,
    shortSummary: string,
    leadInference: Option<LeadInference>)
}
