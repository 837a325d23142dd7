/** The pure display rules of one lead card, src/components/LeadCard.tsx. */
module LeadCard {
  import opened Wrappers
  import opened LeadTypes
  import opened Strings
  import opened Decimal

  // ---------------------------------------------------------------------------
  // Priority badge colour

  /** The four badge colours `getPriorityColor` chooses between. */
  datatype PriorityColor = RedBadge | YellowBadge | GreenBadge | GrayBadge

  /** `getPriorityColor`: the priority is lowered first, then "high", "medium"
      and "low" pick red, yellow and green; any other text picks gray. */
  function PriorityColorOf(priority: string): (r: PriorityColor)
    ensures r == RedBadge <==> ToLower(priority) == "high"
    ensures r == YellowBadge <==> ToLower(priority) == "medium"
    ensures r == GreenBadge <==> ToLower(priority) == "low"
    ensures r == GrayBadge <==> ToLower(priority) !in {"high", "medium", "low"}
  {
    var p := ToLower(priority);
    if p == "high" then RedBadge
    else if p == "medium" then YellowBadge
    else if p == "low" then GreenBadge
    else GrayBadge
  }

  /** Lowering the priority before asking changes nothing. */
  lemma PriorityIgnoresLowering(priority: string)
    ensures PriorityColorOf(ToLower(priority)) == PriorityColorOf(priority)
  {
    ToLowerIdempotent(priority);
  }

  /** The mapping is case-insensitive: a priority picks a named colour exactly
      when it spells that colour's word in any mix of cases. */
  lemma PriorityCaseVariants(priority: string)
    ensures PriorityColorOf(priority) == RedBadge <==> IsCaseVariantOf(priority, "high")
    ensures PriorityColorOf(priority) == YellowBadge <==> IsCaseVariantOf(priority, "medium")
    ensures PriorityColorOf(priority) == GreenBadge <==> IsCaseVariantOf(priority, "low")
    ensures PriorityColorOf(priority) == GrayBadge <==>
      !IsCaseVariantOf(priority, "high") && !IsCaseVariantOf(priority, "medium") &&
      !IsCaseVariantOf(priority, "low")
  {
    ToLowerMatchesCaseVariants(priority, "high");
    ToLowerMatchesCaseVariants(priority, "medium");
    ToLowerMatchesCaseVariants(priority, "low");
  }

  lemma PriorityExamples()
    ensures PriorityColorOf("HIGH") == PriorityColorOf("High") == PriorityColorOf("high") == RedBadge
    ensures PriorityColorOf("Medium") == YellowBadge && PriorityColorOf("LOW") == GreenBadge
    ensures PriorityColorOf("urgent") == GrayBadge && PriorityColorOf("") == GrayBadge
  {
    PriorityCaseVariants("HIGH");
    PriorityCaseVariants("High");
    PriorityCaseVariants("high");
    PriorityCaseVariants("Medium");
    PriorityCaseVariants("LOW");
    PriorityCaseVariants("urgent");
    PriorityCaseVariants("");
  }

  // ---------------------------------------------------------------------------
  // Lead score colour

  /** The four text colours `getLeadScoreColor` chooses between. */
  datatype ScoreColor = GreenScore | YellowScore | OrangeScore | RedScore

  /** `getLeadScoreColor` on the raw score: bands with inclusive lower bounds
      80, 60 and 40, tested from the top. */
  function ScoreColorOf(score: int): (r: ScoreColor)
    ensures r == GreenScore <==> 80 <= score
    ensures r == YellowScore <==> 60 <= score < 80
    ensures r == OrangeScore <==> 40 <= score < 60
    ensures r == RedScore <==> score < 40
  {
    if score >= 80 then GreenScore
    else if score >= 60 then YellowScore
    else if score >= 40 then OrangeScore
    else RedScore
  }

  /** How good a band is: red is the worst, green the best. */
  function Strength(c: ScoreColor): nat {
    match c
    case RedScore => 0
    case OrangeScore => 1
    case YellowScore => 2
    case GreenScore => 3
  }

  /** A higher score never gets a worse band. */
  lemma ScoreColorMonotone(s1: int, s2: int)
    requires s1 <= s2
    ensures Strength(ScoreColorOf(s1)) <= Strength(ScoreColorOf(s2))
  {
  }

  // ---------------------------------------------------------------------------
  // Score text

  /** The score as the card writes it: `{leadScore}/{totalPossibleScore}`. */
  function ScoreText(score: int, total: int): string {
    IntToString(score) + "/" + IntToString(total)
  }

  /** Reads a score text back into its two numbers. */
  function ParseScoreText(t: string): Option<(int, int)> {
    match IndexOf(t, '/')
    case None => None
    case Some(k) =>
      match (ParseInt(t[..k]), ParseInt(t[k + 1..]))
      case (Some(a), Some(b)) => Some((a, b))
      case _ => None
  }

  /** The score text shows exactly the score and the total, in that order. */
  lemma ScoreTextRoundTrip(score: int, total: int)
    ensures ParseScoreText(ScoreText(score, total)) == Some((score, total))
  {
    var a, b := IntToString(score), IntToString(total);
    var t := ScoreText(score, total);
    assert t[|a|] == '/';
    assert forall k :: 0 <= k < |a| ==> t[k] == a[k] && t[k] != '/';
    assert IndexOf(t, '/') == Some(|a|);
    assert t[..|a|] == a;
    assert t[|a| + 1..] == b;
    ParseIntToString(score);
    ParseIntToString(total);
  }

  // ---------------------------------------------------------------------------
  // Text fallbacks

  /** JavaScript's `value || placeholder` on a string: the empty string is
      falsy and gives way to the placeholder. */
  function OrElse(value: string, placeholder: string): string {
    if value != [] then value else placeholder
  }

  const NoCompanyName := "No Company Name"
  const NotAvailable := "N/A"
  const NoSummary := "No summary available"

  /** How the loan amount is shown: the locale-formatted number, or "N/A"
      when the lead carries none. */
  datatype LoanAmountText = LocaleAmount(amount: int) | AmountNotAvailable

  // ---------------------------------------------------------------------------
  // Score breakdown labels

  /** `key.replace(/([A-Z])/g, ' $1')`: a space before every ASCII capital. */
  function SpaceBeforeCapitals(key: string): (r: string)
    ensures RemoveSpaces(r) == RemoveSpaces(key)
  {
    if key == [] then []
    else
      var head := if IsUpper(key[0]) then [' ', key[0]] else [key[0]];
      var tail := SpaceBeforeCapitals(key[1..]);
      RemoveSpacesConcat(head, tail);
      RemoveSpacesConcat([key[0]], key[1..]);
      assert key == [key[0]] + key[1..];
      head + tail
  }

  /** In the rewritten key every capital has a space just before it. */
  lemma {:induction false} CapitalsFollowSpaces(key: string)
    ensures forall i {:trigger IsUpper(SpaceBeforeCapitals(key)[i])} ::
      0 <= i < |SpaceBeforeCapitals(key)| && IsUpper(SpaceBeforeCapitals(key)[i]) ==>
      0 < i && SpaceBeforeCapitals(key)[i - 1] == ' '
  {
    if key != [] {
      var r, tail := SpaceBeforeCapitals(key), SpaceBeforeCapitals(key[1..]);
      var head := if IsUpper(key[0]) then [' ', key[0]] else [key[0]];
      assert r == head + tail;
      CapitalsFollowSpaces(key[1..]);
      forall i | 0 <= i < |r| && IsUpper(r[i]) ensures 0 < i && r[i - 1] == ' ' {
        if i >= |head| {
          assert r[i] == tail[i - |head|];
          if i == |head| {
            assert false;
          }
          assert r[i - 1] == tail[i - 1 - |head|];
        } else {
          assert r[i] == head[i];
        }
      }
    }
  }

  /** The rewrite keeps the last character and puts a leading capital after
      one space. */
  lemma SpaceBeforeCapitalsEnds(key: string)
    requires key != []
    ensures var r := SpaceBeforeCapitals(key);
      r != [] && r[|r| - 1] == key[|key| - 1] &&
      (IsUpper(key[0]) ==> |r| >= 2 && r[0] == ' ' && r[1] == key[0]) &&
      (!IsUpper(key[0]) ==> r[0] == key[0])
  {
    if |key| > 1 {
      SpaceBeforeCapitalsEnds(key[1..]);
    }
  }

  /** The rewrite adds no whitespace other than spaces. */
  lemma {:induction false} SpaceBeforeCapitalsWhitespace(key: string)
    requires NoWhitespace(key)
    ensures WhitespaceIsSpace(SpaceBeforeCapitals(key))
  {
    if key != [] {
      var r, tail := SpaceBeforeCapitals(key), SpaceBeforeCapitals(key[1..]);
      var head := if IsUpper(key[0]) then [' ', key[0]] else [key[0]];
      assert r == head + tail;
      assert !IsWhitespace(key[0]);
      SpaceBeforeCapitalsWhitespace(key[1..]);
      assert forall j :: 0 <= j < |tail| ==> tail[j] == ' ' || !IsWhitespace(tail[j]);
      forall i | 0 <= i < |r| ensures r[i] == ' ' || !IsWhitespace(r[i]) {
        if i >= |head| {
          assert r[i] == tail[i - |head|];
        } else {
          assert r[i] == head[i];
        }
      }
    }
  }

  /** The rewrite works character by character. */
  lemma {:induction false} SpaceBeforeCapitalsConcat(a: string, b: string)
    ensures SpaceBeforeCapitals(a + b) == SpaceBeforeCapitals(a) + SpaceBeforeCapitals(b)
  {
    if a == [] {
      assert a + b == b;
    } else {
      assert (a + b)[1..] == a[1..] + b;
      SpaceBeforeCapitalsConcat(a[1..], b);
    }
  }

  /** A key without capitals is left as it is. */
  lemma {:induction false} SpaceBeforeCapitalsNoCapitals(key: string)
    requires forall k :: 0 <= k < |key| ==> !IsUpper(key[k])
    ensures SpaceBeforeCapitals(key) == key
  {
    if key != [] {
      SpaceBeforeCapitalsNoCapitals(key[1..]);
    }
  }

  /** The label of a breakdown key: the capitals spaced out, then trimmed. */
  function BreakdownLabel(key: string): string {
    Trim(SpaceBeforeCapitals(key))
  }

  predicate NoWhitespace(key: string) {
    forall k :: 0 <= k < |key| ==> !IsWhitespace(key[k])
  }

  /** For a key without whitespace, deleting the spaces from its label gives
      the key back: the rewrite only ever adds spaces. The key must be free of
      all whitespace, not just of spaces: `trim` also drops a tab or a line
      break at either end, so "\tB" is labelled "B". */
  lemma LabelRemoveSpaces(key: string)
    requires NoWhitespace(key)
    ensures RemoveSpaces(BreakdownLabel(key)) == key
  {
    SpaceBeforeCapitalsWhitespace(key);
    RemoveSpacesTrim(SpaceBeforeCapitals(key));
    RemoveSpacesNone(key);
  }

  /** For a non-empty key without whitespace, trimming removes exactly the
      space put before a leading capital and nothing else. */
  lemma LabelShape(key: string)
    requires key != [] && NoWhitespace(key)
    ensures BreakdownLabel(key) ==
      if IsUpper(key[0]) then SpaceBeforeCapitals(key)[1..] else SpaceBeforeCapitals(key)
  {
    var s := SpaceBeforeCapitals(key);
    var t := if IsUpper(key[0]) then s[1..] else s;
    SpaceBeforeCapitalsEnds(key);
    assert !IsWhitespace(key[|key| - 1]) && !IsWhitespace(key[0]);
    assert TrimStart(s) == t by {
      if IsUpper(key[0]) {
        assert IsWhitespace(s[0]) && s[1..] != [] && s[1..][0] == key[0];
      }
    }
    assert TrimEnd(t) == t;
  }

  /** A key with one capital, not at its start, gets one space before it and
      keeps everything else. */
  lemma LabelOneCapital(a: string, c: char, b: string)
    requires a != [] && IsUpper(c)
    requires forall k :: 0 <= k < |a| ==> !IsUpper(a[k]) && !IsWhitespace(a[k])
    requires forall k :: 0 <= k < |b| ==> !IsUpper(b[k]) && !IsWhitespace(b[k])
    ensures BreakdownLabel(a + [c] + b) == a + [' ', c] + b
  {
    SpaceBeforeCapitalsNoCapitals(a);
    SpaceBeforeCapitalsNoCapitals(b);
    SpaceBeforeCapitalsConcat(a + [c], b);
    SpaceBeforeCapitalsConcat(a, [c]);
    assert SpaceBeforeCapitals([c]) == [' ', c];
    var key := a + [c] + b;
    assert key[0] == a[0];
    assert NoWhitespace(key) by {
      forall k | 0 <= k < |key| ensures !IsWhitespace(key[k]) {
        if k < |a| { assert key[k] == a[k]; }
        else if k > |a| { assert key[k] == b[k - |a| - 1]; }
      }
    }
    LabelShape(key);
  }

  /** A key without capitals or whitespace is its own label. */
  lemma LabelNoCapital(key: string)
    requires forall k :: 0 <= k < |key| ==> !IsUpper(key[k]) && !IsWhitespace(key[k])
    ensures BreakdownLabel(key) == key
  {
    SpaceBeforeCapitalsNoCapitals(key);
    if key != [] {
      LabelShape(key);
    }
  }

  /** The label of the key "businessType". The key is a parameter fixed by
      the precondition rather than a literal in the ensures: the verifier
      unfolds functions applied to a literal string character by character,
      which makes the direct statement too costly to check. */
  lemma LabelExample(key: string)
    requires key == "businessType"
    ensures BreakdownLabel(key) == "business Type"
  {
    assert key == "business" + ['T'] + "ype";
    LabelOneCapital("business", 'T', "ype");
    assert "business Type" == "business" + [' ', 'T'] + "ype";
  }

  // ---------------------------------------------------------------------------
  // The card

  /** The priority badge in the card's header. */
  datatype Badge = Badge(text: string, color: PriorityColor)

  /** One line of the score breakdown: its label and its value as text. */
  datatype BreakdownRow = BreakdownRow(name: string, value: string)

  /** The lower section of the card: the analysis, or the "No lead analysis
      available" notice. `processedAt` is the raw timestamp; its locale
      formatting is not modelled. */
  datatype AnalysisView =
    | Analysis(scoreText: string, scoreColor: ScoreColor, category: string,
               conversionProbability: string, recommendedAction: string,
               breakdown: seq<BreakdownRow>, processedAt: string)
    | NoAnalysis

  /** The text content of one card. */
  datatype CardView = CardView(
    title: string, userId: string, badge: Option<Badge>,
    businessType: string, turnover: string, loanAmount: LoanAmountText, profitMargin: string,
    reason: string, duration: string, collateral: string, summary: string,
    analysis: AnalysisView)

  function BreakdownRows(b: ScoreBreakdown): seq<BreakdownRow> {
    seq(|b.entries|, i requires 0 <= i < |b.entries| =>
      BreakdownRow(BreakdownLabel(b.entries[i].0), IntToString(b.entries[i].1)))
  }

  function RenderAnalysis(inf: LeadInference): AnalysisView {
    Analysis(ScoreText(inf.leadScore, inf.totalPossibleScore), ScoreColorOf(inf.leadScore),
             inf.leadCategory, inf.conversionProbability, inf.recommendedAction,
             BreakdownRows(inf.scoreBreakdown), inf.processedAt)
  }

  /** The card for one lead. */
  function RenderCard(lead: Lead): CardView {
    CardView(
      OrElse(lead.company, NoCompanyName),
      lead.userid,
      match lead.leadInference
        case Some(inf) => Some(Badge(inf.priority, PriorityColorOf(inf.priority)))
        case None => None,
      OrElse(lead.typeOfBusiness, NotAvailable),
      OrElse(lead.turnover, NotAvailable),
      match lead.loanAmount
        case Some(a) => LocaleAmount(a)
        case None => AmountNotAvailable,
      OrElse(lead.profitMargin, NotAvailable),
      OrElse(lead.reasonForLoan, NotAvailable),
      OrElse(lead.durationOfLoan, NotAvailable),
      OrElse(lead.collateral, NotAvailable),
      OrElse(lead.shortSummary, NoSummary),
      match lead.leadInference
        case Some(inf) => RenderAnalysis(inf)
        case None => NoAnalysis)
  }

  /** An empty field shows its placeholder; a non-empty one shows as it is. */
  lemma CardFallbacks(lead: Lead)
    ensures var c := RenderCard(lead);
      (lead.company == [] ==> c.title == NoCompanyName) &&
      (lead.company != [] ==> c.title == lead.company) &&
      (lead.typeOfBusiness == [] ==> c.businessType == NotAvailable) &&
      (lead.typeOfBusiness != [] ==> c.businessType == lead.typeOfBusiness) &&
      (lead.turnover == [] ==> c.turnover == NotAvailable) &&
      (lead.turnover != [] ==> c.turnover == lead.turnover) &&
      (lead.loanAmount.None? <==> c.loanAmount == AmountNotAvailable) &&
      (lead.loanAmount.Some? ==> c.loanAmount == LocaleAmount(lead.loanAmount.value)) &&
      (lead.profitMargin == [] ==> c.profitMargin == NotAvailable) &&
      (lead.profitMargin != [] ==> c.profitMargin == lead.profitMargin) &&
      (lead.reasonForLoan == [] ==> c.reason == NotAvailable) &&
      (lead.reasonForLoan != [] ==> c.reason == lead.reasonForLoan) &&
      (lead.durationOfLoan == [] ==> c.duration == NotAvailable) &&
      (lead.durationOfLoan != [] ==> c.duration == lead.durationOfLoan) &&
      (lead.collateral == [] ==> c.collateral == NotAvailable) &&
      (lead.collateral != [] ==> c.collateral == lead.collateral) &&
      (lead.shortSummary == [] ==> c.summary == NoSummary) &&
      (lead.shortSummary != [] ==> c.summary == lead.shortSummary)
  {
  }

  /** The badge and the analysis appear exactly when the lead has an
      inference, and then show its priority, its score over the total, the
      score's band and one labelled row per breakdown entry. */
  lemma CardAnalysis(lead: Lead)
    ensures var c := RenderCard(lead);
      (c.badge.Some? <==> lead.leadInference.Some?) &&
      (c.analysis.Analysis? <==> lead.leadInference.Some?) &&
      (c.analysis.NoAnalysis? <==> lead.leadInference.None?)
    ensures lead.leadInference.Some? ==>
      var inf, c := lead.leadInference.value, RenderCard(lead);
      c.badge == Some(Badge(inf.priority, PriorityColorOf(inf.priority))) &&
      ParseScoreText(c.analysis.scoreText) == Some((inf.leadScore, inf.totalPossibleScore)) &&
      c.analysis.scoreColor == ScoreColorOf(inf.leadScore) &&
      c.analysis.category == inf.leadCategory &&
      c.analysis.conversionProbability == inf.conversionProbability &&
      c.analysis.recommendedAction == inf.recommendedAction &&
      c.analysis.processedAt == inf.processedAt &&
      |c.analysis.breakdown| == |inf.scoreBreakdown.entries| &&
      forall i :: 0 <= i < |c.analysis.breakdown| ==>
        c.analysis.breakdown[i].name == BreakdownLabel(inf.scoreBreakdown.entries[i].0) &&
        ParseInt(c.analysis.breakdown[i].value) == Some(inf.scoreBreakdown.entries[i].1)
  {
    if lead.leadInference.Some? {
      var inf := lead.leadInference.value;
      ScoreTextRoundTrip(inf.leadScore, inf.totalPossibleScore);
      forall i | 0 <= i < |inf.scoreBreakdown.entries|
        ensures ParseInt(IntToString(inf.scoreBreakdown.entries[i].1)) == Some(inf.scoreBreakdown.entries[i].1)
      {
        ParseIntToString(inf.scoreBreakdown.entries[i].1);
      }
    }
  }
}
