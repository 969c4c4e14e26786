/**
 Severity classifier of the GuardDuty-to-Slack notifier: a finding's severity
 score is mapped to one of five presentation tiers, each carrying a Slack
 attachment colour and a mention directive.

 The source compares an `f32` against the exact constants 1.0, 4.0, 7.0, 9.0
 and 10.0, so the model uses `real`. A NaN severity fails every guard and falls
 through to the unknown level; `real` has no NaN, so that case is not modelled.
 */
module Severity {

  /** The five presentation tiers. */
  datatype Tier = Critical | High | Medium | Low | Unknown

  /** The Slack colour palette (hex colour strings). GREEN, PINK and PURPLE are defined but not used by any tier. */
  const Red := "#DF4661"
  const Orange := "#DB6B30"
  const Yellow := "#FED141"
  const Green := "#008C95"
  const Blue := "#00A3E0"
  const Silver := "#BABABA"
  const Pink := "#AF1685"
  const Purple := "#2E1A47"

  /** Slack mention directives: notify everyone in the channel, or everyone currently online. */
  const Channel := "@channel"
  const Here := "@here"

  /** Presentation of one tier: the attachment colour and the mention put in the pretext. */
  datatype SeverityLevel = SeverityLevel(colour: string, mention: string)

  /** One presentation per tier. */
  datatype Levels = Levels(
    critical: SeverityLevel,
    high: SeverityLevel,
    medium: SeverityLevel,
    low: SeverityLevel,
    unknown: SeverityLevel)
  {
    /** The presentation configured for tier `t`. */
    function Of(t: Tier): SeverityLevel {
      match t
      case Critical => critical
      case High => high
      case Medium => medium
      case Low => low
      case Unknown => unknown
    }
  }

  /**
   The fixed tier table the notifier uses: only the quiet tiers (low and
   unknown) go without a mention, and every tier has a colour of its own.
   */
  function DefaultLevels(): (l: Levels)
    ensures forall t :: l.Of(t).mention == "" <==> t == Low || t == Unknown
    ensures forall t, u :: l.Of(t).colour == l.Of(u).colour ==> t == u
  {
    Levels(
      critical := SeverityLevel(Red, Channel),
      high := SeverityLevel(Orange, Channel),
      medium := SeverityLevel(Yellow, Here),
      low := SeverityLevel(Blue, ""),
      unknown := SeverityLevel(Silver, ""))
  }

  /**
   The half-open band of severities each tier stands for. The four ranked
   tiers tile [1, 10); the unknown tier is everything outside that range.
   */
  ghost predicate InBand(t: Tier, x: real) {
    match t
    case Critical => 9.0 <= x < 10.0
    case High => 7.0 <= x < 9.0
    case Medium => 4.0 <= x < 7.0
    case Low => 1.0 <= x < 4.0
    case Unknown => x < 1.0 || 10.0 <= x
  }

  /** Picks the level for a severity: the guards are tried in order and the first that holds wins. */
  function FromSeverity(levels: Levels, severity: real): (r: SeverityLevel)
    ensures forall t :: InBand(t, severity) ==> r == levels.Of(t)
  {
    if 9.0 <= severity && severity < 10.0 then levels.critical
    else if 7.0 <= severity && severity < 9.0 then levels.high
    else if 4.0 <= severity && severity < 7.0 then levels.medium
    else if 1.0 <= severity && severity < 4.0 then levels.low
    else levels.unknown
  }

  /** The bands partition the reals: every severity lies in exactly one tier's band. */
  lemma BandsPartition(x: real)
    ensures exists t :: InBand(t, x)
    ensures forall t, u :: InBand(t, x) && InBand(u, x) ==> t == u
  {
    if x < 1.0 || 10.0 <= x {
      assert InBand(Unknown, x);
    } else if x < 4.0 {
      assert InBand(Low, x);
    } else if x < 7.0 {
      assert InBand(Medium, x);
    } else if x < 9.0 {
      assert InBand(High, x);
    } else {
      assert InBand(Critical, x);
    }
  }

  /** The boundaries 1, 4, 7 and 9 belong to the higher tier; 10 is already unknown. */
  lemma BoundaryValues()
    ensures FromSeverity(DefaultLevels(), 1.0) == DefaultLevels().low
    ensures FromSeverity(DefaultLevels(), 4.0) == DefaultLevels().medium
    ensures FromSeverity(DefaultLevels(), 7.0) == DefaultLevels().high
    ensures FromSeverity(DefaultLevels(), 9.0) == DefaultLevels().critical
    ensures FromSeverity(DefaultLevels(), 10.0) == DefaultLevels().unknown
    ensures FromSeverity(DefaultLevels(), 0.0) == DefaultLevels().unknown
  {
  }

  /** The colour and mention a severity receives under the default table, range by range. */
  lemma DefaultTierPresentation(x: real)
    ensures 9.0 <= x < 10.0 ==> FromSeverity(DefaultLevels(), x) == SeverityLevel("#DF4661", "@channel")
    ensures 7.0 <= x < 9.0 ==> FromSeverity(DefaultLevels(), x) == SeverityLevel("#DB6B30", "@channel")
    ensures 4.0 <= x < 7.0 ==> FromSeverity(DefaultLevels(), x) == SeverityLevel("#FED141", "@here")
    ensures 1.0 <= x < 4.0 ==> FromSeverity(DefaultLevels(), x) == SeverityLevel("#00A3E0", "")
    ensures x < 1.0 || 10.0 <= x ==> FromSeverity(DefaultLevels(), x) == SeverityLevel("#BABABA", "")
  {
  }

  /** Under the default table the mention is empty exactly for the low and unknown tiers. */
  lemma MentionEmptyIffQuiet(x: real)
    ensures FromSeverity(DefaultLevels(), x).mention == "" <==> InBand(Low, x) || InBand(Unknown, x)
  {
  }

  /** The five default tiers are told apart by their colours: no two tiers share one. */
  lemma DefaultColoursDistinct(t: Tier, u: Tier)
    ensures DefaultLevels().Of(t).colour == DefaultLevels().Of(u).colour <==> t == u
  {
  }
}
