/**
 Payload composition: the finding, its severity level and its documentation
 link are assembled into the Slack message the notifier sends. Only the
 string and field assembly is modelled. Rendering a timestamp with the
 "%a %b %e %T" pattern and rendering an `f32` severity are library
 behaviour and are supplied as `Formatters`; the builder library's
 serialisation is not modelled.
 */
module Payload {
  import opened Wrappers
  import Severity
  import FindingLink
  import Decimal

  /** A point in time (UTC); its calendar rendering is left to `Formatters`. */
  datatype Timestamp = Timestamp(epochNanos: int)

  /** The parts of a GuardDuty finding event the payload reads. */
  datatype Finding = Finding(
    findingType: string,
    accountId: string,
    region: string,
    severity: real,
    description: string,
    count: nat,
    firstSeen: Timestamp,
    lastSeen: Timestamp,
    updatedAt: Timestamp)

  /** Renderings the model does not interpret: the timestamp pattern and the float-to-text conversion. */
  datatype Formatters = Formatters(formatTime: Timestamp -> string, formatSeverity: real -> string)

  /** A labelled value of the attachment; `short` asks Slack to pair it side by side with the next one. */
  datatype Field = Field(title: string, value: string, short: Option<bool>)

  /** The single Slack attachment that carries the finding. */
  datatype Attachment = Attachment(
    fallback: string,
    colour: string,
    pretext: string,
    title: string,
    titleLink: string,
    text: string,
    fields: seq<Field>,
    footer: string,
    footerIcon: string,
    ts: Timestamp)

  /** The message handed to the webhook; `linkNames` turns "@channel"/"@here" into real mentions. */
  datatype Payload = Payload(attachments: seq<Attachment>, linkNames: bool)

  const Footer := "GuardyBot"
  const FooterIcon := "https://rustacean.net/assets/rustacean-flat-happy.png"

  /** The opening of the pretext, before the mention directive. */
  function PretextLead(f: Finding): string {
    "*Finding in " + f.region + " from account " + f.accountId + "* "
  }

  /** The four metadata fields, in display order. */
  function Fields(f: Finding, fmt: Formatters): (fields: seq<Field>)
    ensures |fields| == 4
    ensures forall i :: 0 <= i < |fields| ==> fields[i].short == Some(true)
    ensures Decimal.AllDigits(fields[2].value)
    ensures Decimal.ParseDecimal(fields[2].value) == f.count
  {
    Decimal.ParseNatToString(f.count);
    [ Field("Severity", fmt.formatSeverity(f.severity), Some(true)),
      Field("First seen", fmt.formatTime(f.firstSeen), Some(true)),
      Field("Count", Decimal.NatToString(f.count), Some(true)),
      Field("Last seen", fmt.formatTime(f.lastSeen), Some(true)) ]
  }

  /** Builds the Slack message for a finding; an unresolved link is passed on as an empty title link. */
  function BuildPayload(f: Finding, fmt: Formatters): (p: Payload)
    ensures |p.attachments| == 1 && p.linkNames
    ensures var a := p.attachments[0];
      && a.fallback == "GuardDuty:" + f.findingType + " in " + f.accountId + " " + f.region
      && a.title == f.findingType
      && a.titleLink == FindingLink.ResolveLink(f.findingType)
      && a.text == f.description
      && a.ts == f.updatedAt
  {
    var level := Severity.FromSeverity(Severity.DefaultLevels(), f.severity);
    var attachment := Attachment(
      fallback := "GuardDuty:" + f.findingType + " in " + f.accountId + " " + f.region,
      colour := level.colour,
      pretext := PretextLead(f) + level.mention,
      title := f.findingType,
      titleLink := FindingLink.ResolveLink(f.findingType),
      text := f.description,
      fields := Fields(f, fmt),
      footer := Footer,
      footerIcon := FooterIcon,
      ts := f.updatedAt);
    Payload([attachment], true)
  }

  /**
   The four fields come in the order Severity, First seen, Count, Last seen,
   all marked short; the count is shown in decimal and reads back as the count.
   */
  lemma FieldLayout(f: Finding, fmt: Formatters)
    ensures var fields := BuildPayload(f, fmt).attachments[0].fields;
      && |fields| == 4
      && fields[0].title == "Severity" && fields[1].title == "First seen"
      && fields[2].title == "Count" && fields[3].title == "Last seen"
      && (forall i :: 0 <= i < 4 ==> fields[i].short == Some(true))
      && fields[0].value == fmt.formatSeverity(f.severity)
      && fields[1].value == fmt.formatTime(f.firstSeen)
      && fields[3].value == fmt.formatTime(f.lastSeen)
      && Decimal.AllDigits(fields[2].value)
      && Decimal.ParseDecimal(fields[2].value) == f.count
  {
  }

  /** The attachment colour is the colour of the tier whose band holds the severity. */
  lemma ColourFollowsTier(f: Finding, fmt: Formatters, t: Severity.Tier)
    requires Severity.InBand(t, f.severity)
    ensures BuildPayload(f, fmt).attachments[0].colour == Severity.DefaultLevels().Of(t).colour
  {
  }

  /**
   The pretext names region and account and then carries the tier's mention:
   "@channel" for high and critical findings, "@here" for medium ones, and
   nothing at all for low and unknown ones (the text then ends in "* ").
   */
  lemma PretextMention(f: Finding, fmt: Formatters)
    ensures var pretext := BuildPayload(f, fmt).attachments[0].pretext;
      var lead := "*Finding in " + f.region + " from account " + f.accountId + "* ";
      && (7.0 <= f.severity < 10.0 ==> pretext == lead + "@channel")
      && (4.0 <= f.severity < 7.0 ==> pretext == lead + "@here")
      && (f.severity < 4.0 || 10.0 <= f.severity ==> pretext == lead)
  {
    Severity.DefaultTierPresentation(f.severity);
  }

  /** The title link is either empty or a GuardDuty documentation URL. */
  lemma TitleLinkShape(f: Finding, fmt: Formatters)
    ensures var link := BuildPayload(f, fmt).attachments[0].titleLink;
      link == "" || FindingLink.BaseUrl <= link
  {
    FindingLink.ResolveLinkShape(f.findingType);
  }
}
