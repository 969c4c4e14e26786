# GuardDuty-to-Slack notifier: verified model of the alert formatting core

The notifier is an AWS Lambda that receives an Amazon GuardDuty finding
(wrapped in an SNS event) and posts a Slack message about it. This project
models, in Dafny, the three pieces of pure logic in `src/lib.rs` that decide
what that message says:

- **Severity classifier** (`severity.dfy`, module `Severity`):
  `Levels::default` and `Levels::from_severity`. A severity score is mapped
  to one of five tiers through half-open bands (critical [9, 10), high
  [7, 9), medium [4, 7), low [1, 4), unknown for everything else). Each tier
  has an attachment colour and a mention directive (`@channel`, `@here` or
  nothing). Severity is a `real`; the source compares its `f32` only against
  exact constants, so no float arithmetic is involved.
- **Finding-link resolver** (`finding_link.dfy`, module `FindingLink`, with
  worked examples in `finding_link_examples.dfy`): `Message::finding_link`.
  The finding type is lower-cased and searched for the pattern
  `(?::)([\w]*?)(?:/)`. The captured category goes through a closed table
  (`iamuser` to `iam`, and `ec2`, `s3`, `kubernetes` to themselves). The
  leftmost match is rewritten to `-group-` to form the anchor, and the link is
  the documentation prefix + group + `.html#` + anchor. Anything unresolvable
  gives `""`. The regular expression is replaced by a declarative description
  of its match (`MatchAt`, `IsLeftmostMatch`) and a scanner proved to return
  exactly that match.
- **Payload composer** (`payload.dfy`, module `Payload`): the string and
  field assembly of `Message::build_payload`. That covers the fallback text,
  the pretext with the mention, the title and title link, the colour, and the
  four short fields (Severity, First seen, Count, Last seen). The count is
  rendered in decimal (`decimal.dfy`, module `Decimal`) with a proved
  parse-back round trip.

`wrappers.dfy` holds the `Option` type the other modules use.

Timestamp rendering (`%a %b %e %T`) and `f32::to_string` are library
behaviour. They are parameters of the model: the caller supplies them as the
two functions of a `Formatters` value.

### Behaviour worth knowing

- The category is not the text between the first `:` and the next `/`. The
  match is the leftmost `:` whose run of word characters is closed by `/`,
  so `A:B-C/X:EC2/Y` resolves to the EC2 page: the first `:` is skipped
  because `-` ends its run. See `FindingLinkExamples.ExampleFirstColonSkipped`.
- For low and unknown findings the pretext ends in `"* "`, with a trailing
  space, because the mention is formatted after a fixed space. See
  `Payload.PretextMention`.

## Model

| member | source | states |
|---|---|---|
| Severity.DefaultLevels | src/lib.rs:229-253 | the default table: the mention is empty exactly for the low and unknown tiers, and no two tiers share a colour |
| Severity.FromSeverity | src/lib.rs:256-265 | the level returned is the configured level of the tier whose half-open band holds the severity, for any table of levels |
| Severity.BandsPartition | src/lib.rs:258-263 | the five bands partition the reals: every severity lies in exactly one tier's band, so the first-match guards never compete |
| Severity.BoundaryValues | src/lib.rs:258-263 | 1, 4, 7 and 9 fall into the higher tier, 10 and 0 fall to unknown |
| Severity.DefaultTierPresentation | src/lib.rs:229-265 | under the default table, [9,10) gets #DF4661 with @channel, [7,9) #DB6B30 with @channel, [4,7) #FED141 with @here, [1,4) #00A3E0 with no mention, every other severity #BABABA with no mention |
| Severity.MentionEmptyIffQuiet | src/lib.rs:244-263 | the mention is empty exactly when the severity is in the low band or outside [1, 10) |
| Severity.DefaultColoursDistinct | src/lib.rs:272-277 | no two tiers share a colour, so the colour identifies the tier |
| FindingLink.ToLower | src/lib.rs:188 | lower-casing keeps the length, maps each character by ASCII lower-casing, and leaves no upper-case letter |
| FindingLink.ToLowerIdempotent | src/lib.rs:188 | lower-casing twice is the same as lower-casing once |
| FindingLink.MatchEndUnique | src/lib.rs:187 | a `:` determines its match: the lazy word run can only stop at the first non-word character, so there is at most one `/` it can end at |
| FindingLink.WordRunEnd | src/lib.rs:187 | returns the end of the run of word characters from a position: every character before it is a word character and the one at it is not |
| FindingLink.ColonMatchIff | src/lib.rs:187 | a position starts a match exactly when it holds `:` and its word run is closed by `/`, and that `/` is the match's end |
| FindingLink.FindMatchFrom | src/lib.rs:187-189 | the scanner returns a match and no match starts between the scan start and it, or returns none when no match starts at or after the scan start |
| FindingLink.LeftmostMatch | src/lib.rs:189 | the search finds nothing exactly when the pattern matches nowhere, and otherwise returns the leftmost match |
| FindingLink.LeftmostMatchFound | src/lib.rs:189-211 | the leftmost match is unique, so the capture and the replacement act on the same `:category/` |
| FindingLink.GroupOf | src/lib.rs:199-209 | the table accepts exactly iamuser, ec2, s3 and kubernetes; iamuser maps to iam and the others to themselves; anything else is refused |
| FindingLink.ResolveLink | src/lib.rs:183-214 | the link of a finding type is `LinkOfLower` applied to its ASCII lower-cased form; a type with no match gives "", and every link is "" or starts with the documentation prefix |
| FindingLink.LinkOfLower | src/lib.rs:183-214 | with no match the link is ""; with an unknown captured category it is ""; otherwise it is prefix + group + ".html#" + the text before the leftmost match + "-group-" + the text after it |
| FindingLink.ResolveLinkCaseInsensitive | src/lib.rs:188-189 | the resolver ignores case: resolving a type and resolving its lower-cased form give the same link |
| FindingLink.ResolveLinkShape | src/lib.rs:185-213 | a link is "" or starts with the GuardDuty documentation prefix, and it contains no upper-case letter (the anchor included) |
| FindingLink.BaseUrlNoUpper | src/lib.rs:185 | the documentation prefix has no upper-case letter |
| FindingLink.MatchBeforeColon | src/lib.rs:187 | a match that starts before a `:` ends before it, since `:` is not a word character |
| FindingLink.CaptureOfSplit | src/lib.rs:187-192 | in pre + ":" + category + "/" + post, with no match inside pre and a word-character category, the captured group is that category |
| FindingLink.LinkOfSplit | src/lib.rs:187-213 | for such a type the link is built from the category with pre and post kept unchanged around "-group-", or is "" for a category outside the table |
| FindingLinkExamples.ExampleSshBruteForce | src/lib.rs:183-214 | "UnauthorizedAccess:EC2/SSHBruteForce" links to the ec2 page at anchor unauthorizedaccess-ec2-sshbruteforce |
| FindingLinkExamples.ExampleIamUser | src/lib.rs:201 | "Recon:IAMUser/MaliciousIPCaller" links to the iam page at anchor recon-iam-maliciousipcaller |
| FindingLinkExamples.ExampleNoCategory | src/lib.rs:191-196 | "Foo" has no match and resolves to "" |
| FindingLinkExamples.ExampleUnknownCategory | src/lib.rs:205-208 | "Persistence:UnknownService/Weird" has an unknown category and resolves to "" |
| FindingLinkExamples.ExampleEmptyCategory | src/lib.rs:199-208 | an empty category (":/") is captured and refused |
| FindingLinkExamples.ExampleOnlyFirstReplaced | src/lib.rs:211 | only the leftmost ":category/" is rewritten; a later ":s3/" stays in the anchor |
| FindingLinkExamples.ExampleFirstColonSkipped | src/lib.rs:187-189 | a `:` whose word run ends in something other than `/` is skipped, and a later `:` can still match |
| Decimal.NatToString | src/lib.rs:141 | the count is rendered as one or more decimal digits, starting with 0 only for the count 0 |
| Decimal.ParseNatToString | src/lib.rs:141 | reading the rendered count back gives the count |
| Decimal.NatToStringInjective | src/lib.rs:141 | distinct counts render to distinct text |
| Payload.Fields | src/lib.rs:122-155 | exactly four fields, all short, and the Count field reads back as the finding's count |
| Payload.BuildPayload | src/lib.rs:113-177 | one attachment with name linking enabled; fallback is "GuardDuty:" + type + " in " + account + " " + region; the title is the type and the title link is the resolver's output; the text is the description; the time stamp is the finding's update time |
| Payload.FieldLayout | src/lib.rs:122-155 | the fields are Severity, First seen, Count, Last seen in that order, all short, with the severity text, the two rendered times and the decimal count |
| Payload.ColourFollowsTier | src/lib.rs:114-157 | the attachment colour is the colour of the tier whose band holds the severity |
| Payload.PretextMention | src/lib.rs:158-161 | the pretext is "*Finding in region from account id* " followed by @channel for [7,10), @here for [4,7), and nothing for every other severity |
| Payload.TitleLinkShape | src/lib.rs:162-163 | the title link is empty or a GuardDuty documentation URL |

## Left out

- Payload.BuildPayload: the model assumes the attachment and payload builders accept every input, including an empty title link. The source calls `.expect(...)` on both builds (src/lib.rs:169-170, 175-176), and the builder library may reject `""` as a title-link URL. In that case the program would panic for unresolved finding types and send no message. That library is outside this model, so this behaviour is not modelled.
- `main`, `handler` and `send` (src/lib.rs:12-55): the Lambda runtime, async execution, reading `WEBHOOK_URL` and the HTTP post to Slack are I/O and foreign calls.
- The serde records `Message`, `Detail` and `Service` (src/lib.rs:57-103): JSON decoding is library behaviour. `Payload.Finding` keeps only the fields the payload reads.
- Timestamp formatting with `%a %b %e %T`, `naive_local()` and `f32::to_string` (src/lib.rs:125, 134, 150, 168) are library formatting. The first and last are parameters (`Formatters`). The attachment time stamp is the update time itself, with no time-zone conversion.
- The `AttachmentBuilder`/`PayloadBuilder` internals and their `expect` calls (src/lib.rs:156-176), and how Slack renders `link_names`, belong to a library outside this model. The footer and its icon are kept as constants.
- The `log::error!` calls in `finding_link` (src/lib.rs:194, 206) are side effects only. The model returns `""` on those paths.
- The `None => return ""` arm for the capture group (src/lib.rs:200) cannot be reached, because group 1 always takes part in a match (possibly empty). The model has no such path.
- A NaN severity fails every guard in `from_severity` and gets the unknown level. `real` has no NaN, so that case is not modelled.
- FindingLink.ToLower: only ASCII letters are lower-cased. Rust's `to_lowercase` also folds non-ASCII letters and can change the string's length.
- FindingLink.MatchAt: word characters are ASCII `[A-Za-z0-9_]`, while Rust's `\w` is Unicode-aware. Types with non-ASCII letters between a `:` and a `/` can therefore resolve differently.
- The replacement text `-group-` would be subject to `$` expansion in the regex library. No table entry contains `$`, so the model treats it as literal.
- The unused palette colours GREEN, PINK and PURPLE are declared as constants and are not used by any tier, as in the source.
