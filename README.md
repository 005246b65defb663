# XenoAssignment CRM core, modelled in Dafny

This project models the core of the XenoAssignment CRM, a Next.js
application over MongoDB. Customers and orders are ingested one at a time
or from CSV files. Marketers describe audiences as nested AND/OR rule trees
over five customer fields. A rule tree is compiled to a MongoDB filter to
preview an audience or to create a campaign. Campaign creation writes one
personalised PENDING communication log per targeted customer and one send
request per log. The vendor's delivery receipts then update the logs and
count each outcome on its campaign, until the campaign is COMPLETED.

The document store is an in-memory `Db.State` (customers and orders as
sequences, campaigns and logs as maps by id, the vendor requests issued so
far, the next unused id). The routes that change the store are methods
on the class `Db.Store`. What they do is given by the
functions they are proved against. The modules are:

- `Wrappers`, `Runtime`: `Option`/`Result`; the JSON values routes receive;
  the environment `Env` of library behaviour the model does not
  reimplement (the clock, `Number(...)`, date parsing, zod's email, ISO
  date-time and ObjectId checks), passed as a parameter.
- `Strings`: JavaScript `trim`, ASCII `toLowerCase`, `String(n)` for
  integers, and `length` in UTF-16 units.
- `CampaignModel`, `CommunicationLog`, `Records`: the rule tree, campaign,
  log, customer and order documents, and what their Mongoose schemas do on
  save (setters, defaults, required fields, bounds).
- `Validations`: the zod schemas as parsers returning `Option`.
- `Filters`: the filter tree the compiler produces, and how MongoDB
  evaluates it on a customer; `$regex` is a small regular-expression
  matcher over literal characters, `^` and `$`.
- `QueryBuilder`, `QueryBuilderFacts`: `buildMongoQuery` and what it
  promises about its result and its errors.
- `QueryCast`: how Mongoose casts a filter to the customer schema before
  running it (the string setters, `Number` and `Date` casts, the empty
  string as `null`, `$regex` only on strings). A filter that does not
  cast is an error, and the routes answer 500 for it.
- `RuleSemantics`: what a rule tree means for a customer, written apart
  from the compiler; the theorem that the compiled filter selects exactly
  that; and where the source's text operators depart from it.
- `AudiencePreview`: the preview route, with its inline copy of the
  compiler as loops, proved equal to `QueryBuilder`'s. The campaign
  route's copy (`web/src/app/api/campaigns/route.ts:30-73`) is the same
  code, and `CampaignsRoute` calls the same methods.
- `Personalization`, `CampaignsRoute`: `personalizeMessage` and campaign
  creation.
- `DeliveryReceipts`: the delivery-receipt webhook.
- `OrdersRoute`: the single-order route.
- `CsvUpload`, `CustomerBulkUpload`, `OrderBulkUpload`: the two CSV
  bulk-upload routes.

The source writes the text operators' patterns in a way that does not do
what it evidently intends; see "## Findings". For that reason the
compiler takes a `TextPatterns` mode: `AsWritten` is the source,
`Intended` is the corrected pattern. Every route model is stated for both.
The soundness theorems hold for `Intended`, and the as-written lemmas
show how `AsWritten` departs.

## Model

| member | source | states |
|---|---|---|
| QueryBuilderFacts.EmptyGroupMatchesAll | web/src/lib/queryBuilder.ts:16 | A group with no conditions and no nested groups compiles to `{}` whatever its operator, and `{}` matches every customer. |
| QueryBuilder.BuildQuery | web/src/lib/queryBuilder.ts:5-48 | `buildMongoQuery` as written: the filter, or the first compile error. Defined by `ParseGroup`; what it promises is stated by `QueryBuilderFacts.ConditionOkIff`, `CompilesIff`, `ConditionsFirstError` and `RuleSemantics.GroupSound`. |
| QueryBuilder.ParseGroup | web/src/lib/queryBuilder.ts:6-19 | One group: its conditions, then its subgroups, keeping every part, `{}` included, returning `{}` only when there is none, returning a single part unwrapped, and wrapping two or more in `$and`/`$or`. Its shape is stated by `QueryBuilderFacts.SingleConditionUnwrapped`, `SingleGroupUnwrapped`, `ManyPartsCombined` and `NestedEmptyGroups`. |
| QueryBuilder.ParseConditions | web/src/lib/queryBuilder.ts:8-10 | The conditions of a group in order, stopping at the first that throws; stated by `QueryBuilderFacts.ConditionsFirstError`. |
| QueryBuilder.ParseCondition | web/src/lib/queryBuilder.ts:20-46 | One condition: a day window, a date comparison, a comparison operator, or a text pattern, or the error it throws; stated by `QueryBuilderFacts.DayWindowFilters`, `ComparisonOperators`, `TextOperatorsAsWritten` and `ConditionOkIff`. |
| QueryBuilderFacts.SingleConditionUnwrapped | web/src/lib/queryBuilder.ts:17 | A group whose only part is one condition compiles to exactly what that condition compiles to, filter or error, with no `$and`/`$or` around it. |
| QueryBuilderFacts.SingleGroupUnwrapped | web/src/lib/queryBuilder.ts:17 | A group whose only part is one nested group compiles to exactly what that nested group compiles to. |
| QueryBuilderFacts.ManyPartsCombined | web/src/lib/queryBuilder.ts:7-18 | With two or more parts the result is `$and` for AND and `$or` for OR, over the conditions' filters followed by the nested groups' filters, in order. |
| QueryBuilderFacts.NestedEmptyGroups | web/src/lib/queryBuilder.ts:11-18 | One empty nested group compiles to `{}`, but two compile to a non-empty `$and` of two `{}`s. |
| QueryBuilderFacts.DayWindowFilters | web/src/lib/queryBuilder.ts:23-29 | On `lastActiveDate`, OLDER_THAN_DAYS compiles to `< now - days` and IN_LAST_DAYS to `>= now - days`. |
| QueryBuilderFacts.DayWindowsPartition | web/src/lib/queryBuilder.ts:23-29 | For the same value and clock, a customer with a last-active date is in exactly one of the two windows, and one without is in neither. |
| QueryBuilderFacts.DaysNotNumeric | web/src/lib/queryBuilder.ts:25 | A day window whose value is not a number is a compile error. |
| QueryBuilderFacts.DateNotParseable | web/src/lib/queryBuilder.ts:30-33 | Outside a day window, a `dataType: 'date'` value that does not parse is an error, raised before the operator is looked at. |
| QueryBuilderFacts.DayOperatorElsewhere | web/src/lib/queryBuilder.ts:43 | A day operator on any field but `lastActiveDate` is "unsupported operator", unless the date conversion fails first. |
| QueryBuilderFacts.ComparisonOperators | web/src/lib/queryBuilder.ts:35-39 | EQUALS, NOT_EQUALS, GREATER_THAN and LESS_THAN become `$eq`, `$ne`, `$gt` and `$lt` on the named field, with the value converted to a date when `dataType` is 'date'. |
| QueryBuilderFacts.TextOperatorsAsWritten | web/src/lib/queryBuilder.ts:40-42 | CONTAINS, STARTS_WITH and ENDS_WITH pass the `toString()` of a case-insensitive RegExp of `value`, `'^' + value` and `value + '$'` as `$regex`, with no `$options`, when `new RegExp` accepts the pattern; otherwise the condition fails with `InvalidPattern`, the SyntaxError the routes answer with 500. |
| QueryBuilderFacts.ConditionOkIff | web/src/lib/queryBuilder.ts:20-46 | A condition compiles exactly when its day count is a number, its date parses, its operator is supported for its field, and the text pattern of a text operator is one `new RegExp(.., 'i')` accepts without a SyntaxError. |
| QueryBuilderFacts.CompilesIff | web/src/lib/queryBuilder.ts:6-19 | A tree compiles exactly when every condition in it compiles, a failing RegExp included. |
| QueryBuilderFacts.ConditionsFirstError | web/src/lib/queryBuilder.ts:8-10 | The conditions fail with the error of the first condition that fails. |
| QueryBuilderFacts.GroupsFirstError | web/src/lib/queryBuilder.ts:11-15 | The nested groups fail with the error of the first nested group that fails. |
| QueryCast.CastOperand | web/src/models/customer.ts:17-46 | A compared value cast to its path: `name` is trimmed, `email` trimmed and lower-cased; on a `Number` or `Date` path the empty string is `null`, and a value `Number(..)` or `new Date(..)` cannot read fails the cast. |
| QueryCast.FirstError | web/src/app/api/audiences/preview/route.ts:111 | No error exactly when every child casts; an error reported is one of the children's. |
| QueryCast.CastQuery | web/src/app/api/audiences/preview/route.ts:111 | Mongoose's cast of the filter before it runs: compared values cast to their paths, `$regex` only on `String` paths, `$and`/`$or` failing with the first failing child. Its properties are the `QueryCast` lemmas below. |
| QueryCast.CastChildren | web/src/app/api/audiences/preview/route.ts:111 | `$and` and `$or` cast exactly when every child casts, and then hold the children's casts in order. |
| QueryCast.CastCombine | web/src/lib/queryBuilder.ts:16-18 | Casting a combined filter is combining the casts of its parts. |
| QueryCast.CastCombineFails | web/src/lib/queryBuilder.ts:16-18 | A combined filter casts exactly when every part casts. |
| QueryCast.NumberPathCast | web/src/models/customer.ts:33-42 | On `totalSpends` and `visitCount` a string value becomes `null` when empty, its number when `Number(..)` reads one, and fails otherwise. |
| QueryCast.RegexOnlyOnStrings | web/src/lib/queryBuilder.ts:40-42 | A `$regex` casts exactly on the `String` paths `name` and `email`. |
| QueryCast.InvalidThresholdFails | web/src/lib/queryBuilder.ts:26-29 | A day window whose threshold is an Invalid Date fails the cast. |
| QueryCast.EmailComparedNormalised | web/src/models/customer.ts:22-27 | An email comparison compares with the trimmed, lower-cased value. |
| QueryCast.CastKeepsEmpty | web/src/app/api/audiences/preview/route.ts:105-111 | A filter that casts is `{}` after the cast exactly when it was `{}` before. |
| QueryCast.ConditionCastsIff | web/src/lib/queryBuilder.ts:20-46 | A compiled condition casts exactly when `ConditionCasts` holds of it: a representable threshold for a day window, a `String` path for a text operator, a castable value otherwise. |
| QueryCast.PartsCast | web/src/lib/queryBuilder.ts:16-18 | Every part of two lists of parts casts exactly when every part of each list does. |
| QueryCast.ConditionsCastIff | web/src/lib/queryBuilder.ts:8-10 | The compiled conditions of a group all cast exactly when every condition satisfies `ConditionCasts`. |
| QueryCast.TreeCastsIff | web/src/lib/queryBuilder.ts:5-48 | A compiled tree casts exactly when every condition in it satisfies `ConditionCasts`. |
| RuleSemantics.GroupSound | web/src/lib/queryBuilder.ts:5-48 | For a tree whose conditions all compile and cast and whose text patterns are compiled as intended, the compiled filter casts, and the cast filter selects exactly the customers the tree describes. |
| RuleSemantics.GroupHolds | web/src/lib/queryBuilder.ts:6-19 | What a tree means for a customer, written apart from the compiler: its logical operator over its conditions and subgroups, an empty part list holding for everyone. Related to the compiler by `GroupSound`. |
| RuleSemantics.CondHolds | web/src/lib/queryBuilder.ts:20-46 | What a condition means for a customer, with its own comparison reading (a typed value against the field, a missing date, text tests on the intended pattern), written apart from `Filters.CompareHolds`. Related to the compiled filter by `ConditionSound`. |
| RuleSemantics.CastCombineMeaning | web/src/lib/queryBuilder.ts:16-18 | When every part of a group casts, the cast of the combined filter holds of a customer exactly as the group's operator over the parts' meanings says. |
| RuleSemantics.ConditionSound | web/src/lib/queryBuilder.ts:20-46 | For a condition that compiles, whose text pattern is compiled as intended and whose value casts to its path, the compiled filter casts and the cast filter selects exactly the customers for which the condition holds. |
| RuleSemantics.CombineMeaning | web/src/lib/queryBuilder.ts:16-18 | The combined filter matches everyone when there are no parts; otherwise it matches when all parts do (AND) or when some part does (OR). |
| RuleSemantics.IntendedContains | web/src/lib/queryBuilder.ts:40 | CONTAINS with a metacharacter-free value is a case-insensitive substring test. |
| RuleSemantics.IntendedStartsWith | web/src/lib/queryBuilder.ts:41 | STARTS_WITH with a metacharacter-free value is a case-insensitive prefix test. |
| RuleSemantics.IntendedEndsWith | web/src/lib/queryBuilder.ts:42 | ENDS_WITH with a metacharacter-free value is a case-insensitive suffix test. |
| RuleSemantics.StartsWithAsWrittenNeverMatches | web/src/lib/queryBuilder.ts:41 | For a plain-text value (no regular-expression metacharacter, no `/`), the source's STARTS_WITH filter matches no customer. |
| RuleSemantics.EndsWithAsWrittenNeverMatches | web/src/lib/queryBuilder.ts:42 | For a plain-text value, the source's ENDS_WITH filter matches no customer. |
| RuleSemantics.ContainsAsWrittenNeedsSlash | web/src/lib/queryBuilder.ts:40 | For a plain-text value, the source's CONTAINS filter only matches a field that holds a `/`. |
| RuleSemantics.ContainsCounterexample | web/src/lib/queryBuilder.ts:40 | "name CONTAINS ali" compiles (when `new RegExp` accepts "ali"), holds for Alice, and the intended filter selects her, but the source's filter does not. |
| RuleSemantics.AliceCompiles | web/src/lib/queryBuilder.ts:40 | When `new RegExp` accepts "ali", the rule `name CONTAINS "ali"` compiles to its text filter. |
| AudiencePreview.CompileGroup | web/src/app/api/audiences/preview/route.ts:23-82 | The route's inline compiler returns exactly what the query builder's compiler returns, filter or error, for every tree. |
| AudiencePreview.CompileConditions | web/src/app/api/audiences/preview/route.ts:28-30 | The loop over the conditions gives their filters in order, or the first error. |
| AudiencePreview.CompileGroups | web/src/app/api/audiences/preview/route.ts:33-37 | The loop over the nested groups gives their filters in order, or the first error. |
| AudiencePreview.PostPreview | web/src/app/api/audiences/preview/route.ts:85-119 | The route's answer is `PreviewSpec`, computed from the store's customers without changing anything. |
| AudiencePreview.PreviewSpec | web/src/app/api/audiences/preview/route.ts:85-119 | The preview answer as a function of the body and the store: 400, the all-customers count for `{}`, 500 for a compile or cast error, otherwise the count of matching customers. `PostPreview` is proved against it; `PreviewOutcomes` and `PreviewSound` state its cases. |
| AudiencePreview.PreviewOutcomes | web/src/app/api/audiences/preview/route.ts:90-118 | 400 exactly when the schema refuses the rules; size 0 without a query exactly for a truly empty rule set; 500 exactly when some condition does not compile, or when it compiles but the filter does not cast to the customer schema; 200 with a count otherwise. |
| AudiencePreview.PreviewSound | web/src/app/api/audiences/preview/route.ts:105-113 | With intended text patterns, a valid rule set that is not truly empty, compiles and casts answers 200 with `audienceSize` exactly the size of its audience, whether or not its filter is `{}`. |
| AudiencePreview.StartsWithPreviewsNobody | web/src/app/api/audiences/preview/route.ts:74 | With the source's patterns, a rule set whose only condition is a STARTS_WITH on the name with a plain-text value previews 0 customers, whatever the store holds. |
| AudiencePreview.Audience | web/src/app/api/audiences/preview/route.ts:111 | The rule set's audience: the store's customers satisfying the tree, each of them and no other. |
| AudiencePreview.SelectAgrees | web/src/app/api/audiences/preview/route.ts:111 | A filter that agrees with the rule set on every customer selects exactly the rule set's audience. |
| Filters.Select | web/src/app/api/campaigns/route.ts:113 | `find(filter)` returns the matching customers, in store order. |
| Filters.SelectAll | web/src/app/api/campaigns/route.ts:120 | `find({})` returns the whole store, in order. |
| Filters.Matches | web/src/app/api/campaigns/route.ts:113 | MongoDB's evaluation of a filter on one customer; `GroupSound` relates it to the rule tree's meaning. |
| Filters.CompareHolds | web/src/lib/queryBuilder.ts:35-39 | A `$eq`/`$ne`/`$gt`/`$lt`/`$gte` comparison holds only within one type bracket; a value of another type or a missing field satisfies `$ne` alone. Used by `Matches`. |
| Filters.RegexSearch | web/src/lib/queryBuilder.ts:40-42 | A `$regex` search anywhere in the text, for patterns whose only metacharacters are `^` and `$`; stated by `RuleSemantics.IntendedContains`, `IntendedStartsWith` and `IntendedEndsWith`. |
| Personalization.ReplaceAllCI | web/src/app/api/campaigns/route.ts:80-83 | A case-insensitive global replace of a literal pattern: a non-empty replacement leaves a non-empty text non-empty. |
| Personalization.ReplaceAbsent | web/src/app/api/campaigns/route.ts:80-83 | A text in which the pattern does not occur, in any case, is unchanged. |
| Personalization.ReplaceLeftmost | web/src/app/api/campaigns/route.ts:80-83 | The leftmost occurrence, in any case, is replaced, the text before it is kept, and the scan goes on after it, so every occurrence is replaced. |
| Personalization.Personalize | web/src/app/api/campaigns/route.ts:77-84 | For a non-empty template and a customer with a non-empty name and email, the message is not empty. What it substitutes is stated for all templates of that shape by `NameOnlyTemplate` and `NoPlaceholders`. |
| Personalization.NoPlaceholders | web/src/app/api/campaigns/route.ts:77-84 | A template with none of the four placeholders, in any case, is sent unchanged. |
| Personalization.GreetingExample | web/src/app/api/campaigns/route.ts:80 | "Hi {{NAME}}!" becomes "Hi Ann!" for a customer named Ann. |
| Personalization.NamePass | web/src/app/api/campaigns/route.ts:80 | For every template made of `{`-free text with `{{name}}` placeholders in any letter case between, the name pass puts the name at every placeholder and keeps the text between them. |
| Personalization.NameOnlyTemplate | web/src/app/api/campaigns/route.ts:77-84 | For every such template and every customer whose name holds no `{`, the message is the template with the name at every placeholder and nothing else changed: the later three passes find nothing to replace. |
| Personalization.LaterPassSeesEarlierText | web/src/app/api/campaigns/route.ts:79-83 | The passes run in sequence: a name of "{{email}}" put in by the first pass is replaced by the email in the second. |
| CampaignsRoute.ParseCampaignBody | web/src/app/api/campaigns/route.ts:22-26 | The body is accepted exactly when the name has at least 3 and the template at least 10 UTF-16 units and the rules pass the rule-set schema. |
| CampaignsRoute.CreateSpec | web/src/app/api/campaigns/route.ts:89-192 | The whole campaign request as a function of the store: 401, 400, 500 for a compile or cast error, else `LaunchSpec`. `CreateCampaign` is proved against it; `CreateOutcomes` and `CreateSuccess` state its cases. |
| CampaignsRoute.LaunchSpec | web/src/app/api/campaigns/route.ts:108-186 | Segment selection, then the campaign save and the logs and sends; `LaunchOutcome` states its cases. |
| CampaignsRoute.PersistSpec | web/src/app/api/campaigns/route.ts:133-183 | The campaign draft saved, the logs inserted and the sends queued; `PersistEffect` states its effect. |
| CampaignsRoute.Segment | web/src/app/api/campaigns/route.ts:112-123 | The targeted customers are those the filter selects when it is not `{}`; for `{}`, every customer when the rule set is truly empty, and nobody otherwise. |
| CampaignsRoute.SegmentMeaning | web/src/app/api/campaigns/route.ts:112-123 | With intended text patterns and a rule tree that casts, a non-`{}` filter targets exactly the rule set's audience; a truly empty rule set targets every customer; a non-empty one that compiles to `{}` targets nobody. |
| CampaignsRoute.PreviewVersusCampaign | web/src/app/api/campaigns/route.ts:112-123 | For a filter that casts, preview and campaign agree on a rule set whose filter is not `{}`. A truly empty one previews 0 but targets everyone; a non-empty one that compiles to `{}` previews everyone but targets nobody. |
| CampaignsRoute.CreateCampaign | web/src/app/api/campaigns/route.ts:89-192 | The new store and status are `CreateSpec` of the old store, the session and the body. |
| CampaignsRoute.Launch | web/src/app/api/campaigns/route.ts:108-186 | Once the rules compile, the new store and status are `LaunchSpec`: segment, campaign, logs, sends. |
| CampaignsRoute.Persist | web/src/app/api/campaigns/route.ts:133-183 | Saving the campaign, inserting the logs and sending give `PersistSpec`. |
| CampaignsRoute.SendAll | web/src/app/api/campaigns/route.ts:158-180 | The send loop appends, in order, one request per log whose customer is in the segment, and changes nothing else. |
| CampaignsRoute.CreateOutcomes | web/src/app/api/campaigns/route.ts:93-191 | 401 exactly without a session, 400 exactly for a refused body, 500 exactly when the rules do not compile, their filter does not cast, or the campaign is refused, 201 otherwise; every answer but 201 leaves the store unchanged. |
| CampaignsRoute.LaunchOutcome | web/src/app/api/campaigns/route.ts:133-141 | After compiling, 500 exactly when the campaign document is refused, with the store unchanged, and 201 otherwise. |
| CampaignsRoute.CreateSuccess | web/src/app/api/campaigns/route.ts:105-186 | A 201 means the filter cast, and stores exactly what `Launched` describes, for the validated body, the segment the cast filter selects and the session's user. |
| CampaignsRoute.PersistEffect | web/src/app/api/campaigns/route.ts:133-181 | Saving a valid campaign for a segment of stored customers answers 201 and leaves behind exactly what `Launched` describes. |
| CampaignsRoute.SavedDraft | web/src/app/api/campaigns/route.ts:133-141 | The saved campaign is a DRAFT with the trimmed name, the rules, the template, the segment's size as `audienceSize`, zero counters and the session user. |
| CampaignsRoute.NewLogs | web/src/app/api/campaigns/route.ts:146-152 | One log per targeted customer, in order. |
| CampaignsRoute.LogsContents | web/src/app/api/campaigns/route.ts:146-155 | Every log is valid, and log `i` is the PENDING log for `seg[i]` with the new campaign's id and the personalised message. |
| CampaignsRoute.LogsAlwaysValid | web/src/app/api/campaigns/route.ts:149 | A stored customer's personalised message is never empty, so no log is refused. |
| CampaignsRoute.CollectContents | web/src/app/api/campaigns/route.ts:155 | `insertMany` succeeds exactly when every log is valid, and then keeps them in order. |
| CampaignsRoute.InsertLogsContents | web/src/app/api/campaigns/route.ts:155-158 | The new ids hold the logs in order, and every other id holds what it held before. |
| CampaignsRoute.RequestsContents | web/src/app/api/campaigns/route.ts:159-171 | With distinct ids in the segment, request `i` goes to `seg[i]` with log `i`'s message and id. |
| CampaignsRoute.SelectKeepsIdsDistinct | web/src/app/api/campaigns/route.ts:113 | Selecting customers keeps their ids distinct. |
| CampaignsRoute.CreatePreservesValid | web/src/app/api/campaigns/route.ts:89-192 | Campaign creation keeps the store valid. |
| CampaignsRoute.LaunchedKeepsValid | web/src/app/api/campaigns/route.ts:133-181 | A store left as `Launched` describes is valid. |
| DeliveryReceipts.StringCast | web/src/app/api/webhooks/delivery-receipts/route.ts:36 | A string is kept and a number or boolean is written out; nothing else casts to a `String` path. |
| DeliveryReceipts.LogIdOf | web/src/app/api/webhooks/delivery-receipts/route.ts:22 | `ObjectId.isValid` and the id it names, for a string id; any other JSON value is refused here (see Left out). |
| DeliveryReceipts.DateCast | web/src/app/api/webhooks/delivery-receipts/route.ts:38 | `new Date(timestamp)`: a string is parsed, a number is a time value valid inside the representable range, `true` and `false` are the time values 1 and 0. |
| Runtime.DateOfNumber | web/src/app/api/webhooks/delivery-receipts/route.ts:38 | `new Date(n)` for a number is valid exactly inside plus or minus 8.64e15 ms, and then has time value `n`. |
| DeliveryReceipts.StatusOf | web/src/app/api/webhooks/delivery-receipts/route.ts:35 | The status is accepted exactly when it is one of the six enum strings, and then names that status. |
| DeliveryReceipts.ReasonOf | web/src/app/api/webhooks/delivery-receipts/route.ts:46 | The reason is the supplied one when present, and "Unknown failure from vendor" otherwise. |
| DeliveryReceipts.Received | web/src/app/api/webhooks/delivery-receipts/route.ts:35-51 | The saved log: status and vendor id always set; SENT/DELIVERED set `sentAt` and clear the failure fields; FAILED sets `failedAt` and the reason and clears `sentAt`; other statuses keep all three. It is refused exactly for a status outside the enum, a vendor id that does not cast to a string, a counted status whose timestamp `new Date` cannot read (a `true` timestamp is the time value 1), or a FAILED reason that does not cast. |
| DeliveryReceipts.UpdateLog | web/src/app/api/webhooks/delivery-receipts/route.ts:35-51 | The route's field assignments and `save()` give exactly `Received`. |
| DeliveryReceipts.CountOutcome | web/src/app/api/webhooks/delivery-receipts/route.ts:53-74 | The `$inc`, the re-read and the COMPLETED update give exactly `Tally`, and nothing but the campaigns changes. |
| DeliveryReceipts.Tally | web/src/app/api/webhooks/delivery-receipts/route.ts:53-74 | The campaign store after a saved log: a counted status increments its campaign and may complete it; otherwise the campaigns are untouched. `CountedReceiptIncrements`, `UncountedChangesNoCampaign` and `CompletionIff` state it. |
| DeliveryReceipts.ReceiptSpec | web/src/app/api/webhooks/delivery-receipts/route.ts:15-80 | The outcome of one receipt: the new store and status. `ReceiveReceipt` is proved against it; `RejectionsChangeNothing` and `AcceptedUpdatesLog` state its cases. |
| DeliveryReceipts.ReceiveReceipt | web/src/app/api/webhooks/delivery-receipts/route.ts:15-80 | The new store and status are `ReceiptSpec` of the old store and the body. |
| DeliveryReceipts.RejectionsChangeNothing | web/src/app/api/webhooks/delivery-receipts/route.ts:17-32 | A receipt missing a field, naming a malformed id or an unknown log, or failing to save changes nothing; the statuses are 400, 400, 404, 500, and 200 otherwise. |
| DeliveryReceipts.AcceptedUpdatesLog | web/src/app/api/webhooks/delivery-receipts/route.ts:35-51 | An accepted receipt stores its status and vendor id on the named log and sets the delivery fields as its status says. The log keeps its campaign, customer, message and creator, and no other log changes. |
| DeliveryReceipts.CountedReceiptIncrements | web/src/app/api/webhooks/delivery-receipts/route.ts:53-59 | SENT/DELIVERED add exactly 1 to `sentCount`, FAILED exactly 1 to `failedCount`. The other counter and every other campaign stay as they were; the status can only become COMPLETED. |
| DeliveryReceipts.CompletionIff | web/src/app/api/webhooks/delivery-receipts/route.ts:62-73 | After the increment the campaign is COMPLETED exactly when it already was, or when its audience is not empty and `sentCount + failedCount` reaches it. |
| DeliveryReceipts.UncountedChangesNoCampaign | web/src/app/api/webhooks/delivery-receipts/route.ts:53-77 | A status other than SENT, DELIVERED or FAILED, or a log whose campaign does not exist, changes no campaign. |
| DeliveryReceipts.CompletedIsFinal | web/src/app/api/webhooks/delivery-receipts/route.ts:62-73 | No receipt moves a campaign out of COMPLETED. |
| DeliveryReceipts.NoDeduplication | web/src/app/api/webhooks/delivery-receipts/route.ts:53-59 | The same counted receipt posted twice is accepted twice and counted twice. |
| DeliveryReceipts.SavedAgain | web/src/app/api/webhooks/delivery-receipts/route.ts:51 | A log that took a receipt takes the same receipt again, and keeps its campaign. |
| DeliveryReceipts.ReceiptPreservesValid | web/src/app/api/webhooks/delivery-receipts/route.ts:15-80 | A receipt keeps the store valid. |
| CampaignModel.SaveCampaign | web/src/models/campaign.ts:39-84 | Saving succeeds exactly when the trimmed name, the rules, the template and the creator are present and the counters are at least 0. The result is then valid, with the trimmed name, the DRAFT and 0 defaults and empty tags. |
| CampaignModel.DefaultsOnSave | web/src/models/campaign.ts:53-81 | A campaign saved with only the required fields is a DRAFT with zero counters and no tags. |
| CommunicationLog.ParseStatus | web/src/models/communicationLog.ts:40-43 | A string is a status exactly when it is one of the six enum spellings. |
| CommunicationLog.StatusRoundTrip | web/src/models/communicationLog.ts:4 | Every status parses back from its own spelling. |
| CommunicationLog.NewLog | web/src/models/communicationLog.ts:23-71 | A log is created exactly when campaign, customer, a non-empty message and creator are present. Its status defaults to PENDING, and the vendor id, timestamps and reason start absent. |
| CommunicationLog.DuplicatePairAllowed | web/src/models/communicationLog.ts:28-34 | A valid log store can hold two logs for the same campaign and customer. |
| Records.SaveCustomer | web/src/models/customer.ts:16-48 | Saving succeeds exactly when the trimmed name is non-empty, the trimmed, lower-cased email matches the pattern and the counts are at least 0. The stored customer is then valid, with the normalised name and email and 0 defaults. |
| Records.EmailPatternMeaning | web/src/models/customer.ts:28-31 | The email check holds exactly when there is no whitespace, exactly one `@` not at the start, and a `.` with a character on each side after it. |
| Records.NormalisedEmail | web/src/models/customer.ts:26-27 | The stored email is trimmed and lower-case. |
| Records.SaveOrder | web/src/models/order.ts:14-36 | Saving succeeds exactly when the trimmed order id is non-empty and the amount at least 0, and stores the order with the trimmed id. |
| Validations.ParseField | web/src/lib/validations.ts:35 | A field is accepted only under its own spelling. |
| Validations.ParseOperator | web/src/lib/validations.ts:36 | An operator is accepted only under its own spelling. |
| Validations.EnumSpellingsParse | web/src/lib/validations.ts:35-36 | Each of the five fields and nine operators is accepted under its spelling. |
| Validations.ParseDataType | web/src/lib/validations.ts:38 | An absent data type is accepted as none; a present one must be one of the three spellings. |
| Validations.ParseLogical | web/src/lib/validations.ts:42 | The operator is accepted exactly when it is "AND" or "OR". |
| Validations.ParseRuleValue | web/src/lib/validations.ts:37 | A value is accepted exactly when it is a string or a number. |
| Validations.ValidateConditions | web/src/lib/validations.ts:43 | The conditions are accepted exactly when each is, and then keep their order. |
| Validations.ValidateEncode | web/src/lib/validations.ts:34-44 | Every rule tree a client can send validates to itself. |
| Validations.ValidatedIsJson | web/src/lib/validations.ts:34-44 | A validated tree holds no dates, and sending it again validates to the same tree. |
| Validations.SignUpCredentialsSignIn | web/src/lib/validations.ts:4-13 | The email and password of a valid sign-up pass sign-in. A password under 4 characters, or under 8 characters from the Basic Multilingual Plane, passes neither. |
| Validations.ParseCount | web/src/lib/validations.ts:29 | A count is accepted exactly when absent, giving 0, or a number of at least 0, giving that number. |
| Validations.ParseCustomer | web/src/lib/validations.ts:26-32 | A name with a character and an email zod accepts are required. The result has the trimmed name, the trimmed lower-cased email and counts of at least 0, which are 0 when absent. |
| Validations.ParseOrder | web/src/lib/validations.ts:16-23 | Accepted exactly when the order id has a character, the customer id is an ObjectId, the amount is at least 0 and the date is ISO; the result has the trimmed id. |
| Validations.BlankOrderIdPasses | web/src/lib/validations.ts:17 | An order id of one space passes, because the length check runs before the trim, and comes out empty. |
| Db.FindCustomer | web/src/app/api/orders/route.ts:43 | `findById` here, and `findOne({ email })` at customers/bulk-upload/route.ts:97 and orders/bulk-upload/route.ts:104: the index of the first customer with that id or email, and None exactly when no customer has it. |
| OrdersRoute.PostOrder | web/src/app/api/orders/route.ts:12-72 | The new store and status are `PostOrderSpec` of the old store, the session and the body. |
| OrdersRoute.PostOrderSpec | web/src/app/api/orders/route.ts:12-72 | The single-order request as a function of the store: 401, 400, 409, 404, 500 or 201. `PostOrder` is proved against it; `RejectionsChangeNothing` and `SuccessUpdatesAggregates` state its cases. |
| OrdersRoute.PlaceOrder | web/src/app/api/orders/route.ts:31-72 | 409 for a stored order id, 404 for an unknown customer, 500 for an order the schema refuses; otherwise the order is saved and then its customer's aggregates, with 500 (the order kept) when the updated customer is refused. `SuccessUpdatesAggregates` and `AfterOrderValid` state it. |
| OrdersRoute.AfterOrder | web/src/app/api/orders/route.ts:64-67 | The customer after an order: spends increased by the amount, one more visit, last active at the request's time; `OrderMakesCustomerRecent` and `AfterOrderValid` state it. |
| OrdersRoute.Place | web/src/app/api/orders/route.ts:31-72 | After validation, the duplicate check, the lookup, the order save and the customer update give `PlaceOrder`. |
| OrdersRoute.UpdateCustomer | web/src/app/api/orders/route.ts:64-67 | The customer's spends grow by the amount, visits by one, and it is last active now, when the customer schema accepts the result; only customer `k` changes. |
| OrdersRoute.RejectionsChangeNothing | web/src/app/api/orders/route.ts:16-49 | No session (401), a refused body (400), a stored order id (409), an unknown customer (404), or an order refused on save (500): each leaves the store as it was. |
| OrdersRoute.SuccessUpdatesAggregates | web/src/app/api/orders/route.ts:52-71 | On 201 exactly one order is added, for that customer, and only that customer changes: spends plus exactly the amount, visits plus exactly one, last active now. |
| OrdersRoute.PreservesValid | web/src/app/api/orders/route.ts:12-72 | The route keeps the store valid. |
| OrdersRoute.AfterOrderValid | web/src/app/api/orders/route.ts:64-67 | Adding a non-negative amount to a stored customer keeps it valid, so the customer save never fails. |
| OrdersRoute.AppendKeepsOrdersValid | web/src/app/api/orders/route.ts:34-59 | Appending a valid order whose id is new keeps the orders valid with distinct ids. |
| OrdersRoute.OrderMakesCustomerRecent | web/src/app/api/orders/route.ts:66 | After an order, the customer satisfies every "lastActiveDate IN_LAST_DAYS d" with d >= 0 and no "OLDER_THAN_DAYS d" with d >= 0. |
| CsvUpload.RowNumber | web/src/app/api/customers/bulk-upload/route.ts:77 | The row at index `i` is CSV row `i + 2`, which is at least 2. |
| CsvUpload.CellOrNA | web/src/app/api/customers/bulk-upload/route.ts:85 | An absent or empty cell is reported as "N/A", any other as itself. |
| CsvUpload.CountCell | web/src/app/api/customers/bulk-upload/route.ts:14-21 | A blank cell is absent; any other is accepted exactly when it is a number of at least 0, which is then its value. |
| CsvUpload.DateCell | web/src/app/api/customers/bulk-upload/route.ts:22-26 | A blank cell is absent; any other is accepted exactly when it is an ISO date-time, which is then its value. |
| CsvUpload.Gate | web/src/app/api/customers/bulk-upload/route.ts:40-53 | The route goes on exactly with a session and a CSV file; 401 exactly without a session. |
| CustomerBulkUpload.ParseRow | web/src/app/api/customers/bulk-upload/route.ts:11-27 | A row is accepted exactly when the name has a character, zod accepts the email, and the count and date cells are accepted. It gives the trimmed name and the trimmed, lower-cased email. |
| CustomerBulkUpload.PostUpload | web/src/app/api/customers/bulk-upload/route.ts:36-135 | The new store and the answer are `PostSpec` of the old store, the session and the file. |
| CustomerBulkUpload.PostSpec | web/src/app/api/customers/bulk-upload/route.ts:36-135 | The upload request as a function of the store: 401 without a session, 400 without a CSV file, 400 for a parse error, otherwise 200 with the rows processed in order. `PostUpload` is proved against it; `UploadTotals` and `ParseErrorsProcessNothing` state its cases. |
| CustomerBulkUpload.Upload | web/src/app/api/customers/bulk-upload/route.ts:75-133 | The rows processed in order, each against the store left by the previous ones; `UploadTotals` and `UploadKeepsValid` state it. |
| CustomerBulkUpload.Outcome | web/src/app/api/customers/bulk-upload/route.ts:79-115 | One row: refused, skipped for a known email, failed at save or created; `RowCountsOnce`, `ExistingEmailSkipped` and `CreatedFrom` state it. |
| CustomerBulkUpload.UploadRows | web/src/app/api/customers/bulk-upload/route.ts:75-133 | The loop leaves the store and the result as `Upload` of the rows describes. |
| CustomerBulkUpload.UploadRow | web/src/app/api/customers/bulk-upload/route.ts:76-132 | One iteration is `RowStep` of the row. |
| CustomerBulkUpload.DecideRow | web/src/app/api/customers/bulk-upload/route.ts:79-115 | The checks, in order (validation, the lookup by email, saving), decide the row's `Outcome` without changing anything. |
| CustomerBulkUpload.RowCountsOnce | web/src/app/api/customers/bulk-upload/route.ts:81-132 | A row is either a failure, with one error entry for its row number and the store untouched, or a success, with one created entry and one customer appended. |
| CustomerBulkUpload.SucceededIsCreated | web/src/app/api/customers/bulk-upload/route.ts:115-117 | A row counts as a success exactly when a customer is created from it. |
| CustomerBulkUpload.CreatedFrom | web/src/app/api/customers/bulk-upload/route.ts:79-115 | A customer is created only from a row that passed validation, whose email is not stored, and whose customer the schema accepted. |
| CustomerBulkUpload.ExistingEmailSkipped | web/src/app/api/customers/bulk-upload/route.ts:97-106 | A row whose email is already stored is skipped as a failure. |
| CustomerBulkUpload.SavedEmailSkipsLaterRow | web/src/app/api/customers/bulk-upload/route.ts:97-115 | A customer saved from a row is stored under the row's normalised email, so a later row of the same file with that email is skipped. |
| CustomerBulkUpload.CreatedDefaults | web/src/app/api/customers/bulk-upload/route.ts:108-114 | A created customer has the normalised name and email, 0 spends and visits when those cells are blank, and no last-active date when that cell is blank. |
| CustomerBulkUpload.RowKeepsValid | web/src/app/api/customers/bulk-upload/route.ts:94-132 | A row keeps the store valid: the new customer is valid and its email and id are new. |
| CustomerBulkUpload.UploadTotals | web/src/app/api/customers/bulk-upload/route.ts:75-133 | The counters add up to the number of rows, with one error entry per failure and one created entry per success. Error row numbers lie in 2 to n + 1 and increase. One customer is appended per success, and nothing else changes. |
| CustomerBulkUpload.UploadKeepsValid | web/src/app/api/customers/bulk-upload/route.ts:75-133 | The upload keeps the store valid. |
| CustomerBulkUpload.ParseErrorsProcessNothing | web/src/app/api/customers/bulk-upload/route.ts:68-71 | Parser errors give 400 with one error entry for row -1, both counters 0 and the store unchanged. |
| OrderBulkUpload.AmountCell | web/src/app/api/orders/bulk-upload/route.ts:11-24 | A blank amount is refused; any other is accepted exactly when it is a number of at least 0. |
| OrderBulkUpload.OrderDateCell | web/src/app/api/orders/bulk-upload/route.ts:11-24 | A blank date is refused; any other is accepted exactly when it is an ISO date-time. |
| OrderBulkUpload.ParseRow | web/src/app/api/orders/bulk-upload/route.ts:11-24 | A row is accepted exactly when the order id has a character, zod accepts the email, and the amount and date are accepted. It gives the trimmed id and the trimmed, lower-cased email. |
| OrderBulkUpload.PostUpload | web/src/app/api/orders/bulk-upload/route.ts:64-146 | The new store and the answer are `PostSpec` of the old store, the session and the file. |
| OrderBulkUpload.PostSpec | web/src/app/api/orders/bulk-upload/route.ts:64-146 | The upload request as a function of the store: 401 without a session, 400 without a CSV file, 400 for a parse error, otherwise 200 with the rows processed in order. `PostUpload` is proved against it; `UploadTotals` and `ParseErrorsProcessNothing` state its cases. |
| OrderBulkUpload.Upload | web/src/app/api/orders/bulk-upload/route.ts:71-144 | The rows processed in order, each against the store left by the previous ones; `UploadTotals` and `UploadKeepsValid` state it. |
| OrderBulkUpload.Outcome | web/src/app/api/orders/bulk-upload/route.ts:75-121 | One row: refused, skipped for a known id or an unknown email, failed at save or created; `RowCountsOnce`, `DuplicateIdSkipped`, `UnknownEmailSkipped` and `CreatedFrom` state it. |
| OrderBulkUpload.UploadRows | web/src/app/api/orders/bulk-upload/route.ts:71-144 | The loop leaves the store and the result as `Upload` of the rows describes. |
| OrderBulkUpload.UploadRow | web/src/app/api/orders/bulk-upload/route.ts:72-143 | One iteration is `RowStep` of the row. |
| OrderBulkUpload.DecideRow | web/src/app/api/orders/bulk-upload/route.ts:75-121 | The checks, in order (validation, the order id, the customer by email, saving), decide the row's `Outcome` without changing anything. |
| OrderBulkUpload.RowCountsOnce | web/src/app/api/orders/bulk-upload/route.ts:77-143 | A row is either a failure, with one error entry for its row number and the store untouched, or a success, with one created entry and one order appended; the customers never change. |
| OrderBulkUpload.SucceededIsCreated | web/src/app/api/orders/bulk-upload/route.ts:121-128 | A row counts as a success exactly when an order is saved from it. |
| OrderBulkUpload.CreatedFrom | web/src/app/api/orders/bulk-upload/route.ts:75-121 | An order is saved only from a row that passed validation, whose id is not stored and whose email names a customer; it is the order the schema builds for that customer. |
| OrderBulkUpload.DuplicateIdSkipped | web/src/app/api/orders/bulk-upload/route.ts:92-101 | A row whose order id is stored is skipped as a duplicate whether or not its customer exists. |
| OrderBulkUpload.UnknownEmailSkipped | web/src/app/api/orders/bulk-upload/route.ts:104-113 | A new order id whose email no customer has is skipped as not found. |
| OrderBulkUpload.BlankIdFailsAtSave | web/src/app/api/orders/bulk-upload/route.ts:115-143 | An order id of only whitespace passes validation. It is refused on save, so with its customer present the row fails as a database error. |
| OrderBulkUpload.CreatedOrderFields | web/src/app/api/orders/bulk-upload/route.ts:115-128 | A saved order has the row's trimmed id, belongs to the customer with the row's normalised email, and carries the row's amount and date. |
| OrderBulkUpload.SavedIdSkipsLaterRow | web/src/app/api/orders/bulk-upload/route.ts:92-121 | An order saved from a row is stored under the trimmed id, so a later row of the same file with that id is skipped. |
| OrderBulkUpload.RowKeepsValid | web/src/app/api/orders/bulk-upload/route.ts:90-143 | A row keeps the store valid: the new order is valid and its id is new. |
| OrderBulkUpload.UploadTotals | web/src/app/api/orders/bulk-upload/route.ts:71-144 | The counters add up to the number of rows, with one error entry per failure and one created entry per success. Error row numbers lie in 2 to n + 1 and increase. One order is appended per success; customers and the rest of the store are unchanged. |
| OrderBulkUpload.UploadKeepsValid | web/src/app/api/orders/bulk-upload/route.ts:71-144 | The upload keeps the store valid. |
| OrderBulkUpload.ParseErrorsProcessNothing | web/src/app/api/orders/bulk-upload/route.ts:64-67 | Parser errors give 400 with one error entry for row -1, both counters 0 and the store unchanged. |
| Strings.TrimIsTrimmed | web/src/lib/validations.ts:27 | `trim` leaves no whitespace at either end. |
| Strings.TrimIdempotent | web/src/lib/validations.ts:27 | Trimming twice is trimming once. |
| Strings.TrimStartShape | web/src/lib/validations.ts:27 | `TrimStart` drops exactly the leading whitespace. |
| Strings.TrimEndShape | web/src/lib/validations.ts:27 | `TrimEnd` drops exactly the trailing whitespace. |
| Strings.LowerIdempotent | web/src/lib/validations.ts:28 | Lower-casing twice is lower-casing once. |
| Strings.NatDigits | web/src/app/api/campaigns/route.ts:82-83 | The decimal digits of a natural number, with no leading zero, reading back as the number. |
| Strings.DecimalString | web/src/app/api/campaigns/route.ts:82-83 | `String(n)` is digits with no leading zero (other than "0" itself), with a leading minus exactly for negative `n`, and the digits read back as the magnitude of `n`. |
| Strings.JsLength | web/src/lib/validations.ts:5 | The UTF-16 length is between the number of characters and twice it, and equal to it inside the Basic Multilingual Plane. |

## Left out

- Mongoose casting, beyond the casts of the receipt's status, vendor id, timestamp and reason, the rule values the compiler converts, and the cast of a query filter (`QueryCast`). Every other document field is taken to be the type its schema declares.
- QueryCast.CastOperand: rule values are strings, numbers or dates, so the casts of booleans, arrays and objects are not modelled. The `strictQuery` setting and `$regex` given a non-string are not modelled either.
- Floating point. Amounts, counts and day counts are integers, and `Number(...)` is a parameter returning an integer or nothing.
- Local-time date arithmetic. `setDate(getDate() - days)` is modelled as `now - days * 86400000` milliseconds, so daylight-saving shifts are not modelled.
- Date parsing, zod's email, ISO date-time and ObjectId checks. These are opaque parameters of `Runtime.Env`, and so is the clock.
- Full regular expressions. `$regex` is modelled over literal characters plus `^` and `$`. The soundness theorems assume values free of metacharacters, because the source does not escape them. The as-written theorems (`StartsWithAsWrittenNeverMatches`, `EndsWithAsWrittenNeverMatches`, `ContainsAsWrittenNeedsSlash`, `StartsWithPreviewsNobody`) also assume no `/`: they cover plain-text values only.
- Whether `new RegExp(p, 'i')` throws a SyntaxError. It is the opaque predicate `Env.regExpOk`. A condition whose pattern it refuses does not compile, and the routes answer 500.
- QueryBuilder.EscapeSource: escapes every `/`. V8 leaves a `/` that is already escaped by `\` or inside a character class as it is. The two differ only for values holding `\` or `[`, which are not plain text.
- Case folding beyond ASCII, for `toLowerCase` and for the `i` flag.
- Personalization.ReplaceAllCI: does not expand `$&`, `$1` and similar sequences in the replacement. A customer name containing `$` can be rendered differently by `String.replace`.
- `String(totalSpends)` for non-integer spends. Only integers are modelled.
- Authentication. A session is a parameter: present or absent, with or without a user id.
- The user interface and the LLM routes.
- The dummy vendor. A send is an entry in the store's outbox; its responses arrive as receipts. A fire-and-forget `fetch` that fails is only logged by the source and changes nothing here.
- Concurrency. Requests, receipts and the async sends are sequential calls.
- `dbConnect`, and `request.json()` or `formData()` failing. These are the routes' outer 500 answers, and the model takes a parsed body.
- Database failures other than schema validation, such as a lost connection. The outer `catch` returns 500 for them.
- ObjectIds. They are natural numbers from one counter, `nextId`, that is advanced only by successful saves. The campaign route's `createdBy` of a session without a user id is a refused save.
- `insertMany` is all-or-nothing. The route inserts valid logs (`CampaignsRoute.LogsAlwaysValid`), so the partial case does not arise.
- The order of the logs returned by `find({ campaignId })`. They are taken in insertion order.
- The GET routes of campaigns and orders.
- DELIVERED does not set `deliveredAt` in the source either. The source's `log.campaignId &&` test is always true, because the field is required.
- A `Composite` JSON value (an object or array) as a receipt timestamp. `new Date([1])` reads an array through its string form, and an object through `valueOf`. The model reads no composite as a date, so it answers 500 for some receipts that the route accepts. The rule schema refuses composite rule values.
- DeliveryReceipts.LogIdOf: a `communicationLogId` that is not a string is refused with 400. `ObjectId.isValid` accepts a number, and what `findById` then does with it is not modelled.
- The `query` echoed by the preview answer. It is the compiled filter from before the cast; only the count is modelled.
- Error message texts. They are modelled as kinds (`Problem`, `CompileError`); the duplicate-key (code 11000) and other database messages are one `DatabaseError`.
- The unique index on `orderId` and `email`, beyond the explicit checks. The store invariant `Db.ValidState` carries the uniqueness these indexes give.
- papaparse is a parameter: the parsed rows or a parse error.
- The single-order route's 500 for a customer its schema refuses after the update. It is modelled, and `OrdersRoute.AfterOrderValid` shows it cannot happen for a stored customer.

## Findings

| source | as written | input that shows it | evidently intended | confidence | as-written member | corrected member |
|---|---|---|---|---|---|---|
| web/src/lib/queryBuilder.ts:40-42 (and the copies at web/src/app/api/audiences/preview/route.ts:73-75, web/src/app/api/campaigns/route.ts:65-67) | `new RegExp(v, 'i').toString()` is the string `/v/i`, which MongoDB takes as a pattern whose slashes and `i` are literal characters, matched case-sensitively. For a plain-text `v` (no metacharacter and no `/`), STARTS_WITH and ENDS_WITH then match nothing, and CONTAINS matches only text that holds a `/`. | the rule `name CONTAINS "ali"` and a customer named Alice (`new RegExp` accepts "ali") | a case-insensitive substring, prefix or suffix test on `v`, for example `{ $regex: v, $options: 'i' }` | not executed | RuleSemantics.ContainsCounterexample, RuleSemantics.StartsWithAsWrittenNeverMatches, RuleSemantics.EndsWithAsWrittenNeverMatches, RuleSemantics.ContainsAsWrittenNeedsSlash | RuleSemantics.IntendedContains, RuleSemantics.IntendedStartsWith, RuleSemantics.IntendedEndsWith, RuleSemantics.GroupSound |
