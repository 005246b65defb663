/** The campaign document and its audience rules (`IRuleCondition`,
    `IRuleGroup`, `ICampaign` and the Campaign schema's defaults and bounds). */
module CampaignModel {
  import opened Wrappers
  import Strings

  /** The five customer fields a rule may test. */
  datatype Field = TotalSpends | VisitCount | LastActiveDate | Name | Email

  /** The nine rule operators. */
  datatype Operator =
    | Equals | NotEquals | GreaterThan | LessThan
    | Contains | StartsWith | EndsWith
    | OlderThanDays | InLastDays

  datatype DataType = StringType | NumberType | DateType

  /** `string | number | Date`; a Date is its millisecond time value. */
  datatype RuleValue = Str(s: string) | Num(n: int) | Date(time: int)

  datatype RuleCondition = RuleCondition(field: Field, operator: Operator, value: RuleValue, dataType: Option<DataType>)

  datatype LogicalOperator = And | Or

  /** A rule group: conditions and nested groups, nested to any depth. A
      top-level rule set is a group. The source's optional `groups` list is
      read the same way everywhere whether absent or empty, so an absent list
      is the empty sequence here. */
  datatype RuleGroup = RuleGroup(logicalOperator: LogicalOperator, conditions: seq<RuleCondition>, groups: seq<RuleGroup>)

  function SubGroups(g: RuleGroup): seq<RuleGroup> {
    g.groups
  }

  /** "No conditions and no (or an empty) list of groups". */
  predicate IsTrulyEmpty(g: RuleGroup) {
    |g.conditions| == 0 && |SubGroups(g)| == 0
  }

  /** A size measure for termination of the recursive walks over groups:
      `GroupSize(g)` exceeds `GroupsSize` of its nested groups, and
      `GroupsSize(gs)` exceeds the size of its head and of its tail. */
  function GroupSize(g: RuleGroup): nat {
    2 + |g.conditions| + Sum(seq(|g.groups|, i requires 0 <= i < |g.groups| => GroupSize(g.groups[i])))
  }

  function GroupsSize(gs: seq<RuleGroup>): nat {
    1 + Sum(seq(|gs|, i requires 0 <= i < |gs| => GroupSize(gs[i])))
  }

  function Sum(s: seq<nat>): nat {
    if s == [] then 0 else s[0] + Sum(s[1..])
  }

  lemma GroupSizeBound(g: RuleGroup)
    ensures GroupSize(g) > GroupsSize(SubGroups(g))
  {
    var gs := g.groups;
    assert seq(|gs|, i requires 0 <= i < |gs| => GroupSize(gs[i]))
        == seq(|g.groups|, i requires 0 <= i < |g.groups| => GroupSize(g.groups[i]));
  }

  lemma GroupsSizeBound(gs: seq<RuleGroup>)
    requires gs != []
    ensures GroupsSize(gs) > GroupSize(gs[0]) && GroupsSize(gs) > GroupsSize(gs[1..])
  {
    var sizes := seq(|gs|, i requires 0 <= i < |gs| => GroupSize(gs[i]));
    var tail := seq(|gs| - 1, i requires 0 <= i < |gs| - 1 => GroupSize(gs[1..][i]));
    assert sizes[1..] == tail;
  }

  datatype CampaignStatus = Draft | Scheduled | Sending | Completed | Failed

  /** A stored campaign. Counters are integers and the schema gives them a
      minimum of 0; `createdBy` is the creating user's id. */
  datatype Campaign = Campaign(
    name: string,
    audienceRules: RuleGroup,
    messageTemplate: string,
    status: CampaignStatus,
    audienceSize: int,
    sentCount: int,
    failedCount: int,
    createdBy: nat,
    tags: seq<string>,
    failureReason: Option<string>)

  /** The fields passed to `new CampaignModel({...})`; an omitted one is None. */
  datatype CampaignFields = CampaignFields(
    name: Option<string>,
    audienceRules: Option<RuleGroup>,
    messageTemplate: Option<string>,
    status: Option<CampaignStatus>,
    audienceSize: Option<int>,
    sentCount: Option<int>,
    failedCount: Option<int>,
    createdBy: Option<nat>,
    tags: Option<seq<string>>)

  /** What the schema accepts on save: the required fields present (a required
      string must not be empty), the name trimmed, the counters at least 0. */
  predicate ValidCampaign(c: Campaign) {
    && c.name != "" && Strings.IsTrimmed(c.name)
    && c.messageTemplate != ""
    && c.audienceSize >= 0 && c.sentCount >= 0 && c.failedCount >= 0
  }

  /** Building and saving a campaign document: apply the `trim` setter and
      the defaults (status DRAFT, counters 0, no tags), then validate.
      None is the validation error that `save()` throws. */
  function SaveCampaign(f: CampaignFields): (r: Option<Campaign>)
    ensures r.Some? <==>
      && f.name.Some? && Strings.Trim(f.name.value) != ""
      && f.audienceRules.Some?
      && f.messageTemplate.Some? && f.messageTemplate.value != ""
      && f.createdBy.Some?
      && f.audienceSize.GetOr(0) >= 0 && f.sentCount.GetOr(0) >= 0 && f.failedCount.GetOr(0) >= 0
    ensures r.Some? ==> ValidCampaign(r.value)
    ensures r.Some? ==> r.value.name == Strings.Trim(f.name.value)
    ensures r.Some? ==> r.value.audienceRules == f.audienceRules.value && r.value.messageTemplate == f.messageTemplate.value
    ensures r.Some? ==> r.value.createdBy == f.createdBy.value
    ensures r.Some? ==> r.value.status == f.status.GetOr(Draft)
    ensures r.Some? ==> r.value.audienceSize == f.audienceSize.GetOr(0)
    ensures r.Some? ==> r.value.sentCount == f.sentCount.GetOr(0) && r.value.failedCount == f.failedCount.GetOr(0)
    ensures r.Some? ==> r.value.tags == f.tags.GetOr([]) && r.value.failureReason.None?
  {
    if f.name.None? || f.audienceRules.None? || f.messageTemplate.None? || f.createdBy.None? then None
    else
      var name := Strings.Trim(f.name.value);
      var c := Campaign(name, f.audienceRules.value, f.messageTemplate.value,
                        f.status.GetOr(Draft), f.audienceSize.GetOr(0),
                        f.sentCount.GetOr(0), f.failedCount.GetOr(0),
                        f.createdBy.value, f.tags.GetOr([]), None);
      Strings.TrimIsTrimmed(f.name.value);
      if ValidCampaign(c) then Some(c) else None
  }

  /** A campaign saved with only the required fields is a DRAFT with zero
      counters and no tags. */
  lemma DefaultsOnSave(name: string, rules: RuleGroup, template: string, user: nat)
    requires Strings.Trim(name) != "" && template != ""
    ensures var r := SaveCampaign(CampaignFields(Some(name), Some(rules), Some(template), None, None, None, None, Some(user), None));
      && r.Some? && r.value.status == Draft
      && r.value.audienceSize == 0 && r.value.sentCount == 0 && r.value.failedCount == 0
      && r.value.tags == []
  {
  }
}
