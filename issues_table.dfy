/**
 * The label rules of the issues table: the task type, the priority icon and
 * the priority cell, the label badges with their overflow marker and text
 * colour, the integer step of the seeded bounty generator and the type
 * abbreviation. Every rule looks at label names lowercased and asks whether
 * they contain a keyword.
 */
module IssuesTable {
  import opened Base
  import opened JsText
  import opened GitHubClient

  // ------------------------------------------------------------ label search

  /** `l.name.toLowerCase().includes(word)`. */
  predicate Mentions(l: IssueLabel, word: string)
  {
    Includes(ToLower(l.name), word)
  }

  /** `labels.find(p)`: the first label that satisfies `p`. */
  function Find(labels: seq<IssueLabel>, p: IssueLabel -> bool): (r: Option<IssueLabel>)
    ensures r.Some? ==> p(r.value) && r.value in labels
  {
    if labels == [] then None
    else if p(labels[0]) then Some(labels[0])
    else Find(labels[1..], p)
  }

  /** `labels.some(p)`. */
  predicate Any(labels: seq<IssueLabel>, p: IssueLabel -> bool)
  {
    exists i :: 0 <= i < |labels| && p(labels[i])
  }

  /** `find` returns a label exactly when `some` holds, and the label it returns is the first that passes. */
  lemma {:induction false} FindIff(labels: seq<IssueLabel>, p: IssueLabel -> bool)
    ensures Find(labels, p).Some? <==> Any(labels, p)
    ensures Find(labels, p).Some? ==>
              exists i :: 0 <= i < |labels| && labels[i] == Find(labels, p).value
                          && forall j :: 0 <= j < i ==> !p(labels[j])
  {
    if labels != [] {
      FindIff(labels[1..], p);
      assert forall i :: 1 <= i < |labels| ==> labels[i] == labels[1..][i - 1];
      if !p(labels[0]) && Find(labels, p).Some? {
        var i :| 0 <= i < |labels[1..]| && labels[1..][i] == Find(labels, p).value
                 && forall j :: 0 <= j < i ==> !p(labels[1..][j]);
        assert labels[i + 1] == Find(labels, p).value;
      }
      if p(labels[0]) {
        assert labels[0] == Find(labels, p).value;
      }
    }
  }

  predicate IsHighLabel(l: IssueLabel) { Mentions(l, "high") || Mentions(l, "urgent") }
  predicate IsMediumLabel(l: IssueLabel) { Mentions(l, "medium") }
  predicate IsLowLabel(l: IssueLabel) { Mentions(l, "low") }
  predicate IsBugLabel(l: IssueLabel) { Mentions(l, "bug") }
  predicate IsFeatureLabel(l: IssueLabel) { Mentions(l, "feature") || Mentions(l, "enhancement") }
  predicate IsDocLabel(l: IssueLabel) { Mentions(l, "doc") }

  // --------------------------------------------------------------- task type

  datatype TaskType = Bug | Feature | Documentation | Task

  /** The type name the badge carries in its title. */
  function TypeName(t: TaskType): string
  {
    match t
    case Bug => "Bug"
    case Feature => "Feature"
    case Documentation => "Documentation"
    case Task => "Task"
  }

  /** The badge variant of each type. */
  function Variant(t: TaskType): string
  {
    match t
    case Bug => "destructive"
    case Feature => "default"
    case Documentation => "secondary"
    case Task => "outline"
  }

  /** getTaskType: Bug before Feature before Documentation, Task when no keyword occurs. */
  function GetTaskType(labels: seq<IssueLabel>): (t: TaskType)
    ensures t == Bug <==> Any(labels, IsBugLabel)
    ensures t == Feature <==> !Any(labels, IsBugLabel) && Any(labels, IsFeatureLabel)
    ensures t == Documentation <==>
              !Any(labels, IsBugLabel) && !Any(labels, IsFeatureLabel) && Any(labels, IsDocLabel)
    ensures t == Task <==>
              !Any(labels, IsBugLabel) && !Any(labels, IsFeatureLabel) && !Any(labels, IsDocLabel)
  {
    FindIff(labels, IsBugLabel);
    FindIff(labels, IsFeatureLabel);
    FindIff(labels, IsDocLabel);
    if Find(labels, IsBugLabel).Some? then Bug
    else if Find(labels, IsFeatureLabel).Some? then Feature
    else if Find(labels, IsDocLabel).Some? then Documentation
    else Task
  }

  /** The text of the type badge: `Doc` and `Feat` are abbreviated, the others are shown whole. */
  function Abbreviation(t: TaskType): (s: string)
    ensures t == Documentation ==> s == "Doc"
    ensures t == Feature ==> s == "Feat"
    ensures t != Documentation && t != Feature ==> s == TypeName(t)
  {
    var name := TypeName(t);
    if name == "Documentation" then "Doc" else if name == "Feature" then "Feat" else name
  }

  /** The type badge of a row: its variant, its `title` tooltip and its text. */
  datatype TypeBadge = TypeBadge(variant: string, title: string, text: string)

  /** The type badge: the variant and the name come from getTaskType, the text is abbreviated. */
  function TaskBadge(labels: seq<IssueLabel>): (b: TypeBadge)
    ensures b.title == TypeName(GetTaskType(labels)) && b.text == Abbreviation(GetTaskType(labels))
    ensures b.variant == "destructive" <==> Any(labels, IsBugLabel)
    ensures b.variant == "default" <==> !Any(labels, IsBugLabel) && Any(labels, IsFeatureLabel)
    ensures b.variant == "secondary" <==>
              !Any(labels, IsBugLabel) && !Any(labels, IsFeatureLabel) && Any(labels, IsDocLabel)
    ensures b.variant == "outline" <==>
              !Any(labels, IsBugLabel) && !Any(labels, IsFeatureLabel) && !Any(labels, IsDocLabel)
  {
    var t := GetTaskType(labels);
    TypeBadge(Variant(t), TypeName(t), Abbreviation(t))
  }

  /** Each task type has a badge variant of its own. */
  lemma VariantInjective(a: TaskType, b: TaskType)
    ensures Variant(a) == Variant(b) <==> a == b
  {
    if a != b {
      assert Variant(a)[2] != Variant(b)[2];
    }
  }

  /** No two task types share a badge text, and every badge text is at most four characters long. */
  lemma AbbreviationInjective(a: TaskType, b: TaskType)
    ensures Abbreviation(a) == Abbreviation(b) <==> a == b
    ensures |Abbreviation(a)| <= 4
  {
    if a != b {
      assert Abbreviation(a)[0] != Abbreviation(b)[0] || |Abbreviation(a)| != |Abbreviation(b)|;
    }
  }

  // ---------------------------------------------------------------- priority

  datatype Priority = High | Medium | Low

  /** A rendered priority: its level, its text and its colour class. */
  datatype PriorityView = PriorityView(level: Priority, text: string, colour: string)

  function PriorityText(p: Priority): string
  {
    match p
    case High => "↑ High"
    case Medium => "→ Medium"
    case Low => "↓ Low"
  }

  /**
   * getPriorityIcon: High for high/urgent, else Medium for medium, else Low
   * for low, else the grey default Medium.
   */
  function GetPriorityIcon(labels: seq<IssueLabel>): (v: PriorityView)
    ensures v.text == PriorityText(v.level)
    ensures v.level == High <==> Any(labels, IsHighLabel)
    ensures v.level == Low <==> !Any(labels, IsHighLabel) && !Any(labels, IsMediumLabel) && Any(labels, IsLowLabel)
    ensures v.colour == "text-gray-500" <==>
              !Any(labels, IsHighLabel) && !Any(labels, IsMediumLabel) && !Any(labels, IsLowLabel)
  {
    FindIff(labels, IsHighLabel);
    FindIff(labels, IsMediumLabel);
    FindIff(labels, IsLowLabel);
    if Find(labels, IsHighLabel).Some? then PriorityView(High, "↑ High", "text-red-500")
    else if Find(labels, IsMediumLabel).Some? then PriorityView(Medium, "→ Medium", "text-yellow-500")
    else if Find(labels, IsLowLabel).Some? then PriorityView(Low, "↓ Low", "text-green-500")
    else PriorityView(Medium, "→ Medium", "text-gray-500")
  }

  /** The priority cell as the table renders it: High, else Low, else Medium; medium labels are not consulted. */
  function PriorityCell(labels: seq<IssueLabel>): (v: PriorityView)
    ensures v.text == PriorityText(v.level)
    ensures v.level == High <==> Any(labels, IsHighLabel)
    ensures v.level == Low <==> !Any(labels, IsHighLabel) && Any(labels, IsLowLabel)
  {
    if Any(labels, IsHighLabel) then PriorityView(High, "↑ High", "text-red-400 dark:text-red-300")
    else if Any(labels, IsLowLabel) then PriorityView(Low, "↓ Low", "text-green-400 dark:text-green-300")
    else PriorityView(Medium, "→ Medium", "text-yellow-400 dark:text-yellow-300")
  }

  /** The cell's tooltip is the icon's text. */
  function PriorityTooltip(labels: seq<IssueLabel>): string
  {
    GetPriorityIcon(labels).text
  }

  /**
   * The cell and its tooltip disagree exactly when a label says medium and
   * another says low and none says high or urgent.
   */
  lemma PriorityCellDisagrees(labels: seq<IssueLabel>)
    ensures PriorityCell(labels).text != PriorityTooltip(labels) <==>
              !Any(labels, IsHighLabel) && Any(labels, IsMediumLabel) && Any(labels, IsLowLabel)
  {
  }

  /** The labels `medium` and `low`: the cell shows Low under a Medium tooltip. */
  lemma MediumLowExample()
    ensures var labels := [IssueLabel(1, "medium", None, None), IssueLabel(2, "low", None, None)];
            && PriorityCell(labels).text == "↓ Low"
            && PriorityTooltip(labels) == "→ Medium"
  {
    var labels := [IssueLabel(1, "medium", None, None), IssueLabel(2, "low", None, None)];
    MediumLabel();
    LowLabel();
    assert IsMediumLabel(labels[0]) && !IsHighLabel(labels[0]);
    assert IsLowLabel(labels[1]) && !IsHighLabel(labels[1]);
    assert !Any(labels, IsHighLabel);
    assert GetPriorityIcon(labels).level == Medium;
    assert PriorityCell(labels).level == Low;
  }

  lemma MediumLabel()
    ensures IsMediumLabel(IssueLabel(1, "medium", None, None))
    ensures !IsHighLabel(IssueLabel(1, "medium", None, None))
  {
    assert ToLower("medium") == "medium";
    assert IsPrefix("medium", "medium");
    NotIncludesFirst("medium", "high");
    assert !IsPrefix("urgent", "medium");
    NotIncludesLonger("medium"[1..], "urgent");
  }

  lemma LowLabel()
    ensures IsLowLabel(IssueLabel(2, "low", None, None))
    ensures !IsHighLabel(IssueLabel(2, "low", None, None))
  {
    assert ToLower("low") == "low";
    assert IsPrefix("low", "low");
    NotIncludesFirst("low", "high");
    NotIncludesFirst("low", "urgent");
  }

  /** The cell rendered from the icon's level, in the cell's own colours. */
  function RenderedPriority(labels: seq<IssueLabel>): (v: PriorityView)
    ensures v.level == GetPriorityIcon(labels).level
    ensures v.text == PriorityTooltip(labels)
    ensures v.level == Low ==> Any(labels, IsLowLabel)
  {
    match GetPriorityIcon(labels).level
    case High => PriorityView(High, "↑ High", "text-red-400 dark:text-red-300")
    case Low => PriorityView(Low, "↓ Low", "text-green-400 dark:text-green-300")
    case Medium => PriorityView(Medium, "→ Medium", "text-yellow-400 dark:text-yellow-300")
  }

  /** The corrected cell differs from the cell as written only on the medium-and-low labels. */
  lemma RenderedPriorityAgrees(labels: seq<IssueLabel>)
    ensures RenderedPriority(labels) != PriorityCell(labels) <==>
              !Any(labels, IsHighLabel) && Any(labels, IsMediumLabel) && Any(labels, IsLowLabel)
  {
  }

  // ------------------------------------------------------------------ badges

  /** `labels.slice(0, 2)`: the labels shown as badges. */
  function VisibleLabels(labels: seq<IssueLabel>): (v: seq<IssueLabel>)
    ensures |v| == Min(2, |labels|)
    ensures v == labels[..|v|]
  {
    labels[..Min(2, |labels|)]
  }

  /** The overflow marker `+n`, present when more than two labels exist. */
  function Overflow(labels: seq<IssueLabel>): (m: Option<string>)
    ensures m.Some? <==> |labels| > 2
    ensures m.Some? ==> |m.value| >= 2 && m.value[0] == '+' && IsDigits(m.value[1..])
  {
    if |labels| > 2 then
      var m := "+" + IntToString(|labels| - 2);
      assert m[1..] == NatToString(|labels| - 2);
      Some(m)
    else None
  }

  /** The badges and the number in the marker account for every label. */
  lemma OverflowCountsRest(labels: seq<IssueLabel>)
    requires |labels| > 2
    ensures |VisibleLabels(labels)| + DecimalValue(Overflow(labels).value[1..]) == |labels|
  {
    assert Overflow(labels).value[1..] == NatToString(|labels| - 2);
    DecimalRoundTrip(|labels| - 2);
  }

  /** `label.color ? ... : ...`: a colour counts when present and not empty. */
  predicate HasColour(l: IssueLabel)
  {
    l.color.Some? && l.color.value != ""
  }

  /** The badge background: the label's colour, or grey. */
  function BadgeBackground(l: IssueLabel): (c: string)
    ensures HasColour(l) ==> c == "#" + l.color.value
    ensures !HasColour(l) ==> c == "#6b7280"
  {
    if HasColour(l) then "#" + l.color.value else "#6b7280"
  }

  /** `parseInt(color, 16) > 0x888888`, with NaN comparing false. */
  predicate IsLightColour(l: IssueLabel)
  {
    HasColour(l) && match ParseIntHex(l.color.value)
                    case None => false
                    case Some(v) => v > 0x888888
  }

  /** The badge text: black on a light colour, white otherwise. */
  function BadgeText(l: IssueLabel): (c: string)
    ensures c == "#000000" <==> IsLightColour(l)
    ensures c == "#000000" || c == "#ffffff"
  {
    if IsLightColour(l) then "#000000" else "#ffffff"
  }

  /** A label without a colour gets a grey badge with white text. */
  lemma NoColourIsGrey(l: IssueLabel)
    requires l.color.None? || l.color == Some("")
    ensures BadgeBackground(l) == "#6b7280" && BadgeText(l) == "#ffffff"
  {
  }

  /** For a six-digit colour code the text is black exactly when its value exceeds `0x888888`. */
  lemma SixDigitThreshold(id: int, name: string, v: nat)
    requires v < 0x1000000
    ensures var l := IssueLabel(id, name, Some(ToHex(v, 6)), None);
            BadgeText(l) == "#000000" <==> v > 0x888888
  {
    assert Pow16(6) == 0x1000000;
    HexRoundTrip(v, 6);
    ParseIntHexDigits(ToHex(v, 6));
  }

  // ------------------------------------------------------------------ bounty

  /** JavaScript's `%`: the remainder takes the sign of the dividend. */
  function JsRem(a: int, m: int): (r: int)
    requires m > 0
    ensures -m < r < m
    ensures a >= 0 ==> 0 <= r && r == a % m
    ensures a < 0 ==> r <= 0 && r == -((-a) % m)
  {
    if a >= 0 then a % m else -((-a) % m)
  }

  /** `issue.id % 1000`. */
  function BountySeed(id: int): (s: int)
    ensures -1000 < s < 1000
    ensures id >= 0 ==> 0 <= s
  {
    JsRem(id, 1000)
  }

  /** The integer numerator of the seeded random value: `(seed * 9301 + 49297) % 233280`. */
  function LcgValue(id: int): (v: int)
    ensures -233280 < v < 233280
    ensures id >= 0 ==> 0 <= v
  {
    var s := BountySeed(id);
    assert id >= 0 ==> s * 9301 + 49297 >= 0;
    JsRem(s * 9301 + 49297, 233280)
  }

  /** For non-negative ids the value depends only on the id modulo 1000. */
  lemma LcgPeriodic(id: int, k: nat)
    requires id >= 0
    ensures LcgValue(id + 1000 * k) == LcgValue(id)
  {
    assert (id + 1000 * k) % 1000 == id % 1000;
  }

  /** `labels.some(high or urgent)`, the test that raises a bounty. */
  predicate IsHighPriority(labels: seq<IssueLabel>)
  {
    Any(labels, IsHighLabel)
  }

  /** A bounty is raised exactly for the issues whose icon shows High. */
  lemma HighPriorityIsHighIcon(labels: seq<IssueLabel>)
    ensures IsHighPriority(labels) <==> GetPriorityIcon(labels).level == High
  {
  }

  /** The base amount in thousandths of an ether: by task type, half as much again for high priority. */
  function BaseMilli(t: TaskType, high: bool): (a: int)
    ensures high ==> 2 * a == 3 * BaseMilli(t, false)
    ensures !high ==> (t == Feature ==> a == 150) && (t == Task ==> a == 80)
                      && (t == Bug ==> a == 50) && (t == Documentation ==> a == 20)
  {
    var base := match t
      case Bug => 50
      case Feature => 150
      case Documentation => 20
      case Task => 80;
    if high then base * 3 / 2 else base
  }

  /** Feature work is worth most, then plain tasks, then bugs, then documentation. */
  lemma BaseOrder(high: bool)
    ensures BaseMilli(Feature, high) > BaseMilli(Task, high) > BaseMilli(Bug, high) > BaseMilli(Documentation, high)
  {
  }
}
