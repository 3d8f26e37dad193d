/** The fixed concept catalog of the detector: the twelve prompts, the keyword rules that
    sort a prompt into a technique type, the type colours and the type descriptions. */
module Catalog {
  import opened Strings
  import opened Wrappers

  /** The nine technique types a concept can be sorted into. */
  datatype Technique =
    Authority | Emotional | Fear | Patriotic | Leader | Conflict | Action | Historical | General

  /** The type's name as the source spells it. */
  function Name(t: Technique): string {
    match t
    case Authority => "authority"
    case Emotional => "emotional"
    case Fear => "fear"
    case Patriotic => "patriotic"
    case Leader => "leader"
    case Conflict => "conflict"
    case Action => "action"
    case Historical => "historical"
    case General => "general"
  }

  /** The text prompts scored against the image, in catalog order. */
  const Concepts: seq<string> := [
    "authority figure in uniform", "military propaganda poster", "political rally with flags",
    "emotional manipulation imagery", "fear-inducing propaganda", "patriotic symbols and colors",
    "leader worship imagery", "us versus them messaging", "call to action propaganda",
    "historical propaganda art", "war propaganda poster", "political campaign imagery"
  ]

  /** Display colour per type name; "general" has no entry. */
  const ColorMap: map<string, string> := map[
    "authority" := "#ef4444", "emotional" := "#f97316", "fear" := "#dc2626",
    "patriotic" := "#3b82f6", "leader" := "#8b5cf6", "conflict" := "#059669",
    "action" := "#eab308", "historical" := "#6b7280"
  ]

  /** The colour used for a type missing from `ColorMap`. */
  const DefaultColor: string := "#6b7280"

  /** The colour of a type: its entry in `ColorMap`, or the default. */
  function ColorOf(t: Technique): (c: string)
    ensures c == DefaultColor <==> t == General || t == Historical
  {
    match t
    case Authority => "#ef4444"
    case Emotional => "#f97316"
    case Fear => "#dc2626"
    case Patriotic => "#3b82f6"
    case Leader => "#8b5cf6"
    case Conflict => "#059669"
    case Action => "#eab308"
    case Historical => "#6b7280"
    case General => DefaultColor
  }

  /** `ColorOf` is the lookup `color_map.get(name, "#6b7280")`: every type but "general"
      has its own entry, and "general" falls back to the default. */
  lemma ColorOfIsLookup(t: Technique)
    ensures Name(t) in ColorMap <==> t != General
    ensures ColorOf(t) == if Name(t) in ColorMap then ColorMap[Name(t)] else DefaultColor
  {
  }

  /** The display label of a type. */
  function Label(t: Technique): (l: string)
    ensures |l| == |Name(t)|
  {
    match t
    case Authority => "Authority"
    case Emotional => "Emotional"
    case Fear => "Fear"
    case Patriotic => "Patriotic"
    case Leader => "Leader"
    case Conflict => "Conflict"
    case Action => "Action"
    case Historical => "Historical"
    case General => "General"
  }

  /** The label is what `name.replace('_', ' ').title()` makes of the type's name. */
  lemma LabelIsTitleCase(t: Technique)
    ensures Label(t) == Title(ReplaceChar(Name(t), '_', ' '))
  {
    match t
    case Authority => CapitalisedWord("authority", "Authority");
    case Emotional => CapitalisedWord("emotional", "Emotional");
    case Fear => CapitalisedWord("fear", "Fear");
    case Patriotic => CapitalisedWord("patriotic", "Patriotic");
    case Leader => CapitalisedWord("leader", "Leader");
    case Conflict => CapitalisedWord("conflict", "Conflict");
    case Action => CapitalisedWord("action", "Action");
    case Historical => CapitalisedWord("historical", "Historical");
    case General => CapitalisedWord("general", "General");
  }

  /** A lower-case word keeps its letters through the underscore replacement and gets its
      first letter capitalised by title-casing. */
  lemma CapitalisedWord(n: string, l: string)
    requires |n| > 0 && forall i :: 0 <= i < |n| ==> IsLower(n[i])
    requires |l| == |n| && l[0] == ToUpperChar(n[0]) && l[1..] == n[1..]
    ensures l == Title(ReplaceChar(n, '_', ' '))
  {
    assert ReplaceChar(n, '_', ' ') == n;
    TitleOfLowerWord(n);
  }

  /** One classification rule: any of its keywords selects its technique. */
  datatype Rule = Rule(keywords: seq<string>, technique: Technique)

  /** The rules in the order the classifier tries them. */
  const Rules: seq<Rule> := [
    Rule(["authority", "uniform"], Authority),
    Rule(["emotional", "manipulation"], Emotional),
    Rule(["fear"], Fear),
    Rule(["patriotic", "flag"], Patriotic),
    Rule(["leader", "worship"], Leader),
    Rule(["war", "versus"], Conflict),
    Rule(["action", "call"], Action),
    Rule(["historical"], Historical)
  ]

  /** Some keyword of the list occurs in `text`. */
  predicate AnyOccurs(text: string, keywords: seq<string>) {
    exists k :: 0 <= k < |keywords| && Contains(text, keywords[k])
  }

  lemma AnyOccursOne(text: string, a: string)
    ensures AnyOccurs(text, [a]) <==> Contains(text, a)
  {
    if Contains(text, a) {
      assert [a][0] == a;
    }
  }

  lemma AnyOccursTwo(text: string, a: string, b: string)
    ensures AnyOccurs(text, [a, b]) <==> Contains(text, a) || Contains(text, b)
  {
    if Contains(text, a) {
      assert [a, b][0] == a;
    }
    if Contains(text, b) {
      assert [a, b][1] == b;
    }
  }

  predicate Matches(rule: Rule, text: string) {
    AnyOccurs(text, rule.keywords)
  }

  /** The keyword classification: the concept is lower-cased and the first rule, in the
      order above, with a keyword occurring in it decides the type; no match gives "general". */
  function Categorize(concept: string): Technique {
    var c := Lower(concept);
    if Contains(c, "authority") || Contains(c, "uniform") then Authority
    else if Contains(c, "emotional") || Contains(c, "manipulation") then Emotional
    else if Contains(c, "fear") then Fear
    else if Contains(c, "patriotic") || Contains(c, "flag") then Patriotic
    else if Contains(c, "leader") || Contains(c, "worship") then Leader
    else if Contains(c, "war") || Contains(c, "versus") then Conflict
    else if Contains(c, "action") || Contains(c, "call") then Action
    else if Contains(c, "historical") then Historical
    else General
  }

  /** The reference reading of the classifier: try the rules of `Rules` from position `k`
      on and return the technique of the first one that matches. */
  function FirstMatchFrom(text: string, k: nat): Technique
    decreases |Rules| - k
  {
    if k >= |Rules| then General
    else if Matches(Rules[k], text) then Rules[k].technique
    else FirstMatchFrom(text, k + 1)
  }

  /** No rule of the table is for "general". */
  lemma RulesAreSpecific(k: nat)
    requires k < |Rules|
    ensures Rules[k].technique != General
  {
  }

  /** First-match semantics: "general" exactly when no rule from `k` on matches, and
      otherwise the technique of a matching rule with no matching rule before it. */
  lemma {:induction false} FirstMatchFromSpec(text: string, k: nat)
    ensures var t := FirstMatchFrom(text, k);
      && (t == General <==> forall j :: k <= j < |Rules| ==> !Matches(Rules[j], text))
      && (t != General ==>
            exists j :: k <= j < |Rules| && Rules[j].technique == t && Matches(Rules[j], text)
                     && forall i :: k <= i < j ==> !Matches(Rules[i], text))
    decreases |Rules| - k
  {
    if k < |Rules| {
      RulesAreSpecific(k);
      FirstMatchFromSpec(text, k + 1);
      if !Matches(Rules[k], text) && FirstMatchFrom(text, k) != General {
        var j :| k + 1 <= j < |Rules| && Rules[j].technique == FirstMatchFrom(text, k) && Matches(Rules[j], text)
                 && forall i :: k + 1 <= i < j ==> !Matches(Rules[i], text);
        assert forall i :: k <= i < j ==> !Matches(Rules[i], text);
      }
    }
  }

  /** The if-chain of the classifier is the first-match reading of the rule table. */
  lemma CategorizeIsFirstMatch(concept: string)
    ensures Categorize(concept) == FirstMatchFrom(Lower(concept), 0)
  {
    var c := Lower(concept);
    AnyOccursTwo(c, "authority", "uniform");
    AnyOccursTwo(c, "emotional", "manipulation");
    AnyOccursOne(c, "fear");
    AnyOccursTwo(c, "patriotic", "flag");
    AnyOccursTwo(c, "leader", "worship");
    AnyOccursTwo(c, "war", "versus");
    AnyOccursTwo(c, "action", "call");
    AnyOccursOne(c, "historical");
    assert FirstMatchFrom(c, 7) == (if Matches(Rules[7], c) then Historical else General);
    assert FirstMatchFrom(c, 6) == (if Matches(Rules[6], c) then Action else FirstMatchFrom(c, 7));
    assert FirstMatchFrom(c, 5) == (if Matches(Rules[5], c) then Conflict else FirstMatchFrom(c, 6));
    assert FirstMatchFrom(c, 4) == (if Matches(Rules[4], c) then Leader else FirstMatchFrom(c, 5));
    assert FirstMatchFrom(c, 3) == (if Matches(Rules[3], c) then Patriotic else FirstMatchFrom(c, 4));
    assert FirstMatchFrom(c, 2) == (if Matches(Rules[2], c) then Fear else FirstMatchFrom(c, 3));
    assert FirstMatchFrom(c, 1) == (if Matches(Rules[1], c) then Emotional else FirstMatchFrom(c, 2));
  }

  /** The classifier lower-cases its input and returns the technique of the first rule with
      a keyword in it, "general" when there is none. */
  lemma CategorizeSpec(concept: string)
    ensures var c := Lower(concept); var t := Categorize(concept);
      && (t == General <==> forall j :: 0 <= j < |Rules| ==> !Matches(Rules[j], c))
      && (t != General ==>
            exists j :: 0 <= j < |Rules| && Rules[j].technique == t && Matches(Rules[j], c)
                     && forall i :: 0 <= i < j ==> !Matches(Rules[i], c))
  {
    CategorizeIsFirstMatch(concept);
    FirstMatchFromSpec(Lower(concept), 0);
  }

  /** "authority"/"uniform" outrank every other keyword, "fear" and "war" included. */
  lemma AuthorityWins(concept: string)
    requires Contains(Lower(concept), "authority") || Contains(Lower(concept), "uniform")
    ensures Categorize(concept) == Authority
  {
  }

  /** The analysis paragraph of each type. */
  const AuthorityText: string :=
    "**Authority Appeal**: The presence of "
    + "authority figures or institutional "
    + "symbols designed to inspire trust and "
    + "compliance through perceived "
    + "credibility and power."
  const EmotionalText: string :=
    "**Emotional Manipulation**: Visual "
    + "elements crafted to evoke strong "
    + "emotional responses, bypassing rational "
    + "analysis and critical thinking."
  const FearText: string :=
    "**Fear-based Messaging**: Imagery "
    + "designed to create anxiety, worry, or "
    + "fear to motivate specific behaviors or "
    + "beliefs."
  const PatrioticText: string :=
    "**Patriotic Symbolism**: Use of "
    + "national symbols, colors, or imagery to "
    + "create emotional resonance with "
    + "patriotic sentiments and national "
    + "identity."
  const LeaderText: string :=
    "**Leadership Cult**: Imagery promoting "
    + "reverence or worship of specific "
    + "leaders or personalities."
  const ConflictText: string :=
    "**Us vs Them Framing**: Visual elements "
    + "that create clear divisions between "
    + "groups, promoting in-group loyalty and "
    + "out-group hostility."
  const ActionText: string :=
    "**Call to Action**: Visual cues "
    + "designed to motivate specific behaviors "
    + "or responses from the viewer."
  const HistoricalText: string :=
    "**Historical References**: Use of "
    + "historical imagery or references to "
    + "legitimize current messages or create "
    + "emotional connections."

  /** The analysis paragraph for a type, where one exists ("general" has none). */
  function Description(t: Technique): (d: Option<string>)
    ensures d.Some? <==> t != General
  {
    match t
    case Authority => Some(AuthorityText)
    case Emotional => Some(EmotionalText)
    case Fear => Some(FearText)
    case Patriotic => Some(PatrioticText)
    case Leader => Some(LeaderText)
    case Conflict => Some(ConflictText)
    case Action => Some(ActionText)
    case Historical => Some(HistoricalText)
    case General => None
  }
}
