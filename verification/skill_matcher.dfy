/**
 The skill-selection state of the skill matcher page: the list of selected
 skills, the text in the input box and whether the suggestion dropdown is
 open, together with the transitions the page's handlers make, the two
 suggestion rows derived from the fixed catalog, the colour band given to a
 match percentage and the enable condition of the analyze button.
 */
module SkillMatcher {
  import opened Seqs
  import opened Text

  /** The page's state hooks that hold skill selection. */
  datatype State = State(skills: seq<string>, inputValue: string, showSuggestions: bool)

  /** The state the page mounts with. */
  const Initial: State := State(["JavaScript", "React", "Node.js"], "", false)

  /** The fixed catalog both suggestion rows draw from. */
  const Catalog: seq<string> := [
    "Python", "TypeScript", "AWS", "Docker", "MongoDB",
    "GraphQL", "Vue.js", "Angular", "Kubernetes", "Redis",
    "PostgreSQL", "Git", "CI/CD", "Machine Learning", "TensorFlow"
  ]

  /** How many catalog entries the "AI Suggested" row looks at. */
  const ChipCount: nat := 6

  /**
   Adds `skill` to the selection. The empty string and a skill already
   selected (exact, case-sensitive comparison) change nothing at all;
   otherwise the skill goes to the end, the input box is cleared and the
   dropdown closes.
   */
  function AddSkill(st: State, skill: string): (r: State)
    ensures skill == "" || skill in st.skills ==> r == st
    ensures skill != "" && skill !in st.skills ==>
              && |r.skills| == |st.skills| + 1
              && r.skills[..|st.skills|] == st.skills
              && r.skills[|st.skills|] == skill
              && r.inputValue == ""
              && !r.showSuggestions
    ensures forall y :: y in r.skills <==> y in st.skills || (y == skill && skill != "")
    ensures NoDuplicates(st.skills) ==> NoDuplicates(r.skills)
  {
    if skill != "" && skill !in st.skills then
      NoDuplicatesSnoc(st.skills, skill);
      assert (st.skills + [skill])[..|st.skills|] == st.skills;
      State(st.skills + [skill], "", false)
    else
      st
  }

  /**
   Removes every copy of `skill` from the selection, keeping the order of
   the rest; the input box and the dropdown are not touched.
   */
  function RemoveSkill(st: State, skill: string): (r: State)
    ensures r.inputValue == st.inputValue && r.showSuggestions == st.showSuggestions
    ensures skill !in r.skills
    ensures forall y :: y in r.skills <==> y in st.skills && y != skill
    ensures forall y :: y != skill ==> multiset(r.skills)[y] == multiset(st.skills)[y]
    ensures IsSubsequence(r.skills, st.skills)
    ensures skill !in st.skills ==> r == st
    ensures NoDuplicates(st.skills) ==>
              && NoDuplicates(r.skills)
              && |r.skills| == (if skill in st.skills then |st.skills| - 1 else |st.skills|)
  {
    var rest := RemoveAll(st.skills, skill);
    RemoveAllKeepsOrder(st.skills, skill);
    SubsequenceNoDuplicates(rest, st.skills);
    RemoveAllLength(st.skills, skill);
    State(rest, st.inputValue, st.showSuggestions)
  }

  /**
   The input box's change handler: the box shows the typed text and the
   dropdown is open exactly when that text is non-empty.
   */
  function InputChanged(st: State, text: string): (r: State)
    ensures r.skills == st.skills
    ensures r.inputValue == text
    ensures r.showSuggestions <==> text != ""
    ensures Valid(r) <==> NoDuplicates(st.skills) && "" !in st.skills
  {
    State(st.skills, text, |text| > 0)
  }

  /** Pressing Enter in the input box, or its plus button, adds the box's text. */
  function Submit(st: State): (r: State)
    ensures st.inputValue == "" || st.inputValue in st.skills ==> r == st
    ensures st.inputValue != "" && st.inputValue !in st.skills ==>
              r == State(st.skills + [st.inputValue], "", false)
  {
    AddSkill(st, st.inputValue)
  }

  /** A catalog entry the dropdown offers for `query`: a case-insensitive substring match that is not yet selected. */
  predicate Suggestible(entry: string, query: string, skills: seq<string>) {
    Contains(Lower(entry), Lower(query)) && entry !in skills
  }

  /**
   The entries listed in the suggestion dropdown: nothing while it is
   closed; otherwise the suggestible catalog entries, in catalog order.
   */
  function Dropdown(st: State): (r: seq<string>)
    ensures !st.showSuggestions ==> r == []
    ensures IsSubsequence(r, Catalog)
    ensures forall s :: s in r <==> st.showSuggestions && s in Catalog && Suggestible(s, st.inputValue, st.skills)
  {
    if st.showSuggestions then
      Filter(Catalog, entry => Suggestible(entry, st.inputValue, st.skills))
    else
      []
  }

  /** The "AI Suggested" chips: those of the first six catalog entries that are not yet selected, in catalog order. */
  function AiSuggestions(st: State): (r: seq<string>)
    ensures IsSubsequence(r, Catalog[..ChipCount])
    ensures forall s :: s in r <==> s in Catalog[..ChipCount] && s !in st.skills
  {
    Filter(Catalog[..ChipCount], entry => entry !in st.skills)
  }

  /** The four colour bands of a match percentage. */
  datatype Band = NeonGreen | NeonBlue | NeonPurple | NeonPink {
    /** Position of the band from the lowest (pink) to the highest (green). */
    function Rank(): nat {
      match this
      case NeonPink => 0
      case NeonPurple => 1
      case NeonBlue => 2
      case NeonGreen => 3
    }

    /** The colour name the page builds its class names from. */
    function Name(): string {
      match this
      case NeonGreen => "neon-green"
      case NeonBlue => "neon-blue"
      case NeonPurple => "neon-purple"
      case NeonPink => "neon-pink"
    }
  }

  /** The colour band of a match percentage, and the colour name the page returns for it. */
  function MatchColor(pct: real): (b: Band)
    ensures b == NeonGreen <==> pct >= 90.0
    ensures b == NeonBlue <==> 80.0 <= pct < 90.0
    ensures b == NeonPurple <==> 70.0 <= pct < 80.0
    ensures b == NeonPink <==> pct < 70.0
    ensures b.Name() == "neon-green" <==> pct >= 90.0
    ensures b.Name() == "neon-blue" <==> 80.0 <= pct < 90.0
    ensures b.Name() == "neon-purple" <==> 70.0 <= pct < 80.0
    ensures b.Name() == "neon-pink" <==> pct < 70.0
  {
    if pct >= 90.0 then NeonGreen
    else if pct >= 80.0 then NeonBlue
    else if pct >= 70.0 then NeonPurple
    else NeonPink
  }

  /** The analyze button is enabled when at least one skill is selected and no analysis is running. */
  function AnalyzeEnabled(st: State, analyzing: bool): (r: bool)
    ensures r <==> st.skills != [] && !analyzing
  {
    |st.skills| > 0 && !analyzing
  }

  /** What the user can do to the selection. */
  datatype Event =
    | Typed(text: string)    // the input box's change handler
    | Submitted              // Enter key or the plus button
    | Picked(skill: string)  // a dropdown entry or an "AI Suggested" chip
    | Removed(skill: string) // the remove button on a selected skill

  /**
   The invariant of every reachable state: no skill is selected twice, the
   empty string is never selected, and the dropdown is open exactly when
   the input box is non-empty.
   */
  predicate Valid(st: State) {
    && NoDuplicates(st.skills)
    && "" !in st.skills
    && (st.showSuggestions <==> st.inputValue != "")
  }

  /** One user action applied to the state; every action keeps `Valid`. */
  function Step(st: State, e: Event): (r: State)
    ensures Valid(st) ==> Valid(r)
  {
    match e
    case Typed(text) => InputChanged(st, text)
    case Submitted => Submit(st)
    case Picked(skill) => AddSkill(st, skill)
    case Removed(skill) => RemoveSkill(st, skill)
  }

  /** The state after a sequence of events, applied in order. */
  function Run(st: State, events: seq<Event>): State
    decreases |events|
  {
    if |events| == 0 then st else Run(Step(st, events[0]), events[1..])
  }
}
