/**
 Properties of the skill matcher page that relate several transitions:
 the add/remove round trips, the invariant every reachable state keeps,
 what picking a suggestion does to the suggestion rows, case-insensitivity
 of the dropdown, and monotonicity of the colour bands.
 */
module SkillMatcherProperties {
  import opened Seqs
  import opened Text
  import opened SkillMatcher

  /** The catalog has fifteen distinct, non-empty entries. */
  lemma CatalogFacts()
    ensures NoDuplicates(Catalog)
    ensures "" !in Catalog
    ensures |Catalog| == 15
  {
  }

  /** Adding a fresh non-empty skill and then removing it restores the selection. */
  lemma {:induction false} AddThenRemove(st: State, skill: string)
    requires skill != "" && skill !in st.skills
    ensures RemoveSkill(AddSkill(st, skill), skill) == State(st.skills, "", false)
  {
    var added := AddSkill(st, skill);
    assert added.skills == st.skills + [skill];
    RemoveAllAppend(st.skills, [skill], skill);
    assert RemoveAll([skill], skill) == [];
    assert RemoveAll(st.skills, skill) == st.skills;
  }

  /**
   In a duplicate-free selection, removing a selected skill and adding it
   back moves it to the end: the same skills, each still once.
   */
  lemma {:induction false} RemoveThenAdd(st: State, skill: string)
    requires NoDuplicates(st.skills) && skill in st.skills && skill != ""
    ensures var r := AddSkill(RemoveSkill(st, skill), skill);
            && multiset(r.skills) == multiset(st.skills)
            && r.skills[|r.skills| - 1] == skill
            && NoDuplicates(r.skills)
  {
    var removed := RemoveSkill(st, skill);
    var r := AddSkill(removed, skill);
    assert r.skills == removed.skills + [skill];
    NoDuplicatesCount(st.skills, skill);
    forall y
      ensures multiset(r.skills)[y] == multiset(st.skills)[y]
    {
      assert multiset(r.skills) == multiset(removed.skills) + multiset([skill]);
      if y != skill {
        assert multiset(removed.skills)[y] == multiset(st.skills)[y];
      }
    }
    assert multiset(r.skills) == multiset(st.skills);
  }

  /** Typing text and submitting it adds it when fresh, and otherwise leaves the typed state as it is. */
  lemma TypeThenSubmit(st: State, text: string)
    ensures text != "" && text !in st.skills ==>
              Submit(InputChanged(st, text)) == State(st.skills + [text], "", false)
    ensures text == "" || text in st.skills ==>
              Submit(InputChanged(st, text)) == State(st.skills, text, text != "")
  {
  }

  /** Every step keeps `Valid`, so every run from a valid state ends in one. */
  lemma {:induction false} RunPreservesValid(st: State, events: seq<Event>)
    requires Valid(st)
    ensures Valid(Run(st, events))
    decreases |events|
  {
    if |events| > 0 {
      RunPreservesValid(Step(st, events[0]), events[1..]);
    }
  }

  /** Every state reachable from the page's initial state is duplicate-free and otherwise valid. */
  lemma ReachableStatesValid(events: seq<Event>)
    ensures Valid(Run(Initial, events))
    ensures NoDuplicates(Run(Initial, events).skills)
  {
    assert Valid(Initial);
    RunPreservesValid(Initial, events);
  }

  /**
   Picking an entry from the dropdown always selects it (at the end),
   closes the dropdown and takes the entry out of the chip row.
   */
  lemma PickFromDropdown(st: State, s: string)
    requires s in Dropdown(st)
    ensures AddSkill(st, s).skills == st.skills + [s]
    ensures Dropdown(AddSkill(st, s)) == []
    ensures s !in AiSuggestions(AddSkill(st, s))
  {
    CatalogFacts();
  }

  /**
   Picking an "AI Suggested" chip always selects it (at the end), and the
   chip row afterwards is the old row without that chip.
   */
  lemma PickChip(st: State, s: string)
    requires s in AiSuggestions(st)
    ensures AddSkill(st, s).skills == st.skills + [s]
    ensures AiSuggestions(AddSkill(st, s)) == RemoveAll(AiSuggestions(st), s)
  {
    CatalogFacts();
    var chips := Catalog[..ChipCount];
    assert NoDuplicates(chips);
    var before := AiSuggestions(st);
    var after := AiSuggestions(AddSkill(st, s));
    var expected := RemoveAll(before, s);
    RemoveAllKeepsOrder(before, s);
    SubsequenceTransitive(expected, before, chips);
    SubsequenceDeterminedByMembers(after, expected, chips);
  }

  /** Before anything is selected from the catalog, all six chips are offered. */
  lemma InitialChips()
    ensures AiSuggestions(Initial) == Catalog[..ChipCount]
  {
    assert forall s :: s in Catalog[..ChipCount] ==> s !in Initial.skills;
    CatalogFacts();
    SubsequenceDeterminedByMembers(AiSuggestions(Initial), Catalog[..ChipCount], Catalog[..ChipCount]);
  }

  /**
   What typing puts in the dropdown: nothing for empty text, and otherwise
   exactly the unselected catalog entries containing the text, ignoring case.
   */
  lemma TypingFillsDropdown(st: State, text: string)
    ensures text == "" ==> Dropdown(InputChanged(st, text)) == []
    ensures text != "" ==> forall s :: s in Dropdown(InputChanged(st, text)) <==>
              s in Catalog && Contains(Lower(s), Lower(text)) && s !in st.skills
  {
  }

  /** The dropdown ignores the case of what is typed. */
  lemma DropdownIgnoresCase(st: State, text1: string, text2: string)
    requires Lower(text1) == Lower(text2)
    ensures Dropdown(InputChanged(st, text1)) == Dropdown(InputChanged(st, text2))
  {
    CatalogFacts();
    assert |text1| == |text2|;
    SubsequenceDeterminedByMembers(Dropdown(InputChanged(st, text1)), Dropdown(InputChanged(st, text2)), Catalog);
  }

  /** An empty query would match every catalog entry: only the selection filters it. */
  lemma EmptyQueryMatchesAll(entry: string, skills: seq<string>)
    ensures Suggestible(entry, "", skills) <==> entry !in skills
  {
    assert Lower("") == "";
    assert StartsWith(Lower(entry), "");
  }

  /** A higher match percentage never gets a lower colour band. */
  lemma MatchColorMonotone(a: real, b: real)
    requires a <= b
    ensures MatchColor(a).Rank() <= MatchColor(b).Rank()
  {
  }

  /** A successful add enables analysis unless one is running; removing the only skill disables it. */
  lemma AnalyzeAfterAddAndRemove(st: State, skill: string, analyzing: bool)
    ensures skill != "" && skill !in st.skills ==> AnalyzeEnabled(AddSkill(st, skill), analyzing) == !analyzing
    ensures st.skills == [skill] ==> !AnalyzeEnabled(RemoveSkill(st, skill), analyzing)
  {
  }
}
