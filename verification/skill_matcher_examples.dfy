/**
 A concrete run of the dropdown filter on the page's own catalog.
 */
module SkillMatcherExamples {
  import opened Text
  import opened SkillMatcher

  /**
   Typing "SCRIPT" offers "TypeScript" whenever it is not yet selected: the
   match ignores case and need not be at the start of the entry.
   */
  lemma TypingScriptOffersTypeScript(st: State)
    requires "TypeScript" !in st.skills
    ensures "TypeScript" in Dropdown(InputChanged(st, "SCRIPT"))
  {
    var typed := InputChanged(st, "SCRIPT");
    ScriptOccursInTypeScript();
    OfferedWhenMatching(typed);
  }

  /** An open dropdown offers "TypeScript" when it is unselected and matches the box. */
  lemma OfferedWhenMatching(st: State)
    requires st.showSuggestions && "TypeScript" !in st.skills
    requires Contains(Lower("TypeScript"), Lower(st.inputValue))
    ensures "TypeScript" in Dropdown(st)
  {
    assert "TypeScript" == Catalog[1];
  }

  /** "SCRIPT" occurs in "TypeScript" once both are lower-cased. */
  lemma ScriptOccursInTypeScript()
    ensures Contains(Lower("TypeScript"), Lower("SCRIPT"))
  {
    LowerTypeScript();
    LowerScript();
    assert OccursAt("typescript", "script", 4);
    ContainsIffOccurs("typescript", "script");
  }

  /** Lower-casing "TypeScript" gives "typescript". */
  lemma LowerTypeScript()
    ensures Lower("TypeScript") == "typescript"
  {
    var t := Lower("TypeScript");
    forall i | 0 <= i < |t|
      ensures t[i] == "typescript"[i]
    {
      assert t[i] == LowerChar("TypeScript"[i]);
    }
  }

  /** Lower-casing "SCRIPT" gives "script". */
  lemma LowerScript()
    ensures Lower("SCRIPT") == "script"
  {
    var u := Lower("SCRIPT");
    forall i | 0 <= i < |u|
      ensures u[i] == "script"[i]
    {
      assert u[i] == LowerChar("SCRIPT"[i]);
    }
  }
}
