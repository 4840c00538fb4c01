/** `infer_intent_from_filename`: the retrieval intent of a knowledge-base
    document, looked up from its file name without the ".md" extension. */
module IntentConfig {

  /** The intents the table can answer. */
  const Intents: set<string> := {"budgeting", "spending", "general", "income", "investing"}

  /** The document stems the table knows, each with its intent. */
  const Mapping: map<string, string> := map[
    "budgeting_strategies" := "budgeting",
    "cash_flow_management" := "budgeting",
    "expense_categories_tracking" := "spending",
    "financial_health" := "general",
    "income_optimization" := "income",
    "investment_basics" := "investing",
    "smart_spending" := "spending",
    "01_budgeting_and_tracking" := "budgeting",
    "02_saving_and_investing" := "investing",
    "03_debt_and_spending" := "spending"
  ]

  /** Python's `s.replace(".md", "")`: scanning left to right, every
      occurrence of ".md" that does not overlap an earlier one is dropped,
      wherever it stands in the name. */
  function StripMd(s: string): (r: string)
    ensures |r| <= |s|
  {
    if |s| >= 3 && s[..3] == ".md" then StripMd(s[3..])
    else if s == [] then []
    else [s[0]] + StripMd(s[1..])
  }

  /** The intent of a document: its stem's entry in the table, "general" for
      a stem the table does not know. */
  function InferIntent(docName: string): (intent: string)
    ensures intent in Intents
    ensures intent != "general" ==> StripMd(docName) in Mapping
  {
    var name := StripMd(docName);
    if name in Mapping then Mapping[name] else "general"
  }

  /** A name without a dot is left as it is. */
  lemma {:induction false} StripMdDotless(s: string)
    requires '.' !in s
    ensures StripMd(s) == s
  {
    if s != [] {
      assert s[0] in s;
      assert |s| >= 3 ==> s[..3][0] != ".md"[0];
      StripMdDotless(s[1..]);
    }
  }

  /** The ".md" extension itself is always removed, and the scan over the
      rest of the name is the same as without it. */
  lemma {:induction false} StripMdExtension(a: string)
    ensures StripMd(a + ".md") == StripMd(a)
  {
    var s := a + ".md";
    if a == [] {
      assert s == ".md";
      assert s[3..] == [];
    } else if |a| >= 3 && a[..3] == ".md" {
      assert s[..3] == a[..3];
      assert s[3..] == a[3..] + ".md";
      StripMdExtension(a[3..]);
    } else {
      assert !(|s| >= 3 && s[..3] == ".md") by {
        if |a| == 1 {
          assert s[1] == '.';
        } else if |a| == 2 {
          assert s[2] == '.';
        } else {
          assert s[..3] == a[..3];
        }
      }
      assert s[0] == a[0];
      assert s[1..] == a[1..] + ".md";
      StripMdExtension(a[1..]);
    }
  }

  /** No stem of the table holds a dot. */
  lemma MappingStemsDotless()
    ensures forall k :: k in Mapping ==> '.' !in k
  {
    assert Mapping.Keys == {"budgeting_strategies", "cash_flow_management", "expense_categories_tracking", "financial_health", "income_optimization", "investment_basics", "smart_spending", "01_budgeting_and_tracking", "02_saving_and_investing", "03_debt_and_spending"};
    StemsDotlessA();
    StemsDotlessB();
    StemsDotlessC();
    StemsDotlessD();
  }

  // Literal strings are costly for the solver, so the stems are checked a
  // few at a time.

  lemma StemsDotlessA()
    ensures '.' !in "budgeting_strategies"
    ensures '.' !in "cash_flow_management"
    ensures '.' !in "expense_categories_tracking"
  {
  }

  lemma StemsDotlessB()
    ensures '.' !in "financial_health"
    ensures '.' !in "income_optimization"
    ensures '.' !in "investment_basics"
  {
  }

  lemma StemsDotlessC()
    ensures '.' !in "smart_spending"
    ensures '.' !in "01_budgeting_and_tracking"
  {
  }

  lemma StemsDotlessD()
    ensures '.' !in "02_saving_and_investing"
    ensures '.' !in "03_debt_and_spending"
  {
  }

  /** Every stem of the table starts with a lower-case letter or a digit. */
  lemma MappingStemsLowerCase()
    ensures forall k :: k in Mapping ==> |k| > 0 && ('a' <= k[0] <= 'z' || '0' <= k[0] <= '9')
  {
    assert Mapping.Keys == {"budgeting_strategies", "cash_flow_management", "expense_categories_tracking", "financial_health", "income_optimization", "investment_basics", "smart_spending", "01_budgeting_and_tracking", "02_saving_and_investing", "03_debt_and_spending"};
  }

  /** Every stem of the table, with or without the extension, gets its own
      intent. */
  lemma KnownDocument(stem: string)
    requires stem in Mapping
    ensures InferIntent(stem) == Mapping[stem]
    ensures InferIntent(stem + ".md") == Mapping[stem]
  {
    MappingStemsDotless();
    StripMdDotless(stem);
    StripMdExtension(stem);
  }

  /** The lookup is exact and case-sensitive: a stem starting with a capital
      letter is not in the table, so such a document is "general". */
  lemma CapitalisedStemIsGeneral(stem: string)
    requires |stem| > 0 && 'A' <= stem[0] <= 'Z' && '.' !in stem
    ensures InferIntent(stem) == "general"
    ensures InferIntent(stem + ".md") == "general"
  {
    MappingStemsLowerCase();
    StripMdDotless(stem);
    StripMdExtension(stem);
  }

  /** ".md" is removed anywhere in the name, not only at its end. */
  lemma StripMdInside()
    ensures StripMd("a.mdx") == "ax"
  {
    var s := "a.mdx";
    assert s[1..] == ".mdx" && s[1..][..3] == ".md" && s[1..][3..] == "x";
    assert StripMd("x") == "x" by {
      StripMdDotless("x");
    }
  }

  /** One pass does not remove every ".md": a new one can form where the
      removed one stood. */
  lemma StripMdOnePass()
    ensures StripMd(".m.mdd") == ".md"
    ensures StripMd(StripMd(".m.mdd")) == ""
  {
    var s := ".m.mdd";
    assert s[..3][2] != ".md"[2];
    assert s[1..][..3][0] != ".md"[0];
    assert s[2..] == ".md" + "d";
    StripMdExtension(".m");
    StripMdExtension([]);
    assert StripMd(".m") == ".m" by {
      assert ".m"[1..] == "m";
      StripMdDotless("m");
    }
  }
}
