/** Question generation from the analysis of a change (analysis_dialogue.py):
    template questions about contexts present before and after, entities
    only present after, and entities only present before. */
module AnalysisDialogue {
  import opened Strings
  import opened PyAnalysis

  /** "How does this affect the functionality of {}?" */
  function OverlapQuestion(x: string): string
  {
    "How does this affect the functionality of " + x + "?"
  }

  /** "What does {} do?" */
  function NewEntityQuestion(x: string): string
  {
    "What does " + x + " do?"
  }

  /** "What replaced {} (if anything)?" */
  function RemovedEntityQuestion(x: string): string
  {
    "What replaced " + x + " (if anything)?"
  }

  /** `get_overlapping_context_questions`: one question per context present
      both before and after in the same region. */
  function OverlapQuestions(regions: seq<LinesAnalysis>): set<string>
  {
    set i, x | 0 <= i < |regions| && x in regions[i].contexts.0 && x in regions[i].contexts.1 :: OverlapQuestion(x)
  }

  /** `get_new_entities_questions`: one question per entity present after but
      not before in the same region. */
  function NewEntitiesQuestions(regions: seq<LinesAnalysis>): set<string>
  {
    set i, x | 0 <= i < |regions| && x in regions[i].entities.1 && x !in regions[i].entities.0 :: NewEntityQuestion(x)
  }

  /** `get_removed_entities_questions`: one question per entity present
      before but not after in the same region. */
  function RemovedEntitiesQuestions(regions: seq<LinesAnalysis>): set<string>
  {
    set i, x | 0 <= i < |regions| && x in regions[i].entities.0 && x !in regions[i].entities.1 :: RemovedEntityQuestion(x)
  }

  /** `prefix + x + suffix` determines `x`. */
  lemma {:induction false} FillInjective(prefix: string, suffix: string, x: string, y: string)
    requires prefix + x + suffix == prefix + y + suffix
    ensures x == y
  {
    var s := prefix + x + suffix;
    assert |x| == |y|;
    assert x == s[|prefix|..|prefix| + |x|];
    assert y == (prefix + y + suffix)[|prefix|..|prefix| + |y|];
  }

  /** Each template names its entity: different entities give different
      questions. */
  lemma TemplatesInjective(x: string, y: string)
    ensures OverlapQuestion(x) == OverlapQuestion(y) ==> x == y
    ensures NewEntityQuestion(x) == NewEntityQuestion(y) ==> x == y
    ensures RemovedEntityQuestion(x) == RemovedEntityQuestion(y) ==> x == y
  {
    if OverlapQuestion(x) == OverlapQuestion(y) {
      FillInjective("How does this affect the functionality of ", "?", x, y);
    }
    if NewEntityQuestion(x) == NewEntityQuestion(y) {
      FillInjective("What does ", " do?", x, y);
    }
    if RemovedEntityQuestion(x) == RemovedEntityQuestion(y) {
      FillInjective("What replaced ", " (if anything)?", x, y);
    }
  }

  /** A fixed opening survives whatever is filled in after it. */
  lemma OpeningAt(prefix: string, x: string, suffix: string, k: nat)
    requires k < |prefix|
    ensures (prefix + x + suffix)[k] == prefix[k]
  {
  }

  /** No question belongs to two families: the templates already differ in
      their fixed openings. */
  lemma TemplatesDisjoint(x: string, y: string)
    ensures OverlapQuestion(x) != NewEntityQuestion(y)
    ensures OverlapQuestion(x) != RemovedEntityQuestion(y)
    ensures NewEntityQuestion(x) != RemovedEntityQuestion(y)
  {
    OpeningAt("How does this affect the functionality of ", x, "?", 0);
    OpeningAt("What does ", y, " do?", 0);
    OpeningAt("What replaced ", y, " (if anything)?", 0);
    OpeningAt("What does ", x, " do?", 5);
    OpeningAt("What replaced ", y, " (if anything)?", 5);
  }

  /** The three families of questions share no question. */
  lemma FamiliesDisjoint(regions: seq<LinesAnalysis>)
    ensures OverlapQuestions(regions) * NewEntitiesQuestions(regions) == {}
    ensures OverlapQuestions(regions) * RemovedEntitiesQuestions(regions) == {}
    ensures NewEntitiesQuestions(regions) * RemovedEntitiesQuestions(regions) == {}
  {
    var o, n, r := OverlapQuestions(regions), NewEntitiesQuestions(regions), RemovedEntitiesQuestions(regions);
    forall q | q in o && (q in n || q in r)
      ensures false
    {
      var i, x :| 0 <= i < |regions| && x in regions[i].contexts.0 && x in regions[i].contexts.1 && q == OverlapQuestion(x);
      if q in n {
        var j, y :| 0 <= j < |regions| && y in regions[j].entities.1 && y !in regions[j].entities.0 && q == NewEntityQuestion(y);
        TemplatesDisjoint(x, y);
      } else {
        var j, y :| 0 <= j < |regions| && y in regions[j].entities.0 && y !in regions[j].entities.1 && q == RemovedEntityQuestion(y);
        TemplatesDisjoint(x, y);
      }
    }
    forall q | q in n && q in r
      ensures false
    {
      var i, x :| 0 <= i < |regions| && x in regions[i].entities.1 && x !in regions[i].entities.0 && q == NewEntityQuestion(x);
      var j, y :| 0 <= j < |regions| && y in regions[j].entities.0 && y !in regions[j].entities.1 && q == RemovedEntityQuestion(y);
      TemplatesDisjoint(x, y);
    }
    assert o * n == {};
    assert o * r == {};
    assert n * r == {};
  }

  /** Overlap questions are asked exactly about contexts that some region
      has on both sides. */
  lemma OverlapQuestionsExactly(regions: seq<LinesAnalysis>, x: string)
    ensures OverlapQuestion(x) in OverlapQuestions(regions) <==>
      exists i :: 0 <= i < |regions| && x in regions[i].contexts.0 && x in regions[i].contexts.1
  {
    if OverlapQuestion(x) in OverlapQuestions(regions) {
      var i, y :| 0 <= i < |regions| && y in regions[i].contexts.0 && y in regions[i].contexts.1 && OverlapQuestion(x) == OverlapQuestion(y);
      TemplatesInjective(x, y);
    }
  }

  /** New-entity questions are asked exactly about entities that some region
      has after the change and not before. */
  lemma NewEntitiesQuestionsExactly(regions: seq<LinesAnalysis>, x: string)
    ensures NewEntityQuestion(x) in NewEntitiesQuestions(regions) <==>
      exists i :: 0 <= i < |regions| && x in regions[i].entities.1 && x !in regions[i].entities.0
  {
    if NewEntityQuestion(x) in NewEntitiesQuestions(regions) {
      var i, y :| 0 <= i < |regions| && y in regions[i].entities.1 && y !in regions[i].entities.0 && NewEntityQuestion(x) == NewEntityQuestion(y);
      TemplatesInjective(x, y);
    }
  }

  /** Removed-entity questions are asked exactly about entities that some
      region has before the change and not after. */
  lemma RemovedEntitiesQuestionsExactly(regions: seq<LinesAnalysis>, x: string)
    ensures RemovedEntityQuestion(x) in RemovedEntitiesQuestions(regions) <==>
      exists i :: 0 <= i < |regions| && x in regions[i].entities.0 && x !in regions[i].entities.1
  {
    if RemovedEntityQuestion(x) in RemovedEntitiesQuestions(regions) {
      var i, y :| 0 <= i < |regions| && y in regions[i].entities.0 && y !in regions[i].entities.1 && RemovedEntityQuestion(x) == RemovedEntityQuestion(y);
      TemplatesInjective(x, y);
    }
  }

  /** An entity on both sides of a region is neither new nor removed there. */
  lemma SharedEntityAsksNothing(region: LinesAnalysis, x: string)
    requires x in region.entities.0 && x in region.entities.1
    ensures NewEntityQuestion(x) !in NewEntitiesQuestions([region])
    ensures RemovedEntityQuestion(x) !in RemovedEntitiesQuestions([region])
  {
    NewEntitiesQuestionsExactly([region], x);
    RemovedEntitiesQuestionsExactly([region], x);
  }

  /** No element occurs twice. */
  predicate Distinct(s: seq<string>)
  {
    forall i, j :: 0 <= i < j < |s| ==> s[i] != s[j]
  }

  /** `s` lists the set `e`, each element once. */
  predicate Enumerates(s: seq<string>, e: set<string>)
  {
    && Distinct(s)
    && (forall i :: 0 <= i < |s| ==> s[i] in e)
    && (forall x :: x in e ==> x in s)
  }

  /** `list.extend(a_set)`: the set's elements in the set's own iteration
      order, which the model leaves unspecified. */
  method ListOf(e: set<string>) returns (s: seq<string>)
    ensures Enumerates(s, e) && |s| == |e|
  {
    s := [];
    var rest := e;
    while rest != {}
      invariant rest <= e
      invariant Distinct(s)
      invariant forall i :: 0 <= i < |s| ==> s[i] in e && s[i] !in rest
      invariant forall x :: x in e ==> x in rest || x in s
      invariant |s| + |rest| == |e|
      decreases |rest|
    {
      var x :| x in rest;
      s := s + [x];
      rest := rest - {x};
    }
  }

  /** `get_questions`: all overlap questions, then all new-entity questions,
      then all removed-entity questions; no question is listed twice, and no
      regions give no questions. */
  method GetQuestions(regions: seq<LinesAnalysis>) returns (questions: seq<string>)
    ensures var o, n := |OverlapQuestions(regions)|, |NewEntitiesQuestions(regions)|;
      && |questions| == o + n + |RemovedEntitiesQuestions(regions)|
      && Enumerates(questions[..o], OverlapQuestions(regions))
      && Enumerates(questions[o..o + n], NewEntitiesQuestions(regions))
      && Enumerates(questions[o + n..], RemovedEntitiesQuestions(regions))
    ensures Distinct(questions)
    ensures regions == [] ==> questions == []
  {
    var overlap := ListOf(OverlapQuestions(regions));
    var added := ListOf(NewEntitiesQuestions(regions));
    var removed := ListOf(RemovedEntitiesQuestions(regions));
    questions := [];
    questions := questions + overlap;
    questions := questions + added;
    questions := questions + removed;
    FamiliesDisjoint(regions);
    ListedInTurn(overlap, OverlapQuestions(regions), added, NewEntitiesQuestions(regions),
      removed, RemovedEntitiesQuestions(regions));
  }

  /** Three disjoint sets listed one after the other: each slice lists its
      set and the whole lists nothing twice. */
  lemma ListedInTurn(a: seq<string>, sa: set<string>, b: seq<string>, sb: set<string>, c: seq<string>, sc: set<string>)
    requires Enumerates(a, sa) && Enumerates(b, sb) && Enumerates(c, sc)
    requires sa * sb == {} && sa * sc == {} && sb * sc == {}
    ensures var q := [] + a + b + c;
      && (a + b + c)[..|a|] == a
      && (a + b + c)[|a|..|a| + |b|] == b
      && (a + b + c)[|a| + |b|..] == c
      && q == a + b + c
      && Distinct(a + b + c)
  {
    assert (sa + sb) * sc == {};
    EnumeratesConcat(a, sa, b, sb);
    EnumeratesConcat(a + b, sa + sb, c, sc);
    assert [] + a + b + c == a + b + c;
    assert (a + b + c)[..|a|] == a;
    assert (a + b + c)[|a|..|a| + |b|] == b;
    assert (a + b + c)[|a| + |b|..] == c;
  }

  /** Listing two disjoint sets one after the other lists their union. */
  lemma EnumeratesConcat(a: seq<string>, sa: set<string>, b: seq<string>, sb: set<string>)
    requires Enumerates(a, sa) && Enumerates(b, sb) && sa * sb == {}
    ensures Enumerates(a + b, sa + sb)
  {
    forall i, j | 0 <= i < j < |a + b|
      ensures (a + b)[i] != (a + b)[j]
    {
      if j < |a| {
        assert (a + b)[i] == a[i] && (a + b)[j] == a[j];
      } else if i < |a| {
        assert (a + b)[i] == a[i] && (a + b)[j] == b[j - |a|];
        assert a[i] in sa && b[j - |a|] in sb && a[i] !in sa * sb;
        assert a[i] !in sb;
      } else {
        assert (a + b)[i] == b[i - |a|] && (a + b)[j] == b[j - |a|];
        assert b[i - |a|] != b[j - |a|];
      }
    }
  }
}
