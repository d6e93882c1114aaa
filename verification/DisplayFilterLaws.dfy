/** What filters mean, said of their tokens: negation, connectors, operators, and what makes them fail. */
module DisplayFilterLaws {
  import opened Text
  import opened TextLaws
  import opened Values
  import opened DisplayFilter

  // ----- tokens -----

  const SPELLINGS := map["==" := Eq, "!=" := Ne, "contains" := Has, "startswith" := StartsWith, "endswith" := EndsWith,
                         ">" := Gt, ">=" := Ge, "<" := Lt, "<=" := Le]

  /** The keywords and the nine operators, in any case; nothing else is one. */
  lemma TokensAre(token: string)
    ensures IsNot(token) <==> Lower(token) == "not"
    ensures IsAnd(token) <==> Lower(token) == "and"
    ensures IsOr(token) <==> Lower(token) == "or"
    ensures IsContains(token) <==> Lower(token) == "contains"
    ensures OperatorOf(token) == if Lower(token) in SPELLINGS then Some(SPELLINGS[Lower(token)]) else None
  {
    hide Lower;
  }

  // ----- atoms -----

  /** A printable test: a term in lower case, or a field that is no keyword. */
  predicate Plain(t: Test) {
    match t
    case Search(term) => IsLower(term)
    case Compare(field, _, _) => Lower(field) != "contains" && Lower(field) != "not"
  }

  lemma OneAtom(a: Atom, holds: Test -> bool)
    requires WellFormedAtom(a)
    ensures Parse(PrintAtom(a)) == Ok([[a]])
    ensures Evaluate(PrintAtom(a), holds) == Ok(if a.negated then !holds(a.test) else holds(a.test))
  {
    hide PrintAtom, ParseAtom, WellFormedAtom;
    var tokens := PrintAtom(a);
    AtomReadsBack(a, [], []);
    assert [] + PrintAtom(a) + [] == tokens;
    assert [] + [[a]] == [[a]];
    CompilerIsStandard(tokens, holds);
    assert [[a]][0][0] == a;
    assert AnyHolds([[a]], holds) <==> AllHold([[a]][0], holds);
  }

  /** A test alone is true where it holds; with `not` before it, exactly where it does not. */
  lemma NotNegates(t: Test, holds: Test -> bool)
    requires Plain(t)
    ensures Evaluate(PrintTest(t), holds) == Ok(holds(t))
    ensures Evaluate(["not"] + PrintTest(t), holds) == Ok(!holds(t))
    ensures Valued(Parse(["not"] + PrintTest(t)), holds) == Ok(!holds(t))
  {
    TokensAre(if t.Compare? then t.field else "");
    OneAtom(Atom(false, t), holds);
    OneAtom(Atom(true, t), holds);
    CompilerIsStandard(["not"] + PrintTest(t), holds);
  }

  /** A lone token that is no keyword is searched for, in lower case. */
  lemma LoneTermIsSearched(term: string, holds: Test -> bool)
    requires Lower(term) != "not" && Lower(term) != "contains"
    ensures Evaluate([term], holds) == Ok(holds(Search(Lower(term))))
  {
    hide Lower;
    TokensAre(term);
    var tokens, atom := [term], Atom(false, Search(Lower(term)));
    assert tokens[0] == term;
    assert ParseAtom(tokens, 0) == Ok((atom, 1));
    assert EvalAnd(tokens, 0, holds) == Ok((AtomHolds(atom, holds), 1));
    assert EvalOr(tokens, 0, holds) == Ok((AtomHolds(atom, holds), 1));
  }

  /** So is the token after `contains`, whatever it is. */
  lemma ContainedTermIsSearched(term: string, holds: Test -> bool)
    ensures Evaluate(["contains", term], holds) == Ok(holds(Search(Lower(term))))
  {
    hide Lower, IsContains, IsNot;
    Keywords();
    var tokens, atom := ["contains", term], Atom(false, Search(Lower(term)));
    assert tokens[0] == "contains" && tokens[1] == term;
    assert ParseAtom(tokens, 0) == Ok((atom, 2));
    assert EvalAnd(tokens, 0, holds) == Ok((AtomHolds(atom, holds), 2));
    assert EvalOr(tokens, 0, holds) == Ok((AtomHolds(atom, holds), 2));
  }

  /** Every test of the group holds, or does not if it is negated. */
  predicate Meets(group: seq<Atom>, holds: Test -> bool) {
    forall j :: 0 <= j < |group| ==> if group[j].negated then !holds(group[j].test) else holds(group[j].test)
  }

  /** A printed filter is true exactly where some group is met. */
  lemma PrintedFilterMeans(groups: Groups, holds: Test -> bool)
    requires WellFormed(groups)
    ensures Evaluate(Print(groups), holds) == Ok(exists i :: 0 <= i < |groups| && Meets(groups[i], holds))
  {
    hide Parse, Print, Evaluate, WellFormed, AllHold, Meets;
    CompileInvertsPrint(groups);
    CompilerIsStandard(Print(groups), holds);
    forall i | 0 <= i < |groups| ensures AllHold(groups[i], holds) <==> Meets(groups[i], holds) {
      MeetsIsAllHold(groups[i], holds);
    }
  }

  lemma MeetsIsAllHold(group: seq<Atom>, holds: Test -> bool)
    ensures AllHold(group, holds) <==> Meets(group, holds)
  {
  }

  // ----- failures -----

  /** What each unfinished filter lacks. */
  lemma UnfinishedFiltersFail(field: string, op: Operator, term: string)
    requires Lower(field) != "contains" && Lower(field) != "not"
    requires OperatorOf(term) == None && Lower(term) != "and" && Lower(term) != "or"
    ensures Parse(["not"]) == Err(ExpectedTerm)
    ensures Parse(["contains"]) == Err(ExpectedText)
    ensures Parse([field, Spelling(op)]) == Err(ExpectedValue)
    ensures Parse([field, term]) == Err(ExpectedConnector)
    ensures OperatorOf("and") == None && Parse([field, "and"]) == Err(ExpectedTerm)
  {
    hide Spelling, OperatorOf, IsNot, IsAnd, IsOr, IsContains;
    Keywords();
    SpellingIsRead(op);
    TokensAre(field);
    TokensAre(term);
    AndIsNoOperator();
  }

  lemma AndIsNoOperator()
    ensures OperatorOf("and") == None
  {
    LowerKeepsLower("and");
    TokensAre("and");
    assert "and"[0] == 'a' && "=="[0] == '=' && "!="[0] == '!' && "contains"[0] == 'c' && "startswith"[0] == 's';
    assert "endswith"[0] == 'e' && ">"[0] == '>' && ">="[0] == '>' && "<"[0] == '<' && "<="[0] == '<';
  }

  // ----- comparing -----

  /** The four orderings compare numbers, and fail where a side is none. */
  lemma OrderingsCompareNumbers(actual: string, expected: string, number: string -> Option<real>)
    ensures number(actual) == None || number(expected) == None ==>
              !CompareOne(actual, Gt, expected, number) && !CompareOne(actual, Ge, expected, number)
              && !CompareOne(actual, Lt, expected, number) && !CompareOne(actual, Le, expected, number)
    ensures forall x, y :: number(actual) == Some(x) && number(expected) == Some(y) ==>
              && (CompareOne(actual, Gt, expected, number) <==> x - y > 0.0)
              && (CompareOne(actual, Ge, expected, number) <==> x - y >= 0.0)
              && (CompareOne(actual, Lt, expected, number) <==> x - y < 0.0)
              && (CompareOne(actual, Le, expected, number) <==> x - y <= 0.0)
  {
  }

  /** The others compare texts in lower case: equal, different, part, beginning, end. */
  lemma TextOperatorsCompareLowerCase(actual: string, expected: string, number: string -> Option<real>)
    ensures var a, e := Lower(actual), Lower(expected);
            && (CompareOne(actual, Eq, expected, number) <==> a == e)
            && (CompareOne(actual, Ne, expected, number) <==> a != e)
            && (CompareOne(actual, Has, expected, number) <==> exists lead, tail :: a == lead + e + tail)
            && (CompareOne(actual, StartsWith, expected, number) <==> exists tail :: a == e + tail)
            && (CompareOne(actual, EndsWith, expected, number) <==> exists lead :: a == lead + e)
  {
    var a, e := Lower(actual), Lower(expected);
    PartIsInside(a, e);
    BeginningAndEnd(a, e);
  }

  lemma PartIsInside(text: string, part: string)
    ensures Contains(text, part) <==> exists lead, tail :: text == lead + part + tail
  {
    if i :| 0 <= i <= |text| && part <= text[i..] {
      assert text == text[..i] + part + text[i..][|part|..];
    }
    if lead, tail :| text == lead + part + tail {
      assert text[|lead|..] == part + tail;
    }
  }

  lemma BeginningAndEnd(text: string, part: string)
    ensures part <= text <==> exists tail :: text == part + tail
    ensures Ends(text, part) <==> exists lead :: text == lead + part
  {
    if part <= text { assert text == part + text[|part|..]; }
    if Ends(text, part) { assert text == text[..|text| - |part|] + part; }
  }

  /** On a field of several values every operator asks for one value that satisfies it. */
  lemma SeveralValuesNeedOne(texts: seq<string>, op: Operator, expected: string, number: string -> Option<real>)
    ensures CompareValue(Many(texts), op, expected, number)
            <==> exists text :: text in texts && CompareValue(One(text), op, expected, number)
  {
    hide CompareOne;
    if i :| 0 <= i < |texts| && CompareOne(texts[i], op, expected, number) {
      assert texts[i] in texts && CompareValue(One(texts[i]), op, expected, number);
    }
    if text :| text in texts && CompareValue(One(text), op, expected, number) {
      var i :| 0 <= i < |texts| && texts[i] == text;
      assert CompareOne(texts[i], op, expected, number);
    }
  }
}
