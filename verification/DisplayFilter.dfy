/** core/display_filter.py from its tokens on: the compiler of filters into groups of atoms, and a
    standard evaluator that it must agree with. */
module DisplayFilter {
  import opened Text
  import opened Values

  datatype Operator = Eq | Ne | Has | StartsWith | EndsWith | Gt | Ge | Lt | Le

  datatype Test = Compare(field: string, op: Operator, expected: string) | Search(term: string)

  datatype Atom = Atom(negated: bool, test: Test)

  /** Any group, all atoms of it. */
  type Groups = seq<seq<Atom>>

  datatype Failure = ExpectedTerm | ExpectedText | ExpectedValue | ExpectedConnector

  datatype Result<+T> = Ok(value: T) | Err(failure: Failure)

  // ----- tokens -----

  predicate IsNot(token: string) { Lower(token) == "not" }

  predicate IsAnd(token: string) { Lower(token) == "and" }

  predicate IsOr(token: string) { Lower(token) == "or" }

  predicate IsContains(token: string) { Lower(token) == "contains" }

  function Spelling(op: Operator): string {
    match op
    case Eq => "=="
    case Ne => "!="
    case Has => "contains"
    case StartsWith => "startswith"
    case EndsWith => "endswith"
    case Gt => ">"
    case Ge => ">="
    case Lt => "<"
    case Le => "<="
  }

  function OperatorOf(token: string): Option<Operator> {
    var t := Lower(token);
    if t == "==" then Some(Eq)
    else if t == "!=" then Some(Ne)
    else if t == "contains" then Some(Has)
    else if t == "startswith" then Some(StartsWith)
    else if t == "endswith" then Some(EndsWith)
    else if t == ">" then Some(Gt)
    else if t == ">=" then Some(Ge)
    else if t == "<" then Some(Lt)
    else if t == "<=" then Some(Le)
    else None
  }

  lemma SpellingIsRead(op: Operator)
    ensures OperatorOf(Spelling(op)) == Some(op)
  {
    LowerKeepsLower(Spelling(op));
  }

  // ----- the compiler -----

  /** `parse_atom`: the atom at `at` and where it ends. */
  function ParseAtom(tokens: seq<string>, at: nat): (r: Result<(Atom, nat)>)
    requires at <= |tokens|
    ensures r.Ok? ==> at < r.value.1 <= |tokens|
  {
    var negated := at < |tokens| && IsNot(tokens[at]);
    var p := if negated then at + 1 else at;
    if p >= |tokens| then Err(ExpectedTerm)
    else if IsContains(tokens[p]) then
      if p + 1 >= |tokens| then Err(ExpectedText) else Ok((Atom(negated, Search(Lower(tokens[p + 1]))), p + 2))
    else if p + 1 < |tokens| && OperatorOf(tokens[p + 1]).Some? then
      if p + 2 >= |tokens| then Err(ExpectedValue)
      else Ok((Atom(negated, Compare(tokens[p], OperatorOf(tokens[p + 1]).value, tokens[p + 2])), p + 3))
    else Ok((Atom(negated, Search(Lower(tokens[p]))), p + 1))
  }

  /** The loop of the compiler, from a position after an atom. */
  function ParseRest(tokens: seq<string>, at: nat, done: Groups, current: seq<Atom>): Result<Groups>
    requires at <= |tokens|
    decreases |tokens| - at
  {
    if at == |tokens| then Ok(done + [current])
    else if !IsAnd(tokens[at]) && !IsOr(tokens[at]) then Err(ExpectedConnector)
    else
      var next := ParseAtom(tokens, at + 1);
      if next.Err? then Err(next.failure)
      else if IsAnd(tokens[at]) then ParseRest(tokens, next.value.1, done, current + [next.value.0])
      else ParseRest(tokens, next.value.1, done + [current], [next.value.0])
  }

  /** No tokens: the filter that lets everything through, one group without atoms. */
  function Parse(tokens: seq<string>): Result<Groups> {
    if tokens == [] then Ok([[]])
    else
      var first := ParseAtom(tokens, 0);
      if first.Err? then Err(first.failure) else ParseRest(tokens, first.value.1, [], [first.value.0])
  }

  method CompileDisplayFilter(tokens: seq<string>) returns (result: Result<Groups>)
    ensures result == Parse(tokens)
  {
    if tokens == [] { return Ok([[]]); }
    var first := ParseAtom(tokens, 0);
    if first.Err? { return Err(first.failure); }
    var (atom, position) := first.value;
    var groups: Groups := [[atom]];
    while position < |tokens|
      invariant position <= |tokens| && groups != []
      invariant Parse(tokens) == ParseRest(tokens, position, groups[..|groups| - 1], groups[|groups| - 1])
      decreases |tokens| - position
    {
      hide ParseAtom, IsAnd, IsOr;
      var connector := tokens[position];
      if !IsAnd(connector) && !IsOr(connector) { return Err(ExpectedConnector); }
      var next := ParseAtom(tokens, position + 1);
      if next.Err? { return Err(next.failure); }
      ghost var done, current := groups[..|groups| - 1], groups[|groups| - 1];
      assert groups == done + [current];
      if IsAnd(connector) {
        groups := groups[|groups| - 1 := groups[|groups| - 1] + [next.value.0]];
      } else {
        groups := groups + [[next.value.0]];
      }
      position := next.value.1;
    }
    assert groups[..|groups| - 1] + [groups[|groups| - 1]] == groups;
    result := Ok(groups);
  }

  // ----- meaning -----

  predicate AtomHolds(a: Atom, holds: Test -> bool) { a.negated != holds(a.test) }

  predicate AllHold(group: seq<Atom>, holds: Test -> bool) {
    forall i :: 0 <= i < |group| ==> AtomHolds(group[i], holds)
  }

  predicate AnyHolds(groups: Groups, holds: Test -> bool) { exists i :: 0 <= i < |groups| && AllHold(groups[i], holds) }

  /** A standard evaluator: `not` binds tightest, then `and`, then `or`. Each returns the value and
      where its expression ends. */
  function EvalAnd(tokens: seq<string>, at: nat, holds: Test -> bool): (r: Result<(bool, nat)>)
    requires at <= |tokens|
    ensures r.Ok? ==> at < r.value.1 <= |tokens|
    decreases |tokens| - at
  {
    var first := ParseAtom(tokens, at);
    if first.Err? then Err(first.failure)
    else
      var rest := AndTail(tokens, first.value.1, holds);
      if rest.Err? then rest else Ok((AtomHolds(first.value.0, holds) && rest.value.0, rest.value.1))
  }

  function AndTail(tokens: seq<string>, at: nat, holds: Test -> bool): (r: Result<(bool, nat)>)
    requires at <= |tokens|
    ensures r.Ok? ==> at <= r.value.1 <= |tokens|
    decreases |tokens| - at
  {
    if at < |tokens| && IsAnd(tokens[at]) then EvalAnd(tokens, at + 1, holds) else Ok((true, at))
  }

  function EvalOr(tokens: seq<string>, at: nat, holds: Test -> bool): (r: Result<(bool, nat)>)
    requires at <= |tokens|
    ensures r.Ok? ==> at < r.value.1 <= |tokens|
    decreases |tokens| - at
  {
    var first := EvalAnd(tokens, at, holds);
    if first.Err? then first
    else
      var rest := OrTail(tokens, first.value.1, holds);
      if rest.Err? then rest else Ok((first.value.0 || rest.value.0, rest.value.1))
  }

  function OrTail(tokens: seq<string>, at: nat, holds: Test -> bool): (r: Result<(bool, nat)>)
    requires at <= |tokens|
    ensures r.Ok? ==> at <= r.value.1 <= |tokens|
    decreases |tokens| - at
  {
    if at < |tokens| && IsOr(tokens[at]) then EvalOr(tokens, at + 1, holds) else Ok((false, at))
  }

  /** The value of a whole expression: every token must be used. */
  function Evaluate(tokens: seq<string>, holds: Test -> bool): Result<bool> {
    if tokens == [] then Ok(true)
    else
      var r := EvalOr(tokens, 0, holds);
      if r.Err? then Err(r.failure) else if r.value.1 < |tokens| then Err(ExpectedConnector) else Ok(r.value.0)
  }

  /** What the rest of the tokens adds to the groups so far. */
  function Completed(tokens: seq<string>, at: nat, before: bool, current: bool, holds: Test -> bool): Result<bool>
    requires at <= |tokens|
  {
    var a := AndTail(tokens, at, holds);
    if a.Err? then Err(a.failure)
    else
      var o := OrTail(tokens, a.value.1, holds);
      if o.Err? then Err(o.failure)
      else if o.value.1 < |tokens| then Err(ExpectedConnector)
      else Ok(before || (current && a.value.0) || o.value.0)
  }

  function Valued(r: Result<Groups>, holds: Test -> bool): Result<bool> {
    if r.Err? then Err(r.failure) else Ok(AnyHolds(r.value, holds))
  }

  lemma AnySnoc(groups: Groups, group: seq<Atom>, holds: Test -> bool)
    ensures AnyHolds(groups + [group], holds) <==> AnyHolds(groups, holds) || AllHold(group, holds)
  {
    hide AllHold;
    assert (groups + [group])[|groups|] == group;
    assert forall i :: 0 <= i < |groups| ==> (groups + [group])[i] == groups[i];
  }

  lemma AllSnoc(group: seq<Atom>, a: Atom, holds: Test -> bool)
    ensures AllHold(group + [a], holds) <==> AllHold(group, holds) && AtomHolds(a, holds)
  {
    hide AtomHolds;
    assert (group + [a])[|group|] == a;
    assert forall i :: 0 <= i < |group| ==> (group + [a])[i] == group[i];
  }

  lemma AllSingle(a: Atom, holds: Test -> bool)
    ensures AllHold([a], holds) <==> AtomHolds(a, holds)
  {
    assert [a][0] == a;
  }

  lemma ConnectorsDiffer(token: string)
    ensures !(IsAnd(token) && IsOr(token))
  {
    assert "and"[0] != "or"[0];
  }

  lemma {:induction false} RestIsStandard(tokens: seq<string>, at: nat, done: Groups, current: seq<Atom>,
                                          holds: Test -> bool)
    requires at <= |tokens|
    ensures Valued(ParseRest(tokens, at, done, current), holds)
            == Completed(tokens, at, AnyHolds(done, holds), AllHold(current, holds), holds)
    decreases |tokens| - at
  {
    hide ParseAtom, IsAnd, IsOr, AnyHolds, AllHold, AtomHolds;
    AnySnoc(done, current, holds);
    if at < |tokens| && (IsAnd(tokens[at]) || IsOr(tokens[at])) {
      var next := ParseAtom(tokens, at + 1);
      if next.Ok? {
        var (atom, p) := next.value;
        AllSnoc(current, atom, holds);
        AllSingle(atom, holds);
        ConnectorsDiffer(tokens[at]);
        assert EvalAnd(tokens, at + 1, holds)
               == var rest := AndTail(tokens, p, holds);
                  if rest.Err? then rest else Ok((AtomHolds(atom, holds) && rest.value.0, rest.value.1));
        if IsAnd(tokens[at]) {
          RestIsStandard(tokens, p, done, current + [atom], holds);
        } else {
          assert OrTail(tokens, at, holds) == EvalOr(tokens, at + 1, holds);
          RestIsStandard(tokens, p, done + [current], [atom], holds);
        }
      } else {
        ConnectorsDiffer(tokens[at]);
        assert EvalAnd(tokens, at + 1, holds) == Err(next.failure);
        assert IsOr(tokens[at]) ==> OrTail(tokens, at, holds) == EvalOr(tokens, at + 1, holds);
      }
    }
  }

  /** The compiled filter means what the standard reading means: the same failures, and otherwise the
      same value on every row; in particular no token is left over. */
  lemma CompilerIsStandard(tokens: seq<string>, holds: Test -> bool)
    ensures Valued(Parse(tokens), holds) == Evaluate(tokens, holds)
  {
    if tokens == [] {
      assert AllHold([[]][0], holds);
    } else {
      hide ParseAtom, IsAnd, IsOr, AnyHolds, AllHold, AtomHolds;
      var first := ParseAtom(tokens, 0);
      if first.Ok? {
        NoneHold(holds);
        AllSingle(first.value.0, holds);
        RestIsStandard(tokens, first.value.1, [], [first.value.0], holds);
      }
    }
  }

  lemma NoneHold(holds: Test -> bool)
    ensures !AnyHolds([], holds)
  {
  }

  // ----- printing -----

  /** What the compiler can have read: terms in lower case, no keyword where a field stands. */
  predicate WellFormedAtom(a: Atom) {
    match a.test
    case Search(term) => IsLower(term)
    case Compare(field, _, _) => !IsContains(field) && (a.negated || !IsNot(field))
  }

  predicate WellFormed(groups: Groups) {
    groups != [] &&
    forall i :: 0 <= i < |groups| ==>
      groups[i] != [] && forall j :: 0 <= j < |groups[i]| ==> WellFormedAtom(groups[i][j])
  }

  function PrintTest(t: Test): seq<string> {
    match t
    case Search(term) => ["contains", term]
    case Compare(field, op, expected) => [field, Spelling(op), expected]
  }

  function PrintAtom(a: Atom): seq<string> { if a.negated then ["not"] + PrintTest(a.test) else PrintTest(a.test) }

  /** What is still to come after an atom, with its connectors. */
  function Tail(group: seq<Atom>, groups: Groups): seq<string>
    requires forall i :: 0 <= i < |groups| ==> groups[i] != []
    decreases |groups|, |group|
  {
    if group != [] then ["and"] + (PrintAtom(group[0]) + Tail(group[1..], groups))
    else if groups != [] then ["or"] + (PrintAtom(groups[0][0]) + Tail(groups[0][1..], groups[1..]))
    else []
  }

  /** The atoms of a group joined by `and`, the groups by `or`. */
  function Print(groups: Groups): seq<string>
    requires WellFormed(groups)
  {
    PrintAtom(groups[0][0]) + Tail(groups[0][1..], groups[1..])
  }

  lemma Connectors()
    ensures IsNot("not") && IsAnd("and") && IsOr("or")
  {
    LowerKeepsLower("not");
    LowerKeepsLower("and");
    LowerKeepsLower("or");
  }

  lemma ContainsIsAKeyword()
    ensures IsContains("contains") && !IsNot("contains")
  {
    LowerKeepsLower("contains");
    assert "contains"[0] != "not"[0];
  }

  lemma Keywords()
    ensures IsNot("not") && IsAnd("and") && IsOr("or") && IsContains("contains") && !IsNot("contains")
  {
    hide IsNot, IsAnd, IsOr, IsContains;
    Connectors();
    ContainsIsAKeyword();
  }

  /** A printed atom is read back, and reading stops right after it. */
  lemma AtomReadsBack(a: Atom, before: seq<string>, after: seq<string>)
    requires WellFormedAtom(a)
    ensures ParseAtom(before + PrintAtom(a) + after, |before|) == Ok((a, |before| + |PrintAtom(a)|))
  {
    hide IsNot, IsContains, OperatorOf, Spelling;
    Keywords();
    var tokens, at := before + PrintAtom(a) + after, |before|;
    var p := if a.negated then at + 1 else at;
    assert a.negated ==> tokens[at] == "not";
    match a.test
    case Search(term) =>
      assert tokens[p] == "contains" && tokens[p + 1] == term;
      LowerKeepsLower(term);
    case Compare(field, op, expected) =>
      assert tokens[p] == field && tokens[p + 1] == Spelling(op) && tokens[p + 2] == expected;
      SpellingIsRead(op);
  }

  /** From inside a group: its remaining atoms, then the remaining groups, are read back. */
  lemma {:induction false} GroupReadsBack(tokens: seq<string>, at: nat, done: Groups, current: seq<Atom>,
                                          group: seq<Atom>, groups: Groups)
    requires at <= |tokens| && current != []
    requires forall j :: 0 <= j < |group| ==> WellFormedAtom(group[j])
    requires groups != [] ==> WellFormed(groups)
    requires tokens[at..] == Tail(group, groups)
    ensures ParseRest(tokens, at, done, current) == Ok(done + [current + group] + groups)
    decreases |groups|, |group|
  {
    hide WellFormedAtom, PrintAtom, IsAnd, IsOr, ParseAtom, IsNot, IsContains;
    Connectors();
    if group != [] {
      NextAtom(tokens, at, "and", group[0], Tail(group[1..], groups));
      GroupReadsBack(tokens, at + 1 + |PrintAtom(group[0])|, done, current + [group[0]], group[1..], groups);
      assert current + [group[0]] + group[1..] == current + group;
    } else if groups != [] {
      var next := groups[0];
      ConnectorsDiffer("or");
      NextAtom(tokens, at, "or", next[0], Tail(next[1..], groups[1..]));
      GroupReadsBack(tokens, at + 1 + |PrintAtom(next[0])|, done + [current], [next[0]], next[1..], groups[1..]);
      assert [next[0]] + next[1..] == next;
      assert done + [current] + [next] + groups[1..] == done + [current] + groups;
      assert current + [] == current;
    } else {
      assert current + [] == current && done + [current] + [] == done + [current];
    }
  }

  lemma NextAtom(tokens: seq<string>, at: nat, connector: string, a: Atom, rest: seq<string>)
    requires at <= |tokens| && WellFormedAtom(a) && tokens[at..] == [connector] + (PrintAtom(a) + rest)
    ensures at < |tokens| && tokens[at] == connector && ParseAtom(tokens, at + 1) == Ok((a, at + 1 + |PrintAtom(a)|))
    ensures at + 1 + |PrintAtom(a)| <= |tokens| && tokens[at + 1 + |PrintAtom(a)|..] == rest
  {
    hide PrintAtom, ParseAtom;
    assert tokens[at] == tokens[at..][0] && tokens[at + 1..] == tokens[at..][1..] == PrintAtom(a) + rest;
    var before := tokens[..at + 1];
    assert tokens == before + PrintAtom(a) + rest;
    AtomReadsBack(a, before, rest);
  }

  /** Compiling printed groups gives back exactly those groups. */
  lemma CompileInvertsPrint(groups: Groups)
    requires WellFormed(groups)
    ensures Parse(Print(groups)) == Ok(groups)
  {
    hide PrintAtom, ParseAtom, ParseRest, Tail, WellFormedAtom;
    var tokens, first, rest := Print(groups), groups[0][0], Tail(groups[0][1..], groups[1..]);
    assert [] + PrintAtom(first) + rest == tokens;
    AtomReadsBack(first, [], rest);
    var at := |PrintAtom(first)|;
    assert tokens[at..] == rest;
    GroupReadsBack(tokens, at, [], [first], groups[0][1..], groups[1..]);
    assert [first] + groups[0][1..] == groups[0] && [] + [groups[0]] + groups[1..] == groups;
  }

  // ----- comparing -----

  /** A row's value: what str() makes of it. */
  datatype Actual = One(text: string) | Many(texts: seq<string>)

  predicate Ends(text: string, part: string) { |part| <= |text| && text[|text| - |part|..] == part }

  /** `_compare` on one value; `number` is float(), None where it raises. */
  predicate CompareOne(actual: string, op: Operator, expected: string, number: string -> Option<real>) {
    var a, b := number(actual), number(expected);
    var left, right := Lower(actual), Lower(expected);
    match op
    case Gt => a.Some? && b.Some? && a.value > b.value
    case Ge => a.Some? && b.Some? && a.value >= b.value
    case Lt => a.Some? && b.Some? && a.value < b.value
    case Le => a.Some? && b.Some? && a.value <= b.value
    case Eq => left == right
    case Ne => left != right
    case Has => Contains(left, right)
    case StartsWith => right <= left
    case EndsWith => Ends(left, right)
  }

  predicate CompareValue(actual: Actual, op: Operator, expected: string, number: string -> Option<real>) {
    match actual
    case One(text) => CompareOne(text, op, expected, number)
    case Many(texts) => exists i :: 0 <= i < |texts| && CompareOne(texts[i], op, expected, number)
  }

  /** On a field of several values `!=` asks for one value that differs: it is the negation of `==`
      exactly when all the values are equal to the expected one or all differ from it, and there is one. */
  lemma NotEqualIsNotNegation(texts: seq<string>, expected: string, number: string -> Option<real>)
    ensures (CompareValue(Many(texts), Ne, expected, number) == !CompareValue(Many(texts), Eq, expected, number))
            <==> texts != [] && ((forall i :: 0 <= i < |texts| ==> Lower(texts[i]) == Lower(expected))
                                 || (forall i :: 0 <= i < |texts| ==> Lower(texts[i]) != Lower(expected)))
  {
    hide Lower;
    if texts != [] {
      if CompareOne(texts[0], Eq, expected, number) {
        assert CompareValue(Many(texts), Eq, expected, number);
      } else {
        assert CompareOne(texts[0], Ne, expected, number);
        assert CompareValue(Many(texts), Ne, expected, number);
      }
      assert CompareValue(Many(texts), Ne, expected, number)
             <==> exists i :: 0 <= i < |texts| && Lower(texts[i]) != Lower(expected);
      assert CompareValue(Many(texts), Eq, expected, number)
             <==> exists i :: 0 <= i < |texts| && Lower(texts[i]) == Lower(expected);
    }
  }
}
