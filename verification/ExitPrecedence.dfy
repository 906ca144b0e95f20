/** Exit selection shared by every assurance command: the dispatcher's selector and the
    terminal-event reducer, with the documented non-numeric precedence. */
module ExitPrecedence {

  /** Stable outcome name of every registered exit. */
  const TAXONOMY: map<int, string> := map[
    0 := "success", 20 := "product-failure", 21 := "test-failure", 30 := "setup-failure",
    40 := "coverage-incomplete", 50 := "assurance-invalid", 60 := "cleanup-failure", 70 := "timeout",
    130 := "interrupted-sigint", 143 := "interrupted-sigterm"
  ]

  /** Highest-to-lowest failure precedence. */
  const PRECEDENCE: seq<int> := [60, 130, 143, 70, 50, 40, 30, 20, 21]

  predicate Registered(code: int) {
    code in TAXONOMY
  }

  /** Independent reading of the precedence: a smaller number wins, success loses to everything. */
  function Severity(code: int): nat {
    match code
    case 60 => 0
    case 130 => 1
    case 143 => 2
    case 70 => 3
    case 50 => 4
    case 40 => 5
    case 30 => 6
    case 20 => 7
    case 21 => 8
    case _ => 9
  }

  datatype Selection = Selected(exit: int) | Unregistered(code: int)

  /** The first entry of `order` that occurs among the codes, or success. */
  function FirstPresent(order: seq<int>, codes: seq<int>): (exit: int)
    ensures exit in codes || exit == 0
    ensures exit != 0 ==> exit in order
  {
    if order == [] then 0
    else if order[0] in codes then order[0]
    else FirstPresent(order[1..], codes)
  }

  /** Along the order, exits become strictly less severe. */
  ghost predicate Ascending(order: seq<int>) {
    forall i, j :: 0 <= i < j < |order| ==> Severity(order[i]) < Severity(order[j])
  }

  lemma PrecedenceAscends()
    ensures Ascending(PRECEDENCE)
  {
  }

  lemma {:induction false} FirstPresentWins(order: seq<int>, codes: seq<int>, code: int)
    requires Ascending(order) && code in codes && code in order
    ensures FirstPresent(order, codes) in order
    ensures Severity(FirstPresent(order, codes)) <= Severity(code)
  {
    var j :| 0 <= j < |order| && order[j] == code;
    if order[0] !in codes {
      assert order[1..][j - 1] == code;
      assert Ascending(order[1..]) by {
        forall a, b | 0 <= a < b < |order| - 1
          ensures Severity(order[1..][a]) < Severity(order[1..][b])
        {
          assert order[1..][a] == order[a + 1] && order[1..][b] == order[b + 1];
        }
      }
      FirstPresentWins(order[1..], codes, code);
    }
  }

  /** Scans for an unregistered exit first, so an unknown category never weakens a result. */
  method SelectExit(codes: seq<int>) returns (r: Selection)
    ensures r == Select(codes)
  {
    for i := 0 to |codes|
      invariant forall j :: 0 <= j < i ==> Registered(codes[j])
      invariant FirstUnregistered(codes) == FirstUnregistered(codes[i..])
    {
      assert codes[i..][0] == codes[i] && codes[i..][1..] == codes[i + 1..];
      if !Registered(codes[i]) {
        assert codes[i] in codes;
        return Unregistered(codes[i]);
      }
    }
    r := Selected(FirstPresent(PRECEDENCE, codes));
  }

  /** Earliest unregistered code, when there is one. */
  function FirstUnregistered(codes: seq<int>): int {
    if codes == [] then 0
    else if !Registered(codes[0]) then codes[0]
    else FirstUnregistered(codes[1..])
  }

  function Select(codes: seq<int>): Selection {
    if forall c | c in codes :: Registered(c)
    then Selected(FirstPresent(PRECEDENCE, codes))
    else Unregistered(FirstUnregistered(codes))
  }

  lemma InPrecedence(code: int)
    requires Registered(code) && code != 0
    ensures code in PRECEDENCE
  {
    assert PRECEDENCE[0] == 60 && PRECEDENCE[1] == 130 && PRECEDENCE[2] == 143;
    assert PRECEDENCE[3] == 70 && PRECEDENCE[4] == 50 && PRECEDENCE[5] == 40;
    assert PRECEDENCE[6] == 30 && PRECEDENCE[7] == 20 && PRECEDENCE[8] == 21;
  }

  lemma SeverityInjective(a: int, b: int)
    requires Registered(a) && Registered(b) && Severity(a) == Severity(b)
    ensures a == b
  {
  }

  /** What a selection means: it is the most severe of the codes, success counting as least severe. */
  ghost predicate MostSevere(codes: seq<int>, exit: int) {
    && (exit == 0 || exit in codes)
    && forall c | c in codes :: Severity(exit) <= Severity(c)
  }

  lemma SelectIsMostSevere(codes: seq<int>, exit: int)
    requires forall c | c in codes :: Registered(c)
    ensures Select(codes) == Selected(exit) <==> MostSevere(codes, exit)
  {
    var chosen := FirstPresent(PRECEDENCE, codes);
    PrecedenceAscends();
    forall c | c in codes ensures Severity(chosen) <= Severity(c) {
      if c != 0 {
        InPrecedence(c);
        FirstPresentWins(PRECEDENCE, codes, c);
      } else {
        assert chosen == 0 || Registered(chosen);
      }
    }
    if MostSevere(codes, exit) {
      SeverityInjective(exit, chosen);
    }
  }

  /** The code is unregistered, and every one before it is registered. */
  predicate IsEarliest(codes: seq<int>, i: nat) {
    i < |codes| && !Registered(codes[i]) && forall j :: 0 <= j < i ==> Registered(codes[j])
  }

  lemma {:induction false} EarliestIsFound(codes: seq<int>) returns (i: nat)
    requires exists c :: c in codes && !Registered(c)
    ensures IsEarliest(codes, i) && codes[i] == FirstUnregistered(codes)
  {
    if Registered(codes[0]) {
      var c :| c in codes && !Registered(c);
      assert codes == [codes[0]] + codes[1..];
      var k := EarliestIsFound(codes[1..]);
      i := k + 1;
      forall j | 0 <= j < i ensures Registered(codes[j]) { if j > 0 { assert codes[1..][j - 1] == codes[j]; } }
    } else {
      i := 0;
    }
  }

  lemma OneEarliest(codes: seq<int>, i: nat, j: nat)
    requires IsEarliest(codes, i) && IsEarliest(codes, j)
    ensures i == j
  {
  }

  /** An unregistered exit is reported exactly when there is one, and it is the earliest. */
  lemma UnregisteredIsEarliest(codes: seq<int>, code: int)
    ensures Select(codes) == Unregistered(code) <==> exists i: nat :: IsEarliest(codes, i) && codes[i] == code
  {
    if exists c :: c in codes && !Registered(c) {
      var first := EarliestIsFound(codes);
      assert Select(codes) == Unregistered(codes[first]);
      if i: nat :| IsEarliest(codes, i) && codes[i] == code {
        OneEarliest(codes, i, first);
      }
    }
  }

  /** Selecting over a concatenation is selecting over the two selections, error included. */
  lemma SelectionIsAJoin(a: seq<int>, b: seq<int>)
    ensures Select(a + b).Selected? <==> Select(a).Selected? && Select(b).Selected?
    ensures Select(a).Selected? && Select(b).Selected? ==>
              Select(a + b) == Select([Select(a).exit, Select(b).exit])
  {
    if exists c :: c in a && !Registered(c) {
      var c :| c in a && !Registered(c);
      assert c in a + b;
    } else if exists c :: c in b && !Registered(c) {
      var c :| c in b && !Registered(c);
      assert c in a + b;
    } else {
      var x, y := Select(a).exit, Select(b).exit;
      SelectIsMostSevere(a, x);
      SelectIsMostSevere(b, y);
      var z := Select([x, y]).exit;
      SelectIsMostSevere([x, y], z);
      assert x in [x, y] && y in [x, y];
      SelectIsMostSevere(a + b, z);
    }
  }

  /** Order and repetition do not matter: only the set of codes does. */
  lemma SelectionIgnoresOrderAndRepetition(a: seq<int>, b: seq<int>)
    requires forall c :: c in a <==> c in b
    ensures Select(a).Selected? <==> Select(b).Selected?
    ensures Select(a).Selected? ==> Select(a) == Select(b)
  {
    if Select(a).Selected? {
      SelectIsMostSevere(a, Select(a).exit);
      SelectIsMostSevere(b, Select(a).exit);
    }
  }

  // ---------------------------------------------------------------- terminal events

  datatype TerminalEvent = TerminalEvent(exitCode: int, stage: string)
  datatype Reduced = Reduced(exitCode: int, classification: string, stage: string) | NoPrecedence

  function Codes(events: seq<TerminalEvent>): (codes: seq<int>)
    ensures |codes| == |events|
    ensures forall i :: 0 <= i < |events| ==> codes[i] == events[i].exitCode
  {
    seq(|events|, i requires 0 <= i < |events| => events[i].exitCode)
  }

  /** Stage of the first event carrying the exit. */
  function StageOf(events: seq<TerminalEvent>, exit: int): (stage: string)
    requires exit in Codes(events)
    ensures exists i :: 0 <= i < |events| && events[i] == TerminalEvent(exit, stage)
                        && forall j :: 0 <= j < i ==> events[j].exitCode != exit
  {
    if events[0].exitCode == exit then events[0].stage
    else
      var rest := events[1..];
      assert exit in Codes(rest) by {
        var i :| 0 <= i < |events| && Codes(events)[i] == exit;
        assert Codes(rest)[i - 1] == exit;
      }
      var stage := StageOf(rest, exit);
      assert exists i :: 0 <= i < |events| && events[i] == TerminalEvent(exit, stage)
                         && forall j :: 0 <= j < i ==> events[j].exitCode != exit by {
        var i :| 0 <= i < |rest| && rest[i] == TerminalEvent(exit, stage)
                 && forall j :: 0 <= j < i ==> rest[j].exitCode != exit;
        assert events[i + 1] == TerminalEvent(exit, stage);
        forall j | 0 <= j < i + 1 ensures events[j].exitCode != exit {
          if j > 0 { assert events[j] == rest[j - 1]; }
        }
      }
      stage
  }

  function ReduceEvents(events: seq<TerminalEvent>): Reduced {
    if events == [] then Reduced(0, "success", "complete")
    else
      var exit := FirstPresent(PRECEDENCE, Codes(events));
      if exit == 0 then NoPrecedence
      else
        assert exit in PRECEDENCE && exit in TAXONOMY;
        Reduced(exit, TAXONOMY[exit], StageOf(events, exit))
  }

  /** The reducer and the selector name the same exit whenever both answer; each answers exactly on
      its own domain, which differ only in unregistered codes and bare successes. */
  lemma ReducerAgreesWithSelector(events: seq<TerminalEvent>)
    ensures ReduceEvents(events).Reduced? && Select(Codes(events)).Selected? ==>
              ReduceEvents(events).exitCode == Select(Codes(events)).exit
    ensures ReduceEvents(events).Reduced? <==>
            events == [] || exists i :: 0 <= i < |events| && events[i].exitCode in PRECEDENCE
    ensures ReduceEvents(events).Reduced? ==>
              ReduceEvents(events).exitCode in TAXONOMY
              && ReduceEvents(events).classification == TAXONOMY[ReduceEvents(events).exitCode]
  {
    if i :| 0 <= i < |events| && events[i].exitCode in PRECEDENCE {
      assert Codes(events)[i] == events[i].exitCode;
      PrecedenceAscends();
      FirstPresentWins(PRECEDENCE, Codes(events), events[i].exitCode);
    }
  }
}
