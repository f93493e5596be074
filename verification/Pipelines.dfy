/** Validation of parsed pipelines: dependency lists, Kubernetes labels and quantities.
    Strings are compared character by character; a character outside ASCII is never accepted,
    so working on bytes instead changes no answer. */
module Pipelines {
  import opened Common
  import opened Runs
  import opened RunTheory

  // ---------- characters ----------

  predicate Digit(c: char) {
    '0' <= c <= '9'
  }

  predicate Lower(c: char) {
    'a' <= c <= 'z'
  }

  predicate LabelAlnum(c: char) {
    Lower(c) || Digit(c)
  }

  predicate Sign(c: char) {
    c == '+' || c == '-'
  }

  // ---------- DNS-1123 labels ----------

  predicate IsValidDns1123Label(s: string) {
    && 0 < |s| <= 63
    && LabelAlnum(s[0])
    && LabelAlnum(s[|s| - 1])
    && forall i :: 0 <= i < |s| ==> LabelAlnum(s[i]) || s[i] == '-'
  }

  // ---------- dependencies ----------

  datatype PipelineError =
    | SelfDependency(node: string)
    | UnknownDependency(node: string, dependency: string)

  /** What is wrong with one entry of a node's dependency list, if anything. */
  function Fault(nodes: seq<NodeInfo>, node: NodeInfo, dep: string): Option<PipelineError> {
    if dep == node.name then Some(SelfDependency(node.name))
    else if dep !in Names(nodes) then Some(UnknownDependency(node.name, dep))
    else None
  }

  ghost predicate FaultAt(nodes: seq<NodeInfo>, i: nat, j: nat, fault: Option<PipelineError>) {
    && i < |nodes|
    && j < |nodes[i].dependencies|
    && Fault(nodes, nodes[i], nodes[i].dependencies[j]) == fault
  }

  ghost predicate NodeFaultless(nodes: seq<NodeInfo>, node: NodeInfo) {
    forall d :: d in node.dependencies ==> Fault(nodes, node, d) == None
  }

  ghost predicate Faultless(nodes: seq<NodeInfo>, count: nat) {
    forall i :: 0 <= i < |nodes| && i < count ==> NodeFaultless(nodes, nodes[i])
  }

  /** The first fault in reading order. */
  ghost predicate FirstFault(nodes: seq<NodeInfo>, i: nat, j: nat, error: PipelineError) {
    && Faultless(nodes, i)
    && FaultAt(nodes, i, j, Some(error))
    && forall k :: 0 <= k < j ==> Fault(nodes, nodes[i], nodes[i].dependencies[k]) == None
  }

  datatype Verdict = Valid | Invalid(error: PipelineError)

  method ValidateDependencies(nodes: seq<NodeInfo>) returns (verdict: Verdict)
    ensures verdict.Valid? <==> Faultless(nodes, |nodes|)
    ensures verdict.Valid? <==>
      forall i, d :: 0 <= i < |nodes| && d in nodes[i].dependencies ==> d != nodes[i].name && d in Names(nodes)
    ensures verdict.Invalid? ==> exists i, j :: FirstFault(nodes, i, j, verdict.error)
  {
    var names := Names(nodes);
    for i := 0 to |nodes|
      invariant Faultless(nodes, i)
    {
      var node := nodes[i];
      for j := 0 to |node.dependencies|
        invariant forall k :: 0 <= k < j ==> Fault(nodes, node, node.dependencies[k]) == None
      {
        var dep := node.dependencies[j];
        if dep == node.name {
          assert FirstFault(nodes, i, j, SelfDependency(node.name));
          assert dep in nodes[i].dependencies;
          return Invalid(SelfDependency(node.name));
        }
        if dep !in names {
          assert FirstFault(nodes, i, j, UnknownDependency(node.name, dep));
          assert dep in nodes[i].dependencies;
          return Invalid(UnknownDependency(node.name, dep));
        }
      }
    }
    assert forall i, d :: 0 <= i < |nodes| && d in nodes[i].dependencies ==> Fault(nodes, nodes[i], d) == None by {
      assert forall i :: 0 <= i < |nodes| ==> NodeFaultless(nodes, nodes[i]);
    }
    return Valid;
  }

  /** Each node of the graph waits for what the last entry under its name lists. */
  lemma {:induction false} EdgesComeFromNodes(nodes: seq<NodeInfo>, n: string) returns (i: nat)
    requires n in InitialDependencies(nodes)
    ensures i < |nodes| && nodes[i].name == n && forall k :: i < k < |nodes| ==> nodes[k].name != n
    ensures InitialDependencies(nodes)[n] == Elements(nodes[i].dependencies)
  {
    var m := |nodes| - 1;
    if nodes[m].name == n {
      i := m;
    } else {
      i := EdgesComeFromNodes(nodes[..m], n);
      assert forall k :: i < k < m ==> nodes[..m][k].name == nodes[k].name;
    }
  }

  /** The graph a run builds from a validated pipeline names only its own nodes and has no
      node waiting for itself, also when a node name is used twice. */
  lemma ValidatedGraphIsClosed(nodes: seq<NodeInfo>)
    requires Faultless(nodes, |nodes|)
    ensures Closed(Names(nodes), InitialDependencies(nodes))
    ensures forall n :: n in InitialDependencies(nodes) ==> n !in InitialDependencies(nodes)[n]
  {
    InitialKeysAgree(nodes);
    var graph := InitialDependencies(nodes);
    forall n | n in graph
      ensures graph[n] <= Names(nodes) && n !in graph[n]
    {
      var i := EdgesComeFromNodes(nodes, n);
      assert NodeFaultless(nodes, nodes[i]);
    }
  }

  /** Validation says nothing about longer cycles: two nodes may wait for each other. */
  lemma CyclesPassValidation(a: string, b: string)
    requires a != b
    ensures var nodes := [NodeInfo(a, [b]), NodeInfo(b, [a])];
      && Faultless(nodes, |nodes|)
      && !Acyclic(InitialDependencies(nodes))
  {
    var nodes := [NodeInfo(a, [b]), NodeInfo(b, [a])];
    assert nodes[0].name in Names(nodes) && nodes[1].name in Names(nodes);
    var graph := InitialDependencies(nodes);
    assert nodes[..1] == [NodeInfo(a, [b])] && nodes[..1][..0] == [];
    assert InitialDependencies(nodes[..1]) == map[][a := Elements([b])];
    assert graph == map[][a := Elements([b])][b := Elements([a])];
    assert b in [b] && a in [a];
    assert b in graph[a] && a in graph[b];
    forall rank: map<string, nat>
      ensures !Ranked(graph, rank)
    {
      if Ranked(graph, rank) {
        assert false;
      }
    }
  }

  // ---------- quantities ----------

  predicate Digits(t: string) {
    forall i :: 0 <= i < |t| ==> Digit(t[i])
  }

  /** Digits with at most one dot, and at least one digit. */
  ghost predicate Mantissa(t: string) {
    && (forall i :: 0 <= i < |t| ==> Digit(t[i]) || t[i] == '.')
    && (forall i, j :: 0 <= i < j < |t| ==> t[i] != '.' || t[j] != '.')
    && exists i :: 0 <= i < |t| && Digit(t[i])
  }

  function SignLength(t: string): nat {
    if t != "" && Sign(t[0]) then 1 else 0
  }

  ghost predicate Number(t: string) {
    Mantissa(t[SignLength(t)..])
  }

  ghost predicate Exponent(t: string) {
    && t != "" && t[0] in "eE"
    && var digits := t[1..][SignLength(t[1..])..];
       digits != "" && Digits(digits)
  }

  ghost predicate Suffix(t: string) {
    || t == ""
    || Exponent(t)
    || (|t| == 1 && t[0] in "numk")
    || (|t| == 1 && t[0] in "KMGTPE")
    || (|t| == 2 && t[0] in "KMGTPE" && t[1] == 'i')
  }

  /** The Kubernetes quantity grammar: a signed decimal followed by one suffix. */
  ghost predicate Quantity(s: string) {
    exists k :: 0 <= k <= |s| && Number(s[..k]) && Suffix(s[k..])
  }

  /** The span the scanning loop has accepted as mantissa. */
  ghost predicate Scanned(s: string, start: nat, i: nat, sawDigit: bool, sawDot: bool) {
    && start <= i <= |s|
    && (forall j :: start <= j < i ==> Digit(s[j]) || s[j] == '.')
    && (forall j, k :: start <= j < k < i ==> s[j] != '.' || s[k] != '.')
    && (sawDigit <==> exists j :: start <= j < i && Digit(s[j]))
    && (sawDot <==> exists j :: start <= j < i && s[j] == '.')
  }

  lemma ScannedNumber(s: string, i: nat, sawDigit: bool, sawDot: bool)
    requires Scanned(s, SignLength(s), i, sawDigit, sawDot)
    ensures Number(s[..i]) <==> sawDigit
  {
    var start := SignLength(s);
    if i < start {
    } else if start == 1 && i == 0 {
    } else {
      var t := s[..i][SignLength(s[..i])..];
      if i == 0 {
        assert t == "";
      } else {
        assert forall j :: 0 <= j < |t| ==> t[j] == s[start + j];
        if sawDigit {
          var j :| start <= j < i && Digit(s[j]);
          assert Digit(t[j - start]);
        }
      }
    }
  }

  /** No suffix begins with a digit or a dot, so the scan stops at the only place where the
      number can end. */
  lemma OnlySplit(s: string, i: nat, sawDigit: bool, sawDot: bool, k: nat)
    requires Scanned(s, SignLength(s), i, sawDigit, sawDot)
    requires i < |s| ==> !Digit(s[i]) && (s[i] == '.' ==> sawDot)
    requires k <= |s| && Number(s[..k]) && Suffix(s[k..])
    ensures k == i
  {
  }

  lemma ScanDecides(s: string, i: nat, sawDigit: bool, sawDot: bool)
    requires Scanned(s, SignLength(s), i, sawDigit, sawDot)
    requires i < |s| ==> !Digit(s[i]) && (s[i] == '.' ==> sawDot)
    ensures Quantity(s) <==> sawDigit && Suffix(s[i..])
  {
    ScannedNumber(s, i, sawDigit, sawDot);
    if Quantity(s) {
      var k :| 0 <= k <= |s| && Number(s[..k]) && Suffix(s[k..]);
      OnlySplit(s, i, sawDigit, sawDot, k);
    }
  }

  /** `E` is a suffix of its own; it opens an exponent exactly when a digit or a sign follows. */
  lemma ExponentOrSuffix(t: string)
    requires t != ""
    ensures var opens := t[0] in "eE" && |t| > 1 && (Digit(t[1]) || Sign(t[1]));
      && (opens ==> (Suffix(t) <==> Exponent(t)))
      && (!opens ==> !Exponent(t))
  {
  }

  lemma AfterOneDigit(tail: string)
    requires tail != "" && !Digit(tail[0]) && tail[0] != '.'
    ensures Quantity("1" + tail) <==> Suffix(tail)
  {
    hide Quantity, Suffix;
    var s := "1" + tail;
    assert Digit(s[0]) && s[1] == tail[0] && s[1..] == tail;
    assert Scanned(s, SignLength(s), 1, true, false);
    ScanDecides(s, 1, true, false);
  }

  /** Which single letters may follow a number, and which of them an `i`. */
  lemma SuffixLetters(c: char)
    requires !Digit(c) && c != '.'
    ensures Quantity("1" + [c]) <==> c in "numkKMGTPE"
    ensures Quantity("1" + [c, 'i']) <==> c in "KMGTPE"
  {
    hide Quantity;
    AfterOneDigit([c]);
    AfterOneDigit([c, 'i']);
    assert [c][1..] == "" && [c, 'i'][1..] == "i";
    ExponentOrSuffix([c]);
    ExponentOrSuffix([c, 'i']);
  }

  /** What may stand before a digit, and between a digit and the digits of an exponent. */
  lemma SignsAndExponents(c: char)
    ensures Quantity([c, '1']) <==> Digit(c) || c in ".+-"
    ensures !Digit(c) && c != '.' ==> (Quantity("1" + [c, '5']) <==> c in "eE")
    ensures Quantity("1" + ['e', c, '5']) <==> Digit(c) || c in "+-"
  {
    hide Quantity;
    var s := [c, '1'];
    assert Digit(s[1]) && s[2..] == "";
    if Digit(c) || c in ".+-" {
      assert Scanned(s, SignLength(s), 2, true, c == '.') by {
        assert c == '.' ==> s[0] == '.';
      }
      ScanDecides(s, 2, true, c == '.');
    } else {
      assert Scanned(s, SignLength(s), 0, false, false);
      ScanDecides(s, 0, false, false);
    }
    if !Digit(c) && c != '.' {
      AfterOneDigit([c, '5']);
      assert [c, '5'][1..][SignLength([c, '5'][1..])..] == "5";
    }
    var t := ['e', c, '5'];
    AfterOneDigit(t);
    assert t[1..] == [c, '5'] && t[1..][0..] == [c, '5'] && t[1..][1..] == "5";
    assert [c, '5'][0] == c && Digit('5');
  }

  method RestIsDigits(s: string, from: nat) returns (valid: bool)
    requires from <= |s|
    ensures valid <==> s[from..] != "" && Digits(s[from..])
  {
    var i, any := from, false;
    while i < |s|
      invariant from <= i <= |s|
      invariant forall j :: from <= j < i ==> Digit(s[j])
      invariant any <==> from < i
    {
      if !Digit(s[i]) {
        assert s[from..][i - from] == s[i];
        return false;
      }
      any := true;
      i := i + 1;
    }
    return any;
  }

  method IsSuffix(s: string, from: nat) returns (valid: bool)
    requires from < |s|
    ensures valid <==> Suffix(s[from..])
  {
    var i := from;
    ghost var t := s[i..];
    ExponentOrSuffix(t);
    if s[i] in "eE" && i + 1 < |s| && (Digit(s[i + 1]) || Sign(s[i + 1])) {
      i := i + 1;
      assert t[1..] == s[i..];
      if Sign(s[i]) {
        i := i + 1;
      }
      assert t[1..][SignLength(t[1..])..] == s[i..];
      valid := RestIsDigits(s, i);
    } else if s[i] in "numk" {
      i := i + 1;
      valid := i == |s|;
    } else if s[i] in "KMGTPE" {
      i := i + 1;
      if i < |s| && s[i] == 'i' {
        i := i + 1;
      }
      valid := i == |s|;
    } else {
      valid := false;
    }
  }

  /** Accepts exactly the grammar; every index it reads lies inside the string. */
  method IsValidQuantity(s: string) returns (valid: bool)
    ensures valid <==> Quantity(s)
  {
    if s == "" {
      assert forall k :: 0 <= k <= |s| ==> s[..k] == "";
      return false;
    }
    var i := 0;
    if Sign(s[i]) {
      i := i + 1;
    }
    var sawDigit, sawDot := false, false;
    while i < |s|
      invariant Scanned(s, SignLength(s), i, sawDigit, sawDot)
    {
      if Digit(s[i]) {
        sawDigit := true;
        i := i + 1;
      } else if s[i] == '.' && !sawDot {
        sawDot := true;
        i := i + 1;
      } else {
        break;
      }
    }
    ScanDecides(s, i, sawDigit, sawDot);
    if !sawDigit {
      return false;
    }
    if i == |s| {
      return true;
    }
    valid := IsSuffix(s, i);
  }
}
