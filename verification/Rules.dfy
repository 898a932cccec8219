/**
 * The rule compiler and evaluator of `decision_engine.c`. An equation arrives already split: a sequence
 * of OR groups, each a sequence of module numbers joined by AND.
 */
module Rules {
  import opened Words

  /** What a module returns. */
  datatype Verdict = Defer | Reject | Accept

  /** What a rule decides; `NoRule` is the value a decision starts with. */
  datatype Decision = NoRule | DeDefer | DeReject | DeAccept | DeDrop

  type Group = g: seq<nat> | |g| > 0 witness [0]

  /**
   * The modules, as one function of the module number, the number of calls made before in this
   * evaluation and the backend suggestion so far; it returns a verdict and a new suggestion. Taking the
   * call number lets a module answer differently each time, whatever state it keeps.
   */
  type Modules = (nat, nat, nat) -> (Verdict, nat)

  // ----- the meaning of an equation -----

  /** Where an evaluation stands: calls made, the modules' suggestion, the suggestion the rule adopted. */
  datatype Progress = Progress(calls: nat, suggested: nat, adopted: nat)

  datatype Outcome = Outcome(decision: Decision, at: Progress)

  /** Call one module; an accepting one has its suggestion, if any, adopted. */
  function Call(m: Modules, id: nat, at: Progress): (Verdict, Progress) {
    var (v, s) := m(id, at.calls, at.suggested);
    (v, Progress(at.calls + 1, s, if v.Accept? && s != 0 then s else at.adopted))
  }

  /** A conjunction: left to right, up to the first module that does not accept. */
  function EvalAnd(m: Modules, conjuncts: seq<nat>, at: Progress): (Verdict, Progress)
    decreases |conjuncts|
  {
    if conjuncts == [] then (Accept, at)
    else
      var (v, next) := Call(m, conjuncts[0], at);
      if v.Accept? then EvalAnd(m, conjuncts[1..], next) else (v, next)
  }

  /** A disjunction of conjunctions: left to right, ended by the first that accepts or defers. */
  function EvalOr(m: Modules, groups: seq<seq<nat>>, at: Progress): Outcome
    decreases |groups|
  {
    if groups == [] then Outcome(DeReject, at)
    else
      var (v, next) := EvalAnd(m, groups[0], at);
      match v
      case Accept => Outcome(DeAccept, next)
      case Defer => Outcome(DeDefer, next)
      case Reject => EvalOr(m, groups[1..], next)
  }

  /** The decision and the backend suggestion an equation yields. */
  function Meaning(m: Modules, groups: seq<seq<nat>>, adopted: nat): Outcome {
    EvalOr(m, groups, Progress(0, 0, adopted))
  }

  // ----- the linked nodes -----

  class Node {
    const mod: nat
    var trueBranch: Node?
    var falseBranch: Node?

    constructor (mod: nat)
      ensures this.mod == mod && trueBranch == null && falseBranch == null
    {
      this.mod := mod;
      trueBranch, falseBranch := null, null;
    }
  }

  /** `DE_build_subtree` recurses on the second piece of a full split, so two conjuncts survive. */
  function Kept(conjuncts: Group): (k: Group)
    ensures |k| <= 2 && k <= conjuncts
  {
    if |conjuncts| > 2 then conjuncts[..2] else conjuncts
  }

  function KeptAll(groups: seq<Group>): (k: seq<Group>)
    ensures |k| == |groups| && forall i | 0 <= i < |k| :: k[i] == Kept(groups[i])
  {
    seq(|groups|, i requires 0 <= i < |groups| => Kept(groups[i]))
  }

  /** The node after the one at `j`, if any. */
  ghost function Following(c: seq<Node>, j: nat): Node? {
    if j + 1 < |c| then c[j + 1] else null
  }

  /** The head of the chain after the one at `i`, if any. */
  ghost function HeadAfter(g: seq<seq<Node>>, i: nat): Node? {
    if i + 1 < |g| && |g[i + 1]| > 0 then g[i + 1][0] else null
  }

  /** The chain of one group: true branches lead through its modules, false branches all lead to `next`. */
  ghost predicate Chain(c: seq<Node>, conjuncts: seq<nat>, next: Node?)
    reads c
  {
    && |c| == |conjuncts| > 0
    && (forall j | 0 <= j < |c| :: c[j].mod == conjuncts[j] && c[j].falseBranch == next)
    && (forall j {:trigger Following(c, j)} | 0 <= j < |c| :: c[j].trueBranch == Following(c, j))
  }

  ghost function Nodes(g: seq<seq<Node>>): set<Node> {
    set i, j | 0 <= i < |g| && 0 <= j < |g[i]| :: g[i][j]
  }

  /** The graph of an equation: one chain per group, rejection leads to the head of the following chain. */
  ghost predicate Linked(g: seq<seq<Node>>, groups: seq<seq<nat>>)
    reads Nodes(g)
  {
    && |g| == |groups|
    && (forall i | 0 <= i < |g| :: |g[i]| > 0)
    && forall i {:trigger HeadAfter(g, i)} | 0 <= i < |g| :: Chain(g[i], groups[i], HeadAfter(g, i))
  }

  /** `DE_build_subtree` */
  method BuildSubtree(conjuncts: Group) returns (node: Node, ghost chain: seq<Node>)
    ensures Chain(chain, Kept(conjuncts), null) && chain[0] == node
    ensures forall j | 0 <= j < |chain| :: fresh(chain[j])
    decreases |conjuncts|
  {
    node := new Node(conjuncts[0]);
    chain := [node];
    if |conjuncts| > 1 {
      ghost var rest;
      node.trueBranch, rest := BuildSubtree([conjuncts[1]]);
      node.falseBranch := null;
      chain := [node] + rest;
      assert Following(chain, 0) == rest[0] && Following(chain, 1) == Following(rest, 0);
    }
  }

  /** The inner loop of `DE_create_tree`: point every false branch of a finished chain at the next head. */
  method LinkChain(head: Node, ghost c: seq<Node>, ghost conjuncts: seq<nat>, next: Node)
    requires Chain(c, conjuncts, null) && head == c[0]
    modifies c
    ensures Chain(c, conjuncts, next)
  {
    var node := head;
    node.falseBranch := next;
    ghost var j := 0;
    while node.trueBranch != null
      invariant 0 <= j < |c| && node == c[j]
      invariant forall i {:trigger Following(c, i)} | 0 <= i < |c| :: c[i].trueBranch == Following(c, i)
      invariant forall i | 0 <= i <= j :: c[i].falseBranch == next
      decreases |c| - j
    {
      assert node.trueBranch == Following(c, j);
      node := node.trueBranch;
      node.falseBranch := next;
      j := j + 1;
    }
    assert node.trueBranch == Following(c, j);
  }

  /** No node belongs to two chains. */
  ghost predicate Disjoint(g: seq<seq<Node>>) {
    forall i, j, k, l | 0 <= i < j < |g| && 0 <= k < |g[i]| && 0 <= l < |g[j]| :: g[i][k] != g[j][l]
  }

  /**
   * `DE_create_tree`, with the absent equation as the empty sequence. The graph is the whole equation's,
   * but the node handed back is the head of its last group.
   */
  method CreateTree(equation: seq<Group>) returns (node: Node?, ghost g: seq<seq<Node>>)
    ensures Linked(g, KeptAll(equation))
    ensures forall i, j | 0 <= i < |g| && 0 <= j < |g[i]| :: fresh(g[i][j])
    ensures equation == [] ==> node == null
    ensures equation != [] ==> node == g[|g| - 1][0]
  {
    if equation == [] {
      return null, [];
    }
    ghost var chain;
    node, chain := BuildSubtree(equation[0]);
    g := [chain];
    var n := 1;
    while n < |equation|
      invariant 1 <= n <= |equation| && |g| == n
      invariant Linked(g, KeptAll(equation[..n])) && Disjoint(g)
      invariant node == g[n - 1][0]
      invariant forall i, j | 0 <= i < |g| && 0 <= j < |g[i]| :: fresh(g[i][j])
    {
      ghost var before := g;
      node, g := AppendGroup(node, g, equation, n);
      forall i, j | 0 <= i < |g| && 0 <= j < |g[i]| ensures fresh(g[i][j]) {
        assert i < n ==> g[i] == before[i];
      }
      n := n + 1;
    }
    assert equation[..n] == equation;
  }

  /** One round of the outer loop: build the chain of group `n` and link the chain before it. */
  method AppendGroup(last: Node, ghost g: seq<seq<Node>>, equation: seq<Group>, n: nat)
    returns (head: Node, ghost h: seq<seq<Node>>)
    requires 1 <= n < |equation| && |g| == n
    requires Linked(g, KeptAll(equation[..n])) && Disjoint(g) && last == g[n - 1][0]
    modifies g[n - 1]
    ensures |h| == n + 1 && (forall i | 0 <= i < n :: h[i] == g[i]) && |h[n]| > 0 && head == h[n][0]
    ensures Linked(h, KeptAll(equation[..n + 1])) && Disjoint(h)
    ensures forall j | 0 <= j < |h[n]| :: fresh(h[n][j])
  {
    ghost var chain;
    head, chain := BuildSubtree(equation[n]);
    label built:
    assert HeadAfter(g, n - 1) == null;
    assert Chain(g[n - 1], KeptAll(equation[..n])[n - 1], null);
    LinkChain(last, g[n - 1], Kept(equation[n - 1]), head);
    forall i | 0 <= i < n - 1 ensures Chain(g[i], Kept(equation[i]), HeadAfter(g, i)) {
      assert old@built(Chain(g[i], KeptAll(equation[..n])[i], HeadAfter(g, i)));
    }
    Extend(g, chain, equation, n);
    h := g + [chain];
  }

  lemma Extend(g: seq<seq<Node>>, chain: seq<Node>, equation: seq<Group>, n: nat)
    requires 1 <= n < |equation| && |g| == n && forall i | 0 <= i < n :: |g[i]| > 0
    requires forall i | 0 <= i < n - 1 :: Chain(g[i], Kept(equation[i]), HeadAfter(g, i))
    requires Chain(chain, Kept(equation[n]), null)
    requires Chain(g[n - 1], Kept(equation[n - 1]), chain[0])
    ensures Linked(g + [chain], KeptAll(equation[..n + 1]))
  {
    var h := g + [chain];
    forall i | 0 <= i < |h| ensures Chain(h[i], KeptAll(equation[..n + 1])[i], HeadAfter(h, i)) {
      if i < n - 1 {
        assert HeadAfter(h, i) == HeadAfter(g, i);
      }
    }
  }

  /** The rest of an evaluation from conjunct `j` of group `i` on. */
  function From(m: Modules, groups: seq<seq<nat>>, i: nat, j: nat, at: Progress): Outcome
    requires i < |groups| && j <= |groups[i]|
  {
    var (v, next) := EvalAnd(m, groups[i][j..], at);
    match v
    case Accept => Outcome(DeAccept, next)
    case Defer => Outcome(DeDefer, next)
    case Reject => EvalOr(m, groups[i + 1..], next)
  }

  lemma FromStart(m: Modules, groups: seq<seq<nat>>, i: nat, at: Progress)
    requires i < |groups|
    ensures EvalOr(m, groups[i..], at) == From(m, groups, i, 0, at)
  {
    assert groups[i..][0] == groups[i] && groups[i..][1..] == groups[i + 1..];
    assert groups[i][0..] == groups[i];
  }

  /** One module call moves an evaluation the way its verdict says. */
  lemma FromStep(m: Modules, groups: seq<seq<nat>>, i: nat, j: nat, at: Progress, v: Verdict, next: Progress)
    requires i < |groups| && j < |groups[i]| && (v, next) == Call(m, groups[i][j], at)
    ensures v.Accept? && j + 1 < |groups[i]| ==> From(m, groups, i, j, at) == From(m, groups, i, j + 1, next)
    ensures v.Accept? && j + 1 == |groups[i]| ==> From(m, groups, i, j, at) == Outcome(DeAccept, next)
    ensures v.Defer? ==> From(m, groups, i, j, at) == Outcome(DeDefer, next)
    ensures v.Reject? && i + 1 < |groups| ==> From(m, groups, i, j, at) == From(m, groups, i + 1, 0, next)
    ensures v.Reject? && i + 1 == |groups| ==> From(m, groups, i, j, at) == Outcome(DeReject, next)
  {
    assert groups[i][j..][0] == groups[i][j] && groups[i][j..][1..] == groups[i][j + 1..];
    if j + 1 == |groups[i]| {
      assert groups[i][j + 1..] == [] && EvalAnd(m, [], next) == (Accept, next);
    }
    if i + 1 < |groups| {
      FromStart(m, groups, i + 1, next);
    }
  }

  /** Where the branches of one node of the graph lead. */
  lemma Branches(g: seq<seq<Node>>, groups: seq<seq<nat>>, i: nat, j: nat)
    requires Linked(g, groups) && i < |g| && j < |g[i]|
    ensures |g[i]| == |groups[i]| && g[i][j].mod == groups[i][j]
    ensures g[i][j].trueBranch == if j + 1 < |g[i]| then g[i][j + 1] else null
    ensures i + 1 == |g| ==> g[i][j].falseBranch == null
    ensures i + 1 < |g| ==> |g[i + 1]| == |groups[i + 1]| > 0 && g[i][j].falseBranch == g[i + 1][0]
  {
    assert Chain(g[i], groups[i], HeadAfter(g, i));
    assert g[i][j].trueBranch == Following(g[i], j);
    if i + 1 < |g| {
      assert Chain(g[i + 1], groups[i + 1], HeadAfter(g, i + 1));
    }
  }

  /**
   * `decide`: follow true and false branches until a module defers or a branch is missing. Started at the
   * head of group `start`, it computes the meaning of the groups from there on, over a graph in which all
   * the nodes of a group share one false branch.
   */
  method Decide(node: Node, m: Modules, adopted: nat, ghost g: seq<seq<Node>>, ghost groups: seq<seq<nat>>,
                ghost start: nat)
    returns (result: Outcome)
    requires Linked(g, groups) && start < |g| && node == g[start][0]
    ensures result == Meaning(m, groups[start..], adopted)
  {
    var at := Progress(0, 0, adopted);
    var current := node;
    ghost var i, j := start, 0;
    ghost var total := Meaning(m, groups[start..], adopted);
    FromStart(m, groups, start, at);
    Branches(g, groups, start, 0);
    while true
      invariant start <= i < |groups| && 0 <= j < |groups[i]|
      invariant |g[i]| == |groups[i]| && current == g[i][j]
      invariant total == From(m, groups, i, j, at)
      decreases |groups| - i, |groups[i]| - j
    {
      Branches(g, groups, i, j);
      var (verdict, next) := Call(m, current.mod, at);
      FromStep(m, groups, i, j, at, verdict, next);
      if verdict.Accept? {
        if current.trueBranch == null {
          return Outcome(DeAccept, next);
        }
        current := current.trueBranch;
        j := j + 1;
      } else if verdict.Defer? {
        return Outcome(DeDefer, next);
      } else {
        if current.falseBranch == null {
          return Outcome(DeReject, next);
        }
        current := current.falseBranch;
        i, j := i + 1, 0;
      }
      at := next;
    }
  }

  // ----- exactly when compilation preserves meaning -----

  /** Two equations mean the same to every collection of modules. */
  ghost predicate SameMeaning(a: seq<seq<nat>>, b: seq<seq<nat>>) {
    forall m: Modules, adopted: nat :: Meaning(m, a, adopted) == Meaning(m, b, adopted)
  }

  /** Modules that reject the first `rejects` calls, accept the next `accepts` and defer from then on. */
  function Scripted(rejects: nat, accepts: nat): Modules {
    (id: nat, call: nat, suggested: nat) =>
      (if call < rejects then Reject else if call < rejects + accepts then Accept else Defer, 0)
  }

  lemma {:induction false} ScriptedAnd(conjuncts: seq<nat>, rejects: nat, accepts: nat, at: Progress)
    requires at.calls >= rejects && at.calls <= rejects + accepts
    ensures EvalAnd(Scripted(rejects, accepts), conjuncts, at).0
            == if at.calls + |conjuncts| <= rejects + accepts then Accept else Defer
    decreases |conjuncts|
  {
    if conjuncts != [] {
      var (v, next) := Call(Scripted(rejects, accepts), conjuncts[0], at);
      if v.Accept? {
        ScriptedAnd(conjuncts[1..], rejects, accepts, next);
      }
    }
  }

  /** With the groups before `i` rejected by one call each, the script reaches group `i` untouched. */
  lemma {:induction false} ScriptedOr(groups: seq<Group>, i: nat, accepts: nat, at: Progress)
    requires at.calls <= i && i - at.calls < |groups| && accepts > 0
    ensures EvalOr(Scripted(i, accepts), groups, at).decision
            == if |groups[i - at.calls]| <= accepts then DeAccept else DeDefer
    decreases |groups|
  {
    var m := Scripted(i, accepts);
    if at.calls == i {
      ScriptedAnd(groups[0], i, accepts, at);
    } else {
      var (v, next) := Call(m, groups[0][0], at);
      assert EvalAnd(m, groups[0], at) == (Reject, next);
      ScriptedOr(groups[1..], i, accepts, next);
    }
  }

  /** The graph has the meaning of the equation iff no group has more than two conjuncts. */
  lemma GraphFaithfulIff(equation: seq<Group>)
    ensures SameMeaning(KeptAll(equation), equation) <==> forall i | 0 <= i < |equation| :: |equation[i]| <= 2
  {
    if i :| 0 <= i < |equation| && |equation[i]| > 2 {
      ScriptedOr(equation, i, 2, Progress(0, 0, 0));
      ScriptedOr(KeptAll(equation), i, 2, Progress(0, 0, 0));
      assert Meaning(Scripted(i, 2), equation, 0) != Meaning(Scripted(i, 2), KeptAll(equation), 0);
    } else {
      assert KeptAll(equation) == equation;
    }
  }

  /** The rule actually installed: what the node returned by `CreateTree` denotes. */
  function Installed(equation: seq<Group>): seq<Group>
    requires equation != []
  {
    KeptAll(equation)[|equation| - 1..]
  }

  /** The rule installed has the meaning of the equation iff there is a single group of at most two conjuncts. */
  lemma InstalledFaithfulIff(equation: seq<Group>)
    requires equation != []
    ensures SameMeaning(Installed(equation), equation) <==> |equation| == 1 && |equation[0]| <= 2
  {
    if |equation| == 1 {
      GraphFaithfulIff(equation);
      assert Installed(equation) == KeptAll(equation);
    } else {
      // One rejection, then deferral: the equation goes on to its second group, the rule installed is done.
      var start := Progress(0, 0, 0);
      var m := Scripted(1, 0);
      var last := Installed(equation)[0];
      assert EvalAnd(m, last, start).0 == Reject;
      assert Installed(equation)[1..] == [];
      assert Meaning(m, Installed(equation), 0).decision == DeReject by {
        assert EvalOr(m, Installed(equation)[1..], EvalAnd(m, last, start).1).decision == DeReject;
      }
      var (v, next) := Call(m, equation[0][0], start);
      assert EvalAnd(m, equation[0], start) == (Reject, next);
      assert EvalAnd(m, equation[1], next).0 == Defer;
      assert equation[1..][0] == equation[1];
      assert EvalOr(m, equation[1..], next).decision == DeDefer;
      assert Meaning(m, equation, 0).decision == DeDefer;
    }
  }

  /** Building a rule and deciding with it: the whole path from an equation to a decision. */
  method CompileAndDecide(equation: seq<Group>, m: Modules, adopted: nat) returns (result: Outcome)
    requires equation != []
    ensures result == Meaning(m, Installed(equation), adopted)
  {
    var node, g := CreateTree(equation);
    result := Decide(node, m, adopted, g, KeptAll(equation), |g| - 1);
  }

  // ----- choosing a backend without a picker -----

  /** A backend handler: its ID and, if it has a rule, what that rule decides when it is asked. */
  datatype Backend = Backend(id: nat, rule: Option<Decision>)

  predicate Accepts(b: Backend) {
    b.rule == Some(DeAccept)
  }

  /** The decision left behind by the rules consulted last; handlers without a rule leave it alone. */
  function Leftover(backends: seq<Backend>): Decision
    decreases |backends|
  {
    if backends == [] then NoRule
    else if backends[|backends| - 1].rule.Some? then backends[|backends| - 1].rule.value
    else Leftover(backends[..|backends| - 1])
  }

  /** A suggestion adopted before plays no part in what a conjunction or a rule decides. */
  lemma {:induction false} AndIgnoresAdopted(m: Modules, conjuncts: seq<nat>, at: Progress, other: nat)
    ensures var (v, x) := EvalAnd(m, conjuncts, at);
            var (w, y) := EvalAnd(m, conjuncts, at.(adopted := other));
            v == w && x.calls == y.calls && x.suggested == y.suggested
    decreases |conjuncts|
  {
    if conjuncts != [] {
      var (v, next) := Call(m, conjuncts[0], at);
      var (w, next') := Call(m, conjuncts[0], at.(adopted := other));
      assert next' == next.(adopted := next'.adopted);
      AndIgnoresAdopted(m, conjuncts[1..], next, next'.adopted);
    }
  }

  lemma {:induction false} OrIgnoresAdopted(m: Modules, groups: seq<seq<nat>>, at: Progress, other: nat)
    ensures EvalOr(m, groups, at).decision == EvalOr(m, groups, at.(adopted := other)).decision
    decreases |groups|
  {
    if groups != [] {
      AndIgnoresAdopted(m, groups[0], at, other);
      var (v, next) := EvalAnd(m, groups[0], at);
      var (w, next') := EvalAnd(m, groups[0], at.(adopted := other));
      assert next' == next.(adopted := next'.adopted);
      OrIgnoresAdopted(m, groups[1..], next, next'.adopted);
    }
  }

  /**
   * The handlers with what their installed rules decide, `m(i)` being the modules as they answer when handler `i` is
   * asked.
   */
  function Asked(ids: seq<nat>, equations: seq<seq<Group>>, m: nat -> Modules): (b: seq<Backend>)
    requires |ids| == |equations|
    ensures |b| == |ids|
  {
    seq(|ids|, i requires 0 <= i < |ids| =>
      Backend(ids[i], if equations[i] == [] then None else Some(Meaning(m(i), Installed(equations[i]), 0).decision)))
  }

  /** The linked rule of a handler, or none. */
  ghost predicate CompiledTo(node: Node?, g: seq<seq<Node>>, equation: seq<Group>)
    reads Nodes(g)
  {
    if equation == [] then node == null
    else Linked(g, KeptAll(equation)) && node == g[|g| - 1][0]
  }

  /** One handler's turn: a handler without a rule leaves the decision and the suggestion as they are. */
  method AskOne(node: Node?, m: Modules, decision: Decision, adopted: nat, ghost g: seq<seq<Node>>,
                ghost equation: seq<Group>)
    returns (result: Outcome)
    requires CompiledTo(node, g, equation)
    ensures equation == [] ==> result.decision == decision && result.at.adopted == adopted
    ensures equation != [] ==> result.decision == Meaning(m, Installed(equation), 0).decision
  {
    result := Outcome(decision, Progress(0, 0, adopted));
    if node != null {
      result := Decide(node, m, adopted, g, KeptAll(equation), |g| - 1);
      OrIgnoresAdopted(m, Installed(equation), Progress(0, 0, adopted), 0);
    }
  }

  /** The walk has come to handler `n` without an accept; the shared decision is `decision`. */
  ghost predicate Walked(b: seq<Backend>, n: nat, decision: Decision) {
    n <= |b| && decision != DeAccept && decision == Leftover(b[..n]) && forall j | 0 <= j < n :: !Accepts(b[j])
  }

  /** What the walk over the handlers returns: the first whose rule accepts, or what the last rule left. */
  ghost predicate Chosen(b: seq<Backend>, result: Decision, chosen: nat) {
    if result == DeAccept then
      exists i :: 0 <= i < |b| && Accepts(b[i]) && chosen == b[i].id && forall j | 0 <= j < i :: !Accepts(b[j])
    else
      (forall j | 0 <= j < |b| :: !Accepts(b[j])) && result == Leftover(b)
  }

  /** One turn moves the walk on by one handler, or ends it at this one. */
  lemma TurnTaken(b: seq<Backend>, n: nat, before: Decision, after: Decision)
    requires Walked(b, n, before) && n < |b|
    requires after == if b[n].rule.Some? then b[n].rule.value else before
    ensures if after == DeAccept then Chosen(b, after, b[n].id) else Walked(b, n + 1, after)
  {
    assert b[..n + 1][..n] == b[..n];
    if after == DeAccept {
      assert Accepts(b[n]);
    }
  }

  /**
   * `get_decision_backend` under `g_tree_foreach`: one shared decision, each handler's rule walked in turn, stop at the
   * first accept. The handler chosen is the first whose rule accepts, whatever suggestion a rejecting rule left behind.
   */
  method ChooseBackend(ids: seq<nat>, nodes: seq<Node?>, m: nat -> Modules, ghost g: seq<seq<seq<Node>>>,
                       ghost equations: seq<seq<Group>>)
    returns (result: Decision, chosen: nat)
    requires |ids| == |nodes| == |g| == |equations|
    requires forall i | 0 <= i < |nodes| :: CompiledTo(nodes[i], g[i], equations[i])
    ensures Chosen(Asked(ids, equations, m), result, chosen)
  {
    result, chosen := NoRule, 0;
    var n := 0;
    ghost var b := Asked(ids, equations, m);
    while n < |nodes|
      invariant 0 <= n <= |nodes|
      invariant Walked(b, n, result)
    {
      var outcome := AskOne(nodes[n], m(n), result, chosen, g[n], equations[n]);
      TurnTaken(b, n, result, outcome.decision);
      result, chosen := outcome.decision, outcome.at.adopted;
      if result == DeAccept {
        chosen := ids[n];
        return;
      }
      n := n + 1;
    }
    assert b[..n] == b;
  }

  /** What is left over is the last rule's decision: an accept is left over iff the last handler with a rule accepts. */
  lemma {:induction false} LeftoverIsLast(backends: seq<Backend>)
    ensures Leftover(backends) == NoRule || exists i ::
              0 <= i < |backends| && backends[i].rule == Some(Leftover(backends))
              && forall j | i < j < |backends| :: backends[j].rule.None?
    ensures (forall i | 0 <= i < |backends| :: backends[i].rule.None?) ==> Leftover(backends) == NoRule
    decreases |backends|
  {
    if backends != [] {
      var n := |backends| - 1;
      if backends[n].rule.None? {
        LeftoverIsLast(backends[..n]);
        if Leftover(backends) != NoRule {
          var i :| 0 <= i < n && backends[i].rule == Some(Leftover(backends[..n]))
                   && forall j | i < j < n :: backends[..n][j].rule.None?;
          forall j | i < j < |backends| ensures backends[j].rule.None? {
            assert j < n ==> backends[..n][j].rule.None?;
          }
        }
      }
    }
  }
}
