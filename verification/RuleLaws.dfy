/** What evaluating a rule means, told by the calls it makes and, for modules without state, by truth. */
module RuleLaws {
  import opened Words
  import opened Rules

  /** One call of a module: which, what it returned, and the suggestion it left. */
  datatype Called = Called(id: nat, verdict: Verdict, suggestion: nat)

  /** Where a series of calls leaves the shared suggestion. */
  function Suggested(calls: seq<Called>, before: nat): nat {
    if calls == [] then before else calls[|calls| - 1].suggestion
  }

  /** The calls of a group: one module after the other while they accept. */
  function GroupCalls(m: Modules, group: seq<nat>, made: nat, suggested: nat): seq<Called>
    decreases |group|
  {
    if group == [] then []
    else
      var (v, s) := m(group[0], made, suggested);
      [Called(group[0], v, s)] + if v == Accept then GroupCalls(m, group[1..], made + 1, s) else []
  }

  /** The calls of a rule: one group after the other while their last call rejects. */
  function RuleCalls(m: Modules, groups: seq<Group>, made: nat, suggested: nat): seq<Called>
    decreases |groups|
  {
    if groups == [] then []
    else
      var calls := GroupCalls(m, groups[0], made, suggested);
      if calls != [] && calls[|calls| - 1].verdict == Reject
      then calls + RuleCalls(m, groups[1..], made + |calls|, Suggested(calls, suggested))
      else calls
  }

  /** The last suggestion other than 0 in force when a module accepted, or what had been adopted before. */
  function LastAdopted(calls: seq<Called>, before: nat): nat {
    if calls == [] then before
    else
      var last := calls[|calls| - 1];
      if last.verdict == Accept && last.suggestion != 0 then last.suggestion
      else LastAdopted(calls[..|calls| - 1], before)
  }

  /** What the last call returned decides; no call at all rejects. */
  function LastDecides(calls: seq<Called>): Decision {
    if calls == [] then DeReject
    else
      match calls[|calls| - 1].verdict
      case Accept => DeAccept
      case Defer => DeDefer
      case Reject => DeReject
  }

  lemma {:induction false} AdoptedInParts(a: seq<Called>, b: seq<Called>, before: nat)
    ensures LastAdopted(a + b, before) == LastAdopted(b, LastAdopted(a, before))
  {
    if b == [] {
      assert a + b == a;
    } else {
      assert (a + b)[..|a + b| - 1] == a + b[..|b| - 1];
      AdoptedInParts(a, b[..|b| - 1], before);
    }
  }

  lemma AdoptedByOne(c: Called, before: nat)
    ensures LastAdopted([c], before) == if c.verdict == Accept && c.suggestion != 0 then c.suggestion else before
  {
    assert [c][..0] == [];
  }

  lemma {:induction false} GroupByCalls(m: Modules, group: seq<nat>, at: Progress)
    requires group != []
    ensures var calls, (v, next) := GroupCalls(m, group, at.calls, at.suggested), EvalAnd(m, group, at);
            && calls != [] && v == calls[|calls| - 1].verdict
            && next == Progress(at.calls + |calls|, Suggested(calls, at.suggested), LastAdopted(calls, at.adopted))
    decreases |group|
  {
    var (v, s) := m(group[0], at.calls, at.suggested);
    var first := Called(group[0], v, s);
    AdoptedByOne(first, at.adopted);
    if v == Accept && |group| > 1 {
      var (_, next) := Call(m, group[0], at);
      GroupByCalls(m, group[1..], next);
      AdoptedInParts([first], GroupCalls(m, group[1..], at.calls + 1, s), at.adopted);
    } else if v == Accept {
      assert group[1..] == [];
    }
  }

  /** The calls tell the outcome of an evaluation that stood at `at`. */
  predicate Tells(calls: seq<Called>, at: Progress, outcome: Outcome) {
    && outcome.decision == LastDecides(calls)
    && outcome.at == Progress(at.calls + |calls|, Suggested(calls, at.suggested), LastAdopted(calls, at.adopted))
  }

  lemma TellsOn(first: seq<Called>, rest: seq<Called>, at: Progress, next: Progress, outcome: Outcome)
    requires first != [] && first[|first| - 1].verdict == Reject && Tells(rest, next, outcome)
    requires next == Progress(at.calls + |first|, Suggested(first, at.suggested), LastAdopted(first, at.adopted))
    ensures Tells(first + rest, at, outcome)
  {
    AdoptedInParts(first, rest, at.adopted);
    if rest == [] {
      assert first + rest == first;
    }
  }

  /**
   * A rule decides what its last call returned, and adopts the last backend suggested when a module accepted. A
   * suggestion left by a module that rejects or defers is not adopted at that call.
   */
  lemma {:induction false} RuleByCalls(m: Modules, groups: seq<Group>, at: Progress)
    ensures Tells(RuleCalls(m, groups, at.calls, at.suggested), at, EvalOr(m, groups, at))
    decreases |groups|
  {
    if groups != [] {
      var (v, next) := EvalAnd(m, groups[0], at);
      var first := GroupCalls(m, groups[0], at.calls, at.suggested);
      GroupByCalls(m, groups[0], at);
      if v == Reject {
        var rest := RuleCalls(m, groups[1..], next.calls, next.suggested);
        RuleByCalls(m, groups[1..], next);
        TellsOn(first, rest, at, next, EvalOr(m, groups[1..], next));
      }
    }
  }

  /** The rule a target installs, decided on a packet: what is decided and which backend it names. */
  lemma InstalledByCalls(m: Modules, equation: seq<Group>, adopted: nat)
    requires equation != []
    ensures var calls := RuleCalls(m, Installed(equation), 0, 0);
            && Meaning(m, Installed(equation), adopted).decision == LastDecides(calls)
            && Meaning(m, Installed(equation), adopted).at.adopted == LastAdopted(calls, adopted)
  {
    RuleByCalls(m, Installed(equation), Progress(0, 0, adopted));
  }

  // ----- modules that always return the same -----

  /** Modules that return what `f` says, every time, and suggest nothing. */
  function Constant(f: nat -> Verdict): Modules {
    (id: nat, call: nat, suggested: nat) => (f(id), 0)
  }

  /** The first module of the group that does not accept returns `v`; or all accept. */
  ghost predicate GroupIs(f: nat -> Verdict, group: seq<nat>, v: Verdict) {
    if v == Accept then forall k | 0 <= k < |group| :: f(group[k]) == Accept
    else exists k | 0 <= k < |group| :: f(group[k]) == v && forall j | 0 <= j < k :: f(group[j]) == Accept
  }

  lemma {:induction false} GroupTruth(f: nat -> Verdict, group: seq<nat>, at: Progress)
    ensures GroupIs(f, group, EvalAnd(Constant(f), group, at).0)
    decreases |group|
  {
    if group != [] {
      var (v, next) := Call(Constant(f), group[0], at);
      if v == Accept {
        GroupTruth(f, group[1..], next);
        GroupIsLonger(f, group, EvalAnd(Constant(f), group[1..], next).0);
      } else {
        assert f(group[0]) == v;
      }
    }
  }

  lemma GroupIsLonger(f: nat -> Verdict, group: seq<nat>, v: Verdict)
    requires group != [] && f(group[0]) == Accept && GroupIs(f, group[1..], v)
    ensures GroupIs(f, group, v)
  {
    if v == Accept {
      forall k | 0 <= k < |group| ensures f(group[k]) == Accept {
        assert k > 0 ==> group[1..][k - 1] == group[k];
      }
    } else {
      var k :| 0 <= k < |group[1..]| && f(group[1..][k]) == v && forall j | 0 <= j < k :: f(group[1..][j]) == Accept;
      assert f(group[k + 1]) == v;
      forall j | 0 <= j < k + 1 ensures f(group[j]) == Accept {
        assert j > 0 ==> group[1..][j - 1] == group[j];
      }
    }
  }

  /** Group `i` decides: those before it reject, it does not. */
  ghost predicate Decides(f: nat -> Verdict, groups: seq<Group>, i: nat, v: Verdict)
    requires i < |groups|
  {
    GroupIs(f, groups[i], v) && forall j | 0 <= j < i :: GroupIs(f, groups[j], Reject)
  }

  /**
   * For modules without state a rule is what it looks like: it accepts, or defers, iff the first group that does not
   * reject does, and rejects iff all groups do.
   */
  lemma {:induction false} RuleTruth(f: nat -> Verdict, groups: seq<Group>, at: Progress)
    ensures match EvalOr(Constant(f), groups, at).decision
            case DeAccept => exists i | 0 <= i < |groups| :: Decides(f, groups, i, Accept)
            case DeDefer => exists i | 0 <= i < |groups| :: Decides(f, groups, i, Defer)
            case DeReject => forall i | 0 <= i < |groups| :: GroupIs(f, groups[i], Reject)
            case _ => false
    decreases |groups|
  {
    if groups != [] {
      var (v, next) := EvalAnd(Constant(f), groups[0], at);
      GroupTruth(f, groups[0], at);
      if v != Reject {
        assert Decides(f, groups, 0, v);
      } else {
        RuleTruth(f, groups[1..], next);
        LaterGroups(f, groups);
      }
    }
  }

  lemma OneVerdict(f: nat -> Verdict, group: seq<nat>, v: Verdict, w: Verdict)
    requires GroupIs(f, group, v) && GroupIs(f, group, w)
    ensures v == w
  {
    if v != Accept && w != Accept {
      var k :| 0 <= k < |group| && f(group[k]) == v && forall j | 0 <= j < k :: f(group[j]) == Accept;
      var l :| 0 <= l < |group| && f(group[l]) == w && forall j | 0 <= j < l :: f(group[j]) == Accept;
    }
  }

  /** Only one group decides, and only one thing. */
  lemma OneDecides(f: nat -> Verdict, groups: seq<Group>, i: nat, v: Verdict, j: nat, w: Verdict)
    requires i < |groups| && j < |groups| && v != Reject && w != Reject
    requires Decides(f, groups, i, v) && Decides(f, groups, j, w)
    ensures i == j && v == w
  {
    if i < j {
      OneVerdict(f, groups[i], v, Reject);
    } else if j < i {
      OneVerdict(f, groups[j], w, Reject);
    } else {
      OneVerdict(f, groups[i], v, w);
    }
  }

  lemma LaterGroups(f: nat -> Verdict, groups: seq<Group>)
    requires groups != [] && GroupIs(f, groups[0], Reject)
    ensures forall i, v | 0 <= i < |groups| - 1 && Decides(f, groups[1..], i, v) :: Decides(f, groups, i + 1, v)
    ensures (forall i | 0 <= i < |groups| - 1 :: GroupIs(f, groups[1..][i], Reject)) ==>
            forall i | 0 <= i < |groups| :: GroupIs(f, groups[i], Reject)
  {
    var rest := groups[1..];
    forall i, v | 0 <= i < |rest| && Decides(f, rest, i, v) ensures Decides(f, groups, i + 1, v) {
      forall j | 0 <= j < i + 1 ensures GroupIs(f, groups[j], Reject) {
        assert j > 0 ==> rest[j - 1] == groups[j];
      }
    }
    if forall i | 0 <= i < |rest| :: GroupIs(f, rest[i], Reject) {
      forall i | 0 <= i < |groups| ensures GroupIs(f, groups[i], Reject) {
        assert i > 0 ==> rest[i - 1] == groups[i];
      }
    }
  }

  /** The same as equivalences: what such a rule decides is decided by the truth of its groups. */
  lemma RuleTruthIff(f: nat -> Verdict, groups: seq<Group>, adopted: nat)
    ensures var d := Meaning(Constant(f), groups, adopted).decision;
            && (d == DeAccept <==> exists i | 0 <= i < |groups| :: Decides(f, groups, i, Accept))
            && (d == DeDefer <==> exists i | 0 <= i < |groups| :: Decides(f, groups, i, Defer))
            && (d == DeReject <==> forall i | 0 <= i < |groups| :: GroupIs(f, groups[i], Reject))
  {
    RuleTruth(f, groups, Progress(0, 0, adopted));
    forall i, j, v, w | 0 <= i < |groups| && 0 <= j < |groups| && Decides(f, groups, i, v) && Decides(f, groups, j, w)
                        && v != Reject && w != Reject
      ensures v == w
    {
      OneDecides(f, groups, i, v, j, w);
    }
    forall i, v | 0 <= i < |groups| && Decides(f, groups, i, v) && v != Reject
      ensures !GroupIs(f, groups[i], Reject)
    {
      if GroupIs(f, groups[i], Reject) {
        OneVerdict(f, groups[i], v, Reject);
      }
    }
  }
}
