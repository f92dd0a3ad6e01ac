/** Verification of the local composite actions that a required job uses, through every action they use in
    turn: each must be a compliant composite, and no chain of uses may come back to an action it is in. */
module LocalActions {
  import opened Wrappers

  type Path = string

  /** A shell script: whether it runs in bash, and whether it writes persistent environment state. */
  datatype Script = Script(bash: bool, persists: bool)

  datatype Step = Step(
    mapping: bool, env: bool, condition: bool, continueOnError: bool, run: Option<Script>, uses: Option<string>)

  datatype Manifest = Manifest(pinned: bool, parses: bool, composite: bool, steps: seq<Step>)

  /** `resolved` holds the references that name exactly one manifest inside the repository. */
  datatype Repository = Repository(resolved: map<string, Path>, manifests: map<Path, Manifest>)

  predicate IsLocal(reference: string) {
    "./" <= reference
  }

  predicate StepCompliant(s: Step) {
    s.mapping && !s.env && !s.condition && !s.continueOnError
      && (s.run.Some? ==> s.run.value.bash && !s.run.value.persists)
  }

  /** The step uses a local action. */
  predicate UsesLocal(s: Step) {
    s.uses.Some? && IsLocal(s.uses.value)
  }

  predicate StepOk(repo: Repository, s: Step) {
    StepCompliant(s) && (UsesLocal(s) ==> s.uses.value in repo.resolved)
  }

  predicate Compliant(repo: Repository, p: Path) {
    p in repo.manifests && var m := repo.manifests[p];
    m.pinned && m.parses && m.composite && forall s | s in m.steps :: StepOk(repo, s)
  }

  // ---------------------------------------------------------------- chains of uses

  predicate Links(repo: Repository, s: Step, q: Path) {
    UsesLocal(s) && s.uses.value in repo.resolved && repo.resolved[s.uses.value] == q
  }

  ghost predicate Edge(repo: Repository, p: Path, q: Path) {
    p in repo.manifests && exists s :: s in repo.manifests[p].steps && Links(repo, s, q)
  }

  ghost predicate Chain(repo: Repository, c: seq<Path>) {
    c != [] && forall i | 0 < i < |c| :: Edge(repo, c[i - 1], c[i])
  }

  predicate NoRepeats(c: seq<Path>) {
    forall i, j | 0 <= i < j < |c| :: c[i] != c[j]
  }

  /** Every chain from `p` has compliant actions only, and goes through no action twice, nor through one of
      the actions on the stack. */
  ghost predicate Sound(repo: Repository, stack: seq<Path>, p: Path) {
    forall c | Chain(repo, c) && c[0] == p :: SoundChain(repo, stack, c)
  }

  ghost predicate SoundChain(repo: Repository, stack: seq<Path>, c: seq<Path>) {
    NoRepeats(stack + c) && forall i | 0 <= i < |c| :: Compliant(repo, c[i])
  }

  lemma SoundHere(repo: Repository, stack: seq<Path>, p: Path)
    requires Sound(repo, stack, p)
    ensures Compliant(repo, p) && p !in stack
  {
    assert Chain(repo, [p]) && [p][0] == p;
    assert SoundChain(repo, stack, [p]);
    assert Compliant(repo, [p][0]);
    assert (stack + [p])[|stack|] == p;
    assert forall i | 0 <= i < |stack| :: (stack + [p])[i] == stack[i];
  }

  lemma SoundNext(repo: Repository, stack: seq<Path>, p: Path, s: Step, q: Path)
    requires Sound(repo, stack, p) && p in repo.manifests && s in repo.manifests[p].steps && Links(repo, s, q)
    ensures Sound(repo, stack + [p], q)
  {
    forall c | Chain(repo, c) && c[0] == q ensures SoundChain(repo, stack + [p], c) {
      var longer := [p] + c;
      forall i | 0 < i < |longer| ensures Edge(repo, longer[i - 1], longer[i]) {
        if i == 1 { assert Edge(repo, p, q); } else { assert Edge(repo, c[i - 2], c[i - 1]); }
      }
      assert Chain(repo, longer) && longer[0] == p;
      assert SoundChain(repo, stack, longer);
      assert stack + longer == stack + [p] + c;
      assert forall i | 0 <= i < |c| :: longer[i + 1] == c[i];
    }
  }

  /** Compliant here and sound from every action used: sound. */
  lemma SoundFrom(repo: Repository, stack: seq<Path>, p: Path)
    requires NoRepeats(stack) && p !in stack && Compliant(repo, p)
    requires forall s, q | s in repo.manifests[p].steps && Links(repo, s, q) :: Sound(repo, stack + [p], q)
    ensures Sound(repo, stack, p)
  {
    forall c | Chain(repo, c) && c[0] == p ensures SoundChain(repo, stack, c) {
      if |c| == 1 {
        assert stack + c == stack + [p];
      } else {
        var rest := c[1..];
        assert Edge(repo, c[0], c[1]);
        forall i | 0 < i < |rest| ensures Edge(repo, rest[i - 1], rest[i]) { assert Edge(repo, c[i], c[i + 1]); }
        var s :| s in repo.manifests[p].steps && Links(repo, s, c[1]);
        assert Chain(repo, rest) && rest[0] == c[1];
        assert SoundChain(repo, stack + [p], rest);
        assert stack + c == stack + [p] + rest;
        forall i | 0 <= i < |c| ensures Compliant(repo, c[i]) { if i > 0 { assert Compliant(repo, rest[i - 1]); } }
      }
    }
  }

  // ---------------------------------------------------------------- the verifier

  function Unvisited(repo: Repository, stack: seq<Path>): set<Path> {
    set p | p in repo.manifests && p !in stack
  }

  lemma VisitShrinks(repo: Repository, stack: seq<Path>, p: Path)
    requires p in repo.manifests && p !in stack
    ensures |Unvisited(repo, stack + [p])| < |Unvisited(repo, stack)|
  {
    assert Unvisited(repo, stack + [p]) == Unvisited(repo, stack) - {p};
  }

  /** Accepts exactly the references from which everything is sound; terminates because every call takes one
      more manifest onto the stack. */
  method VerifyLocalAction(repo: Repository, reference: string, stack: seq<Path>) returns (ok: bool)
    requires NoRepeats(stack)
    ensures ok <==> reference in repo.resolved && Sound(repo, stack, repo.resolved[reference])
    decreases |Unvisited(repo, stack)|
  {
    if reference !in repo.resolved { return false; }
    var p := repo.resolved[reference];
    if p in stack || p !in repo.manifests || !repo.manifests[p].pinned || !repo.manifests[p].parses
      || !repo.manifests[p].composite {
      if Sound(repo, stack, p) { SoundHere(repo, stack, p); }
      return false;
    }
    var steps := repo.manifests[p].steps;
    var next := stack + [p];
    VisitShrinks(repo, stack, p);
    for i := 0 to |steps|
      invariant forall s | s in steps[..i] :: StepOk(repo, s)
      invariant forall s, q | s in steps[..i] && Links(repo, s, q) :: Sound(repo, next, q)
    {
      var s := steps[i];
      assert steps[..i + 1] == steps[..i] + [s] && s in steps;
      if !StepCompliant(s) {
        if Sound(repo, stack, p) { SoundHere(repo, stack, p); }
        return false;
      }
      if UsesLocal(s) {
        ok := VerifyLocalAction(repo, s.uses.value, next);
        if !ok {
          if Sound(repo, stack, p) { Refuted(repo, stack, p, s); }
          return false;
        }
      }
    }
    assert steps[..|steps|] == steps;
    SoundFrom(repo, stack, p);
    return true;
  }

  lemma Refuted(repo: Repository, stack: seq<Path>, p: Path, s: Step)
    requires Sound(repo, stack, p) && p in repo.manifests && s in repo.manifests[p].steps && UsesLocal(s)
    ensures s.uses.value in repo.resolved && Sound(repo, stack + [p], repo.resolved[s.uses.value])
  {
    SoundHere(repo, stack, p);
    SoundNext(repo, stack, p, s, repo.resolved[s.uses.value]);
  }

  /** The local actions of a required job. */
  method VerifyRequiredJob(repo: Repository, uses: seq<string>) returns (ok: bool)
    ensures ok <==> forall u | u in uses && IsLocal(u) :: u in repo.resolved && Sound(repo, [], repo.resolved[u])
  {
    for i := 0 to |uses|
      invariant forall u | u in uses[..i] && IsLocal(u) :: u in repo.resolved && Sound(repo, [], repo.resolved[u])
    {
      assert uses[..i + 1] == uses[..i] + [uses[i]] && uses[i] in uses;
      if IsLocal(uses[i]) {
        ok := VerifyLocalAction(repo, uses[i], []);
        if !ok { return false; }
      }
    }
    assert uses[..|uses|] == uses;
    return true;
  }
}
