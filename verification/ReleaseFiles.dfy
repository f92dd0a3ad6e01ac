/** The all-or-nothing update of a set of release files: every new file is first written beside its
    target, then the targets are renamed into place one by one, and any failure restores the originals.
    Every file-system call may fail; `faults` decides, call by call. */
module ReleaseFiles {

  type Content = seq<int>

  /** A release file, the temporary file its new content is written to, and the one its original is
      restored from. The suffixes keep the three kinds apart. */
  datatype Path = Target(name: string) | Temporary(name: string, index: nat) | Rollback(name: string)

  type Files = map<Path, Content>

  /** A call works, or fails; a failed write may leave any content, or none, behind. */
  datatype Fault = Works | Fails(leaves: bool, partial: Content)

  datatype Removal = Removed | Missing | Stuck

  datatype Update = Update(name: string, content: Content)

  datatype Outcome = Returned | Threw | RollbackFailed

  // ---------------------------------------------------------------- the file system

  /** Marks a path for the quantifiers below. */
  ghost predicate Place(p: Path) { true }

  /** `f` and `g` hold the same at `p`. */
  predicate Same(f: Files, g: Files, p: Path) {
    (p in f <==> p in g) && (p in f ==> f[p] == g[p])
  }

  /** `h` differs from `f` at most at the paths of `ps`. */
  ghost predicate OnlyAt(f: Files, h: Files, ps: set<Path>) {
    forall p {:trigger Place(p)} :: Place(p) && p !in ps ==> Same(f, h, p)
  }

  class FileSystem {
    const faults: nat -> Fault
    var calls: nat
    var files: Files
    /** Every state the disk has been in, including the middle of a write. */
    ghost var seen: seq<Files>

    constructor (files: Files, faults: nat -> Fault)
      ensures this.files == files && seen == [files]
    {
      this.faults := faults;
      this.calls := 0;
      this.files := files;
      this.seen := [files];
    }

    method Read(p: Path) returns (ok: bool, c: Content)
      modifies `calls
      ensures calls == old(calls) + 1 && (ok <==> faults(old(calls)).Works? && p in files)
      ensures ok ==> c == files[p]
    {
      var fault := faults(calls);
      calls := calls + 1;
      ok, c := false, [];
      if fault.Works? && p in files { ok, c := true, files[p]; }
    }

    method Write(p: Path, c: Content) returns (ok: bool)
      modifies this
      ensures calls == old(calls) + 1 && (ok <==> faults(old(calls)).Works?)
      ensures OnlyAt(old(files), files, {p}) && (ok ==> p in files && files[p] == c)
      ensures old(seen) <= seen && forall i | |old(seen)| <= i < |seen| :: OnlyAt(old(files), seen[i], {p})
    {
      var fault := faults(calls);
      calls := calls + 1;
      if fault.Works? {
        seen := seen + [files[p := []], files[p := c]];
        files := files[p := c];
        return true;
      }
      if fault.leaves {
        files := files[p := fault.partial];
        seen := seen + [files];
      }
      return false;
    }

    /** Atomic: it moves the file, or changes nothing. */
    method Rename(from: Path, to: Path) returns (ok: bool)
      modifies this
      ensures calls == old(calls) + 1 && (ok <==> faults(old(calls)).Works? && from in old(files))
      ensures ok ==> files == old(files)[to := old(files)[from]] - {from}
      ensures !ok ==> files == old(files)
      ensures seen == old(seen) + [files] || seen == old(seen)
    {
      var fault := faults(calls);
      calls := calls + 1;
      if !fault.Works? || from !in files { return false; }
      files := files[to := files[from]] - {from};
      seen := seen + [files];
      return true;
    }

    method Unlink(p: Path) returns (r: Removal)
      modifies this
      ensures calls == old(calls) + 1 && (r == Stuck <==> !faults(old(calls)).Works?)
      ensures OnlyAt(old(files), files, {p}) && (r != Stuck ==> p !in files) && files.Keys <= old(files).Keys
      ensures seen == old(seen) + [files] || seen == old(seen)
    {
      var fault := faults(calls);
      calls := calls + 1;
      if !fault.Works? { return Stuck; }
      if p !in files { return Missing; }
      files := files - {p};
      seen := seen + [files];
      return Removed;
    }
  }

  // ---------------------------------------------------------------- what the caller may rely on

  /** None of the calls from `a` up to `b` fails. */
  ghost predicate Worked(fs: FileSystem, a: nat, b: nat) {
    forall k: nat | a <= k < b :: fs.faults(k).Works?
  }

  predicate Distinct(us: seq<Update>) {
    forall i, j | 0 <= i < j < |us| :: us[i].name != us[j].name
  }

  /** The paths the commit uses for itself. */
  ghost predicate Scratch(us: seq<Update>, p: Path) {
    exists i :: 0 <= i < |us| && (p == Temporary(us[i].name, i) || p == Rollback(us[i].name))
  }

  /** `f` and `g` agree on everything but scratch files. */
  ghost predicate Agree(f: Files, g: Files, us: seq<Update>) {
    forall p {:trigger Place(p)} :: Place(p) && !Scratch(us, p) ==> Same(f, g, p)
  }

  /** `f0` with the first `n` targets replaced. */
  function Goal(f0: Files, us: seq<Update>, n: nat): Files
    requires n <= |us|
  {
    if n == 0 then f0 else Goal(f0, us, n - 1)[Target(us[n - 1].name) := us[n - 1].content]
  }

  /** No scratch file is there that was not there before, but for the ones in `temps`. */
  ghost predicate Tidy(f0: Files, f: Files, us: seq<Update>, temps: set<Path>) {
    forall p {:trigger Place(p)} :: Place(p) && Scratch(us, p) && p in f ==> p in f0 || p in temps
  }

  /** Every file is whole: it has its original content, or its complete new one. */
  ghost predicate Whole(f0: Files, h: Files, us: seq<Update>) {
    forall p {:trigger Place(p)} ::
      Place(p) && !Scratch(us, p) ==> Same(f0, h, p) || (p in f0 && p in h && Renewed(us, p, h[p]))
  }

  ghost predicate Renewed(us: seq<Update>, p: Path, c: Content) {
    exists i :: 0 <= i < |us| && p == Target(us[i].name) && c == us[i].content
  }

  /** It was so in every state the disk has been in since `before`. */
  ghost predicate AlwaysWhole(f0: Files, before: seq<Files>, seen: seq<Files>, us: seq<Update>) {
    before <= seen && forall i | |before| <= i < |seen| :: Whole(f0, seen[i], us)
  }

  ghost predicate AllThere(f0: Files, us: seq<Update>, n: int) {
    forall i | 0 <= i < n && i < |us| :: Target(us[i].name) in f0
  }

  lemma {:induction false} GoalAt(f0: Files, us: seq<Update>, n: nat, i: nat)
    requires Distinct(us) && n <= |us| && i < |us|
    ensures var p := Target(us[i].name);
            if i < n then p in Goal(f0, us, n) && Goal(f0, us, n)[p] == us[i].content
            else (p in Goal(f0, us, n) <==> p in f0) && (p in f0 ==> Goal(f0, us, n)[p] == f0[p])
    decreases n
  {
    if n > 0 { GoalAt(f0, us, n - 1, i); }
  }

  lemma {:induction false} GoalElsewhere(f0: Files, us: seq<Update>, n: nat, p: Path)
    requires n <= |us| && forall i | 0 <= i < |us| :: p != Target(us[i].name)
    ensures (p in Goal(f0, us, n) <==> p in f0) && (p in f0 ==> Goal(f0, us, n)[p] == f0[p])
    decreases n
  {
    if n > 0 { GoalElsewhere(f0, us, n - 1, p); }
  }

  lemma GoalWhole(f0: Files, us: seq<Update>, n: nat, f: Files)
    requires Distinct(us) && n <= |us| && AllThere(f0, us, |us|) && Agree(f, Goal(f0, us, n), us)
    ensures Whole(f0, f, us)
  {
    forall p | Place(p) && !Scratch(us, p) ensures Same(f0, f, p) || (p in f0 && p in f && Renewed(us, p, f[p])) {
      if i :| 0 <= i < |us| && p == Target(us[i].name) { GoalAt(f0, us, n, i); } else { GoalElsewhere(f0, us, n, p); }
    }
  }

  /** Changing scratch files changes nothing else. */
  lemma ScratchOnly(f0: Files, f: Files, h: Files, us: seq<Update>, ps: set<Path>)
    requires OnlyAt(f, h, ps) && forall p | p in ps :: Scratch(us, p)
    ensures Whole(f0, f, us) ==> Whole(f0, h, us)
    ensures forall g | Agree(f, g, us) :: Agree(h, g, us)
  {
  }

  // ---------------------------------------------------------------- the commit

  method RemoveAll(fs: FileSystem, temps: set<Path>) returns (failed: bool)
    modifies fs
    ensures OnlyAt(old(fs.files), fs.files, temps) && fs.files.Keys <= old(fs.files).Keys
    ensures old(fs.calls) <= fs.calls && (failed <==> !Worked(fs, old(fs.calls), fs.calls))
    ensures !failed ==> forall p | p in temps :: p !in fs.files
    ensures old(fs.seen) <= fs.seen
            && forall i | |old(fs.seen)| <= i < |fs.seen| :: OnlyAt(old(fs.files), fs.seen[i], temps)
  {
    failed := false;
    var rest := temps;
    while rest != {}
      invariant rest <= temps && OnlyAt(old(fs.files), fs.files, temps) && fs.files.Keys <= old(fs.files).Keys
      invariant old(fs.calls) <= fs.calls && (failed <==> !Worked(fs, old(fs.calls), fs.calls))
      invariant !failed ==> forall p | p in temps && p !in rest :: p !in fs.files
      invariant old(fs.seen) <= fs.seen
                && forall i | |old(fs.seen)| <= i < |fs.seen| :: OnlyAt(old(fs.files), fs.seen[i], temps)
      decreases |rest|
    {
      var p :| p in rest;
      var r := fs.Unlink(p);
      if r == Stuck { failed := true; }
      rest := rest - {p};
    }
  }

  /** The temporary files of the updates from `n` on. */
  function Temporaries(us: seq<Update>, n: nat, to: nat): set<Path>
    requires to <= |us|
  {
    set i | n <= i < to :: Temporary(us[i].name, i)
  }

  ghost predicate Written(f: Files, us: seq<Update>, n: nat) {
    forall i | n <= i < |us| :: Temporary(us[i].name, i) in f && f[Temporary(us[i].name, i)] == us[i].content
  }

  ghost predicate WrittenTo(f: Files, us: seq<Update>, n: nat) {
    forall i | 0 <= i < n && i < |us| ::
      Temporary(us[i].name, i) in f && f[Temporary(us[i].name, i)] == us[i].content
  }

  lemma WriteNext(f: Files, f': Files, us: seq<Update>, n: nat)
    requires n < |us| && WrittenTo(f, us, n) && OnlyAt(f, f', {Temporary(us[n].name, n)})
    requires Temporary(us[n].name, n) in f' && f'[Temporary(us[n].name, n)] == us[n].content
    ensures WrittenTo(f', us, n + 1)
  {
    forall j | 0 <= j < n ensures Same(f, f', Temporary(us[j].name, j)) { assert Place(Temporary(us[j].name, j)); }
  }

  ghost predicate Remembers(originals: map<string, Content>, f0: Files, us: seq<Update>, n: nat) {
    forall i | 0 <= i < n && i < |us| ::
      Target(us[i].name) in f0 && us[i].name in originals && originals[us[i].name] == f0[Target(us[i].name)]
  }

  /** Reads every original and writes every new file beside its target. */
  method Prepare(fs: FileSystem, us: seq<Update>) returns (ok: bool, originals: map<string, Content>, temps: set<Path>)
    requires Distinct(us)
    modifies fs
    ensures Agree(fs.files, old(fs.files), us) && Tidy(old(fs.files), fs.files, us, temps)
    ensures forall p | p in temps :: Scratch(us, p)
    ensures ok ==> old(fs.calls) <= fs.calls && Worked(fs, old(fs.calls), fs.calls)
    ensures !ok ==> old(fs.calls) < fs.calls && Worked(fs, old(fs.calls), fs.calls - 1)
                    && (fs.faults(fs.calls - 1).Works? ==> !AllThere(old(fs.files), us, |us|))
    ensures ok ==> Written(fs.files, us, 0) && temps == Temporaries(us, 0, |us|)
                   && Remembers(originals, old(fs.files), us, |us|)
    ensures AlwaysWhole(old(fs.files), old(fs.seen), fs.seen, us)
  {
    ok, originals, temps := true, map[], {};
    var i := 0;
    while i < |us| && ok
      invariant i <= |us| && Agree(fs.files, old(fs.files), us) && Tidy(old(fs.files), fs.files, us, temps)
      invariant forall p | p in temps :: Scratch(us, p)
      invariant ok ==> old(fs.calls) <= fs.calls && Worked(fs, old(fs.calls), fs.calls)
      invariant !ok ==> old(fs.calls) < fs.calls && Worked(fs, old(fs.calls), fs.calls - 1)
                        && !fs.faults(fs.calls - 1).Works?
      invariant ok ==> temps == Temporaries(us, 0, i) && Remembers(originals, old(fs.files), us, i)
      invariant ok ==> WrittenTo(fs.files, us, i)
      invariant AlwaysWhole(old(fs.files), old(fs.seen), fs.seen, us)
      decreases |us| - i, ok
    {
      assert Place(Target(us[i].name));
      var found, content := fs.Read(Target(us[i].name));
      if !found { ok := false; break; }
      originals := originals[us[i].name := content];
      var temp := Temporary(us[i].name, i);
      assert Scratch(us, temp);
      temps := temps + {temp};
      ghost var f := fs.files;
      ok := fs.Write(temp, us[i].content);
      if ok { WriteNext(f, fs.files, us, i); }
      i := i + 1;
    }
    assert ok ==> Written(fs.files, us, 0);
  }

  /** The first `n` new files are in place, the others are still beside their targets. */
  ghost predicate Installed(f0: Files, f: Files, us: seq<Update>, n: nat) {
    n <= |us| && Agree(f, Goal(f0, us, n), us) && Written(f, us, n) && Tidy(f0, f, us, Temporaries(us, n, |us|))
  }

  lemma InstallOne(f0: Files, us: seq<Update>, n: nat, f: Files, f': Files)
    requires Distinct(us) && AllThere(f0, us, |us|) && n < |us| && Installed(f0, f, us, n)
    requires var temp := Temporary(us[n].name, n); f' == f[Target(us[n].name) := f[temp]] - {temp}
    ensures Installed(f0, f', us, n + 1) && Whole(f0, f', us)
    ensures Temporaries(us, n + 1, |us|) == Temporaries(us, n, |us|) - {Temporary(us[n].name, n)}
  {
    assert Scratch(us, Temporary(us[n].name, n));
    assert Agree(f', Goal(f0, us, n + 1), us);
    GoalWhole(f0, us, n + 1, f');
  }

  /** Renames the new files into place, up to the first failure. */
  method Install(fs: FileSystem, us: seq<Update>, ghost f0: Files) returns (n: nat, temps: set<Path>)
    requires Distinct(us) && AllThere(f0, us, |us|) && Installed(f0, fs.files, us, 0)
    modifies fs
    ensures Installed(f0, fs.files, us, n) && temps == Temporaries(us, n, |us|) && old(fs.calls) <= fs.calls
    ensures if n == |us| then Worked(fs, old(fs.calls), fs.calls)
            else old(fs.calls) < fs.calls && Worked(fs, old(fs.calls), fs.calls - 1) && !fs.faults(fs.calls - 1).Works?
    ensures AlwaysWhole(f0, old(fs.seen), fs.seen, us)
  {
    n, temps := 0, Temporaries(us, 0, |us|);
    GoalWhole(f0, us, 0, fs.files);
    while n < |us|
      invariant Installed(f0, fs.files, us, n) && Whole(f0, fs.files, us) && temps == Temporaries(us, n, |us|)
      invariant old(fs.calls) <= fs.calls && Worked(fs, old(fs.calls), fs.calls)
      invariant AlwaysWhole(f0, old(fs.seen), fs.seen, us)
    {
      ghost var f := fs.files;
      var temp := Temporary(us[n].name, n);
      var ok := fs.Rename(temp, Target(us[n].name));
      if !ok { return; }
      InstallOne(f0, us, n, f, fs.files);
      temps := temps - {temp};
      n := n + 1;
    }
  }

  /** The originals are back for all but the first `k` targets, and nothing is left over since `f`. */
  ghost predicate Restored(f0: Files, f: Files, g: Files, us: seq<Update>, k: nat) {
    k <= |us| && Agree(g, Goal(f0, us, k), us) && Tidy(f, g, us, {})
  }

  /** Writes the originals of the first `n` targets back, the last one first. */
  method Restore(fs: FileSystem, us: seq<Update>, originals: map<string, Content>, n: nat, ghost f0: Files)
      returns (failed: bool)
    requires Distinct(us) && n <= |us| && Remembers(originals, f0, us, |us|) && Agree(fs.files, Goal(f0, us, n), us)
    modifies fs
    ensures old(fs.calls) <= fs.calls && (failed <==> !Worked(fs, old(fs.calls), fs.calls))
    ensures !failed ==> Restored(f0, old(fs.files), fs.files, us, 0)
    ensures AlwaysWhole(f0, old(fs.seen), fs.seen, us)
  {
    failed := false;
    var k: nat := n;
    GoalWhole(f0, us, n, fs.files);
    while k > 0
      invariant k <= n && Whole(f0, fs.files, us)
      invariant old(fs.calls) <= fs.calls && (failed <==> !Worked(fs, old(fs.calls), fs.calls))
      invariant !failed ==> Restored(f0, old(fs.files), fs.files, us, k)
      invariant AlwaysWhole(f0, old(fs.seen), fs.seen, us)
    {
      k := k - 1;
      var bad := RestoreOne(fs, us, originals[us[k].name], k, f0);
      failed := failed || bad;
    }
  }

  method RestoreOne(fs: FileSystem, us: seq<Update>, original: Content, k: nat, ghost f0: Files) returns (failed: bool)
    requires Distinct(us) && k < |us| && Target(us[k].name) in f0 && original == f0[Target(us[k].name)]
             && Whole(f0, fs.files, us)
    modifies fs
    ensures old(fs.calls) < fs.calls && (failed <==> !Worked(fs, old(fs.calls), fs.calls))
    ensures Whole(f0, fs.files, us) && AlwaysWhole(f0, old(fs.seen), fs.seen, us)
    ensures !failed ==> forall f | Restored(f0, f, old(fs.files), us, k + 1) :: Restored(f0, f, fs.files, us, k)
  {
    var target, temp := Target(us[k].name), Rollback(us[k].name);
    assert Scratch(us, temp);
    failed := false;
    var written := fs.Write(temp, original);
    if written {
      var renamed := fs.Rename(temp, target);
      failed := !renamed;
    } else {
      failed := true;
    }
    var r := fs.Unlink(temp);
    failed := failed || r == Stuck;
    GoalAt(f0, us, k, k);
  }

  /** Removes what is left of the temporary files before the originals are restored. */
  method CleanUp(fs: FileSystem, us: seq<Update>, temps: set<Path>, ghost n: nat, ghost f0: Files)
      returns (failed: bool)
    requires Distinct(us) && n <= |us| && (n == 0 || AllThere(f0, us, |us|)) && Agree(fs.files, Goal(f0, us, n), us)
    requires Tidy(f0, fs.files, us, temps) && forall p | p in temps :: Scratch(us, p)
    modifies fs
    ensures Agree(fs.files, Goal(f0, us, n), us) && (!failed ==> Tidy(f0, fs.files, us, {}))
    ensures old(fs.calls) <= fs.calls && (failed <==> !Worked(fs, old(fs.calls), fs.calls))
    ensures AlwaysWhole(f0, old(fs.seen), fs.seen, us)
  {
    ghost var f := fs.files;
    if n != 0 { GoalWhole(f0, us, n, f); }
    failed := RemoveAll(fs, temps);
    ScratchOnly(f0, f, fs.files, us, temps);
    forall i | |old(fs.seen)| <= i < |fs.seen| ensures Whole(f0, fs.seen[i], us) {
      ScratchOnly(f0, f, fs.seen[i], us, temps);
    }
  }

  /** Normal return: every file is new. An error without a failed rollback: every file is original. In both
      cases no scratch file is left that was not there before. And at every instant, whatever fails, every
      file is whole. It returns normally exactly when every target is there and no call fails. Otherwise `mark`
      stands behind the first call that fails, and the rollback fails exactly when a later call does. */
  method CommitFileUpdates(fs: FileSystem, us: seq<Update>) returns (outcome: Outcome, ghost mark: nat)
    requires Distinct(us)
    modifies fs
    ensures outcome == Returned ==>
            forall i | 0 <= i < |us| ::
              Target(us[i].name) in fs.files && fs.files[Target(us[i].name)] == us[i].content
    ensures outcome == Returned ==> Agree(fs.files, Goal(old(fs.files), us, |us|), us)
    ensures outcome == Threw ==> Agree(fs.files, old(fs.files), us)
    ensures old(fs.calls) <= mark <= fs.calls
    ensures outcome == Returned <==> AllThere(old(fs.files), us, |us|) && Worked(fs, old(fs.calls), mark)
    ensures outcome == Returned ==> mark == fs.calls
    ensures outcome != Returned ==> old(fs.calls) < mark && Worked(fs, old(fs.calls), mark - 1)
    ensures outcome != Returned ==> (outcome == RollbackFailed <==> !Worked(fs, mark, fs.calls))
    ensures outcome != RollbackFailed ==> Tidy(old(fs.files), fs.files, us, {})
    ensures AlwaysWhole(old(fs.files), old(fs.seen), fs.seen, us)
  {
    ghost var f0 := fs.files;
    var ok, originals, temps := Prepare(fs, us);
    var n := 0;
    if ok { n, temps := Install(fs, us, f0); }
    mark := fs.calls;
    if n == |us| && ok {
      forall i | 0 <= i < |us| ensures Target(us[i].name) in fs.files && fs.files[Target(us[i].name)] == us[i].content {
        GoalAt(f0, us, n, i);
        assert Place(Target(us[i].name));
      }
      return Returned, mark;
    }
    var failed := CleanUp(fs, us, temps, n, f0);
    var worse := false;
    if ok { worse := Restore(fs, us, originals, n, f0); }
    outcome := if failed || worse then RollbackFailed else Threw;
  }
}
