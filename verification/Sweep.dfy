/** A seed sweep (run_seed_sweep in src/main.cpp): one child process per derived seed, whose output
    is moved into a per-seed archive before the next child starts.
 */
module Sweep {
  import opened Types
  import opened Names
  import opened Seeds

  type Files = map<string, string>

  datatype Exit = SupervisorTimeout | ExitCode(code: u32)

  /** findings/, unicorn_outliers/ and the two dump files; an absent one is empty. */
  datatype Outputs = Outputs(findings: Files, outliers: Files, crash: Files, hang: Files) {
    function Of(k: Kind): Files {
      match k
      case Findings => findings
      case Outliers => outliers
      case Crash => crash
      case Hang => hang
    }
  }

  /** What one child does: whether it launches, the files it writes, and how it ends. */
  datatype Child = Child(launched: bool, wrote: Outputs, exit: Exit)

  type Children = c: seq<Child> | |c| < 0x7FFF_FFFF

  /** The archive paths of child i, one for each kind of output. */
  datatype Paths = Paths(findings: string, outliers: string, crash: string, hang: string) {
    function Of(k: Kind): string {
      match k
      case Findings => findings
      case Outliers => outliers
      case Crash => crash
      case Hang => hang
    }

    ghost predicate Distinct() {
      forall k: Kind, k': Kind :: Of(k) == Of(k') ==> k == k'
    }
  }

  function PathsOf(base: u64, i: nat): Paths
    requires i < 0x7FFF_FFFF
  {
    var seed := MixSeed(base, i);
    Paths(ArchiveName(Findings, seed), ArchiveName(Outliers, seed), ArchiveName(Crash, seed), ArchiveName(Hang, seed))
  }

  // ---------------------------------------------------------------- what the archive must hold

  predicate AnyLaunched(children: Children, n: nat)
    requires n <= |children|
  {
    exists j :: 0 <= j < n && children[j].launched
  }

  /** What child i's entries receive: its own output, except that the first child to launch also
      inherits whatever already lay in findings/ and unicorn_outliers/. */
  function Received(children: Children, before: Outputs, i: nat): Outputs
    requires i < |children|
  {
    var own := children[i].wrote;
    if AnyLaunched(children, i) then own else Merged(before, own)
  }

  /** A child's own output on top of what findings/ and unicorn_outliers/ already hold. */
  function Merged(live: Outputs, own: Outputs): Outputs {
    own.(findings := live.findings + own.findings, outliers := live.outliers + own.outliers)
  }

  function Filed(archive: map<string, Files>, name: string, files: Files): map<string, Files> {
    if files == map[] then archive else archive[name := files]
  }

  function FiledAll(archive: map<string, Files>, p: Paths, out: Outputs): map<string, Files> {
    Filed(Filed(Filed(Filed(archive, p.findings, out.findings), p.outliers, out.outliers), p.crash, out.crash),
          p.hang, out.hang)
  }

  function ArchiveAfter(base: u64, children: Children, before: Outputs, n: nat, archive: map<string, Files>)
    : map<string, Files>
    requires n <= |children|
  {
    if n == 0 then archive
    else
      var a := ArchiveAfter(base, children, before, n - 1, archive);
      if children[n - 1].launched then FiledAll(a, PathsOf(base, n - 1), Received(children, before, n - 1)) else a
  }

  class Supervisor {
    var live: Outputs
    var archive: map<string, Files>
    var clean: nat
    var crashed: nat
    var watchdogKilled: nat
    var supervisorKilled: nat

    constructor (live: Outputs, archive: map<string, Files>)
      ensures this.live == live && this.archive == archive
      ensures clean == crashed == watchdogKilled == supervisorKilled == 0
    {
      this.live := live;
      this.archive := archive;
      clean, crashed, watchdogKilled, supervisorKilled := 0, 0, 0, 0;
    }

    function Tally(): nat
      reads this
    {
      clean + crashed + watchdogKilled + supervisorKilled
    }

    /** Done before every launch, whether or not it then succeeds. */
    method ClearDumps()
      modifies this`live
      ensures live == old(live).(crash := map[], hang := map[])
    {
      live := live.(crash := map[], hang := map[]);
    }

    /** Let the child write, tally its exit. */
    method RunChild(c: Child)
      requires live.crash == map[] && live.hang == map[]
      modifies this
      ensures live == Merged(old(live), c.wrote)
      ensures archive == old(archive) && Tally() == old(Tally()) + 1
      ensures clean == old(clean) + (if c.exit == ExitCode(0) then 1 else 0)
      ensures crashed == old(crashed) + (if c.exit.ExitCode? && c.exit.code != 0 && c.exit.code != 2 then 1 else 0)
      ensures watchdogKilled == old(watchdogKilled) + (if c.exit == ExitCode(2) then 1 else 0)
      ensures supervisorKilled == old(supervisorKilled) + (if c.exit == SupervisorTimeout then 1 else 0)
    {
      live := Outputs(live.findings + c.wrote.findings, live.outliers + c.wrote.outliers,
                      live.crash + c.wrote.crash, live.hang + c.wrote.hang);
      if c.exit.SupervisorTimeout? {
        supervisorKilled := supervisorKilled + 1;
      } else if c.exit.code == 2 {
        watchdogKilled := watchdogKilled + 1;
      } else if c.exit.code != 0 {
        crashed := crashed + 1;
      } else {
        clean := clean + 1;
      }
    }

    /** Move each non-empty output aside, replacing any older entry of that name. */
    method MoveAside(p: Paths)
      modifies this`live, this`archive
      ensures live == Outputs(map[], map[], map[], map[])
      ensures archive == FiledAll(old(archive), p, old(live))
      ensures Tally() == old(Tally())
    {
      if live.findings != map[] { archive := archive[p.findings := live.findings]; }
      live := live.(findings := map[]);
      if live.outliers != map[] { archive := archive[p.outliers := live.outliers]; }
      live := live.(outliers := map[]);
      if live.crash != map[] { archive := archive[p.crash := live.crash]; }
      live := live.(crash := map[]);
      if live.hang != map[] { archive := archive[p.hang := live.hang]; }
      live := live.(hang := map[]);
    }

    /** One turn of the sweep: a child that fails to launch is skipped altogether. */
    method OneChild(base: u64, children: Children, i: nat, ghost before: Outputs)
      requires i < |children| && Settled(live, children, before, i)
      modifies this
      ensures Settled(live, children, before, i + 1)
      ensures archive == if children[i].launched
        then FiledAll(old(archive), PathsOf(base, i), Received(children, before, i)) else old(archive)
      ensures Tally() == old(Tally()) + (if children[i].launched then 1 else 0)
    {
      SettledStep(live, children, before, i);
      ClearDumps();
      if !children[i].launched { return; }
      RunChild(children[i]);
      MoveAside(PathsOf(base, i));
    }

    method Run(base: u64, children: Children)
      modifies this
      ensures archive == ArchiveAfter(base, children, old(live), |children|, old(archive))
      ensures Tally() == old(Tally()) + |children| - Failures(children)
      ensures live == LiveAfter(children, old(live))
    {
      for i := 0 to |children|
        invariant Settled(live, children, old(live), i)
        invariant archive == ArchiveAfter(base, children, old(live), i, old(archive))
        invariant Tally() == old(Tally()) + i - Failures(children[..i])
      {
        assert children[..i + 1] == children[..i] + [children[i]];
        OneChild(base, children, i, old(live));
      }
      assert children[..|children|] == children;
    }
  }

  /** Between children: untouched until one has launched, then empty; the dumps go before the first. */
  predicate Settled(live: Outputs, children: Children, before: Outputs, i: nat)
    requires i <= |children|
  {
    && (if AnyLaunched(children, i) then live.findings == map[] && live.outliers == map[]
        else live.findings == before.findings && live.outliers == before.outliers)
    && (if i == 0 then live == before else live.crash == map[] && live.hang == map[])
  }

  /** What a sweep leaves beside the archive. */
  function LiveAfter(children: Children, before: Outputs): Outputs {
    if |children| == 0 then before
    else if AnyLaunched(children, |children|) then Outputs(map[], map[], map[], map[])
    else before.(crash := map[], hang := map[])
  }

  lemma SettledStep(live: Outputs, children: Children, before: Outputs, i: nat)
    requires i < |children| && Settled(live, children, before, i)
    ensures AnyLaunched(children, i + 1) <==> AnyLaunched(children, i) || children[i].launched
    ensures Received(children, before, i) == Merged(live, children[i].wrote)
  {
    var own := children[i].wrote;
    if children[i].launched { assert AnyLaunched(children, i + 1); }
    assert map[] + own.findings == own.findings;
    assert map[] + own.outliers == own.outliers;
  }

  /** Children that failed to launch: they are reported, and counted nowhere. */
  function Failures(children: seq<Child>): nat {
    if children == [] then 0
    else Failures(children[..|children| - 1]) + (if children[|children| - 1].launched then 0 else 1)
  }

  // ---------------------------------------------------------------- no child clobbers another

  /** All 4n paths of a sweep are different. */
  lemma PathsApart(base: u64, i: nat, k: Kind, j: nat, k': Kind)
    requires i < 0x7FFF_FFFF && j < 0x7FFF_FFFF && PathsOf(base, i).Of(k) == PathsOf(base, j).Of(k')
    ensures i == j && k == k'
  {
    assert ArchiveName(k, MixSeed(base, i)) == PathsOf(base, i).Of(k);
    assert ArchiveName(k', MixSeed(base, j)) == PathsOf(base, j).Of(k');
    ArchiveNameInjective(k, MixSeed(base, i), k', MixSeed(base, j));
    MixSeedInjective(base, i, j);
  }

  lemma PathsDistinct(base: u64, i: nat)
    requires i < 0x7FFF_FFFF
    ensures PathsOf(base, i).Distinct()
  {
    forall k: Kind, k': Kind | PathsOf(base, i).Of(k) == PathsOf(base, i).Of(k') ensures k == k' {
      PathsApart(base, i, k, i, k');
    }
  }

  predicate Writes(children: Children, before: Outputs, i: nat, k: Kind)
    requires i < |children|
  {
    children[i].launched && Received(children, before, i).Of(k) != map[]
  }

  /** Filing one child's outputs sets its own entries and touches no other name. */
  lemma FiledOwn(archive: map<string, Files>, p: Paths, out: Outputs, k: Kind)
    requires p.Distinct() && out.Of(k) != map[]
    ensures p.Of(k) in FiledAll(archive, p, out) && FiledAll(archive, p, out)[p.Of(k)] == out.Of(k)
  {
    assert p.Of(Findings) == p.findings && p.Of(Outliers) == p.outliers;
    assert p.Of(Crash) == p.crash && p.Of(Hang) == p.hang;
  }

  lemma FiledOther(archive: map<string, Files>, p: Paths, out: Outputs, name: string)
    requires forall k: Kind :: out.Of(k) != map[] ==> name != p.Of(k)
    ensures name in FiledAll(archive, p, out) <==> name in archive
    ensures name in archive ==> FiledAll(archive, p, out)[name] == archive[name]
  {
    assert out.Of(Findings) == out.findings && out.Of(Outliers) == out.outliers;
    assert out.Of(Crash) == out.crash && out.Of(Hang) == out.hang;
  }

  /** Every launched child's output is in the archive at the end of the sweep, under its own seed,
      whatever the children after it wrote. */
  lemma {:induction false} ArchiveComplete(
      base: u64, children: Children, before: Outputs, n: nat, archive: map<string, Files>, j: nat, k: Kind)
    requires j < n <= |children| && Writes(children, before, j, k)
    ensures var end, name := ArchiveAfter(base, children, before, n, archive), PathsOf(base, j).Of(k);
      name in end && end[name] == Received(children, before, j).Of(k)
  {
    var a, i := ArchiveAfter(base, children, before, n - 1, archive), n - 1;
    var p, out := PathsOf(base, i), Received(children, before, i);
    if j == i {
      PathsDistinct(base, i);
      FiledOwn(a, p, out, k);
    } else {
      ArchiveComplete(base, children, before, i, archive, j, k);
      var name := PathsOf(base, j).Of(k);
      forall k': Kind ensures name != p.Of(k') {
        if name == p.Of(k') { PathsApart(base, i, k', j, k); }
      }
      FiledOther(a, p, out, name);
    }
  }

  /** Entries that no child of this sweep writes stay as they were, stale ones included. */
  lemma {:induction false} ArchiveOtherwiseKept(
      base: u64, children: Children, before: Outputs, n: nat, archive: map<string, Files>, name: string)
    requires n <= |children|
    requires forall j: nat, k: Kind :: j < n && Writes(children, before, j, k) ==> name != PathsOf(base, j).Of(k)
    ensures var end := ArchiveAfter(base, children, before, n, archive);
      (name in end <==> name in archive) && (name in archive ==> end[name] == archive[name])
  {
    if n != 0 {
      var a, i := ArchiveAfter(base, children, before, n - 1, archive), n - 1;
      ArchiveOtherwiseKept(base, children, before, i, archive, name);
      if children[i].launched {
        var p, out := PathsOf(base, i), Received(children, before, i);
        forall k: Kind | out.Of(k) != map[] ensures name != p.Of(k) {
          assert Writes(children, before, i, k);
        }
        FiledOther(a, p, out, name);
      }
    }
  }

  /** An entry is its child's own output alone, except for the first child to launch when findings
      or outliers it does not itself overwrite were lying around: only dumps are cleared beforehand. */
  lemma OwnOutputIff(children: Children, before: Outputs, i: nat, k: Kind)
    requires i < |children|
    ensures Received(children, before, i).Of(k) == children[i].wrote.Of(k) <==>
            k.Crash? || k.Hang? || AnyLaunched(children, i) || before.Of(k).Keys <= children[i].wrote.Of(k).Keys
  {
    var left, own := before.Of(k), children[i].wrote.Of(k);
    assert (left + own).Keys == left.Keys + own.Keys;
    if left.Keys <= own.Keys { assert left + own == own; }
  }

  /** File by file: what the child wrote is in its archive entry as it wrote it; anything else there was
      lying in findings/ or unicorn_outliers/ before the first child to launch. */
  lemma ReceivedExact(children: Children, before: Outputs, i: nat, k: Kind, name: string)
    requires i < |children|
    ensures var got, own := Received(children, before, i).Of(k), children[i].wrote.Of(k);
      && (name in own ==> name in got && got[name] == own[name])
      && (name in got && name !in own ==>
            (k.Findings? || k.Outliers?) && !AnyLaunched(children, i) && name in before.Of(k) && got[name] == before.Of(k)[name])
      && (!AnyLaunched(children, i) && (k.Findings? || k.Outliers?) && name in before.Of(k) ==> name in got)
  {
  }
}
