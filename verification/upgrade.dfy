// `upgrade` and `perform_upgrade`: stage, stop, back up, switch, start, with a failure or the
// death of the process possible at every step, over any number of attempts.

module Upgrades {
  import opened Base

  /** The name of a release and of its directory. */
  datatype Version = Version(name: string)

  datatype Stage = Queued | Downloading | BackingUp | Restarting | Succeeded | Failed

  /** The saved status file. */
  datatype Status = Status(stage: Stage, version: Version)

  /** What a maintainer would see happen, in order. */
  datatype Event =
    | Began(version: Version)
    | Copied
    | CopyBroke(left: bool)
    | StopAsked
    | StopDone
    | BackupDone
    | LinkBroke(left: bool)
    | Switched(version: Version)
    | StartAsked(version: Version)
    | StartedByOthers(version: Version)
    | Probed(passed: bool)
    | ReadyOn(version: Version)
    | RemovalTried(ok: bool)
    | Saved(stage: Stage, version: Version)
    | SaveBroke

  // ----- Running commentary on a trace -----

  /** The copy in the release directory. `Stuck`: its removal was tried and failed. */
  datatype Staging = Unstaged | Partial | Staged | Cleared | Stuck

  /** `Secured`: down, with a backup made since. `Restarted`: asked to start, and not asked to stop since. */
  datatype Services = Untouched | Stopping | Down | Secured | Restarted

  datatype Progress = Before | Moved | Started | Ready

  /** What is known after a trace: the release in use, and how far the latest attempt has come. */
  datatype Summary = Summary(current: Version, target: Version, staging: Staging, services: Services,
    progress: Progress,
                             linkLeft: bool, saveBroke: bool)

  function Fresh(current: Version, target: Version): Summary {
    Summary(current, target, Unstaged, Untouched, Before, false, false)
  }

  function Step(s: Summary, e: Event): Summary {
    match e
    case Began(v) => Fresh(s.current, v)
    case Copied => s.(staging := Staged)
    case CopyBroke(left) => if left then s.(staging := Partial) else s
    case StopAsked => s.(services := Stopping)
    case StopDone => s.(services := Down)
    case BackupDone => if s.services == Down then s.(services := Secured) else s
    case LinkBroke(left) => s.(linkLeft := left)
    case Switched(v) => s.(current := v, progress := Moved)
    case StartAsked(v) => s.(services := Restarted, progress := if s.progress == Before then Before else Started)
    case StartedByOthers(v) => s.(services := Restarted)
    case Probed(passed) => s
    case ReadyOn(v) => s.(progress := Ready)
    case RemovalTried(done) => s.(staging := if done then Cleared else Stuck)
    case Saved(stage, v) => s
    case SaveBroke => s.(saveBroke := true)
  }

  /** Not allowed: a switch unless the services are down and a backup was made since; starting anything but the release
      in use, before a stop was asked for, or a second time after a switch; removing a copy that is in use; reporting
      success unless the new release was started and found ready after the switch. */
  predicate Allowed(s: Summary, e: Event) {
    match e
    case Switched(v) => s.services == Secured && s.progress == Before && v == s.target
    case StartAsked(v) => v == s.current
      && (if s.progress == Before then s.services in {Stopping, Down, Secured} else s.progress == Moved)
    case StartedByOthers(v) => v == s.current
    case ReadyOn(v) => s.progress == Started && v == s.current
    case RemovalTried(done) => s.progress == Before
    case Saved(stage, v) => stage == Succeeded ==> s.progress == Ready && v == s.current
    case _ => true
  }

  lemma StepRelease(s: Summary, e: Event)
    ensures Step(s, e).current == if e.Switched? then e.version else s.current
    ensures Step(s, e).progress != Before <==> e.Switched? || e.ReadyOn? || (s.progress != Before && !e.Began?)
    ensures Step(s, e).progress in {Started, Ready} <== s.progress in {Started, Ready} && !e.Began? && !e.Switched?
  {
  }

  function Scan(origin: Version, trace: seq<Event>): Summary {
    if trace == [] then Fresh(origin, origin) else Step(Scan(origin, trace[..|trace| - 1]), trace[|trace| - 1])
  }

  lemma ScanOne(origin: Version, trace: seq<Event>, e: Event)
    ensures Scan(origin, trace + [e]) == Step(Scan(origin, trace), e)
  {
    assert (trace + [e])[..|trace|] == trace;
  }

  lemma ScanLast(origin: Version, trace: seq<Event>)
    requires trace != []
    ensures Scan(origin, trace) == Step(Scan(origin, trace[..|trace| - 1]), trace[|trace| - 1])
  {
  }

  lemma ScanNone(origin: Version)
    ensures Scan(origin, []) == Fresh(origin, origin)
  {
  }

  /** Nothing happened that was not allowed at its moment. */
  ghost predicate Acceptable(origin: Version, trace: seq<Event>) {
    forall i: nat :: i < |trace| ==> Allowed(Scan(origin, trace[..i]), trace[i])
  }

  lemma AcceptOne(origin: Version, trace: seq<Event>, e: Event)
    requires Acceptable(origin, trace) && Allowed(Scan(origin, trace), e)
    ensures Acceptable(origin, trace + [e])
  {
    hide Scan, Allowed;
    forall i: nat | i < |trace| + 1 ensures Allowed(Scan(origin, (trace + [e])[..i]), (trace + [e])[i]) {
      assert (trace + [e])[..i] == trace[..i];
      assert trace[..|trace|] == trace;
    }
  }

  lemma AcceptedBefore(origin: Version, trace: seq<Event>, i: nat)
    requires Acceptable(origin, trace) && i <= |trace|
    ensures Acceptable(origin, trace[..i])
  {
    hide Scan, Allowed;
    forall k: nat | k < i ensures Allowed(Scan(origin, trace[..i][..k]), trace[..i][k]) {
      assert trace[..i][..k] == trace[..k];
    }
  }

  // ----- What an acceptable trace means -----

  /** The release in use after a trace: the last one switched to. */
  function CurrentAfter(origin: Version, trace: seq<Event>): Version {
    if trace == [] then origin
    else if trace[|trace| - 1].Switched? then trace[|trace| - 1].version
    else CurrentAfter(origin, trace[..|trace| - 1])
  }

  predicate Starts(e: Event) {
    e.StartAsked? || e.StartedByOthers?
  }

  /** No attempt begins and no service is started in `trace[from..to]`. */
  ghost predicate Quiet(trace: seq<Event>, from: nat, to: nat) {
    from <= to <= |trace| && forall m :: from <= m < to ==> !Starts(trace[m]) && !trace[m].Began?
  }

  ghost predicate SameAttempt(trace: seq<Event>, from: nat, to: nat) {
    from <= to <= |trace| && forall m :: from <= m < to ==> !trace[m].Began?
  }

  /** The stop at `j` and the backup at `k` cover position `i`. */
  ghost predicate Covers(trace: seq<Event>, j: nat, k: nat, i: nat) {
    j < k < i <= |trace| && trace[j] == StopDone && trace[k] == BackupDone && Quiet(trace, j, i)
  }

  /** The switch at `a`, the start at `b` and the readiness at `c` all belong to one attempt and to `v`. */
  ghost predicate Earned(trace: seq<Event>, v: Version, a: nat, b: nat, c: nat, i: nat) {
    a < b < c < i <= |trace| && trace[a] == Switched(v) && trace[b] == StartAsked(v) && trace[c] == ReadyOn(v)
      && SameAttempt(trace, a, i)
  }

  lemma {:induction false} CurrentIsLastSwitched(origin: Version, trace: seq<Event>)
    ensures Scan(origin, trace).current == CurrentAfter(origin, trace)
  {
    hide Scan, Step;
    if trace == [] {
      ScanNone(origin);
    } else {
      ScanLast(origin, trace);
      StepRelease(Scan(origin, trace[..|trace| - 1]), trace[|trace| - 1]);
      CurrentIsLastSwitched(origin, trace[..|trace| - 1]);
    }
  }

  lemma {:induction false} DownSince(origin: Version, trace: seq<Event>) returns (j: nat)
    requires Scan(origin, trace).services in {Down, Secured}
    ensures j < |trace| && trace[j] == StopDone && Quiet(trace, j, |trace|)
  {
    hide Scan, Acceptable;
    if trace == [] {
      ScanNone(origin);
      assert false;
    }
    ScanLast(origin, trace);
    var n := |trace| - 1;
    if trace[n] == StopDone {
      j := n;
    } else {
      j := DownSince(origin, trace[..n]);
    }
  }

  lemma {:induction false} BackedUpSince(origin: Version, trace: seq<Event>) returns (j: nat, k: nat)
    requires Scan(origin, trace).services == Secured
    ensures Covers(trace, j, k, |trace|)
  {
    hide Scan, Acceptable;
    if trace == [] {
      ScanNone(origin);
      assert false;
    }
    ScanLast(origin, trace);
    var n := |trace| - 1;
    if trace[n] == BackupDone {
      j := DownSince(origin, trace[..n]);
      k := n;
    } else {
      j, k := BackedUpSince(origin, trace[..n]);
    }
  }

  lemma {:induction false} SwitchedSince(origin: Version, trace: seq<Event>) returns (a: nat)
    requires Scan(origin, trace).progress != Before && Acceptable(origin, trace)
    ensures a < |trace| && trace[a] == Switched(Scan(origin, trace).current) && SameAttempt(trace, a, |trace|)
  {
    hide Step, Scan, Acceptable;
    if trace == [] {
      ScanNone(origin);
      assert false;
    }
    ScanLast(origin, trace);
    var n := |trace| - 1;
    AtPosition(origin, trace, n);
    StepRelease(Scan(origin, trace[..n]), trace[n]);
    if trace[n].Switched? {
      a := n;
    } else {
      a := SwitchedSince(origin, trace[..n]);
    }
  }

  lemma {:induction false} StartedSince(origin: Version, trace: seq<Event>) returns (a: nat, b: nat)
    requires Scan(origin, trace).progress in {Started, Ready} && Acceptable(origin, trace)
    ensures a < b < |trace| && trace[a] == Switched(Scan(origin, trace).current)
            && trace[b] == StartAsked(Scan(origin, trace).current)
    ensures SameAttempt(trace, a, |trace|) && Scan(origin, trace).progress != Before
  {
    hide Scan, Acceptable;
    if trace == [] {
      ScanNone(origin);
      assert false;
    }
    ScanLast(origin, trace);
    var n := |trace| - 1;
    AtPosition(origin, trace, n);
    if trace[n].StartAsked? {
      a := SwitchedSince(origin, trace[..n]);
      b := n;
    } else {
      a, b := StartedSince(origin, trace[..n]);
    }
  }

  lemma {:induction false} ReadySince(origin: Version, trace: seq<Event>) returns (a: nat, b: nat, c: nat)
    requires Scan(origin, trace).progress == Ready && Acceptable(origin, trace)
    ensures Earned(trace, Scan(origin, trace).current, a, b, c, |trace|) && Scan(origin, trace).progress != Before
  {
    hide Scan, Acceptable;
    if trace == [] {
      ScanNone(origin);
      assert false;
    }
    ScanLast(origin, trace);
    var n := |trace| - 1;
    AtPosition(origin, trace, n);
    if trace[n].ReadyOn? {
      a, b := StartedSince(origin, trace[..n]);
      c := n;
    } else {
      a, b, c := ReadySince(origin, trace[..n]);
    }
  }

  lemma AtPosition(origin: Version, trace: seq<Event>, i: nat)
    requires Acceptable(origin, trace) && i < |trace|
    ensures Acceptable(origin, trace[..i]) && Allowed(Scan(origin, trace[..i]), trace[i])
  {
    AcceptedBefore(origin, trace, i);
  }

  /** Every switch comes after the services were stopped and a backup was then completed, in the same attempt and with
      no start in between. */
  lemma SwitchesGuarded(origin: Version, trace: seq<Event>, i: nat)
    requires Acceptable(origin, trace) && i < |trace| && trace[i].Switched?
    ensures exists j, k :: Covers(trace, j, k, i)
  {
    hide Scan, Acceptable;
    AtPosition(origin, trace, i);
    var j, k := BackedUpSince(origin, trace[..i]);
    assert Covers(trace, j, k, i);
  }

  /** Every start is of the release in use at that moment. */
  lemma StartsNameCurrent(origin: Version, trace: seq<Event>, i: nat)
    requires Acceptable(origin, trace) && i < |trace| && Starts(trace[i])
    ensures trace[i].version == CurrentAfter(origin, trace[..i])
  {
    hide Scan, Acceptable;
    AtPosition(origin, trace, i);
    CurrentIsLastSwitched(origin, trace[..i]);
  }

  /** After a switch an attempt asks for one start at most, of the new release: a handler that ran after the switch
      would start nothing again. */
  lemma OneStartAfterSwitch(origin: Version, trace: seq<Event>, a: nat, b: nat, c: nat)
    requires Acceptable(origin, trace) && a < b < c < |trace| && SameAttempt(trace, a, c)
    requires trace[a].Switched? && trace[b].StartAsked?
    ensures !trace[c].StartAsked?
  {
    hide Scan, Acceptable, Step;
    if trace[c].StartAsked? {
      AtPosition(origin, trace, c);
      StillSwitched(origin, trace[..c], a);
      AtPosition(origin, trace, b);
      StillSwitched(origin, trace[..b], a);
      assert trace[..c][..b] == trace[..b];
      StillStarted(origin, trace[..c], b);
    }
  }

  lemma {:induction false} StillStarted(origin: Version, trace: seq<Event>, b: nat)
    requires Acceptable(origin, trace) && b < |trace| && trace[b].StartAsked? && SameAttempt(trace, b, |trace|)
    requires Scan(origin, trace[..b]).progress != Before
    ensures Scan(origin, trace).progress in {Started, Ready}
  {
    hide Scan, Acceptable;
    ScanLast(origin, trace);
    var n := |trace| - 1;
    AtPosition(origin, trace, n);
    if b < n {
      assert trace[..n][..b] == trace[..b];
      StillStarted(origin, trace[..n], b);
      StepRelease(Scan(origin, trace[..n]), trace[n]);
    }
  }

  /** Success is reported only for a release that was switched to, then started, then found ready, in one attempt. */
  lemma SuccessEarned(origin: Version, trace: seq<Event>, i: nat)
    requires Acceptable(origin, trace) && i < |trace| && trace[i].Saved? && trace[i].stage == Succeeded
    ensures exists a, b, c :: Earned(trace, trace[i].version, a, b, c, i)
  {
    hide Scan, Acceptable;
    AtPosition(origin, trace, i);
    var a, b, c := ReadySince(origin, trace[..i]);
    assert Earned(trace, trace[i].version, a, b, c, i);
  }

  /** The staged copy is removed only while it is not in use. */
  lemma RemovalBeforeSwitch(origin: Version, trace: seq<Event>, i: nat)
    requires Acceptable(origin, trace) && i < |trace| && trace[i].RemovalTried?
    ensures forall a :: 0 <= a < i && trace[a].Switched? ==> !SameAttempt(trace, a, i)
  {
    hide Scan, Acceptable;
    AtPosition(origin, trace, i);
    forall a | 0 <= a < i && trace[a].Switched? && SameAttempt(trace, a, i) ensures false {
      StillSwitched(origin, trace[..i], a);
    }
  }

  lemma {:induction false} StillSwitched(origin: Version, trace: seq<Event>, a: nat)
    requires a < |trace| && trace[a].Switched? && SameAttempt(trace, a, |trace|)
    ensures Scan(origin, trace).progress != Before
  {
    hide Step, Scan, Acceptable;
    ScanLast(origin, trace);
    var n := |trace| - 1;
    StepRelease(Scan(origin, trace[..n]), trace[n]);
    if a < n {
      StillSwitched(origin, trace[..n], a);
    }
  }

  // ----- The host -----

  const READINESS_ATTEMPTS: nat := 45

  /** Nothing but `n` failed rounds were added. */
  ghost predicate Failures(before: seq<Event>, after: seq<Event>, n: nat) {
    |after| == |before| + n && after[..|before|] == before && forall i :: |before| <= i < |after| ==>
      after[i] == Probed(false)
  }

  ghost predicate SomeFailures(before: seq<Event>, after: seq<Event>) {
    |before| <= |after| < |before| + 45 && Failures(before, after, |after| - |before|)
  }

  /** What waiting for readiness adds to the trace. */
  ghost predicate Rounds(before: seq<Event>, after: seq<Event>, sig: Signal, v: Version) {
    match sig
    case Raise => Failures(before, after, 45)
    case Crash => SomeFailures(before, after)
    case Continue =>
      |after| >= 2 && after[|after| - 2..] == [Probed(true), ReadyOn(v)]
      && SomeFailures(before, after[..|after| - 2])
  }

  class Host {
    /** The release that `/opt/hakopod/current` names. */
    var current: Version
    /** Whether the switch file `current.next` exists. */
    var next: bool
    /** The release directories, and whether each is complete. */
    var releases: map<Version, bool>
    var status: Option<Status>
    ghost const origin: Version
    ghost var trace: seq<Event>
    ghost var seen: Summary
    /** A step of this attempt failed by itself, or the new release did not become ready in time. */
    ghost var trouble: bool

    /** The commentary is up to date and free of complaints, and the release in use is complete. */
    ghost predicate Valid()
      reads this
    {
      seen == Scan(origin, trace) && Acceptable(origin, trace) && seen.current == current && current in releases
        && releases[current]
    }

    constructor (current: Version)
      ensures Valid() && this.current == current == origin && trace == [] && !next && status == None
    {
      this.current, this.next, this.releases, this.status := current, false, map[current := true], None;
      origin, trace, seen, trouble := current, [], Fresh(current, current), false;
    }

    ghost method Log(e: Event)
      requires seen == Scan(origin, trace) && Acceptable(origin, trace) && Allowed(seen, e)
      modifies this`trace, this`seen
      ensures seen == Scan(origin, trace) == Step(old(seen), e) && Acceptable(origin, trace)
              && trace == old(trace) + [e]
    {
      hide Scan, Acceptable, Step, Allowed;
      ScanOne(origin, trace, e);
      AcceptOne(origin, trace, e);
      trace, seen := trace + [e], Step(seen, e);
    }

    /** A step that may fail by itself: a download, a check, a command. */
    method Attempted() returns (sig: Signal)
      modifies this`trouble
      ensures old(trouble) ==> trouble
      ensures sig != Continue ==> trouble
      ensures sig == Continue ==> trouble == old(trouble)
    {
      sig := *;
      trouble := trouble || sig != Continue;
    }

    /** A boot, or an administrator, starts the services between attempts. */
    method StartedByOthers()
      requires Valid()
      modifies this`trace, this`seen
      ensures Valid() && seen == old(seen).(services := Restarted)
    {
      hide Scan, Acceptable;
      Log(Event.StartedByOthers(current));
    }

    /** `save_state`: a temporary file renamed into place. */
    method Save(stage: Stage, version: Version) returns (sig: Signal)
      requires Valid() && (stage == Succeeded ==> seen.progress == Ready && version == current)
      modifies this`status, this`trace, this`seen, this`trouble
      ensures Valid()
      ensures sig == Continue ==> status == Some(Status(stage, version)) && seen == old(seen)
      ensures sig == Raise ==> status == old(status) && seen == old(seen).(saveBroke := true)
      ensures sig == Crash ==> (status == old(status) || status == Some(Status(stage, version))) && seen == old(seen)
      ensures old(trouble) ==> trouble
      ensures sig != Continue ==> trouble
      ensures sig == Continue ==> trouble == old(trouble)
    {
      hide Scan, Acceptable;
      sig := Attempted();
      var written := *;
      if sig == Raise {
        Log(SaveBroke);
      } else if sig == Continue || written {
        status := Some(Status(stage, version));
        Log(Saved(stage, version));
      }
    }

    /** `shutil.copytree` into the release directory; when it breaks off it may leave a part behind. */
    method CopyTree(target: Version) returns (sig: Signal)
      requires Valid() && target !in releases
      modifies this`releases, this`trace, this`seen, this`trouble
      ensures Valid()
      ensures sig == Continue ==> releases == old(releases)[target := true] && seen == old(seen).(staging := Staged)
      ensures sig != Continue ==> (seen == old(seen) && releases == old(releases)) ||
                                  (seen == old(seen).(staging := Partial) && releases == old(releases)[target := false])
      ensures old(trouble) ==> trouble
      ensures sig != Continue ==> trouble
      ensures sig == Continue ==> trouble == old(trouble)
    {
      hide Scan, Acceptable;
      sig := Attempted();
      var left := *;
      if sig == Continue {
        releases := releases[target := true];
        Log(Copied);
      } else {
        if left {
          releases := releases[target := false];
        }
        Log(CopyBroke(left));
      }
    }

    method StopServices() returns (sig: Signal)
      requires Valid()
      modifies this`trace, this`seen, this`trouble
      ensures Valid()
      ensures seen == old(seen).(services := if sig == Continue then Down else Stopping)
      ensures old(trouble) ==> trouble
      ensures sig != Continue ==> trouble
      ensures sig == Continue ==> trouble == old(trouble)
    {
      hide Scan, Acceptable;
      Log(StopAsked);
      sig := Attempted();
      if sig == Continue {
        Log(StopDone);
      }
    }

    /** The configuration archive and the checked database dump. */
    method Backup() returns (sig: Signal)
      requires Valid() && seen.services == Down
      modifies this`trace, this`seen, this`trouble
      ensures Valid() && seen == if sig == Continue then old(seen).(services := Secured) else old(seen)
      ensures old(trouble) ==> trouble
      ensures sig != Continue ==> trouble
      ensures sig == Continue ==> trouble == old(trouble)
    {
      hide Scan, Acceptable;
      sig := Attempted();
      if sig == Continue {
        Log(BackupDone);
      }
    }

    method StartServices() returns (sig: Signal)
      requires Valid() && (if seen.progress == Before then seen.services in {Stopping, Down, Secured}
               else seen.progress == Moved)
      modifies this`trace, this`seen, this`trouble
      ensures Valid()
      ensures seen == old(seen).(services := Restarted, progress := if old(seen).progress == Before then Before
              else Started)
      ensures old(trouble) ==> trouble
      ensures sig != Continue ==> trouble
      ensures sig == Continue ==> trouble == old(trouble)
    {
      hide Scan, Acceptable;
      Log(StartAsked(current));
      sig := Attempted();
    }

    /** The `current.next` link, renamed over `current`. */
    method Switch(target: Version) returns (sig: Signal)
      requires Valid() && seen.services == Secured && seen.progress == Before && !seen.linkLeft && seen.target == target
               && target in releases && releases[target]
      modifies this`next, this`current, this`trace, this`seen, this`trouble
      ensures Valid()
      ensures sig == Continue ==>
              current == target && !next && !old(next) && seen == old(seen).(current := target, progress := Moved)
      ensures sig == Raise ==>
              current == old(current) && seen == old(seen).(linkLeft := seen.linkLeft)
                && (next <==> old(next) || seen.linkLeft)
      ensures sig == Crash ==>
              seen == old(seen).(linkLeft := seen.linkLeft) || seen == old(seen).(current := target, progress := Moved)
      ensures old(next) ==> next && sig == Raise
      ensures old(trouble) ==> trouble
      ensures sig != Continue ==> trouble || old(next)
      ensures sig == Continue ==> trouble == old(trouble)
    {
      hide Scan, Acceptable;
      if next {
        sig := Raise;
        Log(LinkBroke(false));
        return;
      }
      sig := Attempted();
      var linked, renamed := *, *;
      if sig == Continue || (sig == Crash && renamed) {
        current := target;
        Log(Switched(target));
      } else {
        next := linked;
        Log(LinkBroke(linked));
      }
    }

    /** `shutil.rmtree` of the staged copy: when it fails, the directory is still there. */
    method RemoveStaged(target: Version) returns (sig: Signal, removed: bool)
      requires Valid() && target in releases && target != current && seen.progress == Before
      modifies this`releases, this`trace, this`seen, this`trouble
      ensures Valid()
      ensures sig == Continue ==> seen == old(seen).(staging := if removed then Cleared else Stuck)
      ensures sig == Continue ==>
              releases == if removed then old(releases) - {target} else old(releases)[target := false]
      ensures sig == Crash ==> seen == old(seen) && releases == old(releases)[target := false]
      ensures sig != Raise
      ensures old(trouble) ==> trouble
    {
      hide Scan, Acceptable;
      var crashed: bool := *;
      removed := *;
      releases := releases[target := false];
      if crashed {
        trouble := true;
        return Crash, false;
      }
      if removed {
        releases := releases - {target};
      }
      Log(RemovalTried(removed));
      sig := Continue;
    }

    /** One round of health checks. */
    method Probe() returns (sig: Signal, passed: bool)
      requires Valid()
      modifies this`trace, this`seen, this`trouble
      ensures Valid() && seen == old(seen) && sig != Raise
      ensures trace == old(trace) + (if sig == Continue then [Probed(passed)] else [])
      ensures old(trouble) ==> trouble
      ensures sig != Continue ==> trouble
      ensures sig == Continue ==> trouble == old(trouble)
    {
      hide Scan, Acceptable;
      var crashed: bool := *;
      passed := *;
      if crashed {
        trouble := true;
        return Crash, passed;
      }
      Log(Probed(passed));
      sig := Continue;
    }

    /** The rounds until one passes: at most 45, and an exception exactly after 45 failures. */
    method AwaitReady() returns (sig: Signal)
      requires Valid() && seen.progress == Started
      modifies this`trace, this`seen, this`trouble
      ensures Valid() && seen == if sig == Continue then old(seen).(progress := Ready) else old(seen)
      ensures Rounds(old(trace), trace, sig, current)
      ensures old(trouble) ==> trouble
      ensures sig != Continue ==> trouble
      ensures sig == Continue ==> trouble == old(trouble)
    {
      hide Scan, Acceptable;
      for attempt := 0 to READINESS_ATTEMPTS
        invariant Valid() && seen == old(seen) && Failures(old(trace), trace, attempt) && trouble == old(trouble)
      {
        var passed;
        ghost var failed := trace;
        sig, passed := Probe();
        if sig != Continue {
          return;
        }
        if passed {
          Log(ReadyOn(current));
          assert trace[|trace| - 2..] == [Probed(true), ReadyOn(current)] && trace[..|trace| - 2] == failed;
          return;
        }
      }
      trouble := true;
      sig := Raise;
    }

    /** Everything up to the staged copy: release data, downloads, checks, and the copy into the release directory. */
    method StageRelease(target: Version) returns (sig: Signal, staged: bool)
      requires Valid() && seen == Fresh(current, target)
      modifies this`releases, this`trace, this`seen, this`trouble
      ensures Valid() && staged == (sig == Continue)
      ensures sig == Continue ==>
              seen == old(seen).(staging := Staged) && target !in old(releases)
                && releases == old(releases)[target := true]
      ensures sig != Continue ==> (seen == old(seen) && releases == old(releases)) ||
                                  (seen == old(seen).(staging := Partial) && target !in old(releases)
                                    && releases == old(releases)[target := false])
      ensures old(trouble) ==> trouble
      ensures sig != Continue ==> trouble || target in old(releases)
      ensures sig == Continue ==> trouble == old(trouble)
    {
      staged := false;
      sig := Attempted();
      if sig != Continue {
        return;
      }
      if target in releases {
        return Raise, false;
      }
      sig := CopyTree(target);
      staged := sig == Continue;
    }

    /** Services stopped, backup taken, helpers run. */
    method TakeDown(target: Version) returns (sig: Signal, stopped: bool)
      requires Valid() && seen.services == Untouched
      modifies this`status, this`trace, this`seen, this`trouble
      ensures Valid() && seen == old(seen).(services := seen.services, saveBroke := seen.saveBroke)
      ensures (stopped <==> seen.services != Untouched) && seen.services in {Untouched, Stopping, Down, Secured}
      ensures sig == Continue ==> seen.services == Secured && seen.saveBroke == old(seen).saveBroke
      ensures status == old(status)
              || (status.Some? && status.value.stage != Succeeded && status.value.version == target)
      ensures old(trouble) ==> trouble
      ensures sig != Continue ==> trouble
      ensures sig == Continue ==> trouble == old(trouble)
    {
      stopped := false;
      sig := Save(BackingUp, target);
      if sig != Continue {
        return;
      }
      stopped := true;
      sig := StopServices();
      if sig != Continue {
        return;
      }
      sig := Backup();
      if sig != Continue {
        return;
      }
      sig := Attempted();
    }

    /** The switch, the start of the new release and the wait for it. */
    method BringUp(target: Version) returns (sig: Signal, switched: bool)
      requires Valid() && seen.services == Secured && seen.progress == Before && !seen.linkLeft && !seen.saveBroke
      requires seen.target == target && target in releases && releases[target]
      modifies this`status, this`next, this`current, this`trace, this`seen, this`trouble
      ensures Valid() && seen.staging == old(seen).staging && seen.target == target && seen.services != Untouched
      ensures if seen.progress == Before then current == old(current) && seen.services == Secured else current == target
      ensures sig != Crash ==> switched == (seen.progress != Before)
      ensures sig == Continue ==> seen.progress == Ready && status == Some(Status(Succeeded, target)) && !seen.saveBroke
      ensures sig == Raise ==> status == old(status) || status == Some(Status(Restarting, target))
      ensures sig == Raise ==> (next <==> old(next) || seen.linkLeft)
      ensures old(next) ==> next && seen.progress == Before && sig != Continue
      ensures old(trouble) ==> trouble
      ensures sig != Continue ==> trouble || old(next)
      ensures sig == Continue ==> trouble == old(trouble)
    {
      hide Scan, Acceptable;
      switched := false;
      sig := Save(Restarting, target);
      if sig != Continue {
        return;
      }
      sig := Switch(target);
      if sig != Continue {
        return;
      }
      switched := true;
      sig := StartServices();
      if sig != Continue {
        return;
      }
      sig := AwaitReady();
      if sig != Continue {
        return;
      }
      sig := Save(Succeeded, target);
    }

    /** The body of the `try`, with the three flags that its handler goes by. */
    method Try(target: Version) returns (sig: Signal, staged: bool, stopped: bool, switched: bool)
      requires Valid() && seen == Fresh(current, target)
      modifies this
      ensures Valid() && seen.target == target && (seen.progress != Before ==> seen.staging == Staged)
      ensures sig == Raise ==> Reached(target, old(releases), staged, stopped, switched)
      ensures sig == Continue ==> seen.progress == Ready && status == Some(Status(Succeeded, target))
      ensures if seen.progress == Before then current == old(current) else current == target
      ensures sig == Raise ==> (next <==> old(next) || seen.linkLeft)
      ensures sig == Raise ==>
              status == old(status)
                || (status.Some? && status.value.stage != Succeeded && status.value.version == target)
      ensures Untouchable(target, old(releases), old(next), sig)
      ensures forall v :: v != target ==>
              (v in releases <==> v in old(releases)) && (v in releases ==> releases[v] == old(releases)[v])
      ensures sig != Continue ==> trouble || target in old(releases) || old(next)
      ensures sig == Continue ==> trouble == old(trouble)
    {
      stopped, switched := false, false;
      sig, staged := StageRelease(target);
      if sig != Continue {
        return;
      }
      sig, stopped := TakeDown(target);
      if sig != Continue {
        return;
      }
      sig, switched := BringUp(target);
    }

    /** `perform_upgrade`. */
    method PerformUpgrade(target: Version) returns (sig: Signal)
      requires Valid()
      modifies this
      ensures Valid() && Outcome(target, old(current), old(releases), old(next), sig)
      ensures sig == Raise ==> seen.saveBroke || status == old(status) || status == Some(Status(Failed, target))
      ensures sig != Continue ==> trouble || target in old(releases) || old(next)
      ensures sig == Continue ==> !trouble
    {
      hide Scan, Acceptable;
      trouble := false;
      Log(Began(target));
      sig := Attempted();
      if sig != Continue {
        return;
      }
      sig := Save(Downloading, target);
      if sig != Continue {
        return;
      }
      sig := TryAndRecover(target);
    }

    /** The guarded part of `perform_upgrade` with its handler. */
    method TryAndRecover(target: Version) returns (sig: Signal)
      requires Valid() && seen == Fresh(current, target)
      modifies this
      ensures Valid() && Outcome(target, old(current), old(releases), old(next), sig)
      ensures sig == Raise ==> seen.saveBroke || status == Some(Status(Failed, target))
      ensures sig != Continue ==> trouble || target in old(releases) || old(next)
      ensures sig == Continue ==> trouble == old(trouble)
    {
      hide Scan, Acceptable, Step;
      var staged, stopped, switched;
      sig, staged, stopped, switched := Try(target);
      if sig == Raise {
        sig := Recover(target, old(releases), staged, stopped, switched);
      }
    }

    /** The handler: remove the staged copy, start the services again, report. After a switch it only reports. */
    method Recover(target: Version, ghost before: map<Version, bool>, staged: bool, stopped: bool, switched: bool)
      returns (sig: Signal)
      requires Valid() && seen.target == target && Reached(target, before, staged, stopped, switched)
               && (!switched ==> current in before)
      modifies this`releases, this`status, this`trace, this`seen, this`trouble
      ensures Valid() && sig != Continue
      ensures seen == old(seen).(staging := seen.staging, services := seen.services, saveBroke := seen.saveBroke)
      ensures switched ==> seen.staging == Staged && seen.services == old(seen).services && releases == old(releases)
      ensures !switched && sig == Raise ==>
              seen.staging in {Unstaged, Partial, Cleared, Stuck} && seen.services in {Untouched, Restarted}
      ensures !switched && sig == Raise ==>
              (target in releases <==> target in before || seen.staging in {Partial, Stuck})
      ensures !switched && !stopped ==> seen.services == Untouched
      ensures !switched && !staged ==> seen.staging == old(seen).staging && releases == old(releases)
      ensures sig == Raise ==> seen.saveBroke || status == Some(Status(Failed, target))
      ensures forall v :: v != target ==>
              (v in releases <==> v in old(releases)) && (v in releases ==> releases[v] == old(releases)[v])
      ensures old(trouble) ==> trouble
    {
      hide Scan, Acceptable;
      if staged && !switched {
        var removed;
        sig, removed := RemoveStaged(target);
        if sig == Crash {
          return;
        }
      }
      if stopped && !switched {
        sig := StartServices();
        if sig == Crash {
          return;
        }
      }
      sig := Save(Failed, target);
      if sig == Continue {
        sig := Raise;
      }
    }

    /** `upgrade` around it: a failure that was not reported yet is reported. */
    method Upgrade(target: Version) returns (sig: Signal)
      requires Valid()
      modifies this
      ensures Valid() && Outcome(target, old(current), old(releases), old(next), sig)
      ensures sig == Raise ==>
              seen.saveBroke || status == None || status.value.version != target || status.value.stage == Failed
      ensures sig != Continue ==> trouble || target in old(releases) || old(next)
      ensures sig == Continue ==> !trouble
    {
      sig := PerformUpgrade(target);
      if sig == Raise && status.Some? && status.value.stage != Failed && status.value.version == target {
        sig := Save(Failed, target);
        if sig == Continue {
          sig := Raise;
        }
      }
    }

    /** What one attempt does to the host, however it ends. */
    ghost predicate Outcome(target: Version, currentBefore: Version, before: map<Version, bool>, nextBefore: bool,
                            sig: Signal)
      reads this
    {
      && seen.target == target
      && (sig == Continue ==> seen.progress == Ready && status == Some(Status(Succeeded, target)))
      && current == (if seen.progress == Before then currentBefore else target)
      && (seen.progress != Before ==> seen.staging == Staged)
      && (sig == Raise && seen.progress == Before ==> Undone(target, before))
      && (sig == Raise ==> (next <==> nextBefore || seen.linkLeft))
      && Untouchable(target, before, nextBefore, sig)
      && forall v :: v != target ==> (v in releases <==> v in before) && (v in releases ==> releases[v] == before[v])
    }

    /** A failure before the switch: removal of the staged copy was tried, the services were asked to start again if
        they had been asked to stop, and the target's directory is left exactly when the copy broke off part-way or
        its removal failed. */
    ghost predicate Undone(target: Version, before: map<Version, bool>)
      reads this
    {
      && seen.staging != Staged && seen.services in {Untouched, Restarted}
      && (target in releases <==> target in before || seen.staging in {Partial, Stuck})
    }

    /** Where an attempt that raised stands, told by its flags. */
    ghost predicate Reached(target: Version, before: map<Version, bool>, staged: bool, stopped: bool, switched: bool)
      reads this
    {
      && staged == (seen.staging == Staged) && stopped == (seen.services != Untouched)
        && switched == (seen.progress != Before)
      && seen.staging in {Unstaged, Partial, Staged}
      && (stopped ==> staged) && (switched ==> stopped)
        && (stopped && !switched ==> seen.services in {Stopping, Down, Secured})
      && (seen.staging == Unstaged ==> releases == before)
      && (seen.staging == Partial ==> target !in before && releases == before[target := false])
      && (seen.staging == Staged ==> target !in before && releases == before[target := true])
    }

    /** A directory of the target's name, or a left-over switch file, makes the attempt fail: the first before any
        service is stopped, the second only at the switch. */
    ghost predicate Untouchable(target: Version, before: map<Version, bool>, nextBefore: bool, sig: Signal)
      reads this
    {
      && (target in before ==>
        sig != Continue && seen.services == Untouched && seen.progress == Before && releases == before)
      && (nextBefore ==> sig != Continue && seen.progress == Before && next)
    }
  }

  // ----- Any number of attempts -----

  /** Every switch guarded, every start of the release then in use and at most one after a switch, every reported
      success earned. */
  ghost predicate Safe(origin: Version, trace: seq<Event>) {
    && (forall i: nat :: i < |trace| && trace[i].Switched? ==> exists j, k :: Covers(trace, j, k, i))
    && (forall i: nat :: i < |trace| && Starts(trace[i]) ==> trace[i].version == CurrentAfter(origin, trace[..i]))
    && (forall a: nat, b: nat, c: nat ::
          a < b < c < |trace| && trace[a].Switched? && trace[b].StartAsked? && SameAttempt(trace, a, c) ==>
            !trace[c].StartAsked?)
    && (forall i: nat :: i < |trace| && trace[i].Saved? && trace[i].stage == Succeeded ==>
          exists a, b, c :: Earned(trace, trace[i].version, a, b, c, i))
  }

  lemma AcceptableIsSafe(origin: Version, trace: seq<Event>)
    requires Acceptable(origin, trace)
    ensures Safe(origin, trace)
  {
    hide Acceptable, Scan, Covers, Earned, CurrentAfter;
    forall i: nat | i < |trace| && trace[i].Switched? ensures exists j, k :: Covers(trace, j, k, i) {
      SwitchesGuarded(origin, trace, i);
    }
    forall i: nat | i < |trace| && Starts(trace[i]) ensures trace[i].version == CurrentAfter(origin, trace[..i]) {
      StartsNameCurrent(origin, trace, i);
    }
    forall a: nat, b: nat, c: nat | a < b < c < |trace| && trace[a].Switched? && trace[b].StartAsked?
      && SameAttempt(trace, a, c)
      ensures !trace[c].StartAsked?
    {
      OneStartAfterSwitch(origin, trace, a, b, c);
    }
    forall i: nat | i < |trace| && trace[i].Saved? && trace[i].stage == Succeeded
      ensures exists a, b, c :: Earned(trace, trace[i].version, a, b, c, i)
    {
      SuccessEarned(origin, trace, i);
    }
  }

  /** The helper starts again (`serve`): an operation that nobody is working on any more is reported as failed. */
  method Serve(h: Host, busy: bool) returns (sig: Signal)
    requires h.Valid()
    modifies h`status, h`trace, h`seen, h`trouble
    ensures h.Valid()
    ensures sig == Continue && !busy && h.status.Some? ==> h.status.value.stage in {Succeeded, Failed}
  {
    sig := h.Attempted();
    if sig == Continue && !busy && h.status.Some? && h.status.value.stage !in {Succeeded, Failed} {
      sig := h.Save(Failed, h.status.value.version);
    }
  }

  /** An administrator removes a directory that is not in use, or the left-over switch file. */
  method Tidy(h: Host, unused: Version)
    requires h.Valid()
    modifies h`releases, h`next
    ensures h.Valid()
  {
    if unused != h.current {
      h.releases := h.releases - {unused};
    }
    h.next := false;
  }

  /** Over any number of upgrade attempts, process deaths, reboots and repairs, nothing unsafe happens, and the release
      in use is always a complete one. */
  method Lifetime(h: Host, length: nat)
    requires h.Valid()
    modifies h
    ensures h.Valid() && Safe(h.origin, h.trace)
    ensures h.current == CurrentAfter(h.origin, h.trace) && h.current in h.releases && h.releases[h.current]
  {
    for day := 0 to length
      invariant h.Valid()
    {
      var what: nat :| true;
      var target: Version :| true;
      if what == 0 {
        h.StartedByOthers();
      } else if what == 1 {
        var busy := *;
        var sig := Serve(h, busy);
      } else if what == 2 {
        Tidy(h, target);
      } else {
        var sig := h.Upgrade(target);
      }
    }
    AcceptableIsSafe(h.origin, h.trace);
    CurrentIsLastSwitched(h.origin, h.trace);
  }
}
