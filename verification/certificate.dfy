// `install_pair`: a dashboard certificate is installed as a new generation, switched to by one
// link, and recorded as applied once the dashboard has been restarted on it.

module Certificates {
  import opened Base

  datatype Pair = Pair(cert: string, key: string)

  /** A generation directory: its two files once both are written, and whether they passed validation in place. */
  datatype Folder = Folder(pair: Option<Pair>, checked: bool)

  datatype Result = Switched | Recovered | Unchanged

  /** What went wrong on the way, for the exact condition below: writing the record failed after a switch, the link
      went back, and the dashboard was restarted on it; and whether no step of the handler failed. */
  datatype Trouble = Trouble(recordFailed: bool, wentBack: bool, reloaded: bool, clean: bool)

  class Store {
    /** What the `current` link names. Names are numbers here, and no number is used twice. */
    var current: Option<nat>
    var folders: map<nat, Folder>
    /** The generation named by the `applied` file. */
    var applied: Option<nat>
    /** The generation the running dashboard has loaded; None while it does not run. */
    var loaded: Option<nat>
    var used: nat
    /** A step of this installation failed by itself. */
    ghost var failing: bool

    /** The link is absent or names a complete, validated generation. */
    ghost predicate Valid()
      reads this
    {
      && (current.Some? ==>
        current.value in folders && folders[current.value].pair.Some? && folders[current.value].checked)
      && (forall g :: g in folders ==> g < used)
      && (applied.Some? ==> applied.value < used) && (loaded.Some? ==> loaded.value < used)
    }

    /** What `applied` promises: if it names the current generation, a running dashboard has loaded that one. */
    ghost predicate Kept()
      reads this
    {
      applied.Some? && applied == current ==> loaded == None || loaded == current
    }

    constructor ()
      ensures Valid() && Kept() && current == None && folders == map[]
    {
      current, folders, applied, loaded, used, failing := None, map[], None, None, 0, false;
    }

    // ----- Single steps -----

    /** A step that may fail by itself. */
    method Attempted() returns (sig: Signal)
      modifies this`failing
      ensures old(failing) ==> failing
      ensures sig != Continue ==> failing
      ensures sig == Continue ==> failing == old(failing)
    {
      sig := *;
      failing := failing || sig != Continue;
    }

    method MakeFolder() returns (sig: Signal, g: nat)
      requires Valid()
      modifies this`folders, this`used, this`failing
      ensures Valid() && g !in old(folders) && g == old(used)
      ensures sig == Continue ==> folders == old(folders)[g := Folder(None, false)]
      ensures folders == old(folders) || folders == old(folders)[g := Folder(None, false)]
      ensures old(failing) ==> failing
      ensures sig != Continue ==> failing
      ensures sig == Continue ==> failing == old(failing)
    {
      sig := Attempted();
      var made := *;
      g := used;
      used := used + 1;
      if sig == Continue || made {
        folders := folders[g := Folder(None, false)];
      }
    }

    /** Both files, then their validation, in a folder that is not in use. */
    method Fill(g: nat, pair: Pair) returns (sig: Signal)
      requires Valid() && g in folders && current != Some(g)
      modifies this`folders, this`failing
      ensures Valid() && folders.Keys == old(folders).Keys && forall k :: k in folders && k != g ==>
              folders[k] == old(folders)[k]
      ensures sig == Continue ==> folders[g] == Folder(Some(pair), true)
      ensures old(failing) ==> failing
      ensures sig != Continue ==> failing
      ensures sig == Continue ==> failing == old(failing)
    {
      sig := Attempted();
      var written := *;
      if sig == Continue || written {
        folders := folders[g := Folder(Some(pair), false)];
      }
      if sig == Continue {
        sig := Attempted();
        if sig == Continue {
          folders := folders[g := Folder(Some(pair), true)];
        }
      }
    }

    /** `point_to`: a new link renamed over `current`. */
    method PointTo(g: nat) returns (sig: Signal)
      requires Valid() && g in folders && folders[g].pair.Some? && folders[g].checked
      modifies this`current, this`failing
      ensures Valid()
      ensures sig == Continue ==> current == Some(g)
      ensures sig == Raise ==> current == old(current)
      ensures current == old(current) || current == Some(g)
      ensures old(failing) ==> failing
      ensures sig != Continue ==> failing
      ensures sig == Continue ==> failing == old(failing)
    {
      sig := Attempted();
      var renamed := *;
      if sig == Continue || (sig == Crash && renamed) {
        current := Some(g);
      }
    }

    method Unlink() returns (sig: Signal)
      requires Valid()
      modifies this`current, this`failing
      ensures Valid()
      ensures sig == Continue ==> current == None
      ensures sig == Raise ==> current == old(current)
      ensures current == old(current) || current == None
      ensures old(failing) ==> failing
      ensures sig != Continue ==> failing
      ensures sig == Continue ==> failing == old(failing)
    {
      sig := Attempted();
      var removed := *;
      if sig == Continue || (sig == Crash && removed) {
        current := None;
      }
    }

    /** `mark_applied`: a new file renamed over `applied`. */
    method MarkApplied(g: nat) returns (sig: Signal)
      requires Valid() && g < used
      modifies this`applied, this`failing
      ensures Valid()
      ensures sig == Continue ==> applied == Some(g)
      ensures sig == Raise ==> applied == old(applied)
      ensures applied == old(applied) || applied == Some(g)
      ensures old(failing) ==> failing
      ensures sig != Continue ==> failing
      ensures sig == Continue ==> failing == old(failing)
    {
      sig := Attempted();
      var renamed := *;
      if sig == Continue || (sig == Crash && renamed) {
        applied := Some(g);
      }
    }

    /** `systemctl try-restart`: a dashboard that does not run is left alone; a failed restart changes nothing. */
    method Restart() returns (sig: Signal)
      modifies this`loaded, this`failing
      ensures sig == Continue ==> loaded == (if old(loaded) == None then None else current)
      ensures sig == Raise ==> loaded == old(loaded)
      ensures loaded == old(loaded) || (old(loaded).Some? && loaded == current)
      ensures old(failing) ==> failing
      ensures sig != Continue ==> failing
      ensures sig == Continue ==> failing == old(failing)
    {
      sig := Attempted();
      var done := *;
      if loaded.Some? && (sig == Continue || (sig == Crash && done)) {
        loaded := current;
      }
    }

    /** `shutil.rmtree` of a folder that is not in use; when it breaks off, something is left. */
    method Remove(g: nat) returns (sig: Signal)
      requires Valid() && g in folders && current != Some(g)
      modifies this`folders, this`failing
      ensures Valid() && folders.Keys <= old(folders).Keys && forall k :: k in old(folders) && k != g ==>
              k in folders && folders[k] == old(folders)[k]
      ensures sig == Continue ==> g !in folders
      ensures old(failing) ==> failing
      ensures sig != Continue ==> failing
      ensures sig == Continue ==> failing == old(failing)
    {
      sig := Attempted();
      folders := if sig == Continue then folders - {g} else folders[g := Folder(None, false)];
    }

    // ----- Installing -----

    /** The pair is already there: only a switch that was never recorded is completed. */
    method Recover(previous: nat, restart: bool) returns (sig: Signal, result: Result)
      requires Valid() && current == Some(previous)
      modifies this`applied, this`loaded, this`failing
      ensures Valid()
      ensures restart && old(Kept()) ==> Kept()
      ensures result != Switched
              && (sig == Continue ==> applied == current && (result == Unchanged <==> old(applied) == current))
      ensures result == Unchanged && sig == Continue ==> loaded == old(loaded)
      ensures sig == Continue && result == Recovered && restart ==> loaded == None || loaded == current
      ensures old(failing) ==> failing
      ensures sig != Continue ==> failing
      ensures !restart ==> loaded == old(loaded)
      ensures sig == Continue ==> failing == old(failing)
    {
      result := Recovered;
      sig := Attempted();
      if sig != Continue {
        return;
      }
      if applied == Some(previous) {
        return Continue, Unchanged;
      }
      if restart {
        sig := Restart();
        if sig != Continue {
          return;
        }
      }
      sig := MarkApplied(previous);
    }

    /** Link, restart, record. */
    method SwitchTo(g: nat, restart: bool) returns (sig: Signal, switched: bool, ghost recordFailed: bool)
      requires Valid() && g in folders && folders[g].pair.Some? && folders[g].checked && current != Some(g)
               && applied != Some(g)
      modifies this`current, this`applied, this`loaded, this`failing
      ensures Valid()
      ensures sig == Continue ==> current == applied == Some(g) && (restart ==> loaded == None || loaded == current)
      ensures current == old(current) || current == Some(g)
      ensures sig == Raise ==> current == (if switched then Some(g) else old(current)) && applied == old(applied)
      ensures sig == Raise && !switched ==> loaded == old(loaded)
      ensures sig == Raise && switched && restart ==>
              loaded == if recordFailed && old(loaded).Some? then Some(g) else old(loaded)
      ensures recordFailed ==> sig == Raise && switched
      ensures restart && old(Kept()) && sig != Raise ==> Kept()
      ensures old(failing) ==> failing
      ensures sig != Continue ==> failing
      ensures !restart ==> loaded == old(loaded)
      ensures sig == Continue ==> failing == old(failing)
    {
      recordFailed := false;
      sig := PointTo(g);
      switched := sig == Continue;
      if sig != Continue {
        return;
      }
      if restart {
        sig := Restart();
        if sig != Continue {
          return;
        }
      }
      sig := MarkApplied(g);
      recordFailed := sig == Raise;
    }

    /** The handler: the link goes back, the dashboard is restarted on it, and the new folder is removed. */
    method TakeBack(g: nat, previous: Option<nat>, switched: bool, restart: bool)
      returns (sig: Signal, ghost wentBack: bool, ghost reloaded: bool, ghost clean: bool)
      requires Valid() && g in folders && Some(g) != previous && current == if switched then Some(g) else previous
      requires previous.Some? ==>
              previous.value in folders && folders[previous.value].pair.Some? && folders[previous.value].checked
      modifies this`current, this`loaded, this`folders, this`failing
      ensures Valid() && sig != Continue && (current == previous || current == Some(g))
      ensures folders.Keys <= old(folders).Keys
      ensures switched ==> (wentBack <==> current == previous)
      ensures !switched ==> !wentBack && current == previous && loaded == old(loaded)
      ensures reloaded ==> wentBack && loaded == current
      ensures !reloaded ==> loaded == old(loaded)
      ensures clean ==> sig == Raise && current == previous && folders == old(folders) - {g}
      ensures clean && switched && restart && previous.Some? ==> loaded == None || loaded == current
      ensures failing
      ensures !restart ==> loaded == old(loaded)
    {
      hide Kept;
      wentBack, reloaded, clean := false, false, false;
      failing := false;
      if switched {
        if previous.Some? {
          sig := PointTo(previous.value);
        } else {
          sig := Unlink();
        }
        wentBack := current == previous;
        if sig != Continue {
          failing := true;
          return;
        }
        if restart && previous.Some? {
          ghost var before := loaded;
          sig := Restart();
          reloaded := loaded != before;
          if sig == Crash {
            failing := true;
            return;
          }
        }
      }
      sig := Remove(g);
      clean, failing := !failing, true;
      if sig == Continue {
        sig := Raise;
      }
    }

    /** Fill the folder and switch to it; on failure take the switch back. */
    method InstallInto(g: nat, pair: Pair, restart: bool) returns (sig: Signal, ghost trouble: Trouble)
      requires Valid() && g in folders && current != Some(g) && applied != Some(g) && loaded != Some(g)
      modifies this`current, this`applied, this`loaded, this`folders, this`failing
      ensures Valid() && folders.Keys <= old(folders).Keys
      ensures sig == Continue ==>
              current == applied == Some(g) && folders[g].pair == Some(pair) && !trouble.recordFailed
                && (restart ==> loaded == None || loaded == current)
      ensures sig != Continue ==> current == old(current) || current == Some(g)
      ensures restart && old(Kept()) ==> (!Kept() <==> Broken(old(current), old(applied), trouble))
      ensures trouble.clean ==>
                sig == Raise && current == old(current) && folders.Keys == old(folders.Keys) - {g}
                && forall k :: k in folders ==> folders[k] == old(folders)[k]
      ensures trouble.clean && restart && old(loaded) != None && current.Some? ==>
                loaded == old(loaded) || loaded == current
      ensures old(failing) ==> failing
      ensures sig != Continue ==> failing
      ensures !restart ==> loaded == old(loaded)
      ensures sig == Continue ==> failing == old(failing)
    {
      var previous := current;
      trouble := Trouble(false, false, false, false);
      var switched := false;
      sig := Fill(g, pair);
      if sig == Continue {
        ghost var recordFailed;
        sig, switched, recordFailed := SwitchTo(g, restart);
        trouble := trouble.(recordFailed := recordFailed);
      }
      if sig == Raise {
        ghost var wentBack, reloaded, clean;
        sig, wentBack, reloaded, clean := TakeBack(g, previous, switched, restart);
        trouble := trouble.(wentBack := wentBack, reloaded := reloaded, clean := clean);
      }
    }

    /** The link and the record name the previous generation again, but the dashboard still runs the new one. */
    ghost predicate Broken(before: Option<nat>, appliedBefore: Option<nat>, trouble: Trouble)
      reads this
    {
      && trouble.recordFailed && trouble.wentBack && !trouble.reloaded
      && before.Some? && appliedBefore == before && loaded.Some?
    }

    /** The current generation is this pair. */
    ghost predicate Holds(pair: Pair)
      requires Valid()
      reads this
    {
      current.Some? && folders[current.value].pair == Some(pair)
    }

    /** All generations but the new and the previous one are removed. */
    method Prune(g: nat, previous: Option<nat>) returns (sig: Signal)
      requires Valid() && current == Some(g)
      modifies this`folders, this`failing
      ensures Valid() && folders.Keys <= old(folders).Keys
      ensures folders[g] == old(folders)[g]
      ensures sig == Continue ==> folders.Keys <= {g} + Names(previous)
      ensures old(failing) ==> failing
      ensures sig != Continue ==> failing
      ensures sig == Continue ==> failing == old(failing)
    {
      var todo := folders.Keys - ({g} + Names(previous));
      sig := Continue;
      while todo != {}
        invariant Valid() && current == Some(g) && folders[g] == old(folders)[g] && sig == Continue
        invariant failing == old(failing)
        invariant folders.Keys <= old(folders).Keys && folders.Keys <= todo + {g} + Names(previous)
        invariant todo <= folders.Keys && g !in todo
        decreases todo
      {
        var k :| k in todo;
        sig := Remove(k);
        if sig != Continue {
          return;
        }
        todo := todo - {k};
      }
    }

    /** `install_pair`. */
    method Install(pair: Pair, restart: bool) returns (sig: Signal, result: Result, ghost trouble: Trouble)
      requires Valid()
      modifies this
      ensures Valid()
      ensures sig == Continue ==> current.Some? && folders[current.value].pair == Some(pair) && applied == current
      ensures sig == Continue && result == Switched ==> folders.Keys <= {current.value} + Names(old(current))
      ensures sig == Continue && result != Switched ==> current == old(current)
      ensures sig == Continue ==> (result == Switched <==> !old(Holds(pair)))
      ensures sig == Continue && old(Holds(pair)) ==> (result == Unchanged <==> old(applied) == old(current))
      ensures sig == Continue && result != Unchanged && restart ==> loaded == None || loaded == current
      ensures sig == Continue && result != Switched ==> folders == old(folders)
      ensures sig == Raise ==> current == old(current) || (current.Some? && current.value !in old(folders))
      ensures restart && old(Kept()) ==> (!Kept() <==> Broken(old(current), old(applied), trouble))
      // When no step of the handler fails, a failed installation leaves nothing behind.
      ensures trouble.clean ==> sig == Raise && current == old(current) && folders == old(folders)
      ensures trouble.clean && restart && old(loaded) != None && current.Some? ==>
                loaded == old(loaded) || loaded == current
      ensures !restart ==> loaded == old(loaded)
      ensures sig != Continue ==> failing
      ensures sig == Continue ==> !failing
    {
      failing := false;
      trouble := Trouble(false, false, false, false);
      var previous := current;
      if previous.Some? && folders[previous.value].pair == Some(pair) {
        sig, result := Recover(previous.value, restart);
        return;
      }
      result := Switched;
      var g;
      sig, g := MakeFolder();
      if sig != Continue {
        return;
      }
      sig, trouble := InstallInto(g, pair, restart);
      if sig != Continue {
        return;
      }
      sig := Prune(g, previous);
    }
  }

  /** Over any number of installations, process deaths, and stops and starts of the dashboard: the link is always
      absent or names a complete, validated generation; and unless recording a switch ever failed with an error, the
      record speaks the truth. */
  method Lifetime(s: Store, length: nat) returns (ghost recordFailed: bool)
    requires s.Valid() && s.Kept()
    modifies s
    ensures s.Valid() && (!recordFailed ==> s.Kept())
  {
    recordFailed := false;
    for day := 0 to length
      invariant s.Valid() && (!recordFailed ==> s.Kept())
    {
      var what: nat :| true;
      if what == 0 {
        s.loaded := None;
      } else if what == 1 && s.loaded == None {
        s.loaded := s.current;
      } else {
        var cert: string, key: string :| true;
        ghost var trouble;
        var sig, result;
        sig, result, trouble := s.Install(Pair(cert, key), true);
        recordFailed := recordFailed || trouble.recordFailed;
      }
    }
  }

  function Names(link: Option<nat>): set<nat> {
    if link.Some? then {link.value} else {}
  }
}
