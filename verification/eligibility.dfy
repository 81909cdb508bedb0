// `install_locked`: a node's Actions eligibility label is withdrawn before its runtime files
// change, and published again only for the files and the configuration just verified. The
// ClickHouse installer changes the same template and restarts K3s while the label is on.

module Eligibility {
  import opened Base
  import T = Templates

  /** The runtime directory as a value. */
  datatype Files = Files(content: string)

  /** A node as the API server shows it: its identity and resource version, this installation's label, a running
      workspace probe, and the two eligibility labels. */
  datatype View = View(uid: nat, version: nat, owned: bool, probing: bool, ready: bool, workspace: bool)

  /** What a run is to establish: the downloaded runtime, the workspace profile, and the check of a generated
      configuration. */
  datatype Target = Target(staged: Files, profile: T.Profile, configOk: string -> bool)

  /** A publication: what it was to establish, and the template and the generated configuration that were verified. */
  datatype Published = Published(target: Target, template: string, config: string)

  /** A later look at a node: the same, or under a higher resource version. */
  predicate Later(before: View, after: View) {
    after == before || after.version > before.version
  }

  /** A publication and what is on disk: see `Node.Stands`. */
  ghost predicate Standing(p: Published, files: Option<Files>, template: string, source: string,
                           generate: string -> string, actions: T.Runtime, clickHouse: T.Runtime) {
    && files == Some(p.target.staged)
    && p.target.configOk(p.config) && p.config == generate(p.template)
    && T.Holds(actions, p.target.profile, p.template)
    && (template == p.template || T.ExtendFixed(clickHouse, p.template) == Some(template))
    && (source == p.template || source == template)
  }

  class Node {
    var view: View
    var files: Option<Files>
    /** The containerd template, the configuration K3s generated last, and the template it was generated from. */
    var template: string
    var generated: string
    ghost var source: string
    const generate: string -> string
    const actions: T.Runtime
    const clickHouse: T.Runtime
    ghost var published: Option<Published>
    /** Since this run began a step has failed by itself, or somebody else has changed the node. */
    ghost var disturbed: bool
    /** Since this run began a step has failed by itself. */
    ghost var failed: bool

    ghost predicate Valid()
      reads this
    {
      generated == generate(source) && (view.ready ==> published.Some? && Stands(published.value))
    }

    /** The publication still holds of the disk: exactly the verified files; the template is the published one, perhaps
        with the ClickHouse section; and the configuration in use was generated from one of these two. */
    ghost predicate Stands(p: Published)
      reads this
    {
      Standing(p, files, template, source, generate, actions, clickHouse)
    }

    /** What that means for the workloads: the files and the configuration in use are those that were verified; the
        latter can differ only by what the ClickHouse section adds, with the verified section still in the template. */
    ghost predicate InForce(p: Published)
      reads this
    {
      && files == Some(p.target.staged) && p.target.configOk(p.config)
      && T.Holds(actions, p.target.profile, template) && T.Holds(actions, p.target.profile, source)
      && generated == generate(source)
      && (generated == p.config || T.ExtendFixed(clickHouse, p.template) == Some(source))
      && (template == p.template ==> generated == p.config)
    }

    lemma StandingIsInForce()
      requires Valid() && view.ready && T.RuntimeOk(actions)
      ensures published.Some? && InForce(published.value)
    {
      if template != published.value.template {
        T.StaysVerbatim(actions, published.value.target.profile, clickHouse, published.value.template);
      }
    }

    constructor (view: View, template: string, generate: string -> string, actions: T.Runtime, clickHouse: T.Runtime)
      requires !view.ready
      ensures Valid() && this.view == view && this.template == template && this.generate == generate
      ensures this.actions == actions && this.clickHouse == clickHouse
    {
      this.view, this.template, this.generate, this.actions, this.clickHouse := view, template, generate, actions,
        clickHouse;
      files, generated, source, published, disturbed, failed := None, generate(template), template, None, false, false;
    }

    // ----- The world around a run -----

    /** Others: they change the node under a new resource version, replace it, or withdraw the label, but only this run
        publishes; and K3s may restart at any time, generating its configuration from the template. */
    method Interfere()
      requires Valid()
      modifies this`view, this`generated, this`source, this`disturbed
      ensures Valid() && (view.ready ==> old(view.ready)) && Later(old(view), view)
      ensures source == old(source) || source == template
      ensures old(disturbed) ==> disturbed
      ensures !disturbed ==> view == old(view)
    {
      var changed: bool := *;
      if changed {
        var uid: nat, owned: bool, probing: bool, keep: bool, workspace: bool :| true;
        view := View(uid, view.version + 1, owned, probing, keep && view.ready && uid == view.uid, workspace);
        disturbed := true;
      }
      var restarted: bool := *;
      if restarted {
        generated, source := generate(template), template;
      }
    }

    /** The template part of the ClickHouse installer's `apply`, ended anywhere. It holds the installation lock, as a
        server's Actions run does, so that the two never overlap; but it leaves the Actions label on. */
    method ApplyClickHouse() returns (sig: Signal)
      requires Valid() && clickHouse.begin != ""
      modifies this`view, this`generated, this`source, this`template, this`disturbed, this`failed
      ensures Valid() && (view.ready ==> old(view.ready))
      ensures sig == Continue ==> T.ExtendFixed(clickHouse, old(template)) == Some(template) && source == template
      ensures template == old(template) || T.ExtendFixed(clickHouse, old(template)) == Some(template)
      ensures old(disturbed) ==> disturbed
      ensures sig != Continue ==> disturbed || T.ExtendFixed(clickHouse, old(template)) == None
      ensures sig == Continue ==> failed == old(failed)
    {
      var updated := T.ExtendFixed(clickHouse, template);
      if updated == None {
        return Raise;
      }
      sig := Attempted();
      if sig != Continue {
        return;
      }
      if view.ready && template != published.value.template {
        T.FixedAgain(clickHouse, published.value.template);
      }
      sig := Command();
      var renamed := *;
      if sig == Continue || (sig == Crash && renamed) {
        template := updated.value;
      }
      if sig == Continue {
        sig := RestartK3s();
      }
    }

    // ----- Steps of a run -----

    method Read() returns (seen: View)
      requires Valid()
      modifies this`view, this`generated, this`source, this`disturbed
      ensures Valid() && seen == view && Later(old(view), view) && (view.ready ==> old(view.ready))
      ensures source == old(source) || source == template
      ensures old(disturbed) ==> disturbed
      ensures !disturbed ==> view == old(view)
    {
      Interfere();
      seen := view;
    }

    /** `kubectl label --resource-version`: applied only to the version that was read, and perhaps applied although the
        command then fails. */
    method Withdraw(seen: View) returns (sig: Signal)
      requires Valid() && Later(seen, view)
      modifies this`view, this`generated, this`source, this`disturbed, this`failed
      ensures Valid() && Later(seen, view) && (view.ready ==> old(view.ready))
      ensures sig == Continue ==> view == seen.(version := seen.version + 1, ready := false, workspace := false)
      ensures source == old(source) || source == template
      ensures old(disturbed) ==> disturbed
      ensures sig != Continue && seen == old(view) ==> disturbed
      ensures sig == Continue ==> failed == old(failed)
    {
      hide Standing, T.Extend, T.Holds, T.ExtendFixed, T.RuntimeOk;
      Interfere();
      assert view.version == seen.version ==> view == seen;
      hide Later;
      var tried := Command();
      var applied := *;
      if view.version == seen.version {
        sig := tried;
        if tried == Continue || applied {
          view := view.(version := view.version + 1, ready := false, workspace := false);
        }
      } else {
        sig := if tried == Crash then Crash else Raise;
      }
      LaterStill(seen, view);
    }

    lemma LaterStill(before: View, after: View)
      ensures before.version < after.version ==> Later(before, after)
      ensures before == after ==> Later(before, after)
    {
    }

    /** A command that may fail by itself. */
    method Command() returns (sig: Signal)
      modifies this`disturbed, this`failed
      ensures sig != Continue ==> disturbed
      ensures old(disturbed) ==> disturbed
      ensures sig == Continue ==> disturbed == old(disturbed) && failed == old(failed)
    {
      sig := *;
      disturbed, failed := disturbed || sig != Continue, failed || sig != Continue;
    }

    /** The same for the ready label. What is published is what stands on disk at that moment, and the configuration
        that was verified. */
    method Publish(seen: View, target: Target) returns (sig: Signal)
      requires Valid() && Later(seen, view) && !view.ready
      requires files == Some(target.staged) && T.Holds(actions, target.profile, template)
      requires source == template && target.configOk(generated)
      modifies this`view, this`generated, this`source, this`published, this`disturbed, this`failed
      ensures Valid()
      ensures sig == Continue ==> view.ready
      ensures view.ready ==> view == seen.(version := seen.version + 1, ready := true)
                             && published == Some(Published(target, template, generated))
                               && target.configOk(generated)
      ensures old(disturbed) ==> disturbed
      ensures sig != Continue && seen == old(view) ==> disturbed
      ensures sig == Continue ==> failed == old(failed)
    {
      Interfere();
      sig := Command();
      var applied := *;
      if view.version != seen.version {
        return if sig == Crash then Crash else Raise;
      }
      if sig == Continue || applied {
        view := view.(version := view.version + 1, ready := true);
        published := Some(Published(target, template, generated));
      }
    }

    /** A step of the run that changes nothing modelled here; the world goes on meanwhile. */
    method Attempted() returns (sig: Signal)
      requires Valid()
      modifies this`view, this`generated, this`source, this`disturbed, this`failed
      ensures Valid() && Later(old(view), view) && (view.ready ==> old(view.ready))
      ensures source == old(source) || source == template
      ensures old(disturbed) ==> disturbed
      ensures !disturbed ==> view == old(view)
      ensures sig != Continue ==> disturbed
      ensures sig == Continue ==> failed == old(failed)
    {
      Interfere();
      sig := Command();
    }

    /** `copytree` into a missing directory; a broken copy stays. Only ever done to a node that is not published. */
    method CopyRuntime(staged: Files) returns (sig: Signal)
      requires Valid() && !view.ready
      modifies this`files, this`view, this`generated, this`source, this`disturbed, this`failed
      ensures Valid() && !view.ready && (old(files).Some? ==> files == old(files))
      ensures sig == Continue && old(files).None? ==> files == Some(staged)
      ensures old(disturbed) ==> disturbed
      ensures !disturbed ==> view == old(view)
      ensures sig != Continue ==> disturbed
      ensures sig == Continue ==> failed == old(failed)
    {
      sig := Attempted();
      if files == None {
        var part: Files :| true;
        var begun := *;
        if sig == Continue {
          files := Some(staged);
        } else if begun {
          files := Some(part);
        }
      }
    }

    method WriteTemplate(updated: string) returns (sig: Signal)
      requires Valid() && !view.ready
      modifies this`template, this`view, this`generated, this`source, this`disturbed, this`failed
      ensures Valid() && !view.ready && (template == old(template) || template == updated)
      ensures sig == Continue ==> template == updated
      ensures old(disturbed) ==> disturbed
      ensures !disturbed ==> view == old(view)
      ensures sig != Continue ==> disturbed
      ensures sig == Continue ==> failed == old(failed)
    {
      sig := Attempted();
      var renamed := *;
      if sig == Continue || renamed {
        template := updated;
      }
    }

    method RestartK3s() returns (sig: Signal)
      requires Valid()
      modifies this`view, this`generated, this`source, this`disturbed, this`failed
      ensures Valid() && (view.ready ==> old(view.ready))
      ensures sig == Continue ==> source == template
      ensures source == old(source) || source == template
      ensures old(disturbed) ==> disturbed
      ensures !disturbed ==> view == old(view)
      ensures sig != Continue ==> disturbed
      ensures sig == Continue ==> failed == old(failed)
    {
      sig := Attempted();
      if sig == Continue {
        generated, source := generate(template), template;
      }
    }

    // ----- A run -----

    /** `install_locked`. However the run ends, a node that is still or again published is either untouched, or was just
        published for what is on its disk and for the configuration in use, which this run has verified. */
    method Install(target: Target) returns (sig: Signal, ghost first: View, ghost second: Option<View>)
      requires Valid()
      modifies this
      ensures Valid()
      ensures sig == Continue ==> view.ready && view.owned && !view.probing && target.configOk(generated)
                                  && published == Some(Published(target, template, generated))
                                  && T.Extend(actions, old(template), target.profile) == Some(template)
      ensures view.ready ==> Untouched(old(view.ready), old(files), old(template), old(published))
                             || (published == Some(Published(target, template, generated))
                                 && target.configOk(generated)
                                 && T.Extend(actions, old(template), target.profile) == Some(template))
      ensures T.Extend(actions, old(template), target.profile) == None ==>
              sig != Continue && template == old(template) && files == old(files)
      ensures !disturbed ==> first == old(view)
      ensures !first.owned || first.probing ==> second == None
      // Nothing is changed before a second look has found the node unchanged and not eligible.
      ensures files != old(files) || template != old(template) ==> second.Some? && Cleared(first, second.value)
      ensures view.ready && !Untouched(old(view.ready), old(files), old(template), old(published)) ==>
                Cleared(first, view.(ready := false))
      ensures !old(view).owned || old(view).probing ==>
                disturbed || (sig != Continue && view == old(view) && template == old(template) && files == old(files))
      ensures sig != Continue ==>
              || disturbed || !old(view).owned || old(view).probing || old(files) !in {None, Some(target.staged)}
              || T.Extend(actions, old(template), target.profile) == None
              || !target.configOk(generate(T.Extend(actions, old(template), target.profile).value))
      ensures sig == Continue ==> !failed
    {
      hide Standing, T.Extend, T.Holds, T.ExtendFixed, T.RuntimeOk;
      disturbed, failed := false, false;
      second := None;
      var node := Read();
      first := node;
      sig := Attempted();
      if sig != Continue {
        return;
      }
      var updated := T.Extend(actions, template, target.profile);
      if !node.owned || node.probing || updated == None {
        return Raise, first, second;
      }
      T.ExtendHolds(actions, template, target.profile);
      if node.ready || node.workspace {
        sig := Withdraw(node);
        if sig != Continue {
          return;
        }
      }
      sig := Attempted();
      if sig != Continue {
        return;
      }
      var again := Read();
      second := Some(again);
      if again.uid != node.uid || !again.owned || again.probing || again.ready || again.workspace {
        return Raise, first, second;
      }
      sig := Change(target, updated.value);
      if sig != Continue {
        return;
      }
      var third := Read();
      if third.uid != node.uid || !third.owned || third.probing || third.ready || third.workspace {
        return Raise, first, second;
      }
      sig := Publish(third, target);
    }

    /** The same node, owned, not being probed, and without either label. */
    ghost predicate Cleared(first: View, again: View) {
      again.uid == first.uid && again.owned && !again.probing && !again.ready && !again.workspace
    }

    ghost predicate Untouched(readyBefore: bool, filesBefore: Option<Files>, templateBefore: string,
                              publishedBefore: Option<Published>)
      reads this
    {
      readyBefore && files == filesBefore && template == templateBefore && published == publishedBefore
    }

    /** The files, the template, the restart, and the verification of the result. */
    method Change(target: Target, updated: string) returns (sig: Signal)
      requires Valid() && !view.ready
      modifies this`files, this`template, this`view, this`generated, this`source, this`disturbed, this`failed
      ensures Valid() && !view.ready
      ensures sig == Continue ==>
              files == Some(target.staged) && template == updated && source == template && target.configOk(generated)
      ensures old(disturbed) ==> disturbed
      ensures !disturbed ==> view == old(view)
      ensures sig != Continue ==>
                disturbed || old(files) !in {None, Some(target.staged)} || !target.configOk(generate(updated))
      ensures sig == Continue ==> failed == old(failed)
    {
      sig := CopyRuntime(target.staged);
      if sig != Continue {
        return;
      }
      if files != Some(target.staged) {
        return Raise;
      }
      if updated != template {
        sig := WriteTemplate(updated);
        if sig != Continue {
          return;
        }
      }
      sig := RestartK3s();
      if sig != Continue {
        return;
      }
      if !target.configOk(generated) || files != Some(target.staged) {
        return Raise;
      }
      sig := Attempted();
    }
  }

  /** Over any number of Actions and ClickHouse runs, each of which may fail or die at any step, and with K3s restarting
      at any time, the label stays true. `since` counts the runs up to the one that made the present publication: its
      target was verified, the publication is in force, and the configuration in use is the verified one itself unless a
      ClickHouse run came later. */
  method Lifetime(n: Node, runs: seq<Option<Target>>) returns (ghost since: nat)
    requires n.Valid() && T.RuntimeOk(n.actions) && n.clickHouse.begin != ""
    modifies n
    ensures n.Valid() && since <= |runs|
    ensures n.view.ready ==>
              && n.published.Some? && n.InForce(n.published.value)
              && (if since == 0 then n.published == old(n.published)
                  else runs[since - 1] == Some(n.published.value.target))
    ensures n.view.ready && (since > 0 || old(Unchanged(n))) && (forall i :: since <= i < |runs| ==> runs[i].Some?) ==>
              n.generated == n.published.value.config
  {
    hide Node.InForce, Node.Stands, T.Extend, T.ExtendFixed, T.RuntimeOk;
    since := 0;
    for i := 0 to |runs|
      invariant n.Valid() && since <= i
      invariant n.view.ready ==> if since == 0 then n.published == old(n.published)
                                 else runs[since - 1] == Some(n.published.value.target)
      invariant n.view.ready && (since > 0 || old(Unchanged(n))) && (forall k :: since <= k < i ==> runs[k].Some?) ==>
                  Unchanged(n)
    {
      n.Interfere();
      var sig: Signal;
      match runs[i] {
        case None =>
          sig := n.ApplyClickHouse();
        case Some(target) =>
          ghost var before := (n.view.ready, n.files, n.template, n.published);
          ghost var first, second;
          sig, first, second := n.Install(target);
          if !n.Untouched(before.0, before.1, before.2, before.3) {
            since := i + 1;
          }
      }
    }
    n.Interfere();
    if n.view.ready {
      n.StandingIsInForce();
    }
  }

  /** The template is still the published one. */
  ghost predicate Unchanged(n: Node)
    reads n
  {
    n.published.Some? && n.template == n.published.value.template
  }
}
