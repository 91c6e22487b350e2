/** The EnableWindowsFeatures resource, which asks for a restart while it is being set, and whose effect waits for that restart. */
module WindowsFeatures {
  import opened Resources
  import opened Interpreter
  import opened InstallerRuns
  import opened Resumption

  /** State of one feature; the transitional ones become final when the machine restarts. */
  datatype Feature = Off | TurningOn | On | TurningOff

  /** The features Windows knows. */
  type Features = map<string, Feature>

  function Restarted(f: Feature): Feature {
    match f case TurningOn => On case TurningOff => Off case _ => f
  }

  function RestartAll(w: Features): Features {
    map f | f in w :: Restarted(w[f])
  }

  predicate Known(w: Features, names: seq<string>) {
    forall f :: f in names ==> f in w
  }

  predicate AllOn(w: Features, names: seq<string>) {
    forall f :: f in names ==> f in w && w[f] == On
  }

  /** A feature that the session does not know, or is not installed, fails the test. */
  function TestOf(w: Features, names: seq<string>): Probe {
    Answer(AllOn(w, names))
  }

  /** Turning features on or off takes effect at once, or at the restart when a feature needs one. */
  function Switched(w: Features, which: set<string>, on: bool, slow: set<string>): Features {
    map f | f in w :: if f !in which then w[f]
                      else if f in slow then (if on then TurningOn else TurningOff)
                      else if on then On else Off
  }

  function Missing(w: Features, names: seq<string>): set<string> {
    set f | f in names && f in w && w[f] != On
  }

  function Enabled(w: Features, names: seq<string>): set<string> {
    set f | f in names && f in w && w[f] == On
  }

  /** `slow` are the features whose switching needs a restart; DISM then reports one, which `ignore` suppresses. */
  function SetOf(w: Features, names: seq<string>, ignore: bool, slow: set<string>): Effect<Features> {
    if !Known(w, names) then Threw(w)
    else Done(Switched(w, Missing(w, names), true, slow), Missing(w, names) * slow != {} && !ignore)
  }

  function UnsetOf(w: Features, names: seq<string>, ignore: bool, slow: set<string>): Effect<Features> {
    if !Known(w, names) then Threw(w)
    else Done(Switched(w, Enabled(w, names), false, slow), Enabled(w, names) * slow != {} && !ignore)
  }

  class Dism {
    var state: Features
    const slow: set<string>

    constructor (state: Features, slow: set<string>)
      ensures this.state == state && this.slow == slow
    {
      this.state, this.slow := state, slow;
    }

    /** Switches features; tells whether the call ends with the exception that asks for a restart. */
    method Switch(which: set<string>, on: bool) returns (restartRequired: bool)
      modifies this`state
      ensures state == Switched(old(state), which, on, slow)
      ensures restartRequired <==> which * slow != {}
    {
      state := Switched(state, which, on, slow);
      restartRequired := which * slow != {};
    }
  }

  class EnableWindowsFeatures {
    const dism: Dism
    const Names: seq<string>
    const IgnoreRebootRequired: bool
    var RequiresReboot: bool

    constructor (dism: Dism, names: seq<string>, ignoreRebootRequired: bool, requiresReboot: bool)
      ensures this.dism == dism && Names == names && IgnoreRebootRequired == ignoreRebootRequired && RequiresReboot == requiresReboot
    {
      this.dism, Names, IgnoreRebootRequired, RequiresReboot := dism, names, ignoreRebootRequired, requiresReboot;
    }

    /** Asks for the state of every feature; true when all are installed, false when some are not or one is unknown. */
    method Test() returns (holds: bool)
      ensures TestOf(dism.state, Names) == Answer(holds)
    {
      var installed := 0;
      var i := 0;
      while i < |Names|
        invariant 0 <= installed <= i <= |Names|
        invariant Known(dism.state, Names[..i])
        invariant installed == i <==> AllOn(dism.state, Names[..i])
      {
        assert Names[..i + 1] == Names[..i] + [Names[i]];
        if Names[i] !in dism.state {
          assert Names[i] in Names;
          return false;
        }
        if dism.state[Names[i]] == On {
          installed := installed + 1;
        }
        i := i + 1;
      }
      assert Names[..i] == Names;
      return installed == |Names|;
    }

    /** Turns on what is missing; after the next restart at the latest all features are on.  The reboot flag goes on, and stays
        on, when Windows reports that a restart is needed, and then the test fails until it has happened. */
    method Set() returns (threw: bool)
      modifies dism`state, this`RequiresReboot
      ensures threw <==> !Known(old(dism.state), Names)
      ensures !threw ==> AllOn(RestartAll(dism.state), Names)
      ensures RequiresReboot && !old(RequiresReboot) ==> !AllOn(dism.state, Names) && !IgnoreRebootRequired
      ensures !threw && !AllOn(dism.state, Names) && !IgnoreRebootRequired ==> RequiresReboot
      ensures forall f :: f in old(dism.state) && f !in Names ==> f in dism.state && dism.state[f] == old(dism.state)[f]
      ensures var effect := SetOf(old(dism.state), Names, IgnoreRebootRequired, dism.slow);
              && dism.state == effect.world && threw == effect.Threw?
              && RequiresReboot == (old(RequiresReboot) || (effect.Done? && effect.asks))
    {
      if Known(dism.state, Names) { SetSettles(dism.state, Names, IgnoreRebootRequired, dism.slow); }
      threw := Do(true);
    }

    method Unset() returns (threw: bool)
      modifies dism`state, this`RequiresReboot
      ensures var effect := UnsetOf(old(dism.state), Names, IgnoreRebootRequired, dism.slow);
              && dism.state == effect.world && threw == effect.Threw?
              && RequiresReboot == (old(RequiresReboot) || (effect.Done? && effect.asks))
    {
      threw := Do(false);
    }

    method Do(on: bool) returns (threw: bool)
      modifies dism`state, this`RequiresReboot
      ensures var effect := if on then SetOf(old(dism.state), Names, IgnoreRebootRequired, dism.slow)
                            else UnsetOf(old(dism.state), Names, IgnoreRebootRequired, dism.slow);
              && dism.state == effect.world && threw == effect.Threw?
              && RequiresReboot == (old(RequiresReboot) || (effect.Done? && effect.asks))
    {
      if |Names| == 0 {
        assert Switched(dism.state, {}, on, dism.slow) == dism.state;
        return false;
      }
      if !Known(dism.state, Names) {
        return true;
      }
      var which := if on then Missing(dism.state, Names) else Enabled(dism.state, Names);
      if which != {} {
        var restartRequired := dism.Switch(which, on);
        if restartRequired {
          RequiresReboot := RequiresReboot || !IgnoreRebootRequired;
        }
      } else {
        assert Switched(dism.state, which, on, dism.slow) == dism.state;
      }
      return false;
    }
  }

  // ---------------------------------------------------------------- what contract it keeps

  /** After Set the test holds at once exactly when nothing missing needed a restart, and in any case after the next one. */
  lemma SetSettles(w: Features, names: seq<string>, ignore: bool, slow: set<string>)
    requires Known(w, names)
    ensures var w' := SetOf(w, names, ignore, slow).world;
            && (TestOf(w', names) == Answer(true) <==> Missing(w, names) * slow == {})
            && TestOf(RestartAll(w'), names) == Answer(true)
  {
    var w' := SetOf(w, names, ignore, slow).world;
    var waiting := Missing(w, names) * slow;
    if f :| f in waiting {
      assert w'[f] == TurningOn;
    } else {
      forall f | f in names ensures w'[f] == On {
        assert f !in waiting;
      }
    }
  }

  /** Immediately, with an Unset that takes it back exactly, it keeps the contract only where a missing feature is off and switches
      without a restart, and none of its features was on before: Unset turns off all of them. */
  lemma LawfulExactly(w: Features, names: seq<string>, ignore: bool, slow: set<string>)
    requires Known(w, names) && !AllOn(w, names)
    ensures LawfulAt(v => TestOf(v, names), v => SetOf(v, names, ignore, slow), v => UnsetOf(v, names, ignore, slow), w)
       <==> forall f :: f in names ==> w[f] == Off && f !in slow
  {
    var w' := SetOf(w, names, ignore, slow).world;
    var back := UnsetOf(w', names, ignore, slow).world;
    SetSettles(w, names, ignore, slow);
    if forall f :: f in names ==> w[f] == Off && f !in slow {
      assert Missing(w, names) * slow == {};
      assert Enabled(w', names) * slow == {};
      assert back == w;
    } else if Missing(w, names) * slow == {} {
      var f :| f in names && !(w[f] == Off && f !in slow);
      assert w'[f] == On;
      if f !in slow { assert back[f] == Off != w[f]; } else { assert f in Enabled(w', names) * slow; assert back[f] == TurningOff; }
    }
  }

  /** A resource of the installer whose code is this one. */
  ghost predicate Implements(r: Resource<Features>, names: seq<string>, ignore: bool, slow: set<string>) {
    && !r.RunAlways
    && (forall w :: r.test(w) == TestOf(w, names))
    && (forall w :: r.set_(w) == SetOf(w, names, ignore, slow))
    && (forall w :: r.unset(w) == UnsetOf(w, names, ignore, slow))
  }

  ghost predicate EnablesFeatures(r: Resource<Features>, names: seq<string>, slow: set<string>) {
    exists own, ignore :: Implements(r, own, ignore, slow) && forall f :: f in own ==> f in names
  }

  /** A setting for manifests of features: always fresh, and restarts finish what is pending. */
  ghost predicate FeatureSetting(s: Setting<Features>) {
    s.reboots && (forall w :: !s.updating(w)) && (forall w :: s.restart(w) == RestartAll(w))
  }

  lemma KeepsFeatures(q: Resource<Features>, x: Resource<Features>, names: seq<string>, slow: set<string>,
                      realm: Features -> bool, later: Features -> Features)
    requires EnablesFeatures(q, names, slow) && EnablesFeatures(x, names, slow)
    requires (forall w :: later(w) == w) || (forall w :: later(w) == RestartAll(w))
    ensures Keeps(q, x, realm, later)
  {
    var qs, qi :| Implements(q, qs, qi, slow);
    var xs, xi :| Implements(x, xs, xi, slow);
    forall w | realm(w) ensures KeepsAt(q, x, later, w) {
      if q.set_(w).Done? && x.test(later(w)) == Answer(true) {
        var w' := q.set_(w).world;
        forall f | f in xs ensures f in later(w') && later(w')[f] == On {
          assert f in later(w) && later(w)[f] == On;
        }
      }
    }
  }

  lemma FeatureLaws(r: Resource<Features>, s: Setting<Features>, names: seq<string>, slow: set<string>, realm: Features -> bool)
    requires FeatureSetting(s) && EnablesFeatures(r, names, slow)
    requires forall w :: realm(w) <==> Known(w, names)
    ensures Settles(r, realm, s.restart) && NeverThrows(r, realm) && Survives(r, s.restart, realm)
    ensures KeepsFresh(r, s.updating, realm) && Stays(r, realm)
  {
    var own, ignore :| Implements(r, own, ignore, slow) && forall f :: f in own ==> f in names;
    forall w | realm(w)
      ensures SettlesAt(r, s.restart, w) && CalmAt(r, w) && SurvivesAt(r, s.restart, w) && StaysAt(r, realm, w) && FreshAt(r, s.updating, w)
    {
      assert Known(w, own);
      SetSettles(w, own, ignore, slow);
    }
  }

  /** Any manifest of such resources can be resumed, so it is finished by re-running, with each resource set at most once. */
  lemma FeatureManifestResumable(rs: seq<Resource<Features>>, s: Setting<Features>, names: seq<string>, slow: set<string>)
    requires FeatureSetting(s) && forall r :: r in rs ==> EnablesFeatures(r, names, slow)
    ensures Resumable(rs, s, w => Known(w, names))
  {
    var realm := w => Known(w, names);
    forall r | r in rs
      ensures Settles(r, realm, s.restart) && NeverThrows(r, realm) && Survives(r, s.restart, realm)
      ensures KeepsFresh(r, s.updating, realm) && Stays(r, realm)
    {
      FeatureLaws(r, s, names, slow, realm);
    }
    forall q, r | q in rs && r in rs ensures Keeps(q, r, realm, Now()) && Keeps(q, r, realm, s.restart) {
      KeepsFeatures(q, r, names, slow, realm, Now());
      KeepsFeatures(q, r, names, slow, realm, s.restart);
    }
    forall w ensures RestartStaysAt(s, realm, w) {}
  }
}
