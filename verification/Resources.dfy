/** Installer resources over an abstract world `W`.  `W` stands for everything the resources of a
    manifest can read or change: files, registry, environment, and what the configuration context
    knows of an installed version. */
module Resources {

  /** Outcome of asking a resource whether it is in its desired state. */
  datatype Probe = Answer(holds: bool) | ProbeThrew

  /** Outcome of Set or Unset; a throwing call still leaves some world behind.  `asks` is whether the call turned the
      resource's reboot flag on, as enabling a Windows feature does. */
  datatype Effect<W> = Done(world: W, asks: bool) | Threw(world: W)

  datatype UpdateAction = NoAction | Install | Skip

  class Resource<W> {
    const Id: string
    const Enabled: bool
    const NoUninstall: bool
    const RebootInManifest: bool
    const RunAlwaysFirst: bool
    const RunAlways: bool
    const OnUpdate: UpdateAction
    const test: W -> Probe
    const set_: W -> Effect<W>
    const unset: W -> Effect<W>
    var DependsOn: seq<string>
    /** Starts as the manifest says and may be turned on by Set and Unset. */
    var RequiresReboot: bool

    constructor (id: string, dependsOn: seq<string>, enabled: bool, noUninstall: bool, requiresReboot: bool,
                 runAlwaysFirst: bool, runAlways: bool, onUpdate: UpdateAction,
                 test: W -> Probe, set_: W -> Effect<W>, unset: W -> Effect<W>)
      ensures Id == id && DependsOn == dependsOn && Enabled == enabled && NoUninstall == noUninstall
      ensures RebootInManifest == RequiresReboot == requiresReboot
      ensures RunAlwaysFirst == runAlwaysFirst && RunAlways == runAlways
      ensures OnUpdate == onUpdate && this.test == test && this.set_ == set_ && this.unset == unset
    {
      Id, DependsOn, Enabled, NoUninstall := id, dependsOn, enabled, noUninstall;
      RebootInManifest, RequiresReboot, RunAlwaysFirst, RunAlways := requiresReboot, requiresReboot, runAlwaysFirst, runAlways;
      OnUpdate, this.test, this.set_, this.unset := onUpdate, test, set_, unset;
    }

    /** An install that is no update calls Set in this world. */
    predicate Due(w: W) {
      RunAlways || test(w) == Answer(false)
    }
  }

  // ---------------------------------------------------------------- laws, on the worlds that can arise

  // A realm is the set of worlds that can arise; the laws are asked for there only.  `later` is what a law may wait for:
  // nothing (`Now`), or a restart of the machine and with it of the program.

  function Now<W>(): W -> W { w => w }

  /** No call leads out of the realm. */
  ghost predicate StaysAt<W>(r: Resource<W>, realm: W -> bool, w: W) {
    realm(w) ==> realm(r.set_(w).world) && realm(r.unset(w).world)
  }

  ghost predicate Stays<W(!new)>(r: Resource<W>, realm: W -> bool) {
    forall w :: StaysAt(r, realm, w)
  }

  /** The contract a desired-state resource is meant to keep: where its test fails, Set either makes the
      test hold in a way that Unset takes back exactly, or throws and leaves the world as it was. */
  ghost predicate LawfulAt<W>(test: W -> Probe, set_: W -> Effect<W>, unset: W -> Effect<W>, w: W) {
    test(w) == Answer(false) ==>
      match set_(w)
      case Done(w', _) => test(w') == Answer(true) && unset(w') == Done(w, false)
      case Threw(w') => w' == w
  }

  ghost predicate LawfulCode<W(!new)>(test: W -> Probe, set_: W -> Effect<W>, unset: W -> Effect<W>, realm: W -> bool) {
    forall w :: realm(w) ==> LawfulAt(test, set_, unset, w)
  }

  /** A lawful resource: its code keeps the contract, and it is not forced to run. */
  ghost predicate Lawful<W(!new)>(r: Resource<W>, realm: W -> bool) {
    !r.RunAlways && LawfulCode(r.test, r.set_, r.unset, realm)
  }

  /** The weaker contract of a resource whose effect may need a restart: where its test fails, Set makes it hold after
      `later`, or throws and leaves the world as it was. */
  ghost predicate SettlesAt<W>(r: Resource<W>, later: W -> W, w: W) {
    r.test(w) == Answer(false) ==>
      match r.set_(w)
      case Done(w', _) => r.test(later(w')) == Answer(true)
      case Threw(w') => w' == w
  }

  ghost predicate Settles<W(!new)>(r: Resource<W>, realm: W -> bool, later: W -> W) {
    !r.RunAlways && forall w :: realm(w) ==> SettlesAt(r, later, w)
  }

  ghost predicate NeutralAt<W>(r: Resource<W>, w: W) {
    && r.test(w).Answer?
    && (r.set_(w) == Threw(w) || (r.set_(w) == Done(w, false) && r.unset(w) == Done(w, false)))
  }

  /** A resource that leaves the world alone: it checks something, or does something outside the world
      (start a program, stop a process). */
  ghost predicate Neutral<W(!new)>(r: Resource<W>, realm: W -> bool) {
    forall w :: realm(w) ==> NeutralAt(r, w)
  }

  ghost predicate InertAt<W>(r: Resource<W>, w: W) {
    r.unset(w) == Done(w, false)
  }

  /** A neutral resource whose Unset does nothing and never throws. */
  ghost predicate Inert<W(!new)>(r: Resource<W>, realm: W -> bool) {
    Neutral(r, realm) && forall w :: realm(w) ==> InertAt(r, w)
  }

  /** A neutral resource that is set on every run, because its test never holds or is ignored. */
  ghost predicate Action<W(!new)>(r: Resource<W>, realm: W -> bool) {
    Neutral(r, realm) && forall w :: realm(w) ==> r.Due(w)
  }

  ghost predicate KeepsAt<W>(r: Resource<W>, x: Resource<W>, later: W -> W, w: W) {
    r.test(w) == Answer(false) && r.set_(w).Done? && x.test(later(w)) == Answer(true) ==>
      x.test(later(r.set_(w).world)) == Answer(true)
  }

  /** Setting `r` where its test fails does not spoil what `x` has achieved, or will have after `later`. */
  ghost predicate Keeps<W(!new)>(r: Resource<W>, x: Resource<W>, realm: W -> bool, later: W -> W) {
    forall w :: realm(w) ==> KeepsAt(r, x, later, w)
  }

  ghost predicate CalmAt<W>(r: Resource<W>, w: W) {
    r.test(w).Answer? && (r.Due(w) ==> r.set_(w).Done?)
  }

  ghost predicate NeverThrows<W(!new)>(r: Resource<W>, realm: W -> bool) {
    forall w :: realm(w) ==> CalmAt(r, w)
  }

  ghost predicate FreshAt<W>(r: Resource<W>, updating: W -> bool, w: W) {
    !updating(w) ==> !updating(r.set_(w).world)
  }

  /** Running the resource never turns a fresh install into an update. */
  ghost predicate KeepsFresh<W(!new)>(r: Resource<W>, updating: W -> bool, realm: W -> bool) {
    forall w :: realm(w) ==> FreshAt(r, updating, w)
  }

  /** What held before a restart holds after it. */
  ghost predicate SurvivesAt<W>(r: Resource<W>, restart: W -> W, w: W) {
    r.test(w) == Answer(true) ==> r.test(restart(w)) == Answer(true)
  }

  ghost predicate Survives<W(!new)>(r: Resource<W>, restart: W -> W, realm: W -> bool) {
    forall w :: realm(w) ==> SurvivesAt(r, restart, w)
  }
}
