/** The resource that tells an update from a fresh install, and the one that registers the product. */
module InstalledVersion {
  import opened Resources
  import opened Interpreter
  import opened InstallerRuns

  datatype Version = NoVersion | Version(text: string)

  /** The product's uninstall key, with the version it holds. */
  datatype RegistryKey = NoKey | Key(version: Version)

  /** An installed version makes an install an update when it is another one than the product's. */
  predicate IsUpdate(installed: Version, product: string) {
    installed.Version? && installed.text != "" && installed.text != product
  }

  class Registry {
    var key: RegistryKey

    constructor (key: RegistryKey)
      ensures this.key == key
    {
      this.key := key;
    }
  }

  class Context {
    const Product: string
    var Installed: Version

    constructor (product: string)
      ensures Product == product && Installed == NoVersion
    {
      Product, Installed := product, NoVersion;
    }

    predicate Updating()
      reads this
    {
      IsUpdate(Installed, Product)
    }
  }

  /** What resources can see: nothing but `Updating` reads the version that the context knows. */
  datatype World = World(key: RegistryKey, updating: bool)

  ghost function Seen(registry: Registry, context: Context): World
    reads registry, context
  {
    World(registry.key, context.Updating())
  }

  function ReadOf(w: World, product: string): World {
    if w.key.NoKey? then w else w.(updating := IsUpdate(w.key.version, product))
  }

  /** Set, and Unset alike, of the resource that looks the installed version up. */
  method GetInstalledVersion(registry: Registry, context: Context)
    modifies context
    ensures Seen(registry, context) == ReadOf(old(Seen(registry, context)), context.Product)
    ensures registry.key.Key? ==> (context.Updating() <==> IsUpdate(registry.key.version, context.Product))
  {
    if registry.key.Key? {
      context.Installed := registry.key.version;
    }
  }

  function RegisteredOf(w: World, product: string): Probe { Answer(w.key == Key(Version(product))) }

  function RegisterOf(w: World, product: string): Effect<World> { Done(w.(key := Key(Version(product))), false) }

  function UnregisterOf(w: World): Effect<World> { if w.key.NoKey? then Threw(w) else Done(w.(key := NoKey), false) }

  /** Looking the version up leaves the world alone exactly when there is none registered, or it says what is known already. */
  lemma NeutralExactly(w: World, product: string)
    ensures ReadOf(w, product) == w <==> w.key.NoKey? || IsUpdate(w.key.version, product) == w.updating
  {}

  ghost predicate LooksUp(r: Resource<World>, product: string) {
    && (forall w :: r.test(w) == Answer(false))
    && (forall w :: r.set_(w) == Done(ReadOf(w, product), false))
    && (forall w :: r.unset(w) == Done(ReadOf(w, product), false))
  }

  ghost predicate Registers(r: Resource<World>, product: string) {
    && !r.RunAlways
    && (forall w :: r.test(w) == RegisteredOf(w, product))
    && (forall w :: r.set_(w) == RegisterOf(w, product))
    && (forall w :: r.unset(w) == UnregisterOf(w))
  }

  /** The worlds of a fresh install: no version, or this one, is registered. */
  predicate Fresh(w: World, product: string) {
    !w.updating && (w.key.NoKey? || w.key == Key(Version(product)))
  }

  lemma VersionLaws(r: Resource<World>, s: Setting<World>, product: string)
    requires forall w :: s.updating(w) == w.updating
    requires LooksUp(r, product) || Registers(r, product)
    ensures var realm := w => Fresh(w, product);
            && (Registers(r, product) ==> Lawful(r, realm) && Settles(r, realm, Now()))
            && (LooksUp(r, product) ==> Action(r, realm))
            && KeepsFresh(r, s.updating, realm) && Stays(r, realm)
  {
    var realm := w => Fresh(w, product);
    forall w | realm(w) ensures StaysAt(r, realm, w) && FreshAt(r, s.updating, w) {}
    if Registers(r, product) {
      forall w | realm(w) ensures LawfulAt(r.test, r.set_, r.unset, w) {}
      LawfulSettles(r, realm);
    } else {
      forall w | realm(w) ensures NeutralAt(r, w) && r.Due(w) { NeutralExactly(w, product); }
    }
  }

  /** A manifest of such resources is well behaved in the worlds of a fresh install, although the look-up writes into the context. */
  lemma VersionManifestWellBehaved(rs: seq<Resource<World>>, s: Setting<World>, product: string)
    requires s.reboots && forall w :: s.updating(w) == w.updating
    requires forall r :: r in rs ==> LooksUp(r, product) || Registers(r, product)
    ensures WellBehaved(rs, s, w => Fresh(w, product))
  {
    var realm := w => Fresh(w, product);
    forall r | r in rs
      ensures Settles(r, realm, Now()) || Neutral(r, realm)
      ensures Lawful(r, realm) || Neutral(r, realm)
      ensures KeepsFresh(r, s.updating, realm) && Stays(r, realm)
    {
      VersionLaws(r, s, product);
    }
    forall q, r | q in rs && r in rs ensures Keeps(q, r, realm, Now()) {
      forall w | realm(w) ensures KeepsAt(q, r, Now(), w) {}
    }
  }
}
