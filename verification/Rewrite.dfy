/** The proxy's rewriting of bind-mount sources inside Docker API bodies: the same code turns client
    paths into WSL paths in requests and back in responses. */
module Rewrite {
  import opened Common
  import opened Text
  import opened Paths

  datatype Json =
    | Null
    | Bool(b: bool)
    | Number(text: string)
    | Str(s: string)
    | Arr(items: seq<Json>)
    | Obj(fields: map<string, Json>)

  // ---------------------------------------------------------------- the rewriters

  /** What a rewriter does to the value of one field, when the object has it. */
  function Update(x: Json, key: string, u: Json -> Json): Json {
    if x.Obj? && key in x.fields then Obj(x.fields[key := u(x.fields[key])]) else x
  }

  function MapItems(items: seq<Json>, u: Json -> Json): (r: seq<Json>)
    ensures |r| == |items|
    ensures forall i :: 0 <= i < |items| ==> r[i] == u(items[i])
  {
    seq(|items|, i requires 0 <= i < |items| => u(items[i]))
  }

  function Elements(x: Json, u: Json -> Json): Json {
    if x.Arr? then Arr(MapItems(x.items, u)) else x
  }

  function Bind(x: Json, f: string -> string): Json {
    if x.Str? then Str(f(x.s)) else x
  }

  predicate IsBindMount(x: Json) {
    x.Obj? && "Type" in x.fields && x.fields["Type"] == Str("bind")
  }

  function Mount(x: Json, f: string -> string): Json {
    if IsBindMount(x) then Update(x, "Source", v => Bind(v, f)) else x
  }

  function Mounts(x: Json, f: string -> string): Json {
    Elements(x, v => Mount(v, f))
  }

  function HostConfig(x: Json, f: string -> string): Json {
    Update(Update(x, "Binds", v => Elements(v, b => Bind(b, f))), "Mounts", v => Mounts(v, f))
  }

  function Container(x: Json, f: string -> string): Json {
    Update(Update(x, "HostConfig", v => HostConfig(v, f)), "Mounts", v => Mounts(v, f))
  }

  function ContainerSpec(x: Json, f: string -> string): Json {
    Update(x, "Mounts", v => Mounts(v, f))
  }

  function TaskSpec(x: Json, f: string -> string): Json {
    Update(x, "ContainerSpec", v => ContainerSpec(v, f))
  }

  function ServiceSpec(x: Json, f: string -> string): Json {
    Update(x, "TaskTemplate", v => TaskSpec(v, f))
  }

  function Service(x: Json, f: string -> string): Json {
    Update(x, "Spec", v => ServiceSpec(v, f))
  }

  function Task(x: Json, f: string -> string): Json {
    Update(x, "Spec", v => TaskSpec(v, f))
  }

  /** The body kinds the proxy knows; container summaries and container configurations are rewritten alike. */
  datatype Kind = ContainerBody | ServiceSpecBody | ServiceBody | TaskBody

  function RewriteObject(kind: Kind, x: Json, f: string -> string): Json {
    match kind
    case ContainerBody => Container(x, f)
    case ServiceSpecBody => ServiceSpec(x, f)
    case ServiceBody => Service(x, f)
    case TaskBody => Task(x, f)
  }

  // ---------------------------------------------------------------- positions in a tree

  datatype Step = Field(name: string) | Item(index: nat)

  function At(x: Json, p: seq<Step>): Option<Json>
    decreases |p|
  {
    if p == [] then Some(x)
    else match p[0]
      case Field(k) => if x.Obj? && k in x.fields then At(x.fields[k], p[1..]) else None
      case Item(i) => if x.Arr? && i < |x.items| then At(x.items[i], p[1..]) else None
  }

  /** A node without what is below it: its kind, its keys or its length, or its value when it is a leaf. */
  function Node(x: Json): Json {
    match x
    case Arr(items) => Arr(seq(|items|, _ => Null))
    case Obj(fields) => Obj(map k | k in fields :: Null)
    case _ => x
  }

  function NodeAt(x: Json, p: seq<Step>): Option<Json> {
    match At(x, p)
    case None => None
    case Some(v) => Some(Node(v))
  }

  /** Element of the array of strings at `list`. */
  predicate BindSite(list: seq<Step>, p: seq<Step>) {
    |p| == |list| + 1 && list <= p && p[|list|].Item?
  }

  /** Source of a bind mount in the array at `list`. */
  predicate MountSite(x: Json, list: seq<Step>, p: seq<Step>) {
    && |p| == |list| + 2 && list <= p && p[|list|].Item? && p[|list| + 1] == Field("Source")
    && At(x, p[..|list| + 1] + [Field("Type")]) == Some(Str("bind"))
  }

  /** The positions of host paths in a body. */
  predicate Site(kind: Kind, x: Json, p: seq<Step>) {
    match kind
    case ContainerBody =>
      || BindSite([Field("HostConfig"), Field("Binds")], p)
      || MountSite(x, [Field("HostConfig"), Field("Mounts")], p)
      || MountSite(x, [Field("Mounts")], p)
    case ServiceSpecBody =>
      MountSite(x, [Field("TaskTemplate"), Field("ContainerSpec"), Field("Mounts")], p)
    case ServiceBody =>
      MountSite(x, [Field("Spec"), Field("TaskTemplate"), Field("ContainerSpec"), Field("Mounts")], p)
    case TaskBody =>
      MountSite(x, [Field("Spec"), Field("ContainerSpec"), Field("Mounts")], p)
  }

  /** `y` is `x` at position `p`, except that a string at a site has gone through `f`. */
  predicate EditedAt(x: Json, y: Json, site: bool, f: string -> string, p: seq<Step>) {
    if site && At(x, p).Some? && At(x, p).value.Str? then
      At(y, p) == Some(Str(f(At(x, p).value.s)))
    else
      NodeAt(y, p) == NodeAt(x, p)
  }

  // ---------------------------------------------------------------- the rewriters edit their sites and nothing else

  lemma UpdateAt(x: Json, key: string, u: Json -> Json, p: seq<Step>)
    ensures if p != [] && p[0] == Field(key) then
              if x.Obj? && key in x.fields then
                && At(x, p) == At(x.fields[key], p[1..])
                && At(Update(x, key, u), p) == At(u(x.fields[key]), p[1..])
              else At(x, p) == None && At(Update(x, key, u), p) == None
            else NodeAt(Update(x, key, u), p) == NodeAt(x, p)
    ensures p != [] && p[0] != Field(key) ==> At(Update(x, key, u), p) == At(x, p)
  {
    if x.Obj? && key in x.fields {
      assert Node(Update(x, key, u)).fields == Node(x).fields;
    }
  }

  lemma ElementsAt(x: Json, u: Json -> Json, p: seq<Step>)
    ensures if p != [] && p[0].Item? && x.Arr? && p[0].index < |x.items| then
              && At(x, p) == At(x.items[p[0].index], p[1..])
              && At(Elements(x, u), p) == At(u(x.items[p[0].index]), p[1..])
            else NodeAt(Elements(x, u), p) == NodeAt(x, p)
  {}

  lemma BindEdits(x: Json, f: string -> string, p: seq<Step>)
    ensures EditedAt(x, Bind(x, f), p == [], f, p)
  {}

  lemma BindsEdit(x: Json, f: string -> string, p: seq<Step>)
    ensures EditedAt(x, Elements(x, b => Bind(b, f)), BindSite([], p), f, p)
  {
    ElementsAt(x, b => Bind(b, f), p);
    if p != [] && p[0].Item? && x.Arr? && p[0].index < |x.items| {
      BindEdits(x.items[p[0].index], f, p[1..]);
    }
  }

  lemma MountEdits(x: Json, f: string -> string, p: seq<Step>)
    ensures EditedAt(x, Mount(x, f), p == [Field("Source")] && At(x, [Field("Type")]) == Some(Str("bind")), f, p)
  {
    if IsBindMount(x) {
      UpdateAt(x, "Source", v => Bind(v, f), p);
      if p != [] && p[0] == Field("Source") && "Source" in x.fields {
        BindEdits(x.fields["Source"], f, p[1..]);
      }
    }
  }

  lemma MountsEdit(x: Json, f: string -> string, p: seq<Step>)
    ensures EditedAt(x, Mounts(x, f), MountSite(x, [], p), f, p)
  {
    ElementsAt(x, v => Mount(v, f), p);
    if p != [] && p[0].Item? && x.Arr? && p[0].index < |x.items| {
      MountEdits(x.items[p[0].index], f, p[1..]);
      if |p| == 2 {
        assert p[..1] + [Field("Type")] == [p[0], Field("Type")];
        assert p[1..] == [p[1]];
      }
    }
  }

  /** A mount site seen from a field of the root. */
  lemma MountSiteUnder(x: Json, key: string, list: seq<Step>, p: seq<Step>)
    requires p != [] && p[0] == Field(key) && x.Obj? && key in x.fields
    ensures MountSite(x, [Field(key)] + list, p) <==> MountSite(x.fields[key], list, p[1..])
  {
    if |p| == |list| + 3 {
      var q := p[..|list| + 2] + [Field("Type")];
      assert q[1..] == p[1..][..|list| + 1] + [Field("Type")];
      assert [Field(key)] + list <= p <==> list <= p[1..] by {
        assert p == [p[0]] + p[1..];
      }
    }
  }

  lemma NoSiteElsewhere(x: Json, key: string, list: seq<Step>, p: seq<Step>)
    requires p == [] || p[0] != Field(key)
    ensures !MountSite(x, [Field(key)] + list, p)
  {
    assert ([Field(key)] + list)[0] == Field(key);
  }

  lemma HostConfigEdits(x: Json, f: string -> string, p: seq<Step>)
    ensures EditedAt(x, HostConfig(x, f), BindSite([Field("Binds")], p) || MountSite(x, [Field("Mounts")], p), f, p)
  {
    hide MountSite, Elements, Mounts;
    assert [Field("Mounts")] + [] == [Field("Mounts")];
    var y := Update(x, "Binds", v => Elements(v, b => Bind(b, f)));
    UpdateAt(x, "Binds", v => Elements(v, b => Bind(b, f)), p);
    UpdateAt(y, "Mounts", v => Mounts(v, f), p);
    if p != [] && p[0] == Field("Binds") && x.Obj? && "Binds" in x.fields {
      NoSiteElsewhere(x, "Mounts", [], p);
      BindsEdit(x.fields["Binds"], f, p[1..]);
    } else if p != [] && p[0] == Field("Mounts") && x.Obj? && "Mounts" in x.fields {
      MountSiteUnder(x, "Mounts", [], p);
      MountsEdit(x.fields["Mounts"], f, p[1..]);
    } else if p == [] || p[0] != Field("Mounts") {
      NoSiteElsewhere(x, "Mounts", [], p);
    }
  }

  lemma ContainerEdits(x: Json, f: string -> string, p: seq<Step>)
    ensures EditedAt(x, Container(x, f), Site(ContainerBody, x, p), f, p)
  {
    hide MountSite, HostConfig, Mounts;
    assert [Field("HostConfig")] + [Field("Mounts")] == [Field("HostConfig"), Field("Mounts")];
    assert [Field("Mounts")] + [] == [Field("Mounts")];
    var y := Update(x, "HostConfig", v => HostConfig(v, f));
    UpdateAt(x, "HostConfig", v => HostConfig(v, f), p);
    UpdateAt(y, "Mounts", v => Mounts(v, f), p);
    if p != [] && p[0] == Field("HostConfig") && x.Obj? && "HostConfig" in x.fields {
      NoSiteElsewhere(x, "Mounts", [], p);
      MountSiteUnder(x, "HostConfig", [Field("Mounts")], p);
      HostConfigEdits(x.fields["HostConfig"], f, p[1..]);
    } else if p != [] && p[0] == Field("Mounts") && x.Obj? && "Mounts" in x.fields {
      NoSiteElsewhere(x, "HostConfig", [Field("Mounts")], p);
      MountSiteUnder(x, "Mounts", [], p);
      MountsEdit(x.fields["Mounts"], f, p[1..]);
    } else if p == [] || (p[0] != Field("HostConfig") && p[0] != Field("Mounts")) {
      NoSiteElsewhere(x, "HostConfig", [Field("Mounts")], p);
      NoSiteElsewhere(x, "Mounts", [], p);
    }
  }

  /** Rewriting below one field only: the sites are those of the field's value. */
  lemma NestedEdits(x: Json, key: string, u: Json -> Json, list: seq<Step>, f: string -> string, p: seq<Step>)
    requires x.Obj? && key in x.fields && p != [] && p[0] == Field(key) ==>
               EditedAt(x.fields[key], u(x.fields[key]), MountSite(x.fields[key], list, p[1..]), f, p[1..])
    ensures EditedAt(x, Update(x, key, u), MountSite(x, [Field(key)] + list, p), f, p)
  {
    UpdateAt(x, key, u, p);
    if p != [] && p[0] == Field(key) {
      if x.Obj? && key in x.fields { MountSiteUnder(x, key, list, p); }
    } else {
      NoSiteElsewhere(x, key, list, p);
    }
  }

  lemma ContainerSpecEdits(x: Json, f: string -> string, p: seq<Step>)
    ensures EditedAt(x, ContainerSpec(x, f), MountSite(x, [Field("Mounts")], p), f, p)
  {
    if x.Obj? && "Mounts" in x.fields && p != [] { MountsEdit(x.fields["Mounts"], f, p[1..]); }
    NestedEdits(x, "Mounts", v => Mounts(v, f), [], f, p);
  }

  lemma TaskSpecEdits(x: Json, f: string -> string, p: seq<Step>)
    ensures EditedAt(x, TaskSpec(x, f), MountSite(x, [Field("ContainerSpec"), Field("Mounts")], p), f, p)
  {
    if x.Obj? && "ContainerSpec" in x.fields && p != [] { ContainerSpecEdits(x.fields["ContainerSpec"], f, p[1..]); }
    NestedEdits(x, "ContainerSpec", v => ContainerSpec(v, f), [Field("Mounts")], f, p);
  }

  lemma ServiceSpecEdits(x: Json, f: string -> string, p: seq<Step>)
    ensures EditedAt(x, ServiceSpec(x, f), Site(ServiceSpecBody, x, p), f, p)
  {
    if x.Obj? && "TaskTemplate" in x.fields && p != [] { TaskSpecEdits(x.fields["TaskTemplate"], f, p[1..]); }
    NestedEdits(x, "TaskTemplate", v => TaskSpec(v, f), [Field("ContainerSpec"), Field("Mounts")], f, p);
  }

  lemma ServiceEdits(x: Json, f: string -> string, p: seq<Step>)
    ensures EditedAt(x, Service(x, f), Site(ServiceBody, x, p), f, p)
  {
    hide MountSite, ServiceSpec;
    assert [Field("Spec")] + [Field("TaskTemplate"), Field("ContainerSpec"), Field("Mounts")]
        == [Field("Spec"), Field("TaskTemplate"), Field("ContainerSpec"), Field("Mounts")];
    if x.Obj? && "Spec" in x.fields && p != [] { ServiceSpecEdits(x.fields["Spec"], f, p[1..]); }
    NestedEdits(x, "Spec", v => ServiceSpec(v, f), [Field("TaskTemplate"), Field("ContainerSpec"), Field("Mounts")], f, p);
  }

  lemma TaskEdits(x: Json, f: string -> string, p: seq<Step>)
    ensures EditedAt(x, Task(x, f), Site(TaskBody, x, p), f, p)
  {
    hide MountSite, TaskSpec;
    assert [Field("Spec")] + [Field("ContainerSpec"), Field("Mounts")] == [Field("Spec"), Field("ContainerSpec"), Field("Mounts")];
    if x.Obj? && "Spec" in x.fields && p != [] { TaskSpecEdits(x.fields["Spec"], f, p[1..]); }
    NestedEdits(x, "Spec", v => TaskSpec(v, f), [Field("ContainerSpec"), Field("Mounts")], f, p);
  }

  /** At every position a rewriter leaves the tree as it is, except that strings at its sites go through `f`. */
  lemma EditsItsSitesOnly(kind: Kind, x: Json, f: string -> string, p: seq<Step>)
    ensures EditedAt(x, RewriteObject(kind, x, f), Site(kind, x, p), f, p)
  {
    hide Site, EditedAt;
    match kind
    case ContainerBody => ContainerEdits(x, f, p);
    case ServiceSpecBody => ServiceSpecEdits(x, f, p);
    case ServiceBody => ServiceEdits(x, f, p);
    case TaskBody => TaskEdits(x, f, p);
  }

  // ---------------------------------------------------------------- trees are determined by their positions

  lemma {:induction false} SameTree(x: Json, y: Json)
    requires forall p :: NodeAt(x, p) == NodeAt(y, p)
    ensures x == y
    decreases x
  {
    assert NodeAt(x, []) == NodeAt(y, []);
    match x {
      case Arr(items) =>
        assert Node(y).Arr? && |Node(y).items| == |items|;
        forall i | 0 <= i < |items| ensures items[i] == y.items[i] {
          forall p ensures NodeAt(items[i], p) == NodeAt(y.items[i], p) {
            assert ([Item(i)] + p)[1..] == p;
            assert NodeAt(x, [Item(i)] + p) == NodeAt(y, [Item(i)] + p);
          }
          SameTree(items[i], y.items[i]);
        }
      case Obj(fields) =>
        assert Node(y).Obj? && Node(y).fields == Node(x).fields;
        assert fields.Keys == Node(x).fields.Keys == y.fields.Keys;
        forall k | k in fields ensures fields[k] == y.fields[k] {
          forall p ensures NodeAt(fields[k], p) == NodeAt(y.fields[k], p) {
            assert ([Field(k)] + p)[1..] == p;
            assert NodeAt(x, [Field(k)] + p) == NodeAt(y, [Field(k)] + p);
          }
          SameTree(fields[k], y.fields[k]);
        }
      case _ =>
    }
  }

  /** Strings a rewriter of this kind finds in `x`. */
  ghost predicate Touched(kind: Kind, x: Json, s: string) {
    exists p :: Site(kind, x, p) && At(x, p) == Some(Str(s))
  }

  lemma TypeIsNoSite(kind: Kind, x: Json, q: seq<Step>)
    requires q != [] && q[|q| - 1] == Field("Type")
    ensures !Site(kind, x, q)
  {}

  /** Rewriting does not move the sites: they depend on the types of mounts, which are kept. */
  lemma KeepsMountSites(kind: Kind, x: Json, f: string -> string, list: seq<Step>, p: seq<Step>)
    ensures MountSite(RewriteObject(kind, x, f), list, p) <==> MountSite(x, list, p)
  {
    hide Site, RewriteObject;
    if |p| == |list| + 2 {
      var q := p[..|list| + 1] + [Field("Type")];
      TypeIsNoSite(kind, x, q);
      EditsItsSitesOnly(kind, x, f, q);
    }
  }

  lemma KeepsSites(kind: Kind, x: Json, f: string -> string, p: seq<Step>)
    ensures Site(kind, RewriteObject(kind, x, f), p) <==> Site(kind, x, p)
  {
    hide MountSite, RewriteObject;
    match kind
    case ContainerBody =>
      KeepsMountSites(kind, x, f, [Field("HostConfig"), Field("Mounts")], p);
      KeepsMountSites(kind, x, f, [Field("Mounts")], p);
    case ServiceSpecBody =>
      KeepsMountSites(kind, x, f, [Field("TaskTemplate"), Field("ContainerSpec"), Field("Mounts")], p);
    case ServiceBody =>
      KeepsMountSites(kind, x, f, [Field("Spec"), Field("TaskTemplate"), Field("ContainerSpec"), Field("Mounts")], p);
    case TaskBody =>
      KeepsMountSites(kind, x, f, [Field("Spec"), Field("ContainerSpec"), Field("Mounts")], p);
  }

  /** Position by position, rewriting twice is rewriting once with the composition. */
  lemma TwiceAt(kind: Kind, x: Json, f: string -> string, g: string -> string, p: seq<Step>)
    ensures EditedAt(x, RewriteObject(kind, RewriteObject(kind, x, f), g), Site(kind, x, p), s => g(f(s)), p)
  {
    hide Site, RewriteObject;
    EditsItsSitesOnly(kind, x, f, p);
    EditsItsSitesOnly(kind, RewriteObject(kind, x, f), g, p);
    KeepsSites(kind, x, f, p);
  }

  lemma TwiceIsOnce(kind: Kind, x: Json, f: string -> string, g: string -> string, h: string -> string)
    requires forall s :: Touched(kind, x, s) ==> g(f(s)) == h(s)
    ensures RewriteObject(kind, RewriteObject(kind, x, f), g) == RewriteObject(kind, x, h)
  {
    hide Site, RewriteObject;
    var z, w := RewriteObject(kind, RewriteObject(kind, x, f), g), RewriteObject(kind, x, h);
    forall p ensures NodeAt(z, p) == NodeAt(w, p) {
      hide At, Node;
      TwiceAt(kind, x, f, g, p);
      EditsItsSitesOnly(kind, x, h, p);
      if Site(kind, x, p) && At(x, p).Some? && At(x, p).value.Str? {
        assert Touched(kind, x, At(x, p).value.s);
      }
    }
    SameTree(z, w);
  }

  /** One rewriting after another is the rewriting with `h` exactly when the two translations make `h` on every
      string they touch. */
  lemma TwiceExactly(kind: Kind, x: Json, f: string -> string, g: string -> string, h: string -> string)
    ensures RewriteObject(kind, RewriteObject(kind, x, f), g) == RewriteObject(kind, x, h)
       <==> forall s :: Touched(kind, x, s) ==> g(f(s)) == h(s)
  {
    hide Site, RewriteObject, At, Node;
    var z, w := RewriteObject(kind, RewriteObject(kind, x, f), g), RewriteObject(kind, x, h);
    if z == w {
      forall s | Touched(kind, x, s) ensures g(f(s)) == h(s) {
        var p :| Site(kind, x, p) && At(x, p) == Some(Str(s));
        TwiceAt(kind, x, f, g, p);
        EditsItsSitesOnly(kind, x, h, p);
      }
    } else if forall s :: Touched(kind, x, s) ==> g(f(s)) == h(s) {
      TwiceIsOnce(kind, x, f, g, h);
    }
  }

  // ---------------------------------------------------------------- round trips of bodies

  function Translate(path: string, windows: bool): string -> string {
    s => MapPath(s, path, windows)
  }

  /** Request and response translation of a body on Windows give back the body with its drives in lower case, exactly
      when its drive paths are canonical. */
  lemma WindowsRoundTripExactly(kind: Kind, x: Json)
    requires forall s :: Touched(kind, x, s) ==> DriveShaped(s) || Plain(s)
    ensures var f := Translate("/mnt/host", true);
            (RewriteObject(kind, RewriteObject(kind, x, f), f) == RewriteObject(kind, x, LowerDrive)
             <==> forall s :: Touched(kind, x, s) && DriveShaped(s) ==> Canonical(s))
  {
    hide RewriteObject, Touched, MapPath, LowerDrive, Plain, Canonical, DriveShaped;
    var f := Translate("/mnt/host", true);
    TwiceExactly(kind, x, f, f, LowerDrive);
    forall s | Touched(kind, x, s) ensures f(f(s)) == LowerDrive(s) <==> (DriveShaped(s) ==> Canonical(s)) {
      if DriveShaped(s) {
        DriveRoundTripExactly(s);
      } else {
        PlainUntouchedOnWindows(s, "/mnt/host");
      }
    }
  }

  /** Rewriting with the identity is the identity. */
  lemma RewriteIdentity(kind: Kind, x: Json)
    ensures RewriteObject(kind, x, s => s) == x
  {
    hide RewriteObject, Site;
    var y := RewriteObject(kind, x, s => s);
    forall p ensures NodeAt(y, p) == NodeAt(x, p) {
      EditsItsSitesOnly(kind, x, s => s, p);
    }
    SameTree(y, x);
  }

  /** In a Linux distribution the round trip gives back the body exactly when it names no absolute path and no backslash. */
  lemma DistroBodyRoundTripExactly(kind: Kind, x: Json, distro: string)
    requires |distro| > 0 && '/' !in distro && ':' !in distro && '\\' !in distro
    requires forall s :: Touched(kind, x, s) ==> OutsideMounts(s)
    ensures var f := Translate(BasePath(distro), false);
            (RewriteObject(kind, RewriteObject(kind, x, f), f) == x
             <==> forall s :: Touched(kind, x, s) ==> '\\' !in s && !("/" <= s))
  {
    hide RewriteObject, Touched, MapPath, OutsideMounts;
    var f := Translate(BasePath(distro), false);
    TwiceExactly(kind, x, f, f, s => s);
    RewriteIdentity(kind, x);
    forall s | Touched(kind, x, s) ensures f(f(s)) == s <==> '\\' !in s && !("/" <= s) {
      DistroRoundTripExactly(s, distro);
    }
  }

  /** A service specification that was rewritten on creation comes back inside a service: whatever surrounds it is kept. */
  lemma ServiceRoundTrip(spec: Json, envelope: map<string, Json>)
    requires forall s :: Touched(ServiceSpecBody, spec, s) ==> Canonical(s) || Plain(s)
    ensures var f := Translate("/mnt/host", true);
            (RewriteObject(ServiceBody, Obj(envelope["Spec" := RewriteObject(ServiceSpecBody, spec, f)]), f)
             == Obj(envelope["Spec" := RewriteObject(ServiceSpecBody, spec, LowerDrive)]))
  {
    hide ServiceSpec, Touched, MapPath, LowerDrive, Plain;
    var f := Translate("/mnt/host", true);
    WindowsRoundTripExactly(ServiceSpecBody, spec);
    var y := ServiceSpec(spec, f);
    var fields := envelope["Spec" := y];
    forall s | Touched(ServiceSpecBody, spec, s) && DriveShaped(s) ensures Canonical(s) {
      if Plain(s) { PlainUntouchedOnWindows(s, ""); }
    }
    assert ServiceSpec(y, f) == ServiceSpec(spec, LowerDrive);
    assert fields["Spec" := ServiceSpec(y, f)] == envelope["Spec" := ServiceSpec(y, f)];
  }
}
