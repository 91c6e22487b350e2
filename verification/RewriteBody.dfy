/** The rewriting loops as the proxy runs them: they write translated paths back into the parsed body and
    panic at the first value that is no string where a string is taken for granted. */
module RewriteBody {
  import opened Text
  import opened Paths
  import opened Rewrite

  /** What a rewriter leaves behind: the rewritten tree, a panic of the request handler, or nothing because the body
      is neither an object nor an array. */
  datatype Outcome = Done(tree: Json) | Panics | Ignored

  // ---------------------------------------------------------------- bodies that do not make a rewriter panic

  predicate FieldIs(x: Json, key: string, t: Json -> bool) {
    x.Obj? && key in x.fields ==> t(x.fields[key])
  }

  predicate AllItems(x: Json, t: Json -> bool) {
    x.Arr? ==> forall i :: 0 <= i < |x.items| ==> t(x.items[i])
  }

  /** A string under this key is taken for granted, and is not there. */
  predicate NoString(x: Json, key: string)
    requires x.Obj?
  {
    key !in x.fields || !x.fields[key].Str?
  }

  /** An object in a list of mounts must have a string `Type`, and a string `Source` when the type is `bind`. */
  predicate MountTyped(x: Json) {
    x.Obj? ==>
      && "Type" in x.fields && x.fields["Type"].Str?
      && (x.fields["Type"] == Str("bind") ==> "Source" in x.fields && x.fields["Source"].Str?)
  }

  predicate MountsTyped(x: Json) {
    AllItems(x, MountTyped)
  }

  predicate HostConfigTyped(x: Json) {
    FieldIs(x, "Binds", v => AllItems(v, (b: Json) => b.Str?)) && FieldIs(x, "Mounts", MountsTyped)
  }

  predicate ContainerSpecTyped(x: Json) {
    FieldIs(x, "Mounts", MountsTyped)
  }

  predicate TaskSpecTyped(x: Json) {
    FieldIs(x, "ContainerSpec", ContainerSpecTyped)
  }

  predicate ServiceSpecTyped(x: Json) {
    FieldIs(x, "TaskTemplate", TaskSpecTyped)
  }

  predicate Typed(kind: Kind, x: Json) {
    match kind
    case ContainerBody => FieldIs(x, "HostConfig", HostConfigTyped) && FieldIs(x, "Mounts", MountsTyped)
    case ServiceSpecBody => ServiceSpecTyped(x)
    case ServiceBody => FieldIs(x, "Spec", ServiceSpecTyped)
    case TaskBody => FieldIs(x, "Spec", TaskSpecTyped)
  }

  // ---------------------------------------------------------------- the loops

  /** Translates the bind strings in place; a panic leaves those before the offending value translated. */
  method RewriteBinds(binds: array<Json>, path: string, windows: bool) returns (panicked: bool)
    modifies binds
    ensures panicked <==> exists i :: 0 <= i < binds.Length && !old(binds[i]).Str?
    ensures forall i :: 0 <= i < binds.Length && (forall j :: 0 <= j <= i ==> old(binds[j]).Str?) ==>
              binds[i] == Str(MapPath(old(binds[i]).s, path, windows))
    ensures forall i :: 0 <= i < binds.Length && !(forall j :: 0 <= j <= i ==> old(binds[j]).Str?) ==>
              binds[i] == old(binds[i])
  {
    var i := 0;
    while i < binds.Length
      invariant 0 <= i <= binds.Length
      invariant forall j :: 0 <= j < i ==> old(binds[j]).Str? && binds[j] == Str(MapPath(old(binds[j]).s, path, windows))
      invariant forall j :: i <= j < binds.Length ==> binds[j] == old(binds[j])
    {
      if !binds[i].Str? {
        return true;
      }
      var s := binds[i].s;
      s := MapPath(s, path, windows);
      binds[i] := Str(s);
      i := i + 1;
    }
    return false;
  }

  /** Translates the sources of bind mounts in place; values that are no objects and mounts of other types are kept. */
  method RewriteMounts(mounts: array<Json>, path: string, windows: bool) returns (panicked: bool)
    modifies mounts
    ensures panicked <==> exists i :: 0 <= i < mounts.Length && !MountTyped(old(mounts[i]))
    ensures panicked <==>
              exists i :: 0 <= i < mounts.Length && old(mounts[i]).Obj? &&
                (NoString(old(mounts[i]), "Type") ||
                 (old(mounts[i]).fields["Type"].s == "bind" && NoString(old(mounts[i]), "Source")))
    ensures forall i :: 0 <= i < mounts.Length && (forall j :: 0 <= j <= i ==> MountTyped(old(mounts[j]))) ==>
              mounts[i] == Mount(old(mounts[i]), Translate(path, windows))
    ensures forall i :: 0 <= i < mounts.Length && !(forall j :: 0 <= j <= i ==> MountTyped(old(mounts[j]))) ==>
              mounts[i] == old(mounts[i])
  {
    var i := 0;
    while i < mounts.Length
      invariant 0 <= i <= mounts.Length
      invariant forall j :: 0 <= j < i ==> MountTyped(old(mounts[j])) && mounts[j] == Mount(old(mounts[j]), Translate(path, windows))
      invariant forall j :: i <= j < mounts.Length ==> mounts[j] == old(mounts[j])
    {
      var o := mounts[i];
      if o.Obj? {
        var mount := o.fields;
        if "Type" !in mount || !mount["Type"].Str? {
          return true;
        }
        var t := mount["Type"].s;
        if t == "bind" {
          if "Source" !in mount || !mount["Source"].Str? {
            return true;
          }
          var s := mount["Source"].s;
          s := MapPath(s, path, windows);
          mount := mount["Source" := Str(s)];
          mounts[i] := Obj(mount);
        }
      }
      i := i + 1;
    }
    return false;
  }

  // ---------------------------------------------------------------- the drivers

  method RewriteBindsField(x: Json, path: string, windows: bool) returns (r: Outcome)
    ensures r == if FieldIs(x, "Binds", v => AllItems(v, (b: Json) => b.Str?))
                 then Done(Update(x, "Binds", v => Elements(v, b => Bind(b, Translate(path, windows))))) else Panics
  {
    if !x.Obj? || "Binds" !in x.fields || !x.fields["Binds"].Arr? {
      return Done(x);
    }
    var items := x.fields["Binds"].items;
    var binds := new Json[|items|](i requires 0 <= i < |items| => items[i]);
    var panicked := RewriteBinds(binds, path, windows);
    if panicked {
      return Panics;
    }
    assert binds[..] == MapItems(items, b => Bind(b, Translate(path, windows)));
    return Done(Obj(x.fields["Binds" := Arr(binds[..])]));
  }

  method RewriteMountsField(x: Json, path: string, windows: bool) returns (r: Outcome)
    ensures r == if FieldIs(x, "Mounts", MountsTyped)
                 then Done(Update(x, "Mounts", v => Mounts(v, Translate(path, windows)))) else Panics
  {
    if !x.Obj? || "Mounts" !in x.fields || !x.fields["Mounts"].Arr? {
      return Done(x);
    }
    var items := x.fields["Mounts"].items;
    var mounts := new Json[|items|](i requires 0 <= i < |items| => items[i]);
    var panicked := RewriteMounts(mounts, path, windows);
    if panicked {
      return Panics;
    }
    assert mounts[..] == MapItems(items, v => Mount(v, Translate(path, windows)));
    return Done(Obj(x.fields["Mounts" := Arr(mounts[..])]));
  }

  method RewriteHostConfig(hostConfig: Json, path: string, windows: bool) returns (r: Outcome)
    ensures r == if HostConfigTyped(hostConfig) then Done(HostConfig(hostConfig, Translate(path, windows))) else Panics
  {
    r := RewriteBindsField(hostConfig, path, windows);
    if r.Done? {
      r := RewriteMountsField(r.tree, path, windows);
    }
  }

  method RewriteContainer(x: Json, path: string, windows: bool) returns (r: Outcome)
    ensures r == if Typed(ContainerBody, x) then Done(Container(x, Translate(path, windows))) else Panics
  {
    var y := x;
    if x.Obj? && "HostConfig" in x.fields && x.fields["HostConfig"].Obj? {
      r := RewriteHostConfig(x.fields["HostConfig"], path, windows);
      if !r.Done? {
        return Panics;
      }
      y := Obj(x.fields["HostConfig" := r.tree]);
    }
    if x.Obj? && "HostConfig" in x.fields && !x.fields["HostConfig"].Obj? {
      assert x.fields["HostConfig" := x.fields["HostConfig"]] == x.fields;
    }
    assert y == Update(x, "HostConfig", v => HostConfig(v, Translate(path, windows)));
    r := RewriteMountsField(y, path, windows);
  }

  method RewriteTaskSpec(x: Json, path: string, windows: bool) returns (r: Outcome)
    ensures r == if TaskSpecTyped(x) then Done(TaskSpec(x, Translate(path, windows))) else Panics
  {
    if !x.Obj? || "ContainerSpec" !in x.fields || !x.fields["ContainerSpec"].Obj? {
      return Done(x);
    }
    r := RewriteMountsField(x.fields["ContainerSpec"], path, windows);
    if r.Done? {
      r := Done(Obj(x.fields["ContainerSpec" := r.tree]));
    }
  }

  method RewriteServiceSpec(x: Json, path: string, windows: bool) returns (r: Outcome)
    ensures r == if ServiceSpecTyped(x) then Done(ServiceSpec(x, Translate(path, windows))) else Panics
  {
    if !x.Obj? || "TaskTemplate" !in x.fields || !x.fields["TaskTemplate"].Obj? {
      return Done(x);
    }
    r := RewriteTaskSpec(x.fields["TaskTemplate"], path, windows);
    if r.Done? {
      r := Done(Obj(x.fields["TaskTemplate" := r.tree]));
    }
  }

  method RewriteItem(kind: Kind, x: Json, path: string, windows: bool) returns (r: Outcome)
    ensures r == if Typed(kind, x) then Done(RewriteObject(kind, x, Translate(path, windows))) else Panics
  {
    if kind == ContainerBody {
      r := RewriteContainer(x, path, windows);
    } else if kind == ServiceSpecBody {
      r := RewriteServiceSpec(x, path, windows);
    } else if !x.Obj? || "Spec" !in x.fields || !x.fields["Spec"].Obj? {
      r := Done(x);
    } else {
      if kind == ServiceBody {
        r := RewriteServiceSpec(x.fields["Spec"], path, windows);
      } else {
        r := RewriteTaskSpec(x.fields["Spec"], path, windows);
      }
      if r.Done? {
        r := Done(Obj(x.fields["Spec" := r.tree]));
      }
    }
  }

  /** A body is one object, or an array whose objects are rewritten one by one. */
  function RewriteTree(kind: Kind, body: Json, f: string -> string): Json {
    if body.Arr? then Elements(body, v => RewriteObject(kind, v, f)) else RewriteObject(kind, body, f)
  }

  predicate BodyTyped(kind: Kind, body: Json) {
    if body.Arr? then AllItems(body, v => Typed(kind, v)) else Typed(kind, body)
  }

  lemma NoObject(kind: Kind, x: Json, f: string -> string)
    requires !x.Obj?
    ensures RewriteObject(kind, x, f) == x && Typed(kind, x)
  {}

  method RewriteBody(kind: Kind, body: Json, distro: string, windows: bool) returns (r: Outcome)
    ensures r == if !body.Obj? && !body.Arr? then Ignored
                 else if BodyTyped(kind, body) then Done(RewriteTree(kind, body, Translate(BasePath(distro), windows)))
                 else Panics
  {
    hide RewriteObject, Typed, Translate, BasePath;
    if !body.Obj? && !body.Arr? {
      return Ignored;
    }
    var items := if body.Obj? then [body] else body.items;
    var a := new Json[|items|](i requires 0 <= i < |items| => items[i]);
    var i := 0;
    while i < a.Length
      invariant 0 <= i <= a.Length
      invariant forall j :: 0 <= j < i ==>
                  Typed(kind, items[j]) && a[j] == RewriteObject(kind, items[j], Translate(BasePath(distro), windows))
      invariant forall j :: i <= j < a.Length ==> a[j] == items[j]
    {
      if a[i].Obj? {
        var done := RewriteItem(kind, a[i], BasePath(distro), windows);
        if !done.Done? {
          return Panics;
        }
        a[i] := done.tree;
      } else {
        NoObject(kind, a[i], Translate(BasePath(distro), windows));
      }
      i := i + 1;
    }
    if body.Arr? {
      assert a[..] == MapItems(items, v => RewriteObject(kind, v, Translate(BasePath(distro), windows)));
      return Done(Arr(a[..]));
    }
    return Done(a[0]);
  }

  // ---------------------------------------------------------------- round trips of whole bodies

  ghost predicate TouchedInBody(kind: Kind, body: Json, s: string) {
    if body.Arr? then exists i :: 0 <= i < |body.items| && Touched(kind, body.items[i], s) else Touched(kind, body, s)
  }

  /** Translating a body and translating the result back gives the body with its drives in lower case, exactly when its
      drive paths are canonical. */
  lemma BodyRoundTripExactly(kind: Kind, body: Json)
    requires forall s :: TouchedInBody(kind, body, s) ==> DriveShaped(s) || Plain(s)
    ensures var f := Translate(BasePath(""), true);
            (RewriteTree(kind, RewriteTree(kind, body, f), f) == RewriteTree(kind, body, LowerDrive)
             <==> forall s :: TouchedInBody(kind, body, s) && DriveShaped(s) ==> Canonical(s))
  {
    hide RewriteObject, Touched, Translate, DriveShaped, Plain, Canonical, LowerDrive;
    var f := Translate(BasePath(""), true);
    if body.Arr? {
      var z, w := RewriteTree(kind, RewriteTree(kind, body, f), f), RewriteTree(kind, body, LowerDrive);
      forall i | 0 <= i < |body.items|
        ensures z.items[i] == w.items[i] <==> forall s :: Touched(kind, body.items[i], s) && DriveShaped(s) ==> Canonical(s)
      {
        assert forall s :: Touched(kind, body.items[i], s) ==> TouchedInBody(kind, body, s);
        WindowsRoundTripExactly(kind, body.items[i]);
      }
      assert z == w <==> forall i :: 0 <= i < |body.items| ==> z.items[i] == w.items[i];
    } else {
      NoArray(kind, body, f);
      WindowsRoundTripExactly(kind, body);
    }
  }

  lemma NoArray(kind: Kind, x: Json, f: string -> string)
    requires !x.Arr?
    ensures !RewriteObject(kind, x, f).Arr?
  {}
}
