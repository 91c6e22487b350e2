/** The AddToPath resource: a `;`-separated user PATH variable, edited in place. */
module AddToPath {
  import opened Resources
  import Text

  /** The user PATH variable; a variable that was never set makes the source throw. */
  datatype PathVariable = Unset | Value(text: string)

  predicate HasEntry(parts: seq<string>, entry: string) {
    exists i :: 0 <= i < |parts| && Text.EqualFold(parts[i], entry)
  }

  /** Position of the first piece equal to `entry` but for case, or -1. */
  function FindIndex(parts: seq<string>, entry: string): (k: int)
    ensures -1 <= k < |parts|
    ensures k >= 0 ==> Text.EqualFold(parts[k], entry) && !HasEntry(parts[..k], entry)
    ensures k < 0 <==> !HasEntry(parts, entry)
  {
    if |parts| == 0 then -1
    else if Text.EqualFold(parts[0], entry) then 0
    else
      var k := FindIndex(parts[1..], entry);
      assert forall i :: 0 < i < |parts| ==> parts[i] == parts[1..][i - 1];
      if k < 0 then -1
      else
        assert parts[..k + 1] == [parts[0]] + parts[1..][..k];
        k + 1
  }

  function TestOf(v: PathVariable, entry: string): Probe {
    match v
    case Unset => ProbeThrew
    case Value(path) => Answer(HasEntry(Text.Split(path, ';'), entry))
  }

  function SetOf(v: PathVariable, entry: string): Effect<PathVariable> {
    match v
    case Unset => Threw(v)
    case Value(path) =>
      if HasEntry(Text.Split(path, ';'), entry) then Done(v, false) else Done(Written(path + ";" + entry), false)
  }

  function UnsetOf(v: PathVariable, entry: string): Effect<PathVariable> {
    match v
    case Unset => Threw(v)
    case Value(path) =>
      var parts := Text.Split(path, ';');
      var k := FindIndex(parts, entry);
      if k < 0 then Done(v, false) else Done(Written(Text.Join(parts[..k] + parts[k + 1..], ';')), false)
  }

  /** Writing an empty text to a user variable deletes the variable. */
  function Written(text: string): PathVariable {
    if text == "" then Unset else Value(text)
  }

  /** The entries of a variable; one that was deleted or never set has none. */
  function EntriesOf(v: PathVariable): seq<string> {
    match v case Unset => [] case Value(path) => Text.Split(path, ';')
  }

  class Environment {
    var Path: PathVariable

    method SetPath(path: string)
      modifies this
      ensures Path == Written(path)
    {
      Path := if path == "" then Unset else Value(path);
    }
  }

  class AddToPathResource {
    const env: Environment
    const ExpandedPath: string

    constructor (env: Environment, expandedPath: string)
      ensures this.env == env && this.ExpandedPath == expandedPath
    {
      this.env, this.ExpandedPath := env, expandedPath;
    }

    /** Whether some entry of PATH is the resource's own, but for case; without a PATH it throws. */
    method Test() returns (probe: Probe)
      ensures probe == TestOf(env.Path, ExpandedPath)
      ensures env.Path.Unset? <==> probe.ProbeThrew?
      ensures probe == Answer(true) <==> HasEntry(EntriesOf(env.Path), ExpandedPath)
    {
      match env.Path
      case Unset => probe := ProbeThrew;
      case Value(path) =>
        var parts := Text.Split(path, ';');
        probe := Answer(HasEntry(parts, ExpandedPath));
    }

    /** Afterwards the entries are those before and, unless it was among them, the resource's own, taken apart at semicolons. */
    method Set() returns (threw: bool)
      modifies env
      ensures SetOf(old(env.Path), ExpandedPath) == if threw then Threw(env.Path) else Done(env.Path, false)
      ensures threw <==> old(env.Path).Unset?
      ensures EntriesOf(env.Path) ==
                old(EntriesOf(env.Path)) +
                if threw || HasEntry(old(EntriesOf(env.Path)), ExpandedPath) then [] else Text.Split(ExpandedPath, ';')
    {
      match env.Path
      case Unset => threw := true;
      case Value(path) =>
        var parts := Text.Split(path, ';');
        var index := FindIndex(parts, ExpandedPath);
        if index < 0 {
          Text.SplitAppend(path, ';', ExpandedPath);
          env.SetPath(path + ";" + ExpandedPath);
        }
        threw := false;
    }

    /** Takes out the first entry that is the resource's own; with the last entry, or when all that is left is one empty entry,
        the variable goes, too. */
    method Unset() returns (threw: bool)
      modifies env
      ensures UnsetOf(old(env.Path), ExpandedPath) == if threw then Threw(env.Path) else Done(env.Path, false)
      ensures threw <==> old(env.Path).Unset?
      ensures var before := old(EntriesOf(env.Path));
              var k := FindIndex(before, ExpandedPath);
              if k < 0 then env.Path == old(env.Path) else LeftBy(before[..k] + before[k + 1..], env.Path)
    {
      hide Text.Join, Text.Split, FindIndex, HasEntry;
      match env.Path
      case Unset => threw := true;
      case Value(path) =>
        var parts := Text.Split(path, ';');
        var index := FindIndex(parts, ExpandedPath);
        if index >= 0 {
          parts := parts[..index] + parts[index + 1..];
          JoinedEntries(parts);
          env.SetPath(Text.Join(parts, ';'));
        }
        threw := false;
    }
  }

  /** The variable holds these entries; for no entry, or one empty entry, it is gone. */
  predicate LeftBy(entries: seq<string>, v: PathVariable) {
    if entries == [] || entries == [""] then v.Unset? else v.Value? && EntriesOf(v) == entries
  }

  lemma JoinedEntries(parts: seq<string>)
    requires forall p :: p in parts ==> ';' !in p
    ensures LeftBy(parts, Written(Text.Join(parts, ';')))
  {
    if parts != [] { Text.SplitJoin(parts, ';'); }
  }

  lemma SetAppends(path: string, entry: string)
    requires ';' !in entry
    ensures Text.Split(path + ";" + entry, ';') == Text.Split(path, ';') + [entry]
  {
    Text.SplitAppend(path, ';', entry);
    Text.SplitOne(entry, ';');
  }

  /** Set makes Test true, and doing it again changes nothing. */
  lemma SetEstablishesTest(path: string, entry: string)
    requires ';' !in entry
    ensures var w := SetOf(Value(path), entry).world;
            && SetOf(Value(path), entry) == Done(w, false)
            && TestOf(w, entry) == Answer(true)
            && SetOf(w, entry) == Done(w, false)
  {
    SetAppends(path, entry);
    var parts := Text.Split(path, ';') + [entry];
    assert Text.EqualFold(parts[|parts| - 1], entry);
  }

  /** From a PATH without the entry, Set then Unset gives back the very same string, except from the empty PATH: there
      the variable is gone afterwards. */
  lemma UnsetUndoesSet(path: string, entry: string)
    requires ';' !in entry
    requires TestOf(Value(path), entry) == Answer(false)
    ensures UnsetOf(SetOf(Value(path), entry).world, entry) == Done(Written(path), false)
    ensures UnsetOf(SetOf(Value(path), entry).world, entry) == Done(Value(path), false) <==> path != ""
  {
    SetAppends(path, entry);
    var before := Text.Split(path, ';');
    var parts := before + [entry];
    var k := FindIndex(parts, entry);
    assert Text.EqualFold(parts[|parts| - 1], entry);
    assert forall i :: 0 <= i < |before| ==> parts[i] == before[i];
    assert k == |before|;
    assert parts[..k] + parts[k + 1..] == before;
    Text.JoinSplit(path, ';');
  }

  /** The empty PATH: Set followed by Unset deletes the variable, and the next test throws. */
  lemma EmptyPathIsLost(entry: string)
    requires ';' !in entry && entry != ""
    ensures TestOf(Value(""), entry) == Answer(false)
    ensures UnsetOf(SetOf(Value(""), entry).world, entry) == Done(Unset, false) && TestOf(Unset, entry).ProbeThrew?
  {
    assert Text.Split("", ';') == [""];
    assert !Text.EqualFold("", entry) by { assert |Text.ToLower("")| != |Text.ToLower(entry)|; }
    UnsetUndoesSet("", entry);
  }

  /** With a `;` in the entry, Set can never make Test true: no piece of a PATH contains `;`. */
  lemma SemicolonEntryNeverFound(path: string, entry: string)
    requires ';' in entry
    ensures TestOf(Value(path), entry) == Answer(false)
  {
    var parts := Text.Split(path, ';');
    var j :| 0 <= j < |entry| && entry[j] == ';';
    forall i | 0 <= i < |parts|
      ensures !Text.EqualFold(parts[i], entry)
    {
      assert parts[i] in parts;
      if j < |parts[i]| {
        assert parts[i][j] in parts[i];
        assert Text.ToLower(parts[i])[j] == Text.Lower(parts[i][j]) != Text.Lower(';') == Text.ToLower(entry)[j];
      } else {
        assert |Text.ToLower(parts[i])| < |Text.ToLower(entry)|;
      }
    }
  }

  /** AddToPath keeps the resource contract on a variable exactly when there is nothing to do, or the entry has no `;` and
      the variable is not the empty text. */
  lemma LawfulExactly(v: PathVariable, entry: string)
    ensures LawfulAt(v => TestOf(v, entry), v => SetOf(v, entry), v => UnsetOf(v, entry), v)
       <==> TestOf(v, entry) != Answer(false) || (';' !in entry && v != Value(""))
  {
    if TestOf(v, entry) == Answer(false) {
      if ';' in entry {
        SemicolonEntryNeverFound(v.text, entry);
        SemicolonEntryNeverFound(v.text + ";" + entry, entry);
      } else {
        SetEstablishesTest(v.text, entry);
        UnsetUndoesSet(v.text, entry);
      }
    }
  }

  /** On the worlds where the variable is no empty text, which Set and Unset never write, it keeps the contract exactly when its
      entry has no `;`. */
  lemma LawfulWhereNotEmpty(entry: string)
    ensures LawfulCode(v => TestOf(v, entry), v => SetOf(v, entry), v => UnsetOf(v, entry), v => v != Value("")) <==> ';' !in entry
    ensures forall v :: v != Value("") ==> SetOf(v, entry).world != Value("") && UnsetOf(v, entry).world != Value("")
  {
    var test, set_, unset := v => TestOf(v, entry), v => SetOf(v, entry), v => UnsetOf(v, entry);
    forall v ensures LawfulAt(test, set_, unset, v) <==> TestOf(v, entry) != Answer(false) || (';' !in entry && v != Value("")) {
      LawfulExactly(v, entry);
    }
    if ';' in entry {
      SemicolonEntryNeverFound("x", entry);
      assert !LawfulAt(test, set_, unset, Value("x"));
    }
  }

  /** Adding one entry leaves the verdict on every entry that differs from it by more than case. */
  lemma OtherEntriesFramed(path: PathVariable, entry: string, other: string)
    requires ';' !in entry && !Text.EqualFold(entry, other)
    requires TestOf(path, entry) == Answer(false)
    ensures TestOf(SetOf(path, entry).world, other) == TestOf(path, other)
  {
    SetAppends(path.text, entry);
    var before := Text.Split(path.text, ';');
    assert forall i :: 0 <= i < |before| ==> (before + [entry])[i] == before[i];
  }
}
