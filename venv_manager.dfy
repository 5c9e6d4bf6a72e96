/** The project's virtual-environment manager: its initial state and the
    `pip freeze`-style listing of installed packages. */
module VenvManagement {
  import opened Wrappers
  import opened Text
  import LogicModules

  /** One `(name, version)` pair as `installed_packages` yields it; the version may be `None`. */
  datatype Package = Package(name: string, version: Option<string>)

  /** The wrapped virtual environment, seen only through the package list it reports. */
  datatype VirtualEnvironment = VirtualEnvironment(installedPackages: seq<Package>)

  /** `freeze` with no environment connected dereferences `None` and raises. */
  datatype VenvError = NoVirtualEnvironment

  /** The listing line of one package: the bare name, or `name==version`. */
  function Entry(p: Package): string {
    match p.version
    case None => p.name
    case Some(v) => p.name + "==" + v
  }

  /** The listing lines of all packages, in the order they are yielded. */
  function Entries(packages: seq<Package>): seq<string> {
    seq(|packages|, k requires 0 <= k < |packages| => Entry(packages[k]))
  }

  /** The text `freeze` returns: the lines joined by single newlines. */
  function FreezeText(packages: seq<Package>): string {
    Join("\n", Entries(packages))
  }

  /** Index of the first `==` in a line, if any. */
  function FindVersionSeparator(line: string): (r: Option<nat>)
    ensures r.Some? ==> r.value + 2 <= |line|
    decreases |line|
  {
    if |line| < 2 then None
    else if line[..2] == "==" then Some(0)
    else Shifted(FindVersionSeparator(line[1..]), 1)
  }

  /** An index found in a suffix, as an index into the text `d` characters before it. */
  function Shifted(found: Option<nat>, d: nat): Option<nat> {
    match found
    case None => None
    case Some(i) => Some(i + d)
  }

  /** The separator found is the first `==` of the line, and none is found
      only when the line has no `==` at all. */
  lemma {:induction false} FindVersionSeparatorFirst(line: string)
    ensures match FindVersionSeparator(line)
            case None => forall j: nat :: !OccursAt(line, "==", j)
            case Some(i) => OccursAt(line, "==", i) && forall j: nat :: j < i ==> !OccursAt(line, "==", j)
    decreases |line|
  {
    if |line| >= 2 && line[..2] != "==" {
      var tail := line[1..];
      FindVersionSeparatorFirst(tail);
      forall j: nat | j + 2 <= |line|
        ensures OccursAt(line, "==", j) <==> j > 0 && OccursAt(tail, "==", j - 1)
      {
        if j > 0 {
          assert line[j..j + 2] == tail[j - 1..j + 1];
        }
      }
    }
  }

  /** Reads a listing line back: `name==version` at the first `==`, else a bare name. */
  function ParseEntry(line: string): Package {
    match FindVersionSeparator(line)
    case None => Package(line, None)
    case Some(i) => Package(line[..i], Some(line[i + 2..]))
  }

  /** A package whose line reads back unambiguously: no `=` in the name and no
      newline anywhere (true of every installable distribution name). */
  predicate Listable(p: Package) {
    '=' !in p.name && '\n' !in p.name && (p.version.Some? ==> '\n' !in p.version.value)
  }

  /** A line that does not start with `=` has its first `==` in its tail. */
  lemma SeparatorNotAtFront(line: string)
    requires |line| > 0 && line[0] != '='
    ensures FindVersionSeparator(line) == Shifted(FindVersionSeparator(line[1..]), 1)
  {
    if |line| >= 2 {
      assert line[..2][0] == line[0];
    }
  }

  /** A name without `=` has no `==` of its own, so the first one is the separator. */
  lemma {:induction false} FirstSeparatorAfterName(name: string, rest: string)
    requires forall k :: 0 <= k < |name| ==> name[k] != '='
    ensures FindVersionSeparator(name + rest) == Shifted(FindVersionSeparator(rest), |name|)
    decreases |name|
  {
    if |name| > 0 {
      var line := name + rest;
      assert line[1..] == name[1..] + rest;
      FirstSeparatorAfterName(name[1..], rest);
      SeparatorNotAtFront(line);
      var found := FindVersionSeparator(rest);
      assert FindVersionSeparator(line[1..]) == Shifted(found, |name| - 1);
      assert Shifted(Shifted(found, |name| - 1), 1) == Shifted(found, |name|);
    } else {
      assert name + rest == rest;
    }
  }

  /** Every listing line parses back to the package it came from. */
  lemma EntryParsesBack(p: Package)
    requires Listable(p)
    ensures ParseEntry(Entry(p)) == p
  {
    match p.version
    case None =>
      FirstSeparatorAfterName(p.name, "");
      assert p.name + "" == p.name;
    case Some(v) =>
      FirstSeparatorAfterName(p.name, "==" + v);
      assert p.name + "==" + v == p.name + ("==" + v);
      assert ("==" + v)[..2] == "==";
      var line := p.name + "==" + v;
      assert line[..|p.name|] == p.name;
      assert line[|p.name| + 2..] == v;
  }

  /** `freeze` lists one line per installed package, in order, and each line
      names exactly that package and its version: splitting the text at newlines
      and parsing every line gives back the package list. */
  lemma FreezeParsesBack(packages: seq<Package>)
    requires |packages| > 0
    requires forall k :: 0 <= k < |packages| ==> Listable(packages[k])
    ensures |Split(FreezeText(packages), '\n')| == |packages|
    ensures forall k :: 0 <= k < |packages| ==> ParseEntry(Split(FreezeText(packages), '\n')[k]) == packages[k]
  {
    var lines := Entries(packages);
    forall k | 0 <= k < |lines|
      ensures '\n' !in lines[k]
    {
      var p := packages[k];
      if p.version.Some? {
        assert lines[k] == p.name + "==" + p.version.value;
        assert '\n' !in "==";
      }
    }
    SplitJoin(lines, '\n');
    assert Split(FreezeText(packages), '\n') == lines;
    forall k | 0 <= k < |packages|
      ensures ParseEntry(lines[k]) == packages[k]
    {
      EntryParsesBack(packages[k]);
    }
  }

  /** `VenvManager`: the connected environment, its path and the client id. The
      singleton `__new__` is not modelled. */
  class VenvManager {
    var venv: Option<VirtualEnvironment>
    var path: Option<string>
    var clientId: Option<string>

    /** `__init__`: nothing connected yet; the manager registers itself under `venv_manager`. */
    constructor (registry: LogicModules.LogicModuleHandler<string, object>)
      modifies registry
      ensures venv.None? && path.None? && clientId.None?
      ensures registry.modules == old(registry.modules)[LogicModules.VenvManagerKey := this]
      ensures registry.initialized == old(registry.initialized)
    {
      venv := None;
      path := None;
      clientId := None;
      new;
      registry.Register(LogicModules.VenvManagerKey, this);
    }

    /** `freeze`: one line per installed package, joined by newlines; an empty
        environment gives the empty text. Reads the manager and changes nothing. */
    method Freeze() returns (r: Result<string, VenvError>)
      ensures venv.None? ==> r == Err(NoVirtualEnvironment)
      ensures venv.Some? ==> r == Ok(FreezeText(venv.value.installedPackages))
      ensures venv.Some? && venv.value.installedPackages == [] ==> r == Ok("")
    {
      if venv.None? {
        return Err(NoVirtualEnvironment);
      }
      var installed := venv.value.installedPackages;
      var packages: seq<string> := [];
      for i := 0 to |installed|
        invariant |packages| == i
        invariant forall k :: 0 <= k < i ==> packages[k] == Entry(installed[k])
      {
        var package := installed[i];
        if package.version.None? {
          packages := packages + [package.name];
        } else {
          packages := packages + [package.name + "==" + package.version.value];
        }
      }
      assert packages == Entries(installed);
      return Ok(Join("\n", packages));
    }
  }
}
