/** The device catalogue: which source files count as device modules, how each
    module is named, and how each device class in a module becomes a descriptor. */
module QureedManager {
  import opened Wrappers
  import opened Text
  import LogicModules

  /** A port as a device class declares it: `port.label`, `port.direction` and
      the `__name__` of `port.signal_type`. */
  datatype PortSpec = PortSpec(portLabel: string, direction: string, signalType: string)

  /** The class's `ports` attribute: missing, present but not a dict, or a dict
      whose `(key, port)` items are listed in iteration order. */
  datatype PortsAttr = NoPorts | NotADict | PortDict(items: seq<(string, PortSpec)>)

  /** One entry of `dir(module)`, reduced to what the descriptor rule inspects:
      whether it is a class, whether it is a subclass of `GenericDevice`, whether
      it is `GenericDevice` itself, its `__name__`, its `gui_name` when that is a
      string, and its `ports`. */
  datatype Attr = Attr(
    isClass: bool,
    isDeviceSubclass: bool,
    isGenericDevice: bool,
    className: string,
    guiName: Option<string>,
    ports: PortsAttr)

  /** An imported module: its `__name__` and its attributes in `dir` order. */
  datatype Module = Module(name: string, attrs: seq<Attr>)

  /** The `Port` and `Device` messages sent to the client. */
  datatype PortMessage = PortMessage(portLabel: string, direction: string, signalType: string)
  datatype DeviceMessage = DeviceMessage(
    className: string,
    guiName: string,
    moduleClass: string,
    ports: seq<PortMessage>)

  /** A file met by the directory walk: its directory relative to the naming
      root ("" for the root itself), its name, and the module attributes, or
      `None` when executing the module raised. */
  datatype SourceFile = SourceFile(directory: string, fileName: string, imported: Option<seq<Attr>>)

  // ---------------------------------------------------------------------------
  // File selection and module naming

  /** Only `.py` files whose name does not begin with `__` are imported. */
  predicate IsDeviceModuleFile(fileName: string) {
    EndsWith(fileName, ".py") && !StartsWith(fileName, "__")
  }

  /** The file's path relative to the naming root, as `relative_to` renders it. */
  function RelativePath(directory: string, fileName: string, sep: char): string {
    if directory == "" then fileName else directory + [sep] + fileName
  }

  /** The module name as the code computes it: every separator becomes `.`,
      then every occurrence of `.py` is deleted, wherever it stands. */
  function ModuleNameAsWritten(relativePath: string, sep: char): (r: string)
    ensures sep != '.' ==> sep !in r
  {
    var dotted := Replace(relativePath, [sep], ".");
    ReplaceCharGone(relativePath, sep, ".");
    ReplaceKeepsAbsent(dotted, ".py", "", sep);
    Replace(dotted, ".py", "")
  }

  /** The module name as intended: the trailing `.py` is dropped and every
      separator becomes `.`. */
  function ModuleName(relativePath: string, sep: char): (r: string)
    ensures sep != '.' ==> sep !in r
  {
    var stem := if EndsWith(relativePath, ".py") then relativePath[..|relativePath| - 3] else relativePath;
    ReplaceCharGone(stem, sep, ".");
    Replace(stem, [sep], ".")
  }

  /** Which files are scanned: nothing that does not end in `.py`, nothing
      whose name starts with `__`, and a file `<stem>.py` exactly when the stem
      does not start with `__` (so `_laser.py` is taken and `__init__.py` is not). */
  lemma DeviceModuleFileSelection(name: string, stem: string)
    ensures !EndsWith(name, ".py") ==> !IsDeviceModuleFile(name)
    ensures StartsWith(name, "__") ==> !IsDeviceModuleFile(name)
    ensures IsDeviceModuleFile(stem + ".py") <==> !StartsWith(stem, "__")
    ensures !IsDeviceModuleFile("__init__.py") && !IsDeviceModuleFile("laser.pyc")
    ensures IsDeviceModuleFile("_laser.py") && IsDeviceModuleFile("laser.py")
  {
    var file := stem + ".py";
    assert file[|file| - 3..] == ".py";
    if |stem| >= 2 {
      assert file[..2] == stem[..2];
    } else if |stem| == 1 {
      assert file[..2][1] == '.';
    } else {
      assert file[..2][0] == '.';
    }
    assert "__init__.py"[..2] == "__";
    assert "laser.pyc"[6..] == "pyc";
    assert "_laser.py"[..2] == "_l";
  }

  /** The discrepancy: when a directory name begins with `py`, deleting every
      `.py` also deletes the dot before that directory and its first two
      letters. For `devices/pyramid/laser.py` the code names the module
      `devicesramid.laser`; the intended name is `devices.pyramid.laser`. */
  lemma ModuleNameAsWrittenMangles(parent: string, rest: string, stem: string)
    requires '.' !in parent && '.' !in rest && '.' !in stem
    requires '/' !in parent && '/' !in rest && '/' !in stem
    requires !StartsWith(stem, "py")
    ensures ModuleNameAsWritten(parent + "/py" + rest + "/" + stem + ".py", '/') == parent + rest + "." + stem
    ensures ModuleName(parent + "/py" + rest + "/" + stem + ".py", '/') == parent + "." + "py" + rest + "." + stem
  {
    var path := parent + "/py" + rest + "/" + stem + ".py";
    PathShapes(parent, rest, stem);
    AsWrittenSteps(parent, rest, stem, path);
    IntendedSteps(parent, rest, stem, path);
  }

  /** The same path and name, grouped the ways the steps below read them. */
  lemma PathShapes(parent: string, rest: string, stem: string)
    ensures parent + "/py" + rest + "/" + stem + ".py" == parent + "/" + ("py" + rest + "/" + (stem + ".py"))
    ensures parent + "/py" + rest + "/" + stem + ".py" == parent + "/" + ("py" + rest + "/" + stem) + ".py"
    ensures parent + "." + ("py" + rest + "." + stem) == parent + "." + "py" + rest + "." + stem
  {
  }

  /** The intended naming of the same path keeps the directory intact. */
  lemma IntendedSteps(parent: string, rest: string, stem: string, path: string)
    requires '/' !in parent && '/' !in rest && '/' !in stem
    requires path == parent + "/" + ("py" + rest + "/" + stem) + ".py"
    ensures ModuleName(path, '/') == parent + "." + ("py" + rest + "." + stem)
  {
    assert '/' !in "py" + rest;
    IntendedThreeComponents(parent, "py" + rest, stem);
  }

  /** The two replacements of the code's naming, one after the other. */
  lemma AsWrittenSteps(parent: string, rest: string, stem: string, path: string)
    requires '.' !in parent && '.' !in rest && '.' !in stem
    requires '/' !in parent && '/' !in rest && '/' !in stem
    requires !StartsWith(stem, "py")
    requires path == parent + "/" + ("py" + rest + "/" + (stem + ".py"))
    ensures ModuleNameAsWritten(path, '/') == parent + rest + "." + stem
  {
    var tail := rest + "." + stem;
    var dotted := parent + (".py" + (tail + ".py"));
    assert '/' !in "py" + rest && '/' !in stem + ".py";
    SeparatorsToDots(parent, "py" + rest, stem + ".py");
    assert parent + "." + ("py" + rest + "." + (stem + ".py")) == dotted;
    DeleteEveryPy(parent, tail);
    NoPyAcrossDot(rest, stem);
    DeletePySuffix(tail);
    assert Replace(dotted, ".py", "") == parent + tail;
  }

  /** Two dot-free names around a dot contain no `.py` unless the second starts with `py`. */
  lemma NoPyAcrossDot(rest: string, stem: string)
    requires '.' !in rest && '.' !in stem
    requires !StartsWith(stem, "py")
    ensures !Contains(rest + "." + stem, ".py")
  {
    var tail := rest + "." + stem;
    forall i: nat
      ensures !OccursAt(tail, ".py", i)
    {
      if i + 3 <= |tail| {
        var window := tail[i..i + 3];
        assert ".py"[0] == '.' && ".py"[1..] == "py";
        if i < |rest| {
          assert window[0] == rest[i];
        } else if i > |rest| {
          assert window[0] == stem[i - |rest| - 1];
        } else {
          assert window[1..] == stem[..2];
        }
      }
    }
  }

  /** First step of the code's naming on a three-component path: separators become dots. */
  lemma SeparatorsToDots(a: string, b: string, c: string)
    requires '/' !in a && '/' !in b && '/' !in c
    ensures Replace(a + "/" + (b + "/" + c), "/", ".") == a + "." + (b + "." + c)
  {
    var components := [a, b, c];
    assert forall k :: 0 <= k < |components| ==> '/' !in components[k];
    JoinThree("/", a, b, c);
    JoinThree(".", a, b, c);
    ReplaceJoinSeparator(components, '/', ".");
  }

  /** Second step: a dot-free prefix is kept and the `.py` right after it is deleted. */
  lemma DeleteEveryPy(parent: string, tail: string)
    requires '.' !in parent
    ensures Replace(parent + (".py" + (tail + ".py")), ".py", "") == parent + Replace(tail + ".py", ".py", "")
  {
    forall i: nat | i < |parent|
      ensures !OccursAt(parent + (".py" + (tail + ".py")), ".py", i)
    {
      assert (parent + (".py" + (tail + ".py")))[i] == parent[i];
    }
    ReplaceKeepsPrefix(parent, ".py" + (tail + ".py"), ".py", "");
    ReplaceAtFront(".py", tail + ".py", "");
    assert "" + Replace(tail + ".py", ".py", "") == Replace(tail + ".py", ".py", "");
  }

  /** The intended naming of a three-component path. */
  lemma IntendedThreeComponents(a: string, b: string, c: string)
    requires '/' !in a && '/' !in b && '/' !in c
    ensures ModuleName(a + "/" + (b + "/" + c) + ".py", '/') == a + "." + (b + "." + c)
  {
    var named := [a, b, c];
    assert forall k :: 0 <= k < |named| ==> '/' !in named[k];
    ModuleNameOfComponents(named, '/');
    JoinThree("/", a, b, c);
    JoinThree(".", a, b, c);
  }

  /** The counterexample spelled out for one path. */
  lemma ModuleNameAsWrittenExample(path: string)
    requires path == "devices/pyramid/laser.py"
    ensures ModuleNameAsWritten(path, '/') == "devicesramid.laser"
    ensures ModuleName(path, '/') == "devices.pyramid.laser"
  {
    var parent, rest, stem := "devices", "ramid", "laser";
    ExamplePieces(path, parent, rest, stem);
    ModuleNameAsWrittenMangles(parent, rest, stem);
  }

  /** How the example path and both of its names are put together. */
  lemma ExamplePieces(path: string, parent: string, rest: string, stem: string)
    requires path == "devices/pyramid/laser.py"
    requires parent == "devices" && rest == "ramid" && stem == "laser"
    ensures path == parent + "/py" + rest + "/" + stem + ".py"
    ensures '.' !in parent && '.' !in rest && '.' !in stem
    ensures '/' !in parent && '/' !in rest && '/' !in stem
    ensures !StartsWith(stem, "py")
    ensures parent + rest + "." + stem == "devicesramid.laser"
    ensures parent + "." + "py" + rest + "." + stem == "devices.pyramid.laser"
  {
    assert stem[..2] == "la";
  }

  /** The intended naming: a path made of directory components and a file stem,
      joined by the separator and ending in `.py`, is named by the same
      components joined by dots. */
  lemma ModuleNameOfComponents(components: seq<string>, sep: char)
    requires |components| >= 1
    requires forall k :: 0 <= k < |components| ==> sep !in components[k]
    ensures ModuleName(Join([sep], components) + ".py", sep) == Join(".", components)
  {
    var path := Join([sep], components);
    assert EndsWith(path + ".py", ".py");
    assert (path + ".py")[..|path + ".py"| - 3] == path;
    ReplaceJoinSeparator(components, sep, ".");
  }

  /** Deleting every `.py` from a text that only has one, at its end, deletes the suffix. */
  lemma {:induction false} DeletePySuffix(y: string)
    requires !Contains(y, ".py")
    ensures Replace(y + ".py", ".py", "") == y
    decreases |y|
  {
    var s := y + ".py";
    if |y| == 0 {
      assert s == ".py";
      assert s[..3] == ".py" && s[3..] == "";
    } else {
      assert s[..3] != ".py" by {
        if |y| >= 3 {
          assert s[..3] == y[..3];
          assert !OccursAt(y, ".py", 0);
        } else if |y| == 2 {
          assert s[..3][2] == '.';
        } else {
          assert s[..3][1] == '.';
        }
      }
      assert !Contains(y[1..], ".py") by {
        if Contains(y[1..], ".py") {
          var i: nat :| OccursAt(y[1..], ".py", i);
          OccursInTail(y, ".py", i);
        }
      }
      DeletePySuffix(y[1..]);
      assert s[1..] == y[1..] + ".py";
      assert [s[0]] + y[1..] == y;
    }
  }

  /** Where no `.py` occurs before the extension, the code's name is the intended one. */
  lemma ModuleNameAsWrittenAgrees(relativePath: string, sep: char)
    requires EndsWith(relativePath, ".py")
    requires sep !in ".py"
    requires !Contains(ModuleName(relativePath, sep), ".py")
    ensures ModuleNameAsWritten(relativePath, sep) == ModuleName(relativePath, sep)
  {
    var stem := relativePath[..|relativePath| - 3];
    assert relativePath == stem + ".py";
    ReplaceCharConcat(stem, ".py", sep, ".");
    AbsentChar(".py", sep);
    ReplaceAbsent(".py", [sep], ".");
    DeletePySuffix(Replace(stem, [sep], "."));
  }

  // ---------------------------------------------------------------------------
  // Descriptors

  /** The descriptor rule's filter: a class, a subclass of `GenericDevice`, and
      not `GenericDevice` itself. */
  predicate IsDeviceClass(a: Attr) {
    a.isClass && a.isDeviceSubclass && !a.isGenericDevice
  }

  function PortMessageOf(p: PortSpec): PortMessage {
    PortMessage(p.portLabel, p.direction, p.signalType)
  }

  /** The ports listed for a class: one per dict item, taken from the port
      object (its label, not the dict key); none unless `ports` is a dict. */
  function PortMessages(ports: PortsAttr): seq<PortMessage> {
    match ports
    case PortDict(items) => seq(|items|, k requires 0 <= k < |items| => PortMessageOf(items[k].1))
    case _ => []
  }

  /** The descriptor of one device class of module `moduleName`. */
  function Describe(moduleName: string, a: Attr): DeviceMessage {
    DeviceMessage(
      a.className,
      if a.guiName.Some? then a.guiName.value else a.className,
      moduleName + "." + a.className,
      PortMessages(a.ports))
  }

  /** The descriptors of a module: one per device class, in attribute order. */
  function DeviceMessages(moduleName: string, attrs: seq<Attr>): seq<DeviceMessage>
    decreases |attrs|
  {
    if attrs == [] then []
    else
      var prior := DeviceMessages(moduleName, attrs[..|attrs| - 1]);
      var a := attrs[|attrs| - 1];
      if IsDeviceClass(a) then prior + [Describe(moduleName, a)] else prior
  }

  /** How many attributes are device classes. */
  function CountDeviceClasses(attrs: seq<Attr>): nat
    decreases |attrs|
  {
    if attrs == [] then 0
    else CountDeviceClasses(attrs[..|attrs| - 1]) + (if IsDeviceClass(attrs[|attrs| - 1]) then 1 else 0)
  }

  /** Selection and order: a module yields exactly one descriptor per device
      class, and the device class at attribute position `k` gets the slot
      numbered by the device classes before it. */
  lemma {:induction false} DeviceMessagesInOrder(moduleName: string, attrs: seq<Attr>, k: nat)
    requires k < |attrs| && IsDeviceClass(attrs[k])
    ensures |DeviceMessages(moduleName, attrs)| == CountDeviceClasses(attrs)
    ensures CountDeviceClasses(attrs[..k]) < CountDeviceClasses(attrs)
    ensures DeviceMessages(moduleName, attrs)[CountDeviceClasses(attrs[..k])] == Describe(moduleName, attrs[k])
    decreases |attrs|
  {
    var init := attrs[..|attrs| - 1];
    DeviceMessagesCount(moduleName, init);
    if k < |attrs| - 1 {
      assert init[..k] == attrs[..k];
      assert init[k] == attrs[k];
      DeviceMessagesInOrder(moduleName, init, k);
    } else {
      assert attrs[..k] == init;
    }
  }

  /** The number of descriptors is the number of device classes. */
  lemma {:induction false} DeviceMessagesCount(moduleName: string, attrs: seq<Attr>)
    ensures |DeviceMessages(moduleName, attrs)| == CountDeviceClasses(attrs)
    decreases |attrs|
  {
    if attrs != [] {
      DeviceMessagesCount(moduleName, attrs[..|attrs| - 1]);
    }
  }

  /** Conversely, every descriptor describes some device class of the module;
      no other attribute produces one. */
  lemma {:induction false} DeviceMessagesOnlyDeviceClasses(moduleName: string, attrs: seq<Attr>, i: nat)
    requires i < |DeviceMessages(moduleName, attrs)|
    ensures exists k :: 0 <= k < |attrs| && IsDeviceClass(attrs[k]) &&
                        DeviceMessages(moduleName, attrs)[i] == Describe(moduleName, attrs[k])
    decreases |attrs|
  {
    var init := attrs[..|attrs| - 1];
    var last := |attrs| - 1;
    if i < |DeviceMessages(moduleName, init)| {
      DeviceMessagesOnlyDeviceClasses(moduleName, init, i);
      var k :| 0 <= k < |init| && IsDeviceClass(init[k]) &&
               DeviceMessages(moduleName, init)[i] == Describe(moduleName, init[k]);
      assert attrs[k] == init[k];
    } else {
      assert IsDeviceClass(attrs[last]);
      assert DeviceMessages(moduleName, attrs)[i] == Describe(moduleName, attrs[last]);
    }
  }

  /** Index of the last `.` in a text, if any. */
  function LastDot(s: string): (r: Option<nat>)
    ensures r.Some? ==> r.value < |s| && s[r.value] == '.'
    decreases |s|
  {
    if |s| == 0 then None
    else if s[|s| - 1] == '.' then Some(|s| - 1)
    else LastDot(s[..|s| - 1])
  }

  /** Splits a dotted `module_class` into module name and class name at the last dot. */
  function SplitModuleClass(moduleClass: string): (string, string) {
    match LastDot(moduleClass)
    case None => ("", moduleClass)
    case Some(i) => (moduleClass[..i], moduleClass[i + 1..])
  }

  lemma {:induction false} LastDotBeforeName(prefix: string, name: string)
    requires '.' !in name
    ensures LastDot(prefix + "." + name) == Some(|prefix|)
    decreases |name|
  {
    var s := prefix + "." + name;
    if |name| > 0 {
      assert s[|s| - 1] == name[|name| - 1];
      assert s[..|s| - 1] == prefix + "." + name[..|name| - 1];
      LastDotBeforeName(prefix, name[..|name| - 1]);
    } else {
      assert s[|s| - 1] == '.';
    }
  }

  /** A descriptor names its class: `class_name` is the class's `__name__` and
      `module_class` splits back, at its last dot, into the module's name and
      that class name. The GUI name is the class's string `gui_name`, or the
      class name when there is none; the ports are one per item of a `ports`
      dict, taken from the port objects, and none otherwise. */
  lemma DescriptorFields(moduleName: string, a: Attr)
    requires '.' !in a.className
    ensures Describe(moduleName, a).className == a.className
    ensures SplitModuleClass(Describe(moduleName, a).moduleClass) == (moduleName, a.className)
    ensures a.guiName.Some? ==> Describe(moduleName, a).guiName == a.guiName.value
    ensures a.guiName.None? ==> Describe(moduleName, a).guiName == a.className
    ensures !a.ports.PortDict? ==> Describe(moduleName, a).ports == []
    ensures a.ports.PortDict? ==> |Describe(moduleName, a).ports| == |a.ports.items|
    ensures a.ports.PortDict? ==> forall k :: 0 <= k < |a.ports.items| ==>
              Describe(moduleName, a).ports[k] ==
              PortMessage(a.ports.items[k].1.portLabel, a.ports.items[k].1.direction, a.ports.items[k].1.signalType)
  {
    var mc := moduleName + "." + a.className;
    LastDotBeforeName(moduleName, a.className);
    assert mc[..|moduleName|] == moduleName;
    assert mc[|moduleName| + 1..] == a.className;
  }

  // ---------------------------------------------------------------------------
  // The scan

  /** What one walked file contributes: nothing unless it passes the file
      filter and imports cleanly, else the descriptors of its module. */
  function FileDevices(f: SourceFile, sep: char): seq<DeviceMessage> {
    if IsDeviceModuleFile(f.fileName) && f.imported.Some? then
      DeviceMessages(ModuleName(RelativePath(f.directory, f.fileName, sep), sep), f.imported.value)
    else []
  }

  /** The per-file step of the walk, as a value. */
  function PerFile(sep: char): SourceFile -> seq<DeviceMessage> {
    f => FileDevices(f, sep)
  }

  /** The descriptors of a whole walk, file by file. */
  function Catalogue(files: seq<SourceFile>, sep: char): seq<DeviceMessage> {
    Collect(files, PerFile(sep))
  }

  /** The results of `g` on each element, concatenated in order. */
  function Collect<A, B>(xs: seq<A>, g: A -> seq<B>): seq<B>
    decreases |xs|
  {
    if xs == [] then [] else Collect(xs[..|xs| - 1], g) + g(xs[|xs| - 1])
  }

  lemma {:induction false} CollectAppend<A, B>(a: seq<A>, b: seq<A>, g: A -> seq<B>)
    ensures Collect(a + b, g) == Collect(a, g) + Collect(b, g)
    decreases |b|
  {
    if b == [] {
      assert a + b == a;
    } else {
      assert (a + b)[..|a + b| - 1] == a + b[..|b| - 1];
      CollectAppend(a, b[..|b| - 1], g);
    }
  }

  /** A walk's catalogue is the catalogues of its parts, in order. */
  lemma CatalogueAppend(a: seq<SourceFile>, b: seq<SourceFile>, sep: char)
    ensures Catalogue(a + b, sep) == Catalogue(a, sep) + Catalogue(b, sep)
  {
    CollectAppend(a, b, PerFile(sep));
  }

  /** One more walked file adds exactly its own descriptors at the end. */
  lemma CatalogueSnoc(files: seq<SourceFile>, f: SourceFile, sep: char)
    ensures Catalogue(files + [f], sep) == Catalogue(files, sep) + FileDevices(f, sep)
  {
    assert (files + [f])[..|files|] == files;
    assert PerFile(sep)(f) == FileDevices(f, sep);
  }

  /** A file that is filtered out, or whose import raises, is skipped and the
      scan goes on with the next file. */
  lemma SkippedFile(a: seq<SourceFile>, f: SourceFile, b: seq<SourceFile>, sep: char)
    requires !IsDeviceModuleFile(f.fileName) || f.imported.None?
    ensures Catalogue(a + [f] + b, sep) == Catalogue(a, sep) + Catalogue(b, sep)
  {
    assert FileDevices(f, sep) == [];
    CatalogueSnoc(a, f, sep);
    assert Catalogue(a + [f], sep) == Catalogue(a, sep);
    CatalogueAppend(a + [f], b, sep);
  }

  /** What one walked file contributes under the code's own naming. */
  function FileDevicesAsWritten(f: SourceFile, sep: char): seq<DeviceMessage> {
    if IsDeviceModuleFile(f.fileName) && f.imported.Some? then
      DeviceMessages(ModuleNameAsWritten(RelativePath(f.directory, f.fileName, sep), sep), f.imported.value)
    else []
  }

  function PerFileAsWritten(sep: char): SourceFile -> seq<DeviceMessage> {
    f => FileDevicesAsWritten(f, sep)
  }

  /** The descriptors of a whole walk as the code names its modules. */
  function CatalogueAsWritten(files: seq<SourceFile>, sep: char): seq<DeviceMessage> {
    Collect(files, PerFileAsWritten(sep))
  }

  /** A selected file whose intended module name has no `.py` inside it. */
  ghost predicate NamedAlike(f: SourceFile, sep: char) {
    IsDeviceModuleFile(f.fileName) ==> !Contains(ModuleName(RelativePath(f.directory, f.fileName, sep), sep), ".py")
  }

  /** Two per-element steps that agree on every element collect the same results. */
  lemma {:induction false} CollectAgree<A, B>(xs: seq<A>, g: A -> seq<B>, h: A -> seq<B>)
    requires forall k :: 0 <= k < |xs| ==> g(xs[k]) == h(xs[k])
    ensures Collect(xs, g) == Collect(xs, h)
    decreases |xs|
  {
    if xs != [] {
      var init := xs[..|xs| - 1];
      assert forall k :: 0 <= k < |init| ==> init[k] == xs[k];
      CollectAgree(init, g, h);
    }
  }

  /** A file named alike under both rules contributes the same descriptors. */
  lemma FileDevicesAgree(f: SourceFile, sep: char)
    requires sep !in ".py" && NamedAlike(f, sep)
    ensures FileDevicesAsWritten(f, sep) == FileDevices(f, sep)
  {
    if IsDeviceModuleFile(f.fileName) {
      var path := RelativePath(f.directory, f.fileName, sep);
      if f.directory != "" {
        assert path[|path| - 3..] == f.fileName[|f.fileName| - 3..];
      }
      ModuleNameAsWrittenAgrees(path, sep);
    }
  }

  /** Where no module of the walk has a `.py` inside its intended name, the
      code's catalogue is the one this model scans. */
  lemma CatalogueAsWrittenAgrees(files: seq<SourceFile>, sep: char)
    requires sep !in ".py"
    requires forall k :: 0 <= k < |files| ==> NamedAlike(files[k], sep)
    ensures CatalogueAsWritten(files, sep) == Catalogue(files, sep)
  {
    forall k | 0 <= k < |files|
      ensures PerFileAsWritten(sep)(files[k]) == PerFile(sep)(files[k])
    {
      FileDevicesAgree(files[k], sep);
    }
    CollectAgree(files, PerFileAsWritten(sep), PerFile(sep));
  }

  /** `QuReedManager`; the singleton `__new__` is not modelled. */
  class QuReedManager {

    /** `__init__`: the manager registers itself under `qureed_manager`. */
    constructor (registry: LogicModules.LogicModuleHandler<string, object>)
      modifies registry
      ensures registry.modules == old(registry.modules)[LogicModules.QureedManagerKey := this]
      ensures registry.initialized == old(registry.initialized)
    {
      new;
      registry.Register(LogicModules.QureedManagerKey, this);
    }

    /** `create_device_message`: walks the module's attributes and builds one
        descriptor per device class. */
    method CreateDeviceMessage(source: Module) returns (deviceMessages: seq<DeviceMessage>)
      ensures deviceMessages == DeviceMessages(source.name, source.attrs)
    {
      deviceMessages := [];
      var attrs := source.attrs;
      for i := 0 to |attrs|
        invariant deviceMessages == DeviceMessages(source.name, attrs[..i])
      {
        var a := attrs[i];
        assert attrs[..i + 1][..i] == attrs[..i];
        if a.isClass && a.isDeviceSubclass && !a.isGenericDevice {
          var ports: seq<PortMessage> := [];
          if a.ports.PortDict? {
            var items := a.ports.items;
            for j := 0 to |items|
              invariant |ports| == j
              invariant forall k :: 0 <= k < j ==> ports[k] == PortMessageOf(items[k].1)
            {
              var port := items[j].1;
              ports := ports + [PortMessage(port.portLabel, port.direction, port.signalType)];
            }
          }
          var guiName := if a.guiName.Some? then a.guiName.value else a.className;
          assert ports == PortMessages(a.ports);
          deviceMessages := deviceMessages + [DeviceMessage(a.className, guiName, source.name + "." + a.className, ports)];
        }
      }
      assert attrs[..|attrs|] == attrs;
    }

    /** One directory walk: every selected file that imports cleanly
        contributes its module's descriptors, in walk order. */
    method ScanTree(files: seq<SourceFile>, sep: char) returns (deviceList: seq<DeviceMessage>)
      ensures deviceList == Catalogue(files, sep)
    {
      deviceList := [];
      for i := 0 to |files|
        invariant deviceList == Catalogue(files[..i], sep)
      {
        var f := files[i];
        assert files[..i + 1] == files[..i] + [f];
        CatalogueSnoc(files[..i], f, sep);
        if IsDeviceModuleFile(f.fileName) && f.imported.Some? {
          var name := ModuleName(RelativePath(f.directory, f.fileName, sep), sep);
          var messages := CreateDeviceMessage(Module(name, f.imported.value));
          deviceList := deviceList + messages;
        }
      }
      assert files[..|files|] == files;
    }

    /** `get_devices`: the built-in devices (named relative to the package
        root) followed by the project's custom devices (named relative to
        `custom/devices`). */
    method GetDevices(builtin: seq<SourceFile>, custom: seq<SourceFile>, sep: char)
      returns (deviceList: seq<DeviceMessage>)
      ensures deviceList == Catalogue(builtin + custom, sep)
    {
      var builtinDevices := ScanTree(builtin, sep);
      var customDevices := ScanTree(custom, sep);
      deviceList := builtinDevices + customDevices;
      CatalogueAppend(builtin, custom, sep);
    }
  }
}
