# QuReed project server: board loader, device catalogue, module registry, package listing

A Dafny model of the sequential logic of the QuReed project server, the backend
behind the QuReed circuit editor. It covers four parts.

- **Board loader** (`board_manager.dfy`, module `Board`). `BoardManager` holds
  the devices of the board that is open, and a `connections` list that stays
  empty. The signals live only in the devices' bindings.
  - `open_scheme` throws the old board away and builds one `Device` per device
    descriptor of an already parsed scheme.
  - For every connection descriptor it creates one `Signal` and registers that
    same instance on the two ports it names.
  - `get_device` is a uuid lookup that succeeds only when exactly one device
    matches.
  - The classes and their in-place updates are modelled as Dafny classes. What
    a load does is also described as values by `Load`, `Wire` and `Received`.
    The methods are proved against those functions.
- **Device catalogue** (`qureed_manager.dfy`, module `QureedManager`). Covers
  which files the device scan imports, how each module is named, and how
  `create_device_message` turns the device classes of a module into descriptors.
  The scan over a walk is modelled as well.
- **Logic-module registry** (`logic_modules.dfy`, module `LogicModules`). The
  key-to-manager map through which the managers find each other: `register`
  and `get_logic`.
- **Package listing** (`venv_manager.dfy`, module `VenvManagement`). The
  `freeze` text of a virtual environment. Its partner is a parser that reads
  the text back.

`text.dfy` models the Python `str` operations the code uses (`startswith`,
`endswith`, `replace`, `join`). It also holds a `split` at one character,
which the code does not call: it is the line splitter of the parser that reads
a `freeze` listing back. `wrappers.dfy` holds `Option` and `Result`.

Python exceptions are modelled as the error values of `Result`/`Option`:
- `BoardError` covers the failures of `open_scheme` and `get_device`.
- `LogicError.KeyError` is the error of `get_logic`.
- `VenvError` is `freeze` without an environment.

### Behaviour of `open_scheme` worth knowing

- **Order of checks in a connection.** The signal type is resolved and the
  signal constructed first (`board_manager.py:32-33`). Only then is each
  endpoint's uuid read and looked up, in turn.
- **Missing keys.** `scheme["devices"]` and `scheme["connections"]` raise
  (`MissingKey`) when the key is absent. There is no default to an empty list.
- **Return value.** `open_scheme` returns nothing; its effect is the new board.
- **No compatibility check.** Nothing beyond the type and uuid lookups is
  checked; a signal type and the ports it joins are never compared.
- **Opened scheme.** `opened_scheme` is not assigned by `open_scheme`.
- **No signal list.** `connections` is reset and never appended to.
- **No rollback.** A failure keeps everything built before it: the devices of
  the resolved prefix, and the bindings of the connections already wired.

## Model

| member | source | states |
|---|---|---|
| LogicModules.EnumKey | qureed_project_server/logic_modules.py:3-5 | a `LogicModuleEnum` member name gives its key exactly when it is one of the two members, `venv_manager` or `qureed_manager`; any other name raises `AttributeError` |
| LogicModules.BoardManagerMemberMissing | qureed_project_server/board_manager/board_manager.py:15 | `LogicModuleEnum.BOARD_MANAGER` is not a member and raises `AttributeError`, and no member's key is `board_manager` |
| LogicModules.LogicModuleHandler.constructor | qureed_project_server/logic_modules.py:15-18 | a new handler is initialised and holds no modules |
| LogicModules.LogicModuleHandler.Init | qureed_project_server/logic_modules.py:15-18 | running `__init__` again on the existing handler keeps every registration |
| LogicModules.LogicModuleHandler.Register | qureed_project_server/logic_modules.py:20-21 | the map gains or overwrites exactly `key`; every other key keeps its presence and module; `get_logic(key)` then returns the new module |
| LogicModules.LogicModuleHandler.GetLogic | qureed_project_server/logic_modules.py:23-24 | succeeds exactly when the key is registered, with its module; otherwise `KeyError`; reads the handler and changes nothing |
| VenvManagement.VenvManager.constructor | qureed_project_server/venv_management/venv_manager.py:45-51 | `venv`, `path` and `client_id` start as None and the manager is registered under `venv_manager` |
| VenvManagement.VenvManager.Freeze | qureed_project_server/venv_management/venv_manager.py:109-124 | the result is the newline join of one line per installed package, in order: the bare name without a version, `name==version` with one; an empty environment gives ""; no environment is an error; nothing changes |
| VenvManagement.FindVersionSeparatorFirst | qureed_project_server/venv_management/venv_manager.py:121-122 | the reader used as the listing's partner finds the first `==` of a line, and none only when the line has none |
| VenvManagement.FirstSeparatorAfterName | qureed_project_server/venv_management/venv_manager.py:121-122 | in `name==version` with no `=` in the name, the first `==` is the one written after the name |
| VenvManagement.EntryParsesBack | qureed_project_server/venv_management/venv_manager.py:119-122 | every line `Entry` writes reads back as the package it lists, version or not |
| VenvManagement.FreezeParsesBack | qureed_project_server/venv_management/venv_manager.py:117-124 | splitting the text `FreezeText` builds at newlines gives one line per package, in order, each reading back as that package: nothing is merged, lost or reordered |
| Text.SplitJoin | qureed_project_server/venv_management/venv_manager.py:124 | splitting a newline join of newline-free lines gives the lines back |
| Text.ReplaceJoinSeparator | qureed_project_server/qureed_manager/qureed_manager.py:52 | replacing the path separator in a joined path gives the components joined by dots |
| QureedManager.DeviceModuleFileSelection | qureed_project_server/qureed_manager/qureed_manager.py:50 | `IsDeviceModuleFile`: no name without the `.py` ending and no name starting with `__` is imported; a `.py` file is imported exactly when its name does not start with `__`; `__init__.py` and `laser.pyc` are skipped, `_laser.py` and `laser.py` imported |
| QureedManager.ModuleNameAsWritten | qureed_project_server/qureed_manager/qureed_manager.py:52 | the code's module name of a relative path (every separator to a dot, then every `.py` deleted) keeps no path separator |
| QureedManager.ModuleName | qureed_project_server/qureed_manager/qureed_manager.py:52 | the intended module name (the `.py` extension dropped, then every separator to a dot) keeps no path separator |
| QureedManager.ModuleNameAsWrittenMangles | qureed_project_server/qureed_manager/qureed_manager.py:52 | deleting every `.py` also deletes the dot and the letters `py` of a directory whose name begins with `py`, which the intended naming keeps |
| QureedManager.ModuleNameAsWrittenExample | qureed_project_server/qureed_manager/qureed_manager.py:69 | `devices/pyramid/laser.py` is named `devicesramid.laser` by the code and `devices.pyramid.laser` by the intended rule |
| QureedManager.ModuleNameOfComponents | qureed_project_server/qureed_manager/qureed_manager.py:52 | the intended name of a separator-joined path ending in `.py` is its components joined by dots |
| QureedManager.ModuleNameAsWrittenAgrees | qureed_project_server/qureed_manager/qureed_manager.py:52 | where no `.py` occurs before the extension, the code's name and the intended name coincide |
| QureedManager.DeviceMessagesInOrder | qureed_project_server/qureed_manager/qureed_manager.py:90-121 | `DeviceMessages` gives one descriptor per device class, in attribute order: the device class at position k is described in the slot counted by the device classes before it |
| QureedManager.DeviceMessagesCount | qureed_project_server/qureed_manager/qureed_manager.py:90-121 | the number of descriptors is the number of device classes |
| QureedManager.DeviceMessagesOnlyDeviceClasses | qureed_project_server/qureed_manager/qureed_manager.py:93 | every descriptor describes a strict `GenericDevice` subclass of the module; no other attribute yields one |
| QureedManager.DescriptorFields | qureed_project_server/qureed_manager/qureed_manager.py:96-119 | the descriptor `Describe` builds: `class_name` is the class name; `module_class` splits at its last dot into module name and class name; the GUI name is `gui_name` when that is a string and the class name otherwise; without a `ports` dict there are no ports, with one there is one port per item, in order, carrying that port's label, direction and signal type |
| QureedManager.CatalogueAppend | qureed_project_server/qureed_manager/qureed_manager.py:48-77 | the descriptors of a walk are those of its parts, in order: built-in devices before custom ones |
| QureedManager.CatalogueSnoc | qureed_project_server/qureed_manager/qureed_manager.py:61-62 | each file adds exactly its own module's descriptors (`FileDevices`), at the end |
| QureedManager.SkippedFile | qureed_project_server/qureed_manager/qureed_manager.py:57-60 | a filtered-out file, or one whose import raises, contributes nothing and the scan goes on |
| QureedManager.FileDevicesAgree | qureed_project_server/qureed_manager/qureed_manager.py:50-62 | for a file whose intended module name holds no `.py`, the descriptors under the code's naming are those under the intended naming |
| QureedManager.CatalogueAsWrittenAgrees | qureed_project_server/qureed_manager/qureed_manager.py:48-77 | when no walked device file has a `.py` inside its intended module name, the walk's catalogue under the code's naming equals the catalogue the model uses |
| QureedManager.QuReedManager.constructor | qureed_project_server/qureed_manager/qureed_manager.py:20-23 | the manager is registered under `qureed_manager` and nothing else in the registry changes |
| QureedManager.QuReedManager.CreateDeviceMessage | qureed_project_server/qureed_manager/qureed_manager.py:86-123 | the loop builds exactly the descriptors `DeviceMessages` specifies |
| QureedManager.QuReedManager.ScanTree | qureed_project_server/qureed_manager/qureed_manager.py:48-62 | one walk yields exactly the catalogue of its files |
| QureedManager.QuReedManager.GetDevices | qureed_project_server/qureed_manager/qureed_manager.py:25-80 | the device list is the built-in walk's catalogue followed by the custom walk's |
| Board.Device.RegisterSignal | qureed_project_server/board_manager/board_manager.py:36-43 | a registration appends one binding of the signal to the port and keeps the earlier ones |
| Board.Matches | qureed_project_server/board_manager/board_manager.py:46 | the filter keeps exactly the indices whose uuid matches, in increasing order |
| Board.FindUnique | qureed_project_server/board_manager/board_manager.py:47-50 | a found index has the uuid and is the only one that does |
| Board.FindUniqueExactlyOne | qureed_project_server/board_manager/board_manager.py:45-50 | the lookup succeeds exactly when one index has the uuid |
| Board.ResolvedPrefix | qureed_project_server/board_manager/board_manager.py:26-29 | the devices built before the loop stops: every earlier type is known and the next one, if any, is not |
| Board.ConnectStep | qureed_project_server/board_manager/board_manager.py:32-35 | a wired connection has a known signal type, two endpoints and a unique device for each; with both present it fails only on a uuid that names no unique device |
| Board.Wire | qureed_project_server/board_manager/board_manager.py:31-43 | never more links than connections, all of them when nothing fails, every link between devices on the board |
| Board.WirePrefixFailed | qureed_project_server/board_manager/board_manager.py:31-35 | once a connection fails, the later ones are never looked at |
| Board.WireStopsAtFirstFailure | qureed_project_server/board_manager/board_manager.py:31-43 | each wired connection joins the devices its endpoints name on the ports they name; the wiring stops at the first failing connection with its error |
| Board.Load | qureed_project_server/board_manager/board_manager.py:21-43 | a load builds a prefix of the descriptors, all of known types; links only once every device is built; succeeds exactly when the manager is registered, both keys are present, every device is built and every connection is wired; once every device type resolves, every device is built even if the `connections` key is missing or a connection fails |
| Board.LoadStopsAtUnknownType | qureed_project_server/board_manager/board_manager.py:26-29 | the first unresolvable device type stops the load before any connection, keeping the devices before it |
| Board.ReceivedComplete | qureed_project_server/board_manager/board_manager.py:36-43 | both ends of every wired connection received its signal on their port |
| Board.TypesAgree | qureed_project_server/board_manager/board_manager.py:32-33 | each signal is of the type its connection names |
| Board.WireStepAllBound | qureed_project_server/board_manager/board_manager.py:36-43 | registering one more signal on its two ends keeps every device's bindings in step with the calls it received |
| Board.ConnectionShared | qureed_project_server/board_manager/board_manager.py:32-43 | the two devices of a wired connection hold the same signal instance, each on its own port |
| Board.BoardManager.constructor | qureed_project_server/board_manager/board_manager.py:13-19 | a new board has no opened scheme, no devices and no connections, and is registered under `board_manager`, the only change to the registry |
| Board.BoardManager.GetDevice | qureed_project_server/board_manager/board_manager.py:45-50 | returns the device at the unique matching index, whose uuid is the one asked for; fails with `DeviceNotFound` when zero or several match; reads the board only |
| Board.GetDeviceExactlyOne | qureed_project_server/board_manager/board_manager.py:45-50 | `get_device` succeeds exactly when one device has the uuid, and returns that device |
| Board.BoardManager.OpenScheme | qureed_project_server/board_manager/board_manager.py:21-43 | `opened_scheme` untouched and `connections` empty; error and device count as `Load` says; every device new, of its descriptor's type and uuid, with exactly the bindings its calls gave it; one signal per wired connection, each new, of its connection's type and distinct from the others; no rollback on failure |
| Board.BoardManager.BuildDevices | qureed_project_server/board_manager/board_manager.py:26-29 | one new device per descriptor, in order, up to the first unknown type, which is the error |
| Board.BoardManager.WireConnections | qureed_project_server/board_manager/board_manager.py:31-43 | the connection loop wires exactly what `Wire` says and stops with its error; every device's bindings match its received calls; the signals are new, pairwise distinct, one per wired connection and of its type |
| Board.BoardManager.WireNext | qureed_project_server/board_manager/board_manager.py:31-43 | one pass of the loop: a failing connection ends the wiring with its error and binds nothing; otherwise one new signal, distinct from the earlier ones, extends the wiring, the types and the bindings by one connection |
| Board.BoardManager.Connect | qureed_project_server/board_manager/board_manager.py:32-43 | one connection fails exactly as `ConnectStep` does and then registers nothing; otherwise one newly created signal of the named type is registered on both endpoint devices' ports |
| Board.BoardManager.RegisterBoth | qureed_project_server/board_manager/board_manager.py:36-43 | the two `register_signal` calls extend the two devices' bindings and no other device's |

## Left out

- The singleton `__new__` of all four classes. Each manager is one object, and
  the registry is passed to the constructors instead of being a module-level
  global.
- Board.BoardManager.constructor: registers the board under
  `board_manager`, which is the intended behaviour (see Findings). As
  written, `board_manager.py:15` raises before any field is set.
- `QM.get_class` is not defined in the repository's own files. It is the
  parameter `known`, the type references it can resolve. The constructed
  device and signal classes are reduced to their type reference.
- Device construction and `register_signal` belong to the external `qureed`
  library. A device is its type, its uuid and the list of (port, signal)
  bindings it received.
- Board.Device.RegisterSignal: assumed never to raise. An unknown port label,
  or a port that is already bound, may make the library's `register_signal`
  raise; the model does not capture that. Had the second call of a connection
  raised, the first device would keep a signal that the second never received.
- The signal objects created by `open_scheme` are returned only as a ghost
  list. As in the code, the board itself does not keep them.
- Missing inner keys of a descriptor (`device`, `uuid`, `signal`,
  `device_uuid`, `port`) are not modelled: the descriptor datatypes always
  carry them. Exceptions raised by a device or signal constructor are not
  modelled either.
- `open_scheme` receives an already parsed scheme. Reading the JSON file is
  not part of this model.
- The filesystem walk and dynamic import of `get_devices` are inputs:
  - a sequence of walked files in walk order;
  - each file's directory relative to the naming root;
  - the module's attributes, or `None` when executing it raised.
- Locating the `qureed` package (`qureed_manager.py:28-35`, including the
  early `return []`) is not modelled, and neither is the manager's path lookup.
- The `message` text (`qureed_manager.py:36-41`) is not modelled. It
  depends on filesystem checks, and both checks test the package path.
- The tuple return shape of `get_devices` and its catch-all handler at
  `qureed_manager.py:82-84` are not modelled.
- `dir(module)` order is taken as given. `inspect.isclass`/`issubclass` are
  booleans on each attribute, and a non-string `gui_name` is `None`.
- QureedManager.QuReedManager.GetDevices: names modules with the corrected
  naming rule (see Findings), not the code's.
- QureedManager.QuReedManager.ScanTree: names modules, like `FileDevices`,
  `PerFile` and `Catalogue`, with the corrected rule `ModuleName`, not the
  code's `ModuleNameAsWritten`. `CatalogueAsWrittenAgrees` shows that the two
  catalogues coincide when no intended module name has a `.py` inside it.
- `VenvManager.connect`, `install` and `uninstall` wrap the external
  `virtualenvapi` package and change `sys.path`. They are not modelled; the
  environment is a value holding its package list.
- The gRPC servicers, the server and client, the simulation entry point and
  manager stub, tensor logging and packaging metadata are not modelled.

## Findings

| source | as written | input that shows it | evidently intended | confidence | as-written member | corrected member |
|---|---|---|---|---|---|---|
| qureed_project_server/board_manager/board_manager.py:15 | `LogicModuleEnum.BOARD_MANAGER` is not a member of the enum (which has only `VENV_MANAGER` and `QUREED_MANAGER`), so the first `BoardManager()` raises `AttributeError` | `BoardManager()` | register the board under a `board_manager` key and initialise it | not executed | LogicModules.BoardManagerMemberMissing | Board.BoardManager.constructor |
| qureed_project_server/qureed_manager/qureed_manager.py:52 | `.replace(".py", "")` deletes every `.py` in the dotted path, not only the extension (same at line 69) | the file `devices/pyramid/laser.py` is named `devicesramid.laser` | drop only the trailing `.py`: `devices.pyramid.laser` | not executed | QureedManager.ModuleNameAsWrittenExample | QureedManager.ModuleNameOfComponents |
