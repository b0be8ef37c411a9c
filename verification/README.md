# Login ⇄ TabBar flow switching: the main coordinator

This project models the core of `MainCoordinator`, the top-level coordinator of an iOS
application that shows either a Login flow or a TabBar flow and swaps one for the other
when a flow finishes. It models two things:

- The registry of child coordinators. This is an ordered list compared by reference
  identity (`===`). Adding a coordinator does nothing when it is already present;
  otherwise the coordinator is appended. Removing a coordinator deletes every identical
  entry.
- The flow switch. The app starts on a new Login coordinator. When a Login coordinator
  finishes, a new TabBar coordinator replaces it. When a TabBar coordinator finishes, a
  new Login coordinator replaces it. Any other caller is only reported.

Files:

- `registry.dfy` (module `Registry`): the registry as a value, generic in the entry type.
  It holds `Added`, `RemoveAll`, `AddEach` and the `NoDuplicates` invariant, with lemmas
  about them. For a class type, Dafny's `==` is reference identity, which is exactly the
  comparison the source makes.
- `coordinators.dfy` (module `Coordinators`): the classes.
  - `Coordinator` has a `kind` that stands for its concrete Swift class.
  - `MainCoordinator` keeps its registry in the `seq` field `childCoordinators`. Its
    methods update that field in place, and their `ensures` clauses relate the new
    registry to `old(childCoordinators)`.
  - `Valid()` (no duplicate entries) is the class invariant. Every method keeps it.
  - Newly constructed coordinators are modelled with `fresh`.
  - Three client methods replay concrete sequences of calls.

## Model

| member | source | states |
|---|---|---|
| `Registry.Added` | Demo_SwitchFromLoginToTabBar/Coordinators/MainCoordinator.swift:48-53 | after adding, `c` is present; the old registry is a prefix of the result; the result grows by at most one and holds nothing but old entries and `c`; it is unchanged exactly when `c` was already present |
| `Registry.RemoveAll` | Demo_SwitchFromLoginToTabBar/Coordinators/MainCoordinator.swift:55-57 | after removal, no entry is `c`; every surviving entry was there before, and every entry other than `c` survives; the registry does not grow; it is unchanged exactly when `c` was absent |
| `Registry.RemoveAllDistributes` | Demo_SwitchFromLoginToTabBar/Coordinators/MainCoordinator.swift:56 | removal from a concatenation is the concatenation of the removals, so the surviving entries keep their relative order |
| `Registry.RemoveAllCounts` | Demo_SwitchFromLoginToTabBar/Coordinators/MainCoordinator.swift:56 | removal drops every occurrence of `c` and keeps each other entry exactly as many times as before |
| `Registry.RemoveAllNoDuplicates` | Demo_SwitchFromLoginToTabBar/Coordinators/MainCoordinator.swift:55-57 | removing from a registry without duplicates leaves a registry without duplicates |
| `Registry.AddedNoDuplicates` | Demo_SwitchFromLoginToTabBar/Coordinators/MainCoordinator.swift:48-53 | adding to a registry without duplicates leaves a registry without duplicates |
| `Registry.AddEach` | Demo_SwitchFromLoginToTabBar/Coordinators/MainCoordinator.swift:48-53 | adding a sequence of coordinators one at a time keeps the starting registry as a prefix; every added coordinator is present afterwards, and nothing else is |
| `Registry.AddEachNoDuplicates` | Demo_SwitchFromLoginToTabBar/Coordinators/MainCoordinator.swift:48-53 | a registry that only grows through adds never holds the same coordinator twice |
| `Registry.AddThenRemove` | Demo_SwitchFromLoginToTabBar/Coordinators/MainCoordinator.swift:85-89 | adding an unregistered `incoming` and then removing a different `outgoing` gives the old registry without `outgoing`, with `incoming` appended; this holds whether or not `outgoing` was registered |
| `Coordinators.NextKind` | Demo_SwitchFromLoginToTabBar/Coordinators/MainCoordinator.swift:121-133 | Login and TabBar each have a successor, and it is neither the same kind nor Other; any other kind has none |
| `Coordinators.Coordinator.constructor` | Demo_SwitchFromLoginToTabBar/Coordinators/MainCoordinator.swift:33-36 | a child coordinator is created with its kind and its parent coordinator |
| `Coordinators.MainCoordinator.constructor` | Demo_SwitchFromLoginToTabBar/Coordinators/MainCoordinator.swift:20-27 | a new main coordinator starts with an empty registry, which satisfies the invariant |
| `Coordinators.MainCoordinator.MakeLoginCoordinator` | Demo_SwitchFromLoginToTabBar/Coordinators/MainCoordinator.swift:32-38 | returns a newly allocated Login coordinator whose parent is this main coordinator |
| `Coordinators.MainCoordinator.MakeToTabBarCoordinator` | Demo_SwitchFromLoginToTabBar/Coordinators/MainCoordinator.swift:40-46 | returns a newly allocated TabBar coordinator whose parent is this main coordinator |
| `Coordinators.MainCoordinator.AddChildCoordinator` | Demo_SwitchFromLoginToTabBar/Coordinators/MainCoordinator.swift:48-53 | when `c` is already present, the registry is unchanged; otherwise `c` is appended and all earlier entries stay in place; the invariant of no duplicates is kept |
| `Coordinators.MainCoordinator.RemoveChildCoordinator` | Demo_SwitchFromLoginToTabBar/Coordinators/MainCoordinator.swift:55-57 | the registry becomes the old one with every entry identical to `c` deleted: no other entry's count changes and the invariant is kept |
| `Coordinators.MainCoordinator.SwitchCoordinators` | Demo_SwitchFromLoginToTabBar/Coordinators/MainCoordinator.swift:85-89 | `incoming` is registered before `outgoing` is removed: the registry during the view switch holds `incoming`, still holds `outgoing` if it was registered, and has grown by at most one; afterwards, for an unregistered `incoming`, the registry is the old one without `outgoing` with `incoming` appended |
| `Coordinators.MainCoordinator.Start` | Demo_SwitchFromLoginToTabBar/Coordinators/MainCoordinator.swift:99-112 | always registers a new Login coordinator, appended to the registry; from an empty registry, that coordinator is the only child |
| `Coordinators.MainCoordinator.SwitchToNextFlow` | Demo_SwitchFromLoginToTabBar/Coordinators/MainCoordinator.swift:121-134 | a Login caller is replaced by a new TabBar coordinator and a TabBar caller by a new Login coordinator: the caller is deregistered and the replacement appended. A caller of any other kind is reported and leaves the registry unchanged. During the view switch the registry has grown by at most one: when the caller was the only child, it holds the caller then the replacement, and afterwards the replacement is the only child |
| `Coordinators.StartAndSwitchThreeTimes` | Demo_SwitchFromLoginToTabBar/Coordinators/MainCoordinator.swift:99-134 | start followed by three switches from the flow on screen (Login, TabBar, Login, TabBar) ends with exactly one registered coordinator, a TabBar one |
| `Coordinators.StaleLoginSwitchesAgain` | Demo_SwitchFromLoginToTabBar/Coordinators/MainCoordinator.swift:121-129 | a Login coordinator that has already been replaced and calls the switch again gets a second TabBar coordinator registered beside the first, so the registry holds two entries |
| `Coordinators.StaleLoginGrowsRegistry` | Demo_SwitchFromLoginToTabBar/Coordinators/MainCoordinator.swift:121-129 | three switch calls from the same replaced Login coordinator leave three TabBar coordinators registered: stale calls grow the registry by one each |

## Left out

- `setFlow` and `switchFlow` (view-controller containment, the 0.6 s cross-dissolve
  transition and its completion closure) and the `rootViewController` field are UIKit
  work. They are not modelled. `SwitchCoordinators` and `SwitchToNextFlow` mark the point
  of the view swap only through their ghost result `during`, the registry at that moment.
- `start()` of the Login and TabBar coordinators, and the views it returns, belong to
  files that are not part of this model. `MainCoordinator.Start` does not return the
  root view controller. The model assumes that a child's `start()` does not touch the
  registry, which means it does not call back into `switchToNextFlow`. Both
  `MainCoordinator.Start` and `SwitchCoordinators` rely on this, at
  `MainCoordinator.swift` lines 87 and 110.
- The diagnostic printed for an unknown caller is modelled only as the `reported` result
  of `SwitchToNextFlow`. Its text is not modelled.
- Whether `parentCoordinator` is held weakly or strongly is not modelled. It is
  memory management, not behaviour. The parent is kept as a plain field.
- The commented-out authentication check in `start` is not code, so `Start` always
  begins with Login.
- The code does not check that the caller of `switchToNextFlow` is still registered, and
  the model follows the code. A Login coordinator that was already replaced can call
  again. Its second call leaves a second TabBar coordinator registered after the switch
  (`StaleLoginSwitchesAgain`), and each further call adds one more
  (`StaleLoginGrowsRegistry`). So the registry has no fixed size bound across stale
  calls. When the caller is the only registered coordinator, `SwitchToNextFlow` holds at
  most two entries during the switch and exactly one after it.
