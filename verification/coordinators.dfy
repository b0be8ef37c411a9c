/**
 * The main coordinator: the registry of child coordinators and the switch
 * between the Login flow and the TabBar flow.
 */
module Coordinators {
  import opened Registry

  /** The concrete class of a coordinator, which the flow switch dispatches on. */
  datatype Kind = Login | TabBar | Other

  datatype Option<T> = None | Some(value: T)

  /**
   * The kind of flow that replaces a finished flow of kind `k`: Login and
   * TabBar replace each other, and any other kind has no successor.
   */
  function NextKind(k: Kind): (r: Option<Kind>)
    ensures r.None? <==> k == Other
    ensures r.Some? ==> r.value != k && r.value != Other
  {
    match k
    case Login => Some(TabBar)
    case TabBar => Some(Login)
    case Other => None
  }

  /**
   * A child coordinator. Only its identity, its concrete kind and the
   * parent it reports back to matter here; its own flow is not modelled.
   */
  class Coordinator {
    const kind: Kind
    const parent: MainCoordinator?

    constructor (kind: Kind, parent: MainCoordinator?)
      ensures this.kind == kind && this.parent == parent
    {
      this.kind := kind;
      this.parent := parent;
    }
  }

  class MainCoordinator {
    var childCoordinators: seq<Coordinator>

    /** The registry is an ordered set of coordinators, compared by identity. */
    ghost predicate Valid()
      reads this
    {
      NoDuplicates(childCoordinators)
    }

    constructor ()
      ensures Valid() && childCoordinators == []
    {
      childCoordinators := [];
    }

    method MakeLoginCoordinator() returns (c: Coordinator)
      ensures fresh(c) && c.kind == Login && c.parent == this
    {
      c := new Coordinator(Login, this);
    }

    method MakeToTabBarCoordinator() returns (c: Coordinator)
      ensures fresh(c) && c.kind == TabBar && c.parent == this
    {
      c := new Coordinator(TabBar, this);
    }

    /** Registers `c` unless it is already registered. */
    method AddChildCoordinator(c: Coordinator)
      requires Valid()
      modifies this
      ensures Valid()
      ensures c in old(childCoordinators) ==> childCoordinators == old(childCoordinators)
      ensures c !in old(childCoordinators) ==> childCoordinators == old(childCoordinators) + [c]
      ensures childCoordinators == Added(old(childCoordinators), c)
    {
      AddedNoDuplicates(childCoordinators, c);
      if c in childCoordinators {
        return;
      }
      childCoordinators := childCoordinators + [c];
    }

    /** Deregisters every entry identical to `c`. */
    method RemoveChildCoordinator(c: Coordinator)
      requires Valid()
      modifies this
      ensures Valid()
      ensures childCoordinators == RemoveAll(old(childCoordinators), c)
      ensures multiset(childCoordinators) == multiset(old(childCoordinators))[c := 0]
    {
      RemoveAllNoDuplicates(childCoordinators, c);
      RemoveAllCounts(childCoordinators, c);
      childCoordinators := RemoveAll(childCoordinators, c);
    }

    /**
     * Replaces `outgoing` by `incoming`: `incoming` is registered first, then
     * the view is switched, then `outgoing` is deregistered. `during` is the
     * registry while the view switch runs.
     */
    method SwitchCoordinators(outgoing: Coordinator, incoming: Coordinator) returns (ghost during: seq<Coordinator>)
      requires Valid()
      modifies this
      ensures Valid()
      ensures during == Added(old(childCoordinators), incoming) && incoming in during
      ensures |during| <= |old(childCoordinators)| + 1
      ensures outgoing in old(childCoordinators) ==> outgoing in during
      ensures childCoordinators == RemoveAll(during, outgoing)
      ensures incoming !in old(childCoordinators) && incoming != outgoing ==>
                childCoordinators == RemoveAll(old(childCoordinators), outgoing) + [incoming]
    {
      AddChildCoordinator(incoming);
      during := childCoordinators;
      RemoveChildCoordinator(outgoing);
      if incoming !in old(childCoordinators) && incoming != outgoing {
        AddThenRemove(old(childCoordinators), outgoing, incoming);
      }
    }

    /**
     * Starts the application on the Login flow: a new Login coordinator is
     * registered. `login` is that coordinator.
     */
    method Start() returns (ghost login: Coordinator)
      requires Valid()
      modifies this
      ensures Valid()
      ensures fresh(login) && login.kind == Login && login.parent == this
      ensures childCoordinators == old(childCoordinators) + [login]
      ensures old(childCoordinators) == [] ==> childCoordinators == [login]
    {
      var coordinator := MakeLoginCoordinator();
      AddChildCoordinator(coordinator);
      login := coordinator;
    }

    /**
     * Called by a child coordinator whose flow has finished. A Login caller
     * is replaced by a new TabBar coordinator and a TabBar caller by a new
     * Login coordinator; any other caller is only reported (`reported`).
     * `next` is the replacement, if any, and `during` is the registry while
     * the view switch runs.
     */
    method SwitchToNextFlow(current: Coordinator)
      returns (reported: bool, ghost next: Coordinator?, ghost during: seq<Coordinator>)
      requires Valid()
      modifies this
      ensures Valid()
      ensures reported <==> current.kind == Other
      ensures current.kind == Other ==>
                next == null && during == old(childCoordinators) && childCoordinators == old(childCoordinators)
      ensures current.kind != Other ==>
                next != null && fresh(next) && next.parent == this &&
                NextKind(current.kind) == Some(next.kind) &&
                during == old(childCoordinators) + [next] &&
                childCoordinators == RemoveAll(during, current) &&
                childCoordinators == RemoveAll(old(childCoordinators), current) + [next]
      ensures |during| <= |old(childCoordinators)| + 1
      ensures current.kind != Other && old(childCoordinators) == [current] ==>
                during == [current, next] && childCoordinators == [next]
    {
      reported := false;
      next := null;
      during := childCoordinators;
      match current.kind
      case Login =>
        var newCoordinator := MakeToTabBarCoordinator();
        assert newCoordinator !in childCoordinators && newCoordinator != current;
        during := SwitchCoordinators(current, newCoordinator);
        next := newCoordinator;
      case TabBar =>
        var newCoordinator := MakeLoginCoordinator();
        assert newCoordinator !in childCoordinators && newCoordinator != current;
        during := SwitchCoordinators(current, newCoordinator);
        next := newCoordinator;
      case Other =>
        reported := true;
    }
  }

  /**
   * Start, then finish the flow on screen three times, so that the flows
   * shown are Login, TabBar, Login, TabBar. The application ends on a TabBar
   * flow that is the only registered coordinator.
   */
  method StartAndSwitchThreeTimes() returns (main: MainCoordinator)
    ensures main.Valid() && |main.childCoordinators| == 1
    ensures main.childCoordinators[0].kind == TabBar
  {
    main := new MainCoordinator();
    ghost var login := main.Start();
    var reported: bool;
    ghost var next: Coordinator?;
    ghost var during: seq<Coordinator>;
    var current := main.childCoordinators[0];
    reported, next, during := main.SwitchToNextFlow(current);
    current := main.childCoordinators[0];
    assert current.kind == TabBar;
    reported, next, during := main.SwitchToNextFlow(current);
    current := main.childCoordinators[0];
    assert current.kind == Login;
    reported, next, during := main.SwitchToNextFlow(current);
    assert main.childCoordinators == [next];
  }

  /**
   * A Login coordinator that was already replaced is not stopped from
   * finishing again: its second call registers a second TabBar coordinator
   * beside the first, so two entries stay registered after the switch.
   */
  method StaleLoginSwitchesAgain() returns (main: MainCoordinator)
    ensures main.Valid() && |main.childCoordinators| == 2
    ensures main.childCoordinators[0].kind == TabBar && main.childCoordinators[1].kind == TabBar
  {
    main := new MainCoordinator();
    ghost var login := main.Start();
    var stale := main.childCoordinators[0];
    var reported: bool;
    ghost var first: Coordinator?;
    ghost var second: Coordinator?;
    ghost var during: seq<Coordinator>;
    reported, first, during := main.SwitchToNextFlow(stale);
    reported, second, during := main.SwitchToNextFlow(stale);
    assert RemoveAll([first], stale) == [first];
  }

  /**
   * Every further call from the same replaced Login coordinator registers
   * one more TabBar coordinator: after three calls the registry holds three
   * entries, so repeated stale calls grow it without bound.
   */
  method StaleLoginGrowsRegistry() returns (main: MainCoordinator)
    ensures main.Valid() && |main.childCoordinators| == 3
    ensures forall i | 0 <= i < 3 :: main.childCoordinators[i].kind == TabBar
  {
    main := new MainCoordinator();
    ghost var login := main.Start();
    var stale := main.childCoordinators[0];
    var reported: bool;
    ghost var first: Coordinator?;
    ghost var second: Coordinator?;
    ghost var third: Coordinator?;
    ghost var during: seq<Coordinator>;
    reported, first, during := main.SwitchToNextFlow(stale);
    reported, second, during := main.SwitchToNextFlow(stale);
    assert RemoveAll([first], stale) == [first];
    reported, third, during := main.SwitchToNextFlow(stale);
    assert RemoveAll([first, second], stale) == [first, second];
  }
}
