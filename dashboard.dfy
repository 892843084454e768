/**
 * The dashboard page as a state object: the `useState` fields its handlers
 * overwrite, the closure variables of the live-sync effect, and the debounce
 * timer of the search effect. Each handler or asynchronous completion is one
 * method; the network replies are parameters (`None` for a request that threw).
 */
module Dashboard {
  import opened Wrappers
  import opened Js
  import opened Catalog
  import opened Position
  import ArraySort
  import Rankings
  import LiveSync

  datatype View = Machines | Inventory | Nearest

  /** A parsed WebSocket frame: its `action` and its `product_id` (absent when missing). */
  datatype Message = Message(action: string, productId: Option<int>)

  /** Which list the page shows, already in display order. */
  datatype Screen =
    | MachineList(machines: seq<Machine>)
    | NearestList(machines: seq<Machine>)
    | SearchResults(products: seq<Product>)
    | InventoryList(products: seq<Product>)

  const DeductedAction := "inventory_deducted"

  /** The debounced search fires a request only for a non-blank search in the machines view. */
  predicate ShouldSearch(search: string, view: View) {
    Trim(search) != "" && view == Machines
  }

  /** The debounced search fires exactly for a search with a non-whitespace
      character, typed in the machines view. */
  lemma SearchFiresIffNotBlank(search: string, view: View)
    ensures ShouldSearch(search, view) <==> view == Machines && !IsBlank(search)
  {
    TrimEmptyIffBlank(search);
  }

  /** `sortedMachines`: proximity order with a location, the fetched order without. */
  function MachineOrder(haversine: Haversine, machines: seq<Machine>, loc: Option<Location>): seq<Machine> {
    if loc.None? then machines else ArraySort.Sort(machines, Rankings.ProximityOrder(haversine, loc.value))
  }

  class DashboardPage {
    var view: View
    var selectedMachine: Option<Machine>
    var search: string
    var globalSearchResults: seq<Product>
    var machines: seq<Machine>
    var products: seq<Product>
    var userLocation: Option<Location>
    var locationError: Option<string>
    /** a 300 ms search timer is pending */
    var debounceArmed: bool
    // closure variables of the live-sync effect
    var isComponentMounted: bool
    var ws: LiveSync.Socket
    var armedReconnects: nat
    var connections: nat

    /** The live-sync closure state, as the reconnect state machine sees it. */
    function Channel(): LiveSync.SyncState
      reads this
    {
      LiveSync.SyncState(isComponentMounted, ws, armedReconnects, connections)
    }

    ghost predicate Valid()
      reads this
    {
      && LiveSync.Valid(Channel())
      && (userLocation.Some? ==> locationError.None?)
    }

    /** The first render and the mount effects: empty lists, the machines view, the
        search timer armed, the first socket created. */
    constructor Mount()
      ensures Valid()
      ensures view == Machines && selectedMachine.None? && search == ""
      ensures globalSearchResults == [] && machines == [] && products == []
      ensures userLocation.None? && locationError.None? && debounceArmed
      ensures Channel() == LiveSync.Mount()
    {
      view := Machines;
      selectedMachine := None;
      search := "";
      globalSearchResults := [];
      machines := [];
      products := [];
      userLocation := None;
      locationError := None;
      debounceArmed := true;
      isComponentMounted := true;
      ws := LiveSync.Connecting;
      armedReconnects := 0;
      connections := 1;
    }

    /** `fetchMachines` completed: a reply replaces the list, a failure keeps it. */
    method MachinesLoaded(reply: Option<seq<Machine>>)
      modifies this
      ensures machines == if reply.Some? then reply.value else old(machines)
      ensures unchanged(this`view, this`selectedMachine, this`search, this`globalSearchResults, this`products)
      ensures unchanged(this`userLocation, this`locationError, this`debounceArmed)
      ensures Channel() == old(Channel())
    {
      if reply.Some? {
        machines := reply.value;
      }
    }

    /** The GPS/IP resolution that the mount effect starts once has finished: a
        position sets the location and no error; a failure sets the message and leaves
        the page without a location. */
    method PositionResolved(gps: GpsOutcome, ip: IpOutcome)
      requires Valid()
      requires userLocation.None? && locationError.None?
      modifies this
      ensures Valid()
      ensures match ResolvePosition(gps, ip)
        case Located(loc) => userLocation == Some(loc) && locationError.None?
        case Unresolved(msg) => userLocation.None? && locationError == Some(msg)
      ensures unchanged(this`view, this`selectedMachine, this`search, this`globalSearchResults)
      ensures unchanged(this`machines, this`products, this`debounceArmed)
      ensures Channel() == old(Channel())
    {
      match ResolvePosition(gps, ip)
      case Located(loc) =>
        locationError := None;
        userLocation := Some(loc);
      case Unresolved(msg) =>
        locationError := Some(msg);
    }

    /** The search box changed; a changed value re-arms the debounce timer. */
    method SetSearch(text: string)
      modifies this
      ensures search == text
      ensures debounceArmed == (old(debounceArmed) || text != old(search))
      ensures unchanged(this`view, this`selectedMachine, this`globalSearchResults, this`machines, this`products)
      ensures unchanged(this`userLocation, this`locationError)
      ensures Channel() == old(Channel())
    {
      debounceArmed := debounceArmed || text != search;
      search := text;
    }

    /** The 300 ms timer fired: it either asks for `/search?name=<search>` (the untrimmed
        text) or clears the global results. */
    method DebounceElapsed() returns (query: Option<string>)
      modifies this
      ensures !debounceArmed
      ensures query.Some? <==> old(debounceArmed && ShouldSearch(search, view))
      ensures query.Some? ==> query.value == search
      ensures globalSearchResults ==
        if old(debounceArmed && !ShouldSearch(search, view)) then [] else old(globalSearchResults)
      ensures unchanged(this`view, this`selectedMachine, this`search, this`machines, this`products)
      ensures unchanged(this`userLocation, this`locationError)
      ensures Channel() == old(Channel())
    {
      query := None;
      var issue := ShouldSearch(search, view);
      if debounceArmed {
        if issue {
          query := Some(search);
        } else {
          globalSearchResults := [];
        }
        debounceArmed := false;
      }
    }

    /** `searchProducts` completed: a reply replaces the global results. */
    method SearchLoaded(reply: Option<seq<Product>>)
      modifies this
      ensures globalSearchResults == if reply.Some? then reply.value else old(globalSearchResults)
      ensures unchanged(this`view, this`selectedMachine, this`search, this`machines, this`products)
      ensures unchanged(this`userLocation, this`locationError, this`debounceArmed)
      ensures Channel() == old(Channel())
    {
      if reply.Some? {
        globalSearchResults := reply.value;
      }
    }

    /** `handleSelectMachine`: remember the machine, switch to its inventory, and
        return the id `fetchInventory` is called with. */
    method SelectMachine(m: Machine) returns (fetchId: int)
      modifies this
      ensures fetchId == m.id
      ensures selectedMachine == Some(m) && view == Inventory
      ensures debounceArmed == (old(debounceArmed) || old(view) != Inventory)
      ensures unchanged(this`search, this`globalSearchResults, this`machines, this`products)
      ensures unchanged(this`userLocation, this`locationError)
      ensures Channel() == old(Channel())
    {
      debounceArmed := debounceArmed || view != Inventory;
      selectedMachine := Some(m);
      view := Inventory;
      fetchId := m.id;
    }

    /** `fetchInventory(machineId)` completed: the products of that machine and the
        unassigned ones replace the inventory. */
    method InventoryLoaded(machineId: int, reply: Option<seq<Product>>)
      modifies this
      ensures reply.Some? ==> products == InventoryFilter(reply.value, machineId)
      ensures reply.Some? ==>
        forall p :: multiset(products)[p] == if BelongsTo(p, machineId) then multiset(reply.value)[p] else 0
      ensures reply.None? ==> products == old(products)
      ensures unchanged(this`view, this`selectedMachine, this`search, this`globalSearchResults, this`machines)
      ensures unchanged(this`userLocation, this`locationError, this`debounceArmed)
      ensures Channel() == old(Channel())
    {
      if reply.Some? {
        products := InventoryFilter(reply.value, machineId);
      }
    }

    /** `handleBackToMachines` */
    method BackToMachines()
      modifies this
      ensures view == Machines && selectedMachine.None? && search == ""
      ensures debounceArmed == (old(debounceArmed) || old(view) != Machines || old(search) != "")
      ensures unchanged(this`globalSearchResults, this`machines, this`products)
      ensures unchanged(this`userLocation, this`locationError)
      ensures Channel() == old(Channel())
    {
      debounceArmed := debounceArmed || view != Machines || search != "";
      view := Machines;
      selectedMachine := None;
      search := "";
    }

    /** The "Find Nearest Machine" button. */
    method ShowNearest()
      modifies this
      ensures view == Nearest && search == ""
      ensures debounceArmed == (old(debounceArmed) || old(view) != Nearest || old(search) != "")
      ensures unchanged(this`selectedMachine, this`globalSearchResults, this`machines, this`products)
      ensures unchanged(this`userLocation, this`locationError)
      ensures Channel() == old(Channel())
    {
      debounceArmed := debounceArmed || view != Nearest || search != "";
      view := Nearest;
      search := "";
    }

    /** `ws.onmessage`: an `inventory_deducted` frame decrements the matching in-stock
        entries of both lists; any other frame changes nothing. */
    method OnMessage(msg: Message)
      modifies this
      ensures msg.action == DeductedAction && msg.productId.Some? ==>
        && products == ApplyDeduction(old(products), msg.productId.value)
        && globalSearchResults == ApplyDeduction(old(globalSearchResults), msg.productId.value)
      ensures !(msg.action == DeductedAction && msg.productId.Some?) ==>
        products == old(products) && globalSearchResults == old(globalSearchResults)
      ensures unchanged(this`view, this`selectedMachine, this`search, this`machines)
      ensures unchanged(this`userLocation, this`locationError, this`debounceArmed)
      ensures Channel() == old(Channel())
    {
      if msg.action == DeductedAction && msg.productId.Some? {
        products := ApplyDeduction(products, msg.productId.value);
        globalSearchResults := ApplyDeduction(globalSearchResults, msg.productId.value);
      }
    }

    /** `ws.onopen`, `ws.onclose`, the reconnect timer and the cleanup of the live-sync
        effect, each the matching step of the reconnect state machine. */
    method OnSocketEvent(e: LiveSync.SyncEvent)
      requires e != LiveSync.Unmounted
      requires Valid()
      modifies this
      ensures Valid()
      ensures Channel() == LiveSync.Step(old(Channel()), e)
      ensures unchanged(this`view, this`selectedMachine, this`search, this`globalSearchResults)
      ensures unchanged(this`machines, this`products, this`userLocation, this`locationError, this`debounceArmed)
    {
      LiveSync.StepValid(Channel(), e);
      match e
      case SocketOpened =>
        if ws == LiveSync.Connecting {
          ws := LiveSync.Open;
        }
      case SocketClosed =>
        if ws != LiveSync.Closed {
          ws := LiveSync.Closed;
          if isComponentMounted {
            armedReconnects := armedReconnects + 1;
          }
        }
      case TimerFired =>
        if armedReconnects > 0 {
          armedReconnects := armedReconnects - 1;
          ws := LiveSync.Connecting;
          connections := connections + 1;
        }
    }

    /** Unmount: both effects clean up. The pending search timer is cleared; the
        live-sync flag is cleared and the socket closed, but armed reconnects stay. */
    method Unmount()
      requires Valid()
      modifies this
      ensures Valid()
      ensures Channel() == LiveSync.Step(old(Channel()), LiveSync.Unmounted)
      ensures !debounceArmed
      ensures unchanged(this`view, this`selectedMachine, this`search, this`globalSearchResults)
      ensures unchanged(this`machines, this`products, this`userLocation, this`locationError)
    {
      debounceArmed := false;
      isComponentMounted := false;
      if ws == LiveSync.Connecting || ws == LiveSync.Open {
        ws := LiveSync.Closing;
      }
    }

    /** What the page lists in each view, in display order. */
    method Render(haversine: Haversine) returns (screen: Screen)
      ensures view == Machines && Trim(search) == "" ==>
        screen == MachineList(MachineOrder(haversine, machines, userLocation))
      ensures view == Nearest ==> screen == NearestList(MachineOrder(haversine, machines, userLocation))
      ensures view == Machines && Trim(search) != "" ==>
        screen == SearchResults(ArraySort.Sort(globalSearchResults, Rankings.SearchOrder(haversine, userLocation)))
      ensures view == Inventory ==>
        screen == InventoryList(ArraySort.Sort(Rankings.MatchingProducts(products, search), Rankings.StockOrder()))
    {
      match view
      case Machines =>
        if Trim(search) == "" {
          var sorted := Rankings.SortMachines(haversine, machines, userLocation);
          screen := MachineList(sorted);
        } else {
          var sorted := Rankings.SortSearchResults(haversine, globalSearchResults, userLocation);
          screen := SearchResults(sorted);
        }
      case Nearest =>
        var sorted := Rankings.SortMachines(haversine, machines, userLocation);
        screen := NearestList(sorted);
      case Inventory =>
        var shown := Rankings.FilteredProducts(products, search);
        screen := InventoryList(shown);
    }
  }
}
