/**
 * The dashboard's catalog records and the pure pieces of its logic: the
 * local distance computation with its null guard, the sort keys and
 * comparators of the three views, the client-side inventory filter, and the
 * stock-deduction merge applied on a push event.
 */
module Catalog {
  import opened Wrappers
  import opened Js
  import Filtering

  /** A vending machine as `GET /machines` returns it. */
  datatype Machine = Machine(id: int, name: string, location: string, latitude: JsNum, longitude: JsNum)

  /** A product record, from `GET /products` or, with its machine's coordinates, from `GET /search`. */
  datatype Product = Product(
    id: int, name: string, price: real, stock: int,
    machineId: Option<int>, latitude: JsNum, longitude: JsNum)

  datatype Source = Gps | IpAddress

  /** `userLocation`: where the position came from and the coordinates it gave. */
  datatype Location = Location(lat: real, lon: real, source: Source)

  /** The great-circle distance in whole metres, `toFixed(0)` already applied; its trigonometry is not modelled. */
  type Haversine = (real, real, real, real) -> nat

  // ---------------------------------------------------------------- distance

  /** `calculateDistance(lat1, lon1, lat2, lon2)`: null unless all four coordinates are truthy. */
  function CalculateDistance(haversine: Haversine, lat1: JsNum, lon1: JsNum, lat2: JsNum, lon2: JsNum): (d: Option<nat>)
    ensures d.None? <==> !NumTruthy(lat1) || !NumTruthy(lon1) || !NumTruthy(lat2) || !NumTruthy(lon2)
    ensures d.Some? ==> d.value == haversine(lat1.value, lon1.value, lat2.value, lon2.value)
  {
    if !NumTruthy(lat1) || !NumTruthy(lon1) || !NumTruthy(lat2) || !NumTruthy(lon2) then None
    else Some(haversine(lat1.value, lon1.value, lat2.value, lon2.value))
  }

  /** A coordinate of exactly 0 (the equator or the prime meridian) is taken for a missing one. */
  lemma ZeroCoordinateIsMissing(haversine: Haversine, lat1: real, lon1: real, lat2: JsNum, lon2: JsNum)
    requires lat1 == 0.0 || lon1 == 0.0 || lat2 == Num(0.0) || lon2 == Num(0.0)
    ensures CalculateDistance(haversine, Num(lat1), Num(lon1), lat2, lon2) == None
  {
  }

  // ---------------------------------------------------------------- sort keys

  /** `parseFloat(d) || Infinity`: a distance, or +Infinity for a null or zero one. */
  datatype SortKey = Metres(m: nat) | Infinity

  function KeyOf(d: Option<nat>): (k: SortKey)
    ensures k.Metres? <==> d.Some? && d.value != 0
    ensures k.Metres? ==> k.m == d.value && k.m > 0
  {
    if d.Some? && d.value != 0 then Metres(d.value) else Infinity
  }

  /** The sort key of a record at (`lat`, `lon`) seen from `loc`. */
  function DistanceKey(haversine: Haversine, loc: Location, lat: JsNum, lon: JsNum): SortKey {
    KeyOf(CalculateDistance(haversine, Num(loc.lat), Num(loc.lon), lat, lon))
  }

  function MachineKey(haversine: Haversine, loc: Location, m: Machine): SortKey {
    DistanceKey(haversine, loc, m.latitude, m.longitude)
  }

  function ProductKey(haversine: Haversine, loc: Location, p: Product): SortKey {
    DistanceKey(haversine, loc, p.latitude, p.longitude)
  }

  /** `a` comes strictly before `b` in ascending order on the extended naturals. */
  predicate KeyBefore(a: SortKey, b: SortKey) {
    a.Metres? && (b.Infinity? || a.m < b.m)
  }

  /** `a` is not after `b`: keys in non-decreasing order. */
  predicate KeyAtMost(a: SortKey, b: SortKey) {
    !KeyBefore(b, a)
  }

  /** `distA - distB` as `sort` reads it: only the sign matters, and `Infinity - Infinity`
      (NaN) reads as 0, "equal". */
  function KeyDifference(a: SortKey, b: SortKey): (c: int)
    ensures c < 0 <==> KeyBefore(a, b)
    ensures c > 0 <==> KeyBefore(b, a)
    ensures c == 0 <==> a == b
  {
    match (a, b)
    case (Metres(x), Metres(y)) => x - y
    case (Metres(_), Infinity) => -1
    case (Infinity, Metres(_)) => 1
    case (Infinity, Infinity) => 0
  }

  /** `Math.abs(distA - distB) < 50`: false whenever either key is Infinity. */
  predicate CoLocated(a: SortKey, b: SortKey) {
    a.Metres? && b.Metres? && -50 < a.m - b.m < 50
  }

  // ---------------------------------------------------------------- comparators

  /** The comparator of `sortedMachines`. */
  function ProximityCompare(haversine: Haversine, loc: Location, a: Machine, b: Machine): (c: int)
    ensures c < 0 <==> KeyBefore(MachineKey(haversine, loc, a), MachineKey(haversine, loc, b))
    ensures c > 0 <==> KeyBefore(MachineKey(haversine, loc, b), MachineKey(haversine, loc, a))
  {
    KeyDifference(MachineKey(haversine, loc, a), MachineKey(haversine, loc, b))
  }

  /** The comparator of `sortedGlobalResults`. */
  function SearchCompare(haversine: Haversine, loc: Option<Location>, a: Product, b: Product): (c: int)
    ensures loc.None? ==> (c < 0 <==> a.stock > b.stock) && (c == 0 <==> a.stock == b.stock)
    ensures loc.Some? && CoLocated(ProductKey(haversine, loc.value, a), ProductKey(haversine, loc.value, b)) ==>
      (c < 0 <==> a.stock > b.stock) && (c == 0 <==> a.stock == b.stock)
    ensures loc.Some? && !CoLocated(ProductKey(haversine, loc.value, a), ProductKey(haversine, loc.value, b)) ==>
      && (c < 0 <==> KeyBefore(ProductKey(haversine, loc.value, a), ProductKey(haversine, loc.value, b)))
      && (c > 0 <==> KeyBefore(ProductKey(haversine, loc.value, b), ProductKey(haversine, loc.value, a)))
    ensures loc.Some? && ProductKey(haversine, loc.value, a).Infinity? && ProductKey(haversine, loc.value, b).Infinity? ==> c == 0
  {
    if loc.Some? then
      var ka, kb := ProductKey(haversine, loc.value, a), ProductKey(haversine, loc.value, b);
      if CoLocated(ka, kb) then b.stock - a.stock else KeyDifference(ka, kb)
    else b.stock - a.stock
  }

  /** The comparator of `filteredProducts`: stock descending. */
  function StockCompare(a: Product, b: Product): (c: int)
    ensures c < 0 <==> a.stock > b.stock
    ensures c == 0 <==> a.stock == b.stock
  {
    b.stock - a.stock
  }

  // ---------------------------------------------------------------- inventory view filter

  /** `p.name.toLowerCase().includes(search.toLowerCase())` */
  predicate Matches(p: Product, search: string) {
    Includes(Lower(p.name), Lower(search))
  }

  // ---------------------------------------------------------------- inventory fetch filter

  /** `!p.machine_id || p.machine_id === machineId` */
  predicate BelongsTo(p: Product, machineId: int) {
    p.machineId.None? || p.machineId.value == 0 || p.machineId.value == machineId
  }

  /** The products `fetchInventory(machineId)` keeps from `GET /products`. */
  function InventoryFilter(all: seq<Product>, machineId: int): (r: seq<Product>)
    ensures forall i :: 0 <= i < |r| ==> r[i].machineId.None? || r[i].machineId.value in {0, machineId}
    ensures forall p :: multiset(r)[p] == if BelongsTo(p, machineId) then multiset(all)[p] else 0
  {
    Filtering.Filter(all, p => BelongsTo(p, machineId))
  }

  /** The kept products stay in the order `GET /products` returned them. */
  lemma InventoryFilterKeepsOrder(a: seq<Product>, b: seq<Product>, machineId: int)
    ensures InventoryFilter(a + b, machineId) == InventoryFilter(a, machineId) + InventoryFilter(b, machineId)
  {
    Filtering.FilterConcat(a, b, p => BelongsTo(p, machineId));
  }

  // ---------------------------------------------------------------- stock deduction

  /** One `inventory_deducted` event applied to one record. */
  function Deduct(p: Product, productId: int): Product {
    if p.id == productId && p.stock > 0 then p.(stock := p.stock - 1) else p
  }

  /** `prev.map(p => p.id === product_id && p.stock > 0 ? {...p, stock: p.stock - 1} : p)` */
  function ApplyDeduction(list: seq<Product>, productId: int): (r: seq<Product>)
    ensures |r| == |list|
    ensures forall i :: 0 <= i < |r| ==> r[i] == list[i].(stock := r[i].stock)
    ensures forall i :: 0 <= i < |r| ==>
      r[i].stock == if list[i].id == productId && list[i].stock > 0 then list[i].stock - 1 else list[i].stock
  {
    seq(|list|, i requires 0 <= i < |list| => Deduct(list[i], productId))
  }

  predicate StocksNonNegative(list: seq<Product>) {
    forall i :: 0 <= i < |list| ==> list[i].stock >= 0
  }

  /** The merge never takes a stock below zero. */
  lemma DeductionKeepsStockNonNegative(list: seq<Product>, productId: int)
    requires StocksNonNegative(list)
    ensures StocksNonNegative(ApplyDeduction(list, productId))
  {
  }

  /** An event for a product already at zero everywhere changes nothing. */
  lemma DeductionAtZeroIsNoOp(list: seq<Product>, productId: int)
    requires forall i :: 0 <= i < |list| && list[i].id == productId ==> list[i].stock <= 0
    ensures ApplyDeduction(list, productId) == list
  {
  }

  /** Events for any two products can be applied in either order. */
  lemma DeductionsCommute(list: seq<Product>, a: int, b: int)
    ensures ApplyDeduction(ApplyDeduction(list, a), b) == ApplyDeduction(ApplyDeduction(list, b), a)
  {
  }

  /** `n` events for the same product, applied one after the other. */
  function DeductTimes(list: seq<Product>, productId: int, n: nat): seq<Product> {
    if n == 0 then list else ApplyDeduction(DeductTimes(list, productId, n - 1), productId)
  }

  /** After `n` events a matching positive stock is `max(stock - n, 0)`; everything else is as it was. */
  lemma {:induction false} DeductTimesFloors(list: seq<Product>, productId: int, n: nat)
    ensures |DeductTimes(list, productId, n)| == |list|
    ensures forall i :: 0 <= i < |list| ==>
      DeductTimes(list, productId, n)[i] == list[i].(stock :=
        if list[i].id == productId && list[i].stock > 0 then
          (if list[i].stock > n then list[i].stock - n else 0)
        else list[i].stock)
  {
    if n > 0 {
      DeductTimesFloors(list, productId, n - 1);
    }
  }
}
