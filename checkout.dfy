/**
 * The simulated checkout page: the redirect guard, the status and loading
 * fields stepped by the payment handler, the stale user-id test and the choice
 * of the failure message.
 */
module Checkout {
  import opened Wrappers
  import opened Js
  import Auth

  /** What the dashboard passed in the navigation state. */
  datatype NavState = NavState(product: Option<int>, amount: int, orderId: JsVal)

  /** The page either sends the browser back to the dashboard or renders for a product. */
  datatype Entry = RedirectTo(path: string) | Render(productId: int, amount: int, orderId: JsVal)

  datatype Status = Idle | Processing | Success

  /** The body of `POST /buy/<product>?user_id=<id>`, without the random payment id. */
  datatype BuyRequest = BuyRequest(productId: int, userId: string, orderId: string, signature: string)

  /** What the handler does once the artificial delay is over. */
  datatype AfterDelay = StaleRedirect(alert: string, path: string) | SendBuy(request: BuyRequest)

  /** The outcome of the buy call: success, or the alert shown on failure. */
  datatype AfterBuy = RedirectLater(path: string) | Alerted(message: string)

  /** A JSON value as found in an error reply's `detail`. */
  datatype Json = JNull | JBool(b: bool) | JNumber(n: int) | JString(s: string) | JArray(items: seq<Json>) | JObject(fields: seq<(string, Json)>)

  /** `err.response?.data`, when there is one, and `err.message`. */
  datatype ErrorData = ErrorData(error: JsVal, detail: Option<Json>)
  datatype BuyError = BuyError(data: Option<ErrorData>, message: JsVal)

  const DashboardPath := "/dashboard"
  const HomePath := "/"
  const StaleCacheAlert := "Stale Cache: Please manually refresh the page (F5 / Cmd+R) to apply the hotfix and verify your login."
  const DefaultOrderId := "demo_order"
  const DemoSignature := "demo_simulated_signature"
  const FallbackMessage := "Simulation Error"

  function JsonTruthy(j: Json): bool {
    match j
    case JNull => false
    case JBool(b) => b
    case JNumber(n) => n != 0
    case JString(s) => s != ""
    case _ => true
  }

  /** The redirect guard: without navigation state or without a product, go to the
      dashboard and render nothing. */
  function Enter(state: Option<NavState>): (e: Entry)
    ensures e.RedirectTo? <==> state.None? || state.value.product.None?
    ensures e.RedirectTo? ==> e.path == DashboardPath
    ensures e.Render? ==> e == Render(state.value.product.value, state.value.amount, state.value.orderId)
  {
    if state.None? || state.value.product.None? then RedirectTo(DashboardPath)
    else Render(state.value.product.value, state.value.amount, state.value.orderId)
  }

  /** `user?.id || localStorage.getItem('user_id')` */
  function FinalUserId(user: Option<Auth.User>, stored: JsVal): (id: JsVal)
    ensures user.Some? && Truthy(user.value.id) ==> id == user.value.id
    ensures !(user.Some? && Truthy(user.value.id)) ==> id == stored
  {
    if user.Some? && Truthy(user.value.id) then user.value.id else stored
  }

  /** An id that is absent, empty, or the string form of `undefined` or `null`. */
  predicate IsStale(id: JsVal)
    ensures !IsStale(id) <==> id.Str? && id.s !in {"", "undefined", "null"}
  {
    !Truthy(id) || id.s == "undefined" || id.s == "null"
  }

  /** `order_id || "demo_order"` */
  function OrderIdOrDefault(orderId: JsVal): (r: string)
    ensures r != ""
    ensures Truthy(orderId) ==> r == orderId.s
    ensures !Truthy(orderId) ==> r == DefaultOrderId
  {
    if Truthy(orderId) then orderId.s else DefaultOrderId
  }

  /** The message after "Purchase Failed: ": the reply's `error`, else the serialised
      `detail`, else the exception's message, else a fixed fallback. */
  function ErrorMessage(err: BuyError, stringify: Json -> string): (msg: string)
    ensures msg != ""
    ensures err.data.Some? && Truthy(err.data.value.error) ==> msg == err.data.value.error.s
  {
    var fromError := if err.data.Some? then err.data.value.error else Undefined;
    var chosen :=
      if !Truthy(fromError) && err.data.Some? && err.data.value.detail.Some? && JsonTruthy(err.data.value.detail.value)
      then Str(stringify(err.data.value.detail.value))
      else fromError;
    if Truthy(chosen) then chosen.s
    else if Truthy(err.message) then err.message.s
    else FallbackMessage
  }

  /** The precedence of the failure message, level by level. */
  lemma ErrorPrecedence(err: BuyError, stringify: Json -> string)
    ensures err.data.Some? && !Truthy(err.data.value.error) && err.data.value.detail.Some?
      && JsonTruthy(err.data.value.detail.value) && stringify(err.data.value.detail.value) != ""
      ==> ErrorMessage(err, stringify) == stringify(err.data.value.detail.value)
    ensures (err.data.None? || (!Truthy(err.data.value.error) &&
             (err.data.value.detail.None? || !JsonTruthy(err.data.value.detail.value))))
      ==> ErrorMessage(err, stringify) == if Truthy(err.message) then err.message.s else FallbackMessage
  {
  }

  class CheckoutPage {
    var loading: bool
    var status: Status

    constructor()
      ensures !loading && status == Idle
    {
      loading := false;
      status := Idle;
    }

    /** The click: the page starts processing. */
    method Submit()
      modifies this
      ensures loading && status == Processing
    {
      loading := true;
      status := Processing;
    }

    /** After the delay: a stale id sends the browser home without a request and leaves
        the page processing; otherwise the buy request is sent. */
    method AfterDelayElapsed(productId: int, orderId: JsVal, user: Option<Auth.User>, storedUserId: JsVal)
      returns (next: AfterDelay)
      ensures IsStale(FinalUserId(user, storedUserId)) <==> next.StaleRedirect?
      ensures next.StaleRedirect? ==> next.alert == StaleCacheAlert && next.path == HomePath
      ensures next.SendBuy? ==>
        next.request == BuyRequest(productId, FinalUserId(user, storedUserId).s, OrderIdOrDefault(orderId), DemoSignature)
    {
      var id := FinalUserId(user, storedUserId);
      if IsStale(id) {
        next := StaleRedirect(StaleCacheAlert, HomePath);
      } else {
        next := SendBuy(BuyRequest(productId, id.s, OrderIdOrDefault(orderId), DemoSignature));
      }
    }

    /** The buy call settled: success shows the mark and schedules the way back to the
        dashboard (loading stays set); a failure alerts and returns to idle. */
    method BuyAnswered(failure: Option<BuyError>, stringify: Json -> string) returns (after: AfterBuy)
      modifies this
      ensures failure.None? ==> status == Success && loading == old(loading) && after == RedirectLater(DashboardPath)
      ensures failure.Some? ==>
        status == Idle && !loading && after == Alerted(ErrorMessage(failure.value, stringify))
    {
      if failure.None? {
        status := Success;
        after := RedirectLater(DashboardPath);
      } else {
        after := Alerted(ErrorMessage(failure.value, stringify));
        loading := false;
        status := Idle;
      }
    }
  }

  /** Against the real backend, whose login reply has no `user_id`, every purchase is
      refused as stale: right after the login, and after any reload. */
  lemma BackendLoginIsStale(storage: Auth.Storage, token: JsVal)
    ensures var reply := Auth.LoginReply(token, Undefined);
      var stored := Auth.StoreSession(storage, reply);
      && IsStale(FinalUserId(Some(Auth.User(token, Undefined)), Auth.GetItem(stored, Auth.UserIdKey)))
      && IsStale(FinalUserId(Auth.RestoredUser(stored), Auth.GetItem(stored, Auth.UserIdKey)))
  {
  }

  /** A fresh id, from the user or from storage, is never refused. */
  lemma FreshIdAccepted(user: Option<Auth.User>, stored: JsVal, id: string)
    requires id != "" && id != "undefined" && id != "null"
    requires (user.Some? && user.value.id == Str(id)) || stored == Str(id)
    requires user.Some? && Truthy(user.value.id) ==> user.value.id == Str(id)
    ensures FinalUserId(user, stored) == Str(id)
    ensures !IsStale(FinalUserId(user, stored))
  {
  }
}
