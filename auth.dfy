/**
 * The session store of the client: the `user` and `loading` fields of the auth
 * provider and the two `localStorage` keys it reads and writes.
 */
module Auth {
  import opened Wrappers
  import opened Js

  const TokenKey := "token"
  const UserIdKey := "user_id"

  /** The browser's `localStorage`: string keys to string values. */
  type Storage = map<string, string>

  /** `{ token, id }` as the provider stores it in `user`. */
  datatype User = User(token: JsVal, id: JsVal)

  /** The body of a successful `/login` reply; a field it lacks is `Undefined`. */
  datatype LoginReply = LoginReply(accessToken: JsVal, userId: JsVal)

  /** `localStorage.getItem(key)`: the stored string, or `null`. */
  function GetItem(storage: Storage, key: string): (v: JsVal)
    ensures v.Str? <==> key in storage
    ensures v.Str? ==> v.s == storage[key]
    ensures !v.Str? ==> v == Null
  {
    if key in storage then Str(storage[key]) else Null
  }

  /** The restore effect: a user exists only when a non-empty token is stored, and then
      carries whatever `user_id` holds (possibly `null`). */
  function RestoredUser(storage: Storage): (u: Option<User>)
    ensures u.Some? <==> TokenKey in storage && storage[TokenKey] != ""
    ensures u.Some? ==> u.value.token == Str(storage[TokenKey]) && u.value.id == GetItem(storage, UserIdKey)
  {
    var token := GetItem(storage, TokenKey);
    if Truthy(token) then Some(User(token, GetItem(storage, UserIdKey))) else None
  }

  /** The two `setItem` calls of `login`: both keys hold the string form of the reply's
      fields, and every other key is kept. */
  function StoreSession(storage: Storage, reply: LoginReply): (r: Storage)
    ensures r.Keys == storage.Keys + {TokenKey, UserIdKey}
    ensures r[TokenKey] == ToStorageString(reply.accessToken)
    ensures r[UserIdKey] == ToStorageString(reply.userId)
    ensures forall k :: k in storage && k !in {TokenKey, UserIdKey} ==> r[k] == storage[k]
  {
    storage[TokenKey := ToStorageString(reply.accessToken)][UserIdKey := ToStorageString(reply.userId)]
  }

  /** The two `removeItem` calls of `logout`. */
  function ClearSession(storage: Storage): (r: Storage)
    ensures r.Keys == storage.Keys - {TokenKey, UserIdKey}
    ensures forall k :: k in r ==> r[k] == storage[k]
  {
    storage - {TokenKey, UserIdKey}
  }

  class AuthProvider {
    var user: Option<User>
    var loading: bool
    var storage: Storage

    /** The first render: no user yet, still loading, storage as the browser has it. */
    constructor(initial: Storage)
      ensures user.None? && loading && storage == initial
    {
      user := None;
      loading := true;
      storage := initial;
    }

    /** The mount effect: adopt the stored session, if any, and stop loading. */
    method Restore()
      modifies this
      ensures old(RestoredUser(storage)).Some? ==> user == RestoredUser(storage)
      ensures old(RestoredUser(storage)).None? ==> user == old(user)
      ensures !loading && storage == old(storage)
    {
      var restored := RestoredUser(storage);
      if restored.Some? {
        user := restored;
      }
      loading := false;
    }

    /** `login`: on a reply, store both fields, adopt them as the user exactly as
        received and resolve with the reply's data; a request that throws (`None`)
        changes nothing and the failure reaches the caller (`None` again), which is how
        the login page knows to stay and show its error. */
    method Login(reply: Option<LoginReply>) returns (result: Option<LoginReply>)
      modifies this
      ensures result == reply
      ensures reply.Some? ==>
        && storage == StoreSession(old(storage), reply.value)
        && user == Some(User(reply.value.accessToken, reply.value.userId))
      ensures reply.None? ==> storage == old(storage) && user == old(user)
      ensures loading == old(loading)
    {
      if reply.Some? {
        storage := StoreSession(storage, reply.value);
        user := Some(User(reply.value.accessToken, reply.value.userId));
      }
      result := reply;
    }

    /** `register` only forwards the request and hands back the server's reply. */
    method Register(reply: Option<JsVal>) returns (r: Option<JsVal>)
      ensures r == reply
    {
      r := reply;
    }

    /** `logout`: forget both keys and the user. */
    method Logout()
      modifies this
      ensures storage == ClearSession(old(storage)) && user.None?
      ensures loading == old(loading)
    {
      storage := ClearSession(storage);
      user := None;
    }
  }

  /** A reload after a login gives back the very user the login set exactly when the
      token is a non-empty string and the id is a string: an absent id comes back as
      the string "undefined", a null one as "null", and an absent token as "undefined". */
  lemma ReloadAfterLogin(storage: Storage, reply: LoginReply)
    ensures RestoredUser(StoreSession(storage, reply)) == Some(User(reply.accessToken, reply.userId))
      <==> Truthy(reply.accessToken) && reply.userId.Str?
    ensures RestoredUser(StoreSession(storage, reply)).Some?
      <==> reply.accessToken != Str("")
  {
    var r := StoreSession(storage, reply);
    assert GetItem(r, UserIdKey) == Str(ToStorageString(reply.userId));
  }

  /** After a logout no reload restores a user, whatever else storage holds. */
  lemma ReloadAfterLogout(storage: Storage)
    ensures RestoredUser(ClearSession(storage)).None?
  {
    assert TokenKey !in ClearSession(storage);
  }

  /** Logging out twice is the same as once, and a logout forgets any earlier login. */
  lemma LogoutForgetsLogin(storage: Storage, reply: LoginReply)
    ensures ClearSession(ClearSession(storage)) == ClearSession(storage)
    ensures ClearSession(StoreSession(storage, reply)) == ClearSession(storage)
  {
    var a := ClearSession(StoreSession(storage, reply));
    var b := ClearSession(storage);
    assert a.Keys == b.Keys;
    assert forall k :: k in a ==> a[k] == b[k];
  }
}
