/**
 * The authentication store: the session token, mirrored into the browser's
 * key/value storage under one configured key.
 */
module AuthStore {
  import opened Api
  import opened Helpers

  /**
   * `localStorage.getItem(key) || ''`: the stored token, or the empty string
   * when the key is absent (an empty stored value reads as empty too).
   */
  function StoredToken(storage: map<string, string>, key: string): Token
  {
    if key in storage then storage[key] else ""
  }

  class AuthStore {
    var token: Token
    var storage: map<string, string>
    const tokenKey: string

    /**
     * The token and the storage agree: the stored value under the key is the
     * token, or the key is absent and the token is empty.
     */
    predicate Mirrored()
      reads this
    {
      if tokenKey in storage then storage[tokenKey] == token else token == ""
    }

    /** `!!state.token`. */
    predicate IsAuthenticated()
      reads this
    {
      token != ""
    }

    /** The initial state reads the token back from storage. */
    constructor (initial: map<string, string>, key: string)
      ensures tokenKey == key && storage == initial
      ensures token == StoredToken(initial, key)
      ensures Mirrored()
      ensures IsAuthenticated() <==> key in initial && initial[key] != ""
    {
      tokenKey := key;
      storage := initial;
      token := StoredToken(initial, key);
    }

    /** `SET_TOKEN`: the token is set and written to storage. */
    method SetToken(t: Token)
      modifies this
      ensures token == t && storage == old(storage)[tokenKey := t]
      ensures Mirrored()
      ensures IsAuthenticated() <==> t != ""
    {
      token := t;
      storage := storage[tokenKey := t];
    }

    /** `REMOVE_TOKEN`: the token is cleared and its key deleted from storage. */
    method RemoveToken()
      modifies this
      ensures token == "" && storage == old(storage) - {tokenKey}
      ensures Mirrored()
      ensures !IsAuthenticated()
    {
      token := "";
      storage := storage - {tokenKey};
    }

    /**
     * `login`: the token the API returns is stored only once the call has
     * resolved; a rejected call leaves token and storage alone and rethrows.
     */
    method Login(call: Response<Token>) returns (outcome: Settled)
      modifies this
      ensures call.Resolved? ==>
        token == call.data && storage == old(storage)[tokenKey := call.data] && outcome == Returned
      ensures call.Rejected? ==>
        token == old(token) && storage == old(storage) && outcome == Rethrown
      ensures old(Mirrored()) ==> Mirrored()
    {
      if call.Rejected? {
        outcome := Rethrown;
        return;
      }
      SetToken(call.data);
      outcome := Returned;
    }

    /** `resetPassword`: the request is forwarded; the store does not change. */
    method ResetPassword(call: Response<()>) returns (outcome: Settled)
      ensures outcome == Returned <==> call.Resolved?
    {
      outcome := if call.Resolved? then Returned else Rethrown;
    }

    /** `logout`: the token is removed; errors are handled and not rethrown. */
    method Logout() returns (outcome: Settled)
      modifies this
      ensures token == "" && storage == old(storage) - {tokenKey}
      ensures !IsAuthenticated() && Mirrored()
      ensures outcome == Returned
    {
      RemoveToken();
      outcome := Returned;
    }
  }

  /**
   * Storage outlives the page: a store rebuilt from the storage a login left
   * starts with that token, and one rebuilt after a logout starts signed out.
   */
  lemma ReloadKeepsSession(storage: map<string, string>, key: string, t: Token)
    ensures StoredToken(storage[key := t], key) == t
    ensures StoredToken(storage - {key}, key) == ""
  {
  }
}
