/**
 * `AuthService` (src/core/services/auth.service.ts): a demo login that keeps
 * the session in two `localStorage` entries, the user record and the token.
 */
module Auth {
  import opened Storage

  /** Key of the serialised user record. */
  const AUTH_KEY: string := "currentUser"
  /** Key of the session token. */
  const TOKEN_KEY: string := "authToken"
  /** The token a successful login stores. */
  const DEMO_TOKEN: string := "demo-token"

  /** The only accepted credentials. */
  predicate Accepted(username: string, password: string) {
    username == "admin" && password == "12345678"
  }

  /** `JSON.stringify({ username })` for the only name a login accepts. */
  const ADMIN_RECORD: string := "{\"username\":\"admin\"}"

  class AuthService {
    /** `localStorage`, as far as this service reads and writes it. */
    var storage: Store

    constructor (storage0: Store)
      ensures storage == storage0
    {
      storage := storage0;
    }

    /** `isLoggedIn`: a non-empty token is stored. */
    function IsLoggedIn(): (r: bool)
      reads this
      ensures r <==> TOKEN_KEY in storage && storage[TOKEN_KEY] != ""
    {
      Truthy(storage, TOKEN_KEY)
    }

    /**
     * `login`: succeeds exactly for the demo credentials, and then stores
     * the user record and the token; a refused login writes nothing.
     */
    method Login(username: string, password: string) returns (ok: bool)
      modifies this
      ensures ok <==> Accepted(username, password)
      ensures ok ==> storage == old(storage)[AUTH_KEY := ADMIN_RECORD][TOKEN_KEY := DEMO_TOKEN]
      ensures ok ==> IsLoggedIn()
      ensures !ok ==> storage == old(storage)
    {
      ok := username == "admin" && password == "12345678";
      if ok {
        storage := storage[AUTH_KEY := ADMIN_RECORD];
        storage := storage[TOKEN_KEY := DEMO_TOKEN];
      }
    }

    /** `logout`, storage part: removes both entries, so nobody is logged in afterwards. */
    method Logout()
      modifies this
      ensures storage == old(storage) - {AUTH_KEY, TOKEN_KEY}
      ensures AUTH_KEY !in storage && !IsLoggedIn()
    {
      storage := storage - {AUTH_KEY};
      storage := storage - {TOKEN_KEY};
    }

    /** Logging in with the demo credentials and then out again leaves no session behind. */
    method LoginThenLogout()
      modifies this
      ensures storage == old(storage) - {AUTH_KEY, TOKEN_KEY}
    {
      var ok := Login("admin", "12345678");
      Logout();
    }
  }
}
