/**
 * The users store: the list of users, the user being shown, the roles to
 * choose from and the last error and success messages. Mutations change one
 * field each; actions await a service and then commit mutations.
 */
module UserStore {
  import opened Wrappers
  import opened Json
  import opened KeyedList
  import opened Api
  import RoleStore

  class UserStore {
    var users: seq<Doc>
    var user: Option<Doc>
    var roles: seq<Doc>
    var error: string
    var success: string

    /** The initial state: no users, no user, no roles, no messages. */
    constructor ()
      ensures users == [] && user == None && roles == [] && error == "" && success == ""
    {
      users := [];
      user := None;
      roles := [];
      error := "";
      success := "";
    }

    /** `SET_USERS`. */
    method SetUsers(list: seq<Doc>)
      modifies this`users
      ensures users == list
    {
      users := list;
    }

    /** `SET_USER`. */
    method SetUser(u: Option<Doc>)
      modifies this`user
      ensures user == u
    {
      user := u;
    }

    /** `ADD_USER`: `push` appends the user after the existing ones. */
    method AddUser(u: Doc)
      modifies this`users
      ensures users == old(users) + [u]
      ensures |users| == |old(users)| + 1 && users[|users| - 1] == u
      ensures users[..|old(users)|] == old(users)
    {
      users := users + [u];
    }

    /**
     * `UPDATE_USER`: the first user with the same `_id` is replaced in place;
     * with none, the list is left alone.
     */
    method UpdateUser(updated: Doc)
      modifies this`users
      ensures users == ReplaceFirst(old(users), IdOf, updated)
    {
      var index := IndexOf(users, IdOf, updated.id);
      if index != -1 {
        users := users[index := updated];
      }
    }

    /** `DELETE_USER`: every user with the id is filtered out. */
    method DeleteUser(id: string)
      modifies this`users
      ensures users == Without(old(users), IdOf, id)
      ensures forall j :: 0 <= j < |users| ==> users[j].id != id
    {
      users := Without(users, IdOf, id);
    }

    /** `SET_ROLES`. */
    method SetRoles(list: seq<Doc>)
      modifies this`roles
      ensures roles == list
    {
      roles := list;
    }

    /** `SET_ERROR`. */
    method SetError(message: string)
      modifies this`error
      ensures error == message
    {
      error := message;
    }

    /** `SET_SUCCESS`. */
    method SetSuccess(message: string)
      modifies this`success
      ensures success == message
    {
      success := message;
    }

    /**
     * The catch block every action shares: the handled error is recorded and
     * the error is thrown again.
     */
    method Fail(message: string) returns (outcome: Settled)
      modifies this`error
      ensures error == message && outcome == Rethrown
    {
      SetError(message);
      outcome := Rethrown;
    }

    /** `fetchUsers`: the fetched list replaces the users. */
    method FetchUsers(call: Response<seq<Doc>>) returns (outcome: Settled)
      modifies this`users, this`success, this`error
      ensures call.Resolved? ==>
        users == call.data && success == call.message && error == old(error) && outcome == Returned
      ensures call.Rejected? ==>
        users == old(users) && success == old(success) && error == call.message && outcome == Rethrown
    {
      if call.Rejected? {
        outcome := Fail(call.message);
        return;
      }
      SetUsers(call.data);
      SetSuccess(call.message);
      outcome := Returned;
    }

    /** `fetchUser`: the fetched user becomes the current one. */
    method FetchUser(call: Response<Option<Doc>>) returns (outcome: Settled)
      modifies this`user, this`success, this`error
      ensures call.Resolved? ==>
        user == call.data && success == call.message && error == old(error) && outcome == Returned
      ensures call.Rejected? ==>
        user == old(user) && success == old(success) && error == call.message && outcome == Rethrown
    {
      if call.Rejected? {
        outcome := Fail(call.message);
        return;
      }
      SetUser(call.data);
      SetSuccess(call.message);
      outcome := Returned;
    }

    /** `createUser`: the created user, as the API returns it, is appended. */
    method CreateUser(call: Response<Doc>) returns (outcome: Settled)
      modifies this`users, this`success, this`error
      ensures call.Resolved? ==>
        users == old(users) + [call.data] && success == call.message && error == old(error) && outcome == Returned
      ensures call.Rejected? ==>
        users == old(users) && success == old(success) && error == call.message && outcome == Rethrown
    {
      if call.Rejected? {
        outcome := Fail(call.message);
        return;
      }
      AddUser(call.data);
      SetSuccess(call.message);
      outcome := Returned;
    }

    /** `updateUser`: the updated user, as the API returns it, replaces its old entry. */
    method UpdateUserAction(call: Response<Doc>) returns (outcome: Settled)
      modifies this`users, this`success, this`error
      ensures call.Resolved? ==>
        users == ReplaceFirst(old(users), IdOf, call.data) && success == call.message && error == old(error)
        && outcome == Returned
      ensures call.Rejected? ==>
        users == old(users) && success == old(success) && error == call.message && outcome == Rethrown
    {
      if call.Rejected? {
        outcome := Fail(call.message);
        return;
      }
      UpdateUser(call.data);
      SetSuccess(call.message);
      outcome := Returned;
    }

    /**
     * `deleteUser`: the requested id (not anything the API returns) is
     * filtered out, and only once the request has succeeded.
     */
    method DeleteUserAction(id: string, call: Response<()>) returns (outcome: Settled)
      modifies this`users, this`success, this`error
      ensures call.Resolved? ==>
        users == Without(old(users), IdOf, id) && success == call.message && error == old(error)
        && outcome == Returned
      ensures call.Rejected? ==>
        users == old(users) && success == old(success) && error == call.message && outcome == Rethrown
    {
      if call.Rejected? {
        outcome := Fail(call.message);
        return;
      }
      DeleteUser(id);
      SetSuccess(call.message);
      outcome := Returned;
    }

    /**
     * `fetchAndSetRoles`: the roles store fetches its roles, and its `roles`
     * getter is copied here. The awaited dispatch resolves to the `null` the
     * roles action returns, and `successMsg` is what `handleSuccess` makes of
     * it; a rejected fetch records its error in both stores.
     */
    method FetchAndSetRoles(roleStore: RoleStore.RoleStore, call: Response<seq<Doc>>, successMsg: string)
      returns (outcome: Settled)
      modifies this`roles, this`success, this`error
      modifies roleStore`roles, roleStore`success, roleStore`error
      ensures call.Resolved? ==>
        && roleStore.roles == call.data && roleStore.success == call.message
        && roles == call.data && success == successMsg && error == old(error) && outcome == Returned
      ensures call.Rejected? ==>
        && roleStore.roles == old(roleStore.roles) && roleStore.error == call.message
        && roles == old(roles) && success == old(success) && error == call.message && outcome == Rethrown
    {
      var fetched := roleStore.FetchRoles(call);
      if fetched == Rethrown {
        outcome := Fail(call.message);
        return;
      }
      SetRoles(roleStore.roles);
      SetSuccess(successMsg);
      outcome := Returned;
    }

    /** `updateCredentialStatus`: only the message is recorded; the list is not refreshed. */
    method UpdateCredentialStatus(call: Response<()>) returns (outcome: Settled)
      modifies this`success, this`error
      ensures call.Resolved? ==> success == call.message && error == old(error) && outcome == Returned
      ensures call.Rejected? ==> success == old(success) && error == call.message && outcome == Rethrown
    {
      if call.Rejected? {
        outcome := Fail(call.message);
        return;
      }
      SetSuccess(call.message);
      outcome := Returned;
    }

    /** `resetPasswordCredential`: only the message is recorded. */
    method ResetPasswordCredential(call: Response<()>) returns (outcome: Settled)
      modifies this`success, this`error
      ensures call.Resolved? ==> success == call.message && error == old(error) && outcome == Returned
      ensures call.Rejected? ==> success == old(success) && error == call.message && outcome == Rethrown
    {
      if call.Rejected? {
        outcome := Fail(call.message);
        return;
      }
      SetSuccess(call.message);
      outcome := Returned;
    }
  }
}
