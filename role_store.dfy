/**
 * The roles store: the list of roles, the role being shown and the last
 * error and success messages, with the same mutation and action pattern as
 * the users store.
 */
module RoleStore {
  import opened Wrappers
  import opened Json
  import opened KeyedList
  import opened Api

  class RoleStore {
    var roles: seq<Doc>
    var role: Option<Doc>
    var error: string
    var success: string

    /** The initial state: no roles, no role, no messages. */
    constructor ()
      ensures roles == [] && role == None && error == "" && success == ""
    {
      roles := [];
      role := None;
      error := "";
      success := "";
    }

    /** `SET_ROLES`. */
    method SetRoles(list: seq<Doc>)
      modifies this`roles
      ensures roles == list
    {
      roles := list;
    }

    /** `SET_ROLE`. */
    method SetRole(r: Option<Doc>)
      modifies this`role
      ensures role == r
    {
      role := r;
    }

    /** `ADD_ROLE`: `push` appends the role after the existing ones. */
    method AddRole(r: Doc)
      modifies this`roles
      ensures roles == old(roles) + [r]
      ensures |roles| == |old(roles)| + 1 && roles[|roles| - 1] == r
      ensures roles[..|old(roles)|] == old(roles)
    {
      roles := roles + [r];
    }

    /**
     * `UPDATE_ROLE`: the first role with the same `_id` is replaced in place;
     * with none, the list is left alone.
     */
    method UpdateRole(updated: Doc)
      modifies this`roles
      ensures roles == ReplaceFirst(old(roles), IdOf, updated)
    {
      var index := IndexOf(roles, IdOf, updated.id);
      if index != -1 {
        roles := roles[index := updated];
      }
    }

    /** `DELETE_ROLE`: every role with the id is filtered out. */
    method DeleteRole(id: string)
      modifies this`roles
      ensures roles == Without(old(roles), IdOf, id)
      ensures forall j :: 0 <= j < |roles| ==> roles[j].id != id
    {
      roles := Without(roles, IdOf, id);
    }

    /** `SET_ERROR`. */
    method SetError(message: string)
      modifies this`error
      ensures error == message
    {
      error := message;
    }

    /** `SET_SUCCESS`. */
    method SetSuccess(message: string)
      modifies this`success
      ensures success == message
    {
      success := message;
    }

    /**
     * The catch block every action shares: the handled error is recorded and
     * the error is thrown again.
     */
    method Fail(message: string) returns (outcome: Settled)
      modifies this`error
      ensures error == message && outcome == Rethrown
    {
      SetError(message);
      outcome := Rethrown;
    }

    /** `fetchRoles`: the fetched list replaces the roles. */
    method FetchRoles(call: Response<seq<Doc>>) returns (outcome: Settled)
      modifies this`roles, this`success, this`error
      ensures call.Resolved? ==>
        roles == call.data && success == call.message && error == old(error) && outcome == Returned
      ensures call.Rejected? ==>
        roles == old(roles) && success == old(success) && error == call.message && outcome == Rethrown
    {
      if call.Rejected? {
        outcome := Fail(call.message);
        return;
      }
      SetRoles(call.data);
      SetSuccess(call.message);
      outcome := Returned;
    }

    /** `fetchRole`: the fetched role becomes the current one. */
    method FetchRole(call: Response<Option<Doc>>) returns (outcome: Settled)
      modifies this`role, this`success, this`error
      ensures call.Resolved? ==>
        role == call.data && success == call.message && error == old(error) && outcome == Returned
      ensures call.Rejected? ==>
        role == old(role) && success == old(success) && error == call.message && outcome == Rethrown
    {
      if call.Rejected? {
        outcome := Fail(call.message);
        return;
      }
      SetRole(call.data);
      SetSuccess(call.message);
      outcome := Returned;
    }

    /** `createRole`: the created role, as the API returns it, is appended. */
    method CreateRole(call: Response<Doc>) returns (outcome: Settled)
      modifies this`roles, this`success, this`error
      ensures call.Resolved? ==>
        roles == old(roles) + [call.data] && success == call.message && error == old(error) && outcome == Returned
      ensures call.Rejected? ==>
        roles == old(roles) && success == old(success) && error == call.message && outcome == Rethrown
    {
      if call.Rejected? {
        outcome := Fail(call.message);
        return;
      }
      AddRole(call.data);
      SetSuccess(call.message);
      outcome := Returned;
    }

    /** `updateRole`: the updated role, as the API returns it, replaces its old entry. */
    method UpdateRoleAction(call: Response<Doc>) returns (outcome: Settled)
      modifies this`roles, this`success, this`error
      ensures call.Resolved? ==>
        roles == ReplaceFirst(old(roles), IdOf, call.data) && success == call.message && error == old(error)
        && outcome == Returned
      ensures call.Rejected? ==>
        roles == old(roles) && success == old(success) && error == call.message && outcome == Rethrown
    {
      if call.Rejected? {
        outcome := Fail(call.message);
        return;
      }
      UpdateRole(call.data);
      SetSuccess(call.message);
      outcome := Returned;
    }

    /**
     * `deleteRole`: the requested id is filtered out, and only once the
     * request has succeeded.
     */
    method DeleteRoleAction(id: string, call: Response<()>) returns (outcome: Settled)
      modifies this`roles, this`success, this`error
      ensures call.Resolved? ==>
        roles == Without(old(roles), IdOf, id) && success == call.message && error == old(error)
        && outcome == Returned
      ensures call.Rejected? ==>
        roles == old(roles) && success == old(success) && error == call.message && outcome == Rethrown
    {
      if call.Rejected? {
        outcome := Fail(call.message);
        return;
      }
      DeleteRole(id);
      SetSuccess(call.message);
      outcome := Returned;
    }
  }
}
