/**
 * The admin dashboard's store (client/src/redux/slices/adminSlice.js): all
 * users and all pets, with the loading and error flags of the two fetches.
 */
module AdminSlice {
  import opened Wrappers
  import opened Models
  import ListOps

  function UserId(u: User): string { u.id }
  function PetId(p: Pet): string { p.id }

  class AdminState {
    var users: seq<User>
    var pets: seq<Pet>
    var loading: bool
    var error: Option<string>

    constructor ()
      ensures users == [] && pets == [] && !loading && error == None
    {
      users := [];
      pets := [];
      loading := false;
      error := None;
    }

    /** fetchUsers.pending and fetchAdminPets.pending */
    method Pending()
      modifies this
      ensures loading && users == old(users) && pets == old(pets) && error == old(error)
    {
      loading := true;
    }

    /** fetchUsers.rejected and fetchAdminPets.rejected */
    method Rejected(message: string)
      modifies this
      ensures !loading && error == Some(message) && users == old(users) && pets == old(pets)
    {
      loading := false;
      error := Some(message);
    }

    /** fetchUsers.fulfilled: the user list is replaced. */
    method FetchUsersFulfilled(payload: seq<User>)
      modifies this
      ensures !loading && users == payload && pets == old(pets) && error == old(error)
    {
      loading := false;
      users := payload;
    }

    /** fetchAdminPets.fulfilled: the pet list is replaced. */
    method FetchPetsFulfilled(payload: seq<Pet>)
      modifies this
      ensures !loading && pets == payload && users == old(users) && error == old(error)
    {
      loading := false;
      pets := payload;
    }

    /** deleteUser.fulfilled: users with the id are dropped, the rest keep their order; flags stay. */
    method DeleteUserFulfilled(id: Id)
      modifies this
      ensures users == ListOps.RemoveId(old(users), UserId, id)
      ensures pets == old(pets) && loading == old(loading) && error == old(error)
    {
      users := ListOps.RemoveId(users, UserId, id);
    }

    /** deletePetAdmin.fulfilled: pets with the id are dropped, the rest keep their order; flags stay. */
    method DeletePetFulfilled(id: Id)
      modifies this
      ensures pets == ListOps.RemoveId(old(pets), PetId, id)
      ensures users == old(users) && loading == old(loading) && error == old(error)
    {
      pets := ListOps.RemoveId(pets, PetId, id);
    }
  }
}
