/**
 * The client's pet store (client/src/redux/slices/petSlice.js): the listed
 * pets with the page they are on, the pet being viewed, and the loading and
 * error flags. Each reducer case is a method that changes the state in place.
 */
module PetSlice {
  import opened Wrappers
  import opened Models
  import ListOps

  /** The `_id` the reducers match pets by. */
  function PetId(p: Pet): string { p.id }

  class PetState {
    var pets: seq<Pet>
    var pet: Option<Pet>
    var loading: bool
    var error: Option<string>
    var page: int
    var pages: int

    /** The initial state: nothing loaded, page 1 of 1. */
    constructor ()
      ensures pets == [] && pet == None && !loading && error == None && page == 1 && pages == 1
    {
      pets := [];
      pet := None;
      loading := false;
      error := None;
      page := 1;
      pages := 1;
    }

    /** fetchPets.pending: the old listing is dropped while the new one loads. */
    method FetchPetsPending()
      modifies this
      ensures loading && pets == []
      ensures pet == old(pet) && error == old(error) && page == old(page) && pages == old(pages)
    {
      loading := true;
      pets := [];
    }

    /** fetchPets.fulfilled: the listing and its page numbers come from the answer. */
    method FetchPetsFulfilled(payload: seq<Pet>, payloadPage: int, payloadPages: int)
      modifies this
      ensures !loading && pets == payload && page == payloadPage && pages == payloadPages
      ensures pet == old(pet) && error == old(error)
    {
      loading := false;
      pets := payload;
      page := payloadPage;
      pages := payloadPages;
    }

    /**
     * The pending case of fetchPetDetails, createPet, updatePet, deletePet
     * and fetchShelterPets: only `loading` is set; the error stays.
     */
    method Pending()
      modifies this
      ensures loading
      ensures pets == old(pets) && pet == old(pet) && error == old(error) && page == old(page) && pages == old(pages)
    {
      loading := true;
    }

    /** Every rejected case: `loading` is cleared and the message becomes the error. */
    method Rejected(message: string)
      modifies this
      ensures !loading && error == Some(message)
      ensures pets == old(pets) && pet == old(pet) && page == old(page) && pages == old(pages)
    {
      loading := false;
      error := Some(message);
    }

    /** fetchPetDetails.fulfilled */
    method FetchDetailsFulfilled(payload: Pet)
      modifies this
      ensures !loading && pet == Some(payload)
      ensures pets == old(pets) && error == old(error) && page == old(page) && pages == old(pages)
    {
      loading := false;
      pet := Some(payload);
    }

    /** createPet.fulfilled: the new pet is pushed at the end. */
    method CreateFulfilled(payload: Pet)
      modifies this
      ensures !loading && pets == old(pets) + [payload]
      ensures pet == old(pet) && error == old(error) && page == old(page) && pages == old(pages)
    {
      pets := pets + [payload];
      loading := false;
    }

    /** updatePet.fulfilled: every listed pet with the id is swapped for the update, which also becomes the viewed pet. */
    method UpdateFulfilled(payload: Pet)
      modifies this
      ensures !loading && pet == Some(payload)
      ensures pets == ListOps.ReplaceAll(old(pets), PetId, payload)
      ensures error == old(error) && page == old(page) && pages == old(pages)
    {
      loading := false;
      pet := Some(payload);
      pets := ListOps.ReplaceAll(pets, PetId, payload);
    }

    /** deletePet.fulfilled: every pet with the id is dropped, the others keep their order. */
    method DeleteFulfilled(id: Id)
      modifies this
      ensures !loading && pets == ListOps.RemoveId(old(pets), PetId, id)
      ensures pet == old(pet) && error == old(error) && page == old(page) && pages == old(pages)
    {
      loading := false;
      pets := ListOps.RemoveId(pets, PetId, id);
    }

    /** fetchShelterPets.fulfilled: the shelter's own pets replace the list. */
    method FetchShelterPetsFulfilled(payload: seq<Pet>)
      modifies this
      ensures !loading && pets == payload
      ensures pet == old(pet) && error == old(error) && page == old(page) && pages == old(pages)
    {
      loading := false;
      pets := payload;
    }
  }

  /** After an update, the listing holds the updated pet wherever it held that id, and no stale copy. */
  lemma UpdateLeavesNoStaleCopy(pets: seq<Pet>, payload: Pet)
    ensures forall p :: p in ListOps.ReplaceAll(pets, PetId, payload) && p.id == payload.id ==> p == payload
    ensures (exists p :: p in pets && p.id == payload.id) <==> payload in ListOps.ReplaceAll(pets, PetId, payload)
  {
    var r := ListOps.ReplaceAll(pets, PetId, payload);
    if payload in r {
      var j :| 0 <= j < |r| && r[j] == payload;
      assert pets[j] in pets;
    }
    if exists p :: p in pets && p.id == payload.id {
      var p :| p in pets && p.id == payload.id;
      var j :| 0 <= j < |pets| && pets[j] == p;
      assert r[j] == payload;
    }
  }

  /** Creating a pet and deleting it again restores the listing, when its id was new. */
  lemma DeleteUndoesCreate(pets: seq<Pet>, created: Pet)
    requires forall j :: 0 <= j < |pets| ==> pets[j].id != created.id
    ensures ListOps.RemoveId(pets + [created], PetId, created.id) == pets
  {
    ListOps.RemoveIdAppend(pets, [created], PetId, created.id);
    ListOps.RemoveAbsentId(pets, PetId, created.id);
  }
}
