/**
 * The client's application store (client/src/redux/slices/applicationSlice.js):
 * the applications the adopter or shelter sees, the loading and error flags,
 * and the `success` flag the apply form waits for.
 */
module ApplicationSlice {
  import opened Wrappers
  import opened Models
  import ListOps

  /** The `_id` the reducers match applications by. */
  function ApplicationId(a: Application): string { a.id }

  class ApplicationState {
    var applications: seq<Application>
    var loading: bool
    var error: Option<string>
    var success: bool

    constructor ()
      ensures applications == [] && !loading && error == None && !success
    {
      applications := [];
      loading := false;
      error := None;
      success := false;
    }

    /** resetSuccess */
    method ResetSuccess()
      modifies this
      ensures !success
      ensures applications == old(applications) && loading == old(loading) && error == old(error)
    {
      success := false;
    }

    /** The pending case of createApplication and of both fetches. */
    method Pending()
      modifies this
      ensures loading
      ensures applications == old(applications) && error == old(error) && success == old(success)
    {
      loading := true;
    }

    /** The rejected case of createApplication and of both fetches. */
    method Rejected(message: string)
      modifies this
      ensures !loading && error == Some(message)
      ensures applications == old(applications) && success == old(success)
    {
      loading := false;
      error := Some(message);
    }

    /** createApplication.fulfilled: the form learns that the application went through. */
    method CreateFulfilled()
      modifies this
      ensures !loading && success
      ensures applications == old(applications) && error == old(error)
    {
      loading := false;
      success := true;
    }

    /** fetchMyApplications.fulfilled and fetchShelterApplications.fulfilled: the list is replaced. */
    method FetchFulfilled(payload: seq<Application>)
      modifies this
      ensures !loading && applications == payload
      ensures error == old(error) && success == old(success)
    {
      loading := false;
      applications := payload;
    }

    /**
     * updateApplicationStatus.fulfilled: the updated application replaces the
     * first one with its id; no flag changes, as the thunk has no pending or
     * rejected case.
     */
    method UpdateStatusFulfilled(payload: Application)
      modifies this
      ensures applications == ListOps.ReplaceFirst(old(applications), ApplicationId, payload)
      ensures loading == old(loading) && error == old(error) && success == old(success)
    {
      var i := ListOps.FindIndex(applications, ApplicationId, payload.id);
      if i.Some? {
        applications := applications[i.value := payload];
      }
    }
  }
}
