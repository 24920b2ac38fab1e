/**
 * The pet search page of the client (client/src/pages/BrowsePetsPage.jsx):
 * the filter selections, the effective filter they give, and the listing
 * request issued each time the effective filter changes. The page keeps a
 * custom location but renders no input for it (the custom-category input
 * is rendered twice instead), so the custom location is always empty.
 */
module BrowsePetsPage {
  import opened Wrappers
  import opened Models
  import PetController

  /** The effective value of a select with an "Other" choice: the custom text when "Other" is selected. */
  function Effective(selected: string, custom: string): (r: string)
    ensures selected != "Other" ==> r == selected
    ensures selected == "Other" ==> r == custom
  {
    if selected == "Other" then custom else selected
  }

  /** The listing request for an effective filter; keyword and page are left empty. */
  function QueryFor(category: string, age: string, breed: string, location: string): (q: PetController.PetQuery)
    ensures q.keyword == "" && q.pageNumber == ""
    ensures q.category == category && q.age == age && q.breed == breed && q.location == location
  {
    PetController.PetQuery("", "", category, age, breed, location)
  }

  /** An empty location or category in the request filters nothing on that field. */
  lemma EmptySelectionMeansAll(p: Pet, q: PetController.PetQuery, age: Option<int>,
                               like: (string, string) -> bool, otherLocation: string, otherCategory: string)
    requires q.location == "" && q.category == ""
    ensures PetController.Listed(p, q, age, like)
            == PetController.Listed(p.(location := otherLocation, category := otherCategory), q, age, like)
  {
  }

  /**
   * With the custom location always empty, "Other" requests the same listing
   * as "All Locations": a pet from any city is listed or not regardless of
   * its location.
   */
  lemma OtherLocationListsEveryCity(p: Pet, category: string, age: string, breed: string, ageValue: Option<int>,
                                    like: (string, string) -> bool, city: string)
    ensures QueryFor(category, age, breed, Effective("Other", "")) == QueryFor(category, age, breed, "")
    ensures var q := QueryFor(category, age, breed, Effective("Other", ""));
            PetController.Listed(p, q, ageValue, like) == PetController.Listed(p.(location := city), q, ageValue, like)
  {
  }

  class BrowseFilters {
    var selectedCategory: string
    var customCategory: string
    var age: string
    var breed: string
    var selectedLocation: string
    var customLocation: string
    /** The listing requests issued so far, oldest first. */
    var fetched: seq<PetController.PetQuery>

    /** The request for what the filters show now. */
    function Current(): PetController.PetQuery
      reads this
    {
      QueryFor(Effective(selectedCategory, customCategory), age, breed,
               Effective(selectedLocation, customLocation))
    }

    /**
     * The last request issued is always the one for what the filters show,
     * and the custom location, which no input sets, stays empty.
     */
    ghost predicate Valid()
      reads this
    {
      |fetched| > 0 && fetched[|fetched| - 1] == Current() && customLocation == ""
    }

    /** The page opens with every filter empty and requests the unfiltered listing once. */
    constructor ()
      ensures Valid()
      ensures selectedCategory == "" && customCategory == "" && age == "" && breed == ""
      ensures selectedLocation == "" && customLocation == ""
      ensures fetched == [QueryFor("", "", "", "")]
    {
      selectedCategory, customCategory, age, breed := "", "", "", "";
      selectedLocation, customLocation := "", "";
      fetched := [QueryFor("", "", "", "")];
    }

    /** The effect on the filter: a request when the effective filter differs from the last one. */
    method Refetch()
      requires |fetched| > 0 && customLocation == ""
      modifies this
      ensures Valid()
      ensures old(fetched[|fetched| - 1]) == Current() ==> fetched == old(fetched)
      ensures old(fetched[|fetched| - 1]) != Current() ==> fetched == old(fetched) + [Current()]
      ensures selectedCategory == old(selectedCategory) && customCategory == old(customCategory)
      ensures age == old(age) && breed == old(breed)
      ensures selectedLocation == old(selectedLocation) && customLocation == old(customLocation)
    {
      var q := Current();
      if fetched[|fetched| - 1] != q {
        fetched := fetched + [q];
      }
    }

    /**
     * Choosing a location; any choice but "Other" clears the custom location.
     * The request then filters on the chosen city, and on no location at all
     * for "Other".
     */
    method SelectLocation(value: string)
      requires Valid()
      modifies this
      ensures Valid()
      ensures selectedLocation == value && customLocation == ""
      ensures value != "Other" ==> Current().location == value
      ensures value == "Other" ==> Current().location == ""
      ensures selectedCategory == old(selectedCategory) && customCategory == old(customCategory)
      ensures age == old(age) && breed == old(breed)
      ensures fetched == old(fetched) || fetched == old(fetched) + [Current()]
      ensures Current() != old(Current()) ==> fetched == old(fetched) + [Current()]
    {
      selectedLocation := value;
      if value != "Other" {
        customLocation := "";
      }
      Refetch();
    }

    /** Choosing a category; any choice but "Other" clears the custom category. */
    method SelectCategory(value: string)
      requires Valid()
      modifies this
      ensures Valid()
      ensures selectedCategory == value
      ensures value != "Other" ==> customCategory == ""
      ensures value == "Other" ==> customCategory == old(customCategory)
      ensures selectedLocation == old(selectedLocation) && customLocation == old(customLocation)
      ensures age == old(age) && breed == old(breed)
      ensures fetched == old(fetched) || fetched == old(fetched) + [Current()]
      ensures Current() != old(Current()) ==> fetched == old(fetched) + [Current()]
    {
      selectedCategory := value;
      if value != "Other" {
        customCategory := "";
      }
      Refetch();
    }

    /**
     * Typing into one of the text inputs of the panel (custom category, age,
     * breed); the custom-category input is shown only while "Other" is selected.
     */
    method Type(field: TextFilter, text: string)
      requires Valid()
      requires field == CustomCategory ==> selectedCategory == "Other"
      modifies this
      ensures Valid()
      ensures customLocation == old(customLocation)
      ensures customCategory == (if field == CustomCategory then text else old(customCategory))
      ensures age == (if field == Age then text else old(age))
      ensures breed == (if field == Breed then text else old(breed))
      ensures selectedLocation == old(selectedLocation) && selectedCategory == old(selectedCategory)
      ensures fetched == old(fetched) || fetched == old(fetched) + [Current()]
      ensures Current() != old(Current()) ==> fetched == old(fetched) + [Current()]
    {
      match field {
        case CustomCategory => customCategory := text;
        case Age => age := text;
        case Breed => breed := text;
      }
      Refetch();
    }
  }

  /** The free-text inputs of the filter panel. */
  datatype TextFilter = CustomCategory | Age | Breed
}
