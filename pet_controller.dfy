/**
 * The pet handlers (server/controllers/petController.js): the public,
 * paginated listing of available pets, and the shelter-only create, update
 * and delete. Request bodies arrive as multipart form text, so every field
 * is a string and "" is a field that was not sent.
 */
module PetController {
  import opened Wrappers
  import opened Models
  import opened Store
  import opened Text
  import ListOps

  /** Number of pets on one page of the listing. */
  const PageSize: nat := 10

  /** The image stored when a pet is created without any upload field. */
  const PlaceholderImage: string :=
    "https://images.unsplash.com/photo-1543466835-00a7907e9de1?ixlib=rb-1.2.1&auto=format&fit=crop&w=1000&q=80"

  // ---------------------------------------------------------------------------
  // getPets

  /** The query string of the listing; "" for a parameter that is absent. */
  datatype PetQuery = PetQuery(
    keyword: string, pageNumber: string, category: string, age: string, breed: string, location: string)

  /** The body of the listing's answer. */
  datatype PetPage = PetPage(pets: seq<Pet>, page: int, pages: int)

  /** `Number(pageNumber) || 1`: the number given, or 1 when it is absent, not a number, or 0. */
  function PageOf(pageNumber: string): (page: int)
    ensures page != 0
    ensures ParseInt(pageNumber).Some? && ParseInt(pageNumber).value != 0 ==> page == ParseInt(pageNumber).value
    ensures ParseInt(pageNumber).None? || ParseInt(pageNumber).value == 0 ==> page == 1
  {
    match ParseInt(pageNumber)
    case Some(n) => if n == 0 then 1 else n
    case None => 1
  }

  /**
   * The listing's filter. `like(pattern, text)` is the case-insensitive
   * regular-expression test of `$regex`/`$options: 'i'`; `age` is the
   * requested age once cast to a number.
   */
  predicate Listed(p: Pet, q: PetQuery, age: Option<int>, like: (string, string) -> bool) {
    && p.status == Available
    && (q.keyword == "" || like(q.keyword, p.name))
    && (q.category == "" || p.category == q.category)
    && (age.None? || p.age == age.value)
    && (q.breed == "" || like(q.breed, p.breed))
    && (q.location == "" || like(q.location, p.location))
  }

  /** The pets the filter keeps, in store order (the count and the find share it). */
  function Matching(pets: seq<Pet>, q: PetQuery, age: Option<int>, like: (string, string) -> bool): seq<Pet> {
    ListOps.Filter(pets, p => Listed(p, q, age, like))
  }

  /** The matches of page `page`: at most 10 of them, after skipping `10 * (page - 1)`. */
  function PageSlice(all: seq<Pet>, page: int): (r: seq<Pet>)
    requires page >= 1
    ensures |r| <= PageSize
    ensures forall p :: p in r ==> p in all
  {
    var skip := PageSize * (page - 1);
    if skip >= |all| then []
    else if skip + PageSize <= |all| then all[skip..skip + PageSize]
    else all[skip..]
  }

  /**
   * getPets. An age that is not a number fails the cast; a page below 1
   * gives a negative skip, which the database refuses. Otherwise the page
   * holds the matches of that page and the number of pages.
   */
  function GetPets(pets: seq<Pet>, q: PetQuery, like: (string, string) -> bool): (r: Result<PetPage, Failure>)
    ensures r.Ok? <==> (q.age == "" || ParseInt(q.age).Some?) && PageOf(q.pageNumber) >= 1
    ensures r.Ok? ==> r.value.page == PageOf(q.pageNumber) && |r.value.pets| <= PageSize
  {
    var age := if q.age == "" then None else ParseInt(q.age);
    if q.age != "" && age.None? then Err(Invalid)
    else
      var page := PageOf(q.pageNumber);
      if page < 1 then Err(Invalid)
      else
        var all := Matching(pets, q, age, like);
        Ok(PetPage(PageSlice(all, page), page, (|all| + PageSize - 1) / PageSize))
  }

  /** Match `j` sits on page `j / 10 + 1`, at position `j % 10`. */
  lemma SliceHoldsMatch(all: seq<Pet>, j: nat)
    requires j < |all|
    ensures j % PageSize < |PageSlice(all, j / PageSize + 1)|
    ensures PageSlice(all, j / PageSize + 1)[j % PageSize] == all[j]
  {
    var skip := PageSize * (j / PageSize);
    assert skip + j % PageSize == j;
  }

  /** Every listed pet is Available and passes every filter given, whatever the query. */
  lemma ListedPetsMatch(pets: seq<Pet>, q: PetQuery, like: (string, string) -> bool)
    requires GetPets(pets, q, like).Ok?
    ensures var age := if q.age == "" then None else ParseInt(q.age);
            forall p :: p in GetPets(pets, q, like).value.pets ==> p in pets && Listed(p, q, age, like)
  {
    var age := if q.age == "" then None else ParseInt(q.age);
    var all := Matching(pets, q, age, like);
    forall p | p in GetPets(pets, q, like).value.pets ensures p in all {
    }
  }

  /** `pages` is the ceiling of count / 10: the pages hold every match, none is empty, 0 when nothing matches. */
  lemma PagesIsCeiling(pets: seq<Pet>, q: PetQuery, like: (string, string) -> bool)
    requires GetPets(pets, q, like).Ok?
    ensures var age := if q.age == "" then None else ParseInt(q.age);
            var count := |Matching(pets, q, age, like)|;
            var pages := GetPets(pets, q, like).value.pages;
            && pages * PageSize >= count
            && (pages == 0 <==> count == 0)
            && (pages > 0 ==> (pages - 1) * PageSize < count)
  {
  }

  /**
   * Every match is listed on page `j / 10 + 1` at position `j % 10`, so
   * walking the pages 1 to `pages` meets each match.
   */
  lemma EachMatchOnItsPage(pets: seq<Pet>, q: PetQuery, like: (string, string) -> bool, j: nat)
    requires q.age == "" || ParseInt(q.age).Some?
    requires var age := if q.age == "" then None else ParseInt(q.age);
             j < |Matching(pets, q, age, like)|
    ensures var age := if q.age == "" then None else ParseInt(q.age);
            var r := GetPets(pets, q.(pageNumber := IntText(j / PageSize + 1)), like);
            && r.Ok? && r.value.page == j / PageSize + 1
            && j % PageSize < |r.value.pets| && r.value.pets[j % PageSize] == Matching(pets, q, age, like)[j]
  {
    var age := if q.age == "" then None else ParseInt(q.age);
    var page := j / PageSize + 1;
    var q' := q.(pageNumber := IntText(page));
    IntTextRoundTrip(page);
    ListOps.FilterAgree(pets, p => Listed(p, q', age, like), p => Listed(p, q, age, like));
    SliceHoldsMatch(Matching(pets, q, age, like), j);
  }

  // ---------------------------------------------------------------------------
  // createPet, updatePet, deletePet

  /** The text fields of a pet form. `status` is read by the update only. */
  datatype PetForm = PetForm(
    name: string, age: string, breed: string, category: string, gender: string, size: string,
    description: string, location: string, status: string)

  /**
   * The pet `new Pet({...})` builds and `save` accepts: None when a required
   * field is missing, the age is not a number or an enumeration is out of range.
   */
  function NewPet(id: Id, form: PetForm, images: seq<string>, shelter: Id): (r: Option<Pet>)
    ensures r.Some? ==> ValidPet(r.value) && r.value.status == Available && r.value.images == images
                        && r.value.shelter == shelter && r.value.id == id
    ensures r.Some? ==> r.value.name == form.name && r.value.breed == form.breed
                        && r.value.category == form.category && r.value.description == form.description
                        && r.value.location == form.location && Some(r.value.age) == ParseInt(form.age)
                        && GenderName(r.value.gender) == form.gender && SizeName(r.value.size) == form.size
    ensures r.None? <==>
      ParseInt(form.age).None? || ParseGender(form.gender).None? || ParseSize(form.size).None?
      || form.name == "" || form.breed == "" || form.category == "" || form.description == ""
      || form.location == "" || shelter == ""
  {
    match (ParseInt(form.age), ParseGender(form.gender), ParseSize(form.size))
    case (Some(age), Some(g), Some(z)) =>
      var p := Pet(id, form.name, age, form.breed, form.category, g, z, form.description,
                   form.location, images, Available, shelter);
      if ValidPet(p) then Some(p) else None
    case _ => None
  }

  /** The images of a new pet: the uploaded paths when the upload field is there, even empty, else the placeholder. */
  function CreatedImages(files: Option<seq<string>>): (r: seq<string>)
    ensures files.Some? ==> r == files.value
    ensures files.None? ==> r == [PlaceholderImage]
  {
    match files
    case Some(paths) => paths
    case None => [PlaceholderImage]
  }

  /**
   * createPet: stores the pet with the caller as its shelter, or stores
   * nothing when `save` rejects it. `files` is None when the request has no
   * upload field at all.
   */
  method Create(db: Db, caller: User, form: PetForm, files: Option<seq<string>>, newId: Id)
    returns (r: Result<Pet, Failure>)
    requires db.Valid() && newId != ""
    requires forall p :: p in db.pets ==> p.id != newId
    modifies db
    ensures db.Valid()
    ensures db.users == old(db.users) && db.applications == old(db.applications)
    ensures db.messages == old(db.messages) && db.notifications == old(db.notifications)
    ensures r.Ok? <==> NewPet(newId, form, CreatedImages(files), caller.id).Some?
    ensures r.Ok? ==> r == Ok(NewPet(newId, form, CreatedImages(files), caller.id).value)
                      && db.pets == old(db.pets) + [r.value]
    ensures r.Err? ==> r.error == Invalid && db.pets == old(db.pets)
  {
    var built := NewPet(newId, form, CreatedImages(files), caller.id);
    if built.None? {
      return Err(Invalid);
    }
    db.pets := db.pets + [built.value];
    return Ok(built.value);
  }

  /** `form || old`: a non-empty text replaces the value, an empty one keeps it. */
  function Either(given: string, current: string): (r: string)
    ensures given != "" ==> r == given
    ensures given == "" ==> r == current
  {
    if given != "" then given else current
  }

  /**
   * The field-by-field merge of updatePet followed by the casts of `save`:
   * each non-empty field replaces the old value, each empty one keeps it;
   * None when a given age is not a number or a given enumeration is out of
   * range. Images are replaced only by a non-empty upload.
   */
  function MergePet(pet: Pet, form: PetForm, files: Option<seq<string>>): (r: Option<Pet>)
    ensures r.Some? <==>
      && (form.age == "" || ParseInt(form.age).Some?)
      && (form.gender == "" || ParseGender(form.gender).Some?)
      && (form.size == "" || ParseSize(form.size).Some?)
      && (form.status == "" || ParsePetStatus(form.status).Some?)
  {
    var age := if form.age == "" then Some(pet.age) else ParseInt(form.age);
    var gender := if form.gender == "" then Some(pet.gender) else ParseGender(form.gender);
    var size := if form.size == "" then Some(pet.size) else ParseSize(form.size);
    var status := if form.status == "" then Some(pet.status) else ParsePetStatus(form.status);
    if age.None? || gender.None? || size.None? || status.None? then None
    else
      Some(pet.(name := Either(form.name, pet.name), age := age.value, breed := Either(form.breed, pet.breed),
                category := Either(form.category, pet.category), gender := gender.value, size := size.value,
                description := Either(form.description, pet.description),
                location := Either(form.location, pet.location), status := status.value,
                images := if files.Some? && |files.value| > 0 then files.value else pet.images))
  }

  /** An empty form and no upload leave the pet as it was. */
  lemma MergeEmptyKeeps(pet: Pet, files: Option<seq<string>>)
    requires files.None? || files.value == []
    ensures MergePet(pet, PetForm("", "", "", "", "", "", "", "", ""), files) == Some(pet)
  {
  }

  /** Each given field lands in the pet, each empty one keeps its value; the id and shelter never change. */
  lemma MergeTruthyOrKeep(pet: Pet, form: PetForm, files: Option<seq<string>>)
    requires MergePet(pet, form, files).Some?
    ensures var m := MergePet(pet, form, files).value;
      && m.id == pet.id && m.shelter == pet.shelter
      && (form.name != "" ==> m.name == form.name) && (form.name == "" ==> m.name == pet.name)
      && (form.age != "" ==> Some(m.age) == ParseInt(form.age)) && (form.age == "" ==> m.age == pet.age)
      && (form.gender != "" ==> GenderName(m.gender) == form.gender) && (form.gender == "" ==> m.gender == pet.gender)
      && (form.size != "" ==> SizeName(m.size) == form.size) && (form.size == "" ==> m.size == pet.size)
      && (form.status != "" ==> PetStatusName(m.status) == form.status) && (form.status == "" ==> m.status == pet.status)
      && (form.location != "" ==> m.location == form.location) && (form.location == "" ==> m.location == pet.location)
      && (files.Some? && files.value != [] ==> m.images == files.value)
      && (files.None? || files.value == [] ==> m.images == pet.images)
  {
  }

  /** Applying the same update twice is the same as applying it once. */
  lemma MergeIdempotent(pet: Pet, form: PetForm, files: Option<seq<string>>)
    requires MergePet(pet, form, files).Some?
    ensures MergePet(MergePet(pet, form, files).value, form, files) == MergePet(pet, form, files)
  {
  }

  /** A merge keeps a valid pet valid: no required field can become empty. */
  lemma MergeKeepsValid(pet: Pet, form: PetForm, files: Option<seq<string>>)
    requires ValidPet(pet) && MergePet(pet, form, files).Some?
    ensures ValidPet(MergePet(pet, form, files).value)
  {
  }

  /**
   * updatePet: NotFound for an unknown id, Forbidden unless the caller is
   * the pet's shelter, Invalid when `save` rejects the merge; each failure
   * changes nothing. Otherwise the merged pet replaces the old one in place.
   */
  method Update(db: Db, caller: User, petId: Id, form: PetForm, files: Option<seq<string>>)
    returns (r: Result<Pet, Failure>)
    requires db.Valid()
    modifies db
    ensures db.Valid()
    ensures db.users == old(db.users) && db.applications == old(db.applications)
    ensures db.messages == old(db.messages) && db.notifications == old(db.notifications)
    ensures var i := ListOps.FindIndex(old(db.pets), (p: Pet) => p.id, petId);
      && (i.None? ==> r == Err(NotFound))
      && (i.Some? && old(db.pets)[i.value].shelter != caller.id ==> r == Err(Forbidden))
      && (i.Some? && old(db.pets)[i.value].shelter == caller.id ==>
            match MergePet(old(db.pets)[i.value], form, files)
            case None => r == Err(Invalid)
            case Some(m) => r == Ok(m) && db.pets == old(db.pets)[i.value := m])
    ensures r.Err? ==> db.pets == old(db.pets)
  {
    var found := ListOps.FindIndex(db.pets, (p: Pet) => p.id, petId);
    if found.None? {
      return Err(NotFound);
    }
    var i := found.value;
    if db.pets[i].shelter != caller.id {
      return Err(Forbidden);
    }
    var merged := MergePet(db.pets[i], form, files);
    if merged.None? {
      return Err(Invalid);
    }
    MergeKeepsValid(db.pets[i], form, files);
    db.pets := db.pets[i := merged.value];
    return Ok(merged.value);
  }

  /**
   * deletePet: NotFound for an unknown id, Forbidden unless the caller is
   * the pet's shelter, changing nothing; otherwise that one document is
   * removed and the others stay in order. Ids being unique, this is also
   * what filtering the id out gives, as the client's list does.
   */
  method Delete(db: Db, caller: User, petId: Id) returns (r: Result<string, Failure>)
    requires db.Valid()
    modifies db
    ensures db.Valid()
    ensures db.users == old(db.users) && db.applications == old(db.applications)
    ensures db.messages == old(db.messages) && db.notifications == old(db.notifications)
    ensures var i := ListOps.FindIndex(old(db.pets), (p: Pet) => p.id, petId);
      && (i.None? ==> r == Err(NotFound))
      && (i.Some? && old(db.pets)[i.value].shelter != caller.id ==> r == Err(Forbidden))
      && (i.Some? && old(db.pets)[i.value].shelter == caller.id ==>
            && r == Ok("Pet removed")
            && db.pets == old(db.pets)[..i.value] + old(db.pets)[i.value + 1..]
            && db.pets == ListOps.RemoveId(old(db.pets), (p: Pet) => p.id, petId))
    ensures r.Err? ==> db.pets == old(db.pets)
  {
    var found := ListOps.FindIndex(db.pets, (p: Pet) => p.id, petId);
    if found.None? {
      return Err(NotFound);
    }
    var i := found.value;
    if db.pets[i].shelter != caller.id {
      return Err(Forbidden);
    }
    ListOps.RemoveUniqueId(db.pets, (p: Pet) => p.id, petId, i);
    db.pets := db.pets[..i] + db.pets[i + 1..];
    return Ok("Pet removed");
  }
}
