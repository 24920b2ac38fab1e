/**
 * The pet form of the client (client/src/pages/CreatePetPage.jsx), used to
 * list a new pet and to edit one: its validators, how a stored pet is loaded
 * into the "Other"/custom fields, and the multipart body it submits.
 */
module CreatePetPage {
  import opened Wrappers
  import opened Models
  import opened Text
  import PetController

  const Cities: seq<string> :=
    ["Mumbai", "Delhi", "Bangalore", "Hyderabad", "Chennai", "Kolkata", "Pune", "Ahmedabad", "Jaipur"]
  const Categories: seq<string> := ["Dog", "Cat", "Other"]

  /** The values of the form; "" is an empty field, `images` the chosen files. */
  datatype PetFormValues = PetFormValues(
    name: string, age: string, breed: string, category: string, customCategory: string,
    gender: string, size: string, description: string, location: string, customLocation: string,
    images: seq<string>)

  /**
   * The age field (`required`, `min: 0`): an empty field is refused, a
   * number is accepted exactly when it is not negative, and a text that is
   * not a number is left to the server.
   */
  function AgeValid(age: string): (r: bool)
    ensures age == "" ==> !r
    ensures ParseInt(age).Some? ==> (r <==> ParseInt(age).value >= 0)
    ensures age != "" && ParseInt(age).None? ==> r
  {
    age != "" && !(ParseInt(age).Some? && ParseInt(age).value < 0)
  }

  /** The category sent: the custom one when "Other" is selected. */
  function FinalCategory(v: PetFormValues): (r: string)
    ensures v.category != "Other" ==> r == v.category
    ensures v.category == "Other" ==> r == v.customCategory
  {
    if v.category == "Other" then v.customCategory else v.category
  }

  /** The location sent: the custom one when "Other" is selected. */
  function FinalLocation(v: PetFormValues): (r: string)
    ensures v.location != "Other" ==> r == v.location
    ensures v.location == "Other" ==> r == v.customLocation
  {
    if v.location == "Other" then v.customLocation else v.location
  }

  /**
   * The form's rules: every field is required, and the custom category and
   * location fields (shown only when "Other" is selected) are required then.
   * A form that passes never sends an empty category or location.
   */
  function FormValid(v: PetFormValues): (r: bool)
    ensures r ==> FinalCategory(v) != "" && FinalLocation(v) != ""
    ensures r ==> v.name != "" && v.breed != "" && v.description != "" && AgeValid(v.age)
    ensures v.category == "Other" && v.customCategory == "" ==> !r
    ensures v.location == "Other" && v.customLocation == "" ==> !r
  {
    && v.name != "" && AgeValid(v.age) && v.breed != "" && v.category != ""
    && (v.category == "Other" ==> v.customCategory != "")
    && v.gender != "" && v.size != "" && v.description != "" && v.location != ""
    && (v.location == "Other" ==> v.customLocation != "")
  }

  /**
   * Loading a stored pet for editing: a category of the list and a city of
   * the list are selected as they are; anything else selects "Other" and
   * fills the custom field. Fields not set keep their value in `v`.
   */
  function EditLoad(pet: Pet, v: PetFormValues): (r: PetFormValues)
    ensures pet.category in Categories ==> r.category == pet.category && r.customCategory == v.customCategory
    ensures pet.category !in Categories ==> r.category == "Other" && r.customCategory == pet.category
    ensures pet.location in Cities ==> r.location == pet.location && r.customLocation == v.customLocation
    ensures pet.location !in Cities ==> r.location == "Other" && r.customLocation == pet.location
    ensures r.images == v.images
  {
    var v1 := v.(name := pet.name, age := IntText(pet.age), breed := pet.breed,
                 gender := GenderName(pet.gender), size := SizeName(pet.size), description := pet.description);
    var v2 := if pet.category in Categories then v1.(category := pet.category)
              else v1.(category := "Other", customCategory := pet.category);
    if pet.location in Cities then v2.(location := pet.location)
    else v2.(location := "Other", customLocation := pet.location)
  }

  /** Loading then submitting gives the stored location back, whatever it is ("Other" included). */
  lemma LocationRoundTrip(pet: Pet, v: PetFormValues)
    ensures FinalLocation(EditLoad(pet, v)) == pet.location
  {
    assert "Other" !in Cities;
  }

  /** Loading then submitting gives the stored category back, unless it is exactly "Other". */
  lemma CategoryRoundTrip(pet: Pet, v: PetFormValues)
    requires pet.category != "Other"
    ensures FinalCategory(EditLoad(pet, v)) == pet.category
  {
  }

  /** A stored category "Other" loads as the "Other" choice with an empty custom field, which the form refuses. */
  lemma OtherCategoryBlocksSubmit(pet: Pet, v: PetFormValues)
    requires pet.category == "Other" && v.customCategory == ""
    ensures !FormValid(EditLoad(pet, v))
  {
  }

  /** The text fields of the multipart body, as the server reads them. */
  function Submitted(v: PetFormValues): (f: PetController.PetForm)
    ensures f.category == FinalCategory(v) && f.location == FinalLocation(v) && f.status == ""
  {
    PetController.PetForm(v.name, v.age, v.breed, FinalCategory(v), v.gender, v.size, v.description,
                          FinalLocation(v), "")
  }

  /** One `formData.append(name, value)`. */
  datatype FormEntry = FormEntry(field: string, value: string)

  /** The names of the text fields, in the order they are appended. */
  const TextFields: seq<string> := ["name", "age", "breed", "category", "gender", "size", "description", "location"]

  /** The text entries of the body, one per text field in order; none of them is named 'images'. */
  function TextEntries(f: PetController.PetForm): (r: seq<FormEntry>)
    ensures |r| == |TextFields|
    ensures forall i :: 0 <= i < |r| ==> r[i].field == TextFields[i] && r[i].field != "images"
  {
    [FormEntry("name", f.name), FormEntry("age", f.age), FormEntry("breed", f.breed),
     FormEntry("category", f.category), FormEntry("gender", f.gender), FormEntry("size", f.size),
     FormEntry("description", f.description), FormEntry("location", f.location)]
  }

  /** The value of the first entry named `field`, "" when there is none. */
  function FieldValue(body: seq<FormEntry>, field: string): (r: string)
    ensures r != "" ==> exists i :: 0 <= i < |body| && body[i] == FormEntry(field, r)
  {
    if body == [] then ""
    else if body[0].field == field then body[0].value
    else FieldValue(body[1..], field)
  }

  /** The text fields the server reads from a multipart body whose text fields are not repeated. */
  function ReadForm(body: seq<FormEntry>): PetController.PetForm {
    PetController.PetForm(FieldValue(body, "name"), FieldValue(body, "age"), FieldValue(body, "breed"),
                          FieldValue(body, "category"), FieldValue(body, "gender"), FieldValue(body, "size"),
                          FieldValue(body, "description"), FieldValue(body, "location"), FieldValue(body, "status"))
  }

  /** A field that no entry of `files` names is read from the entries before them. */
  lemma {:induction false} FieldValueBeforeFiles(text: seq<FormEntry>, files: seq<FormEntry>, field: string)
    requires forall i :: 0 <= i < |files| ==> files[i].field != field
    ensures FieldValue(text + files, field) == FieldValue(text, field)
  {
    if text == [] {
      assert text + files == files;
      FieldValueAbsent(files, field);
    } else {
      assert (text + files)[1..] == text[1..] + files;
      FieldValueBeforeFiles(text[1..], files, field);
    }
  }

  lemma {:induction false} FieldValueAbsent(body: seq<FormEntry>, field: string)
    requires forall i :: 0 <= i < |body| ==> body[i].field != field
    ensures FieldValue(body, field) == ""
  {
    if body != [] {
      FieldValueAbsent(body[1..], field);
    }
  }

  /**
   * The server reads back exactly the submitted text fields from the body,
   * whatever files follow them, and finds no status in it.
   */
  lemma BodyReadsBack(f: PetController.PetForm, files: seq<FormEntry>)
    requires forall i :: 0 <= i < |files| ==> files[i].field == "images"
    ensures ReadForm(TextEntries(f) + files) == f.(status := "")
  {
    var t := TextEntries(f);
    FieldValueBeforeFiles(t, files, "name");
    FieldValueBeforeFiles(t, files, "age");
    FieldValueBeforeFiles(t, files, "breed");
    FieldValueBeforeFiles(t, files, "category");
    FieldValueBeforeFiles(t, files, "gender");
    FieldValueBeforeFiles(t, files, "size");
    FieldValueBeforeFiles(t, files, "description");
    FieldValueBeforeFiles(t, files, "location");
    FieldValueBeforeFiles(t, files, "status");
    TextReadsBack(f);
  }

  /** The text entries alone read back as the form, without a status. */
  lemma TextReadsBack(f: PetController.PetForm)
    ensures ReadForm(TextEntries(f)) == f.(status := "")
  {
    var t := TextEntries(f);
    TextFieldsDistinct();
    forall k | 0 <= k < 8
      ensures FieldValue(t, TextFields[k]) == t[k].value
    {
      FieldValueAt(t, k, TextFields[k]);
    }
    assert FieldValue(t, TextFields[0]) == f.name;
    assert FieldValue(t, TextFields[1]) == f.age;
    assert FieldValue(t, TextFields[2]) == f.breed;
    assert FieldValue(t, TextFields[3]) == f.category;
    assert FieldValue(t, TextFields[4]) == f.gender;
    assert FieldValue(t, TextFields[5]) == f.size;
    assert FieldValue(t, TextFields[6]) == f.description;
    assert FieldValue(t, TextFields[7]) == f.location;
    FieldValueAbsent(t, "status");
  }

  /** No two text fields share a name, and none is named 'status' or 'images'. */
  lemma TextFieldsDistinct()
    ensures forall i, j :: 0 <= i < j < |TextFields| ==> TextFields[i] != TextFields[j]
    ensures forall i :: 0 <= i < |TextFields| ==> TextFields[i] != "status" && TextFields[i] != "images"
  {
  }

  /** The first entry named `field` gives its value. */
  lemma {:induction false} FieldValueAt(body: seq<FormEntry>, i: nat, field: string)
    requires i < |body| && body[i].field == field
    requires forall j :: 0 <= j < i ==> body[j].field != field
    ensures FieldValue(body, field) == body[i].value
  {
    if i > 0 {
      FieldValueAt(body[1..], i - 1, field);
    }
  }

  /**
   * What the form lets through, the server stores: a valid form whose gender
   * and size come from the selects and whose age is number text gives a pet
   * that `createPet` accepts, with a non-negative age and the sent category
   * and location.
   */
  lemma ValidFormIsStored(v: PetFormValues, id: Id, images: seq<string>, shelter: Id)
    requires FormValid(v) && ParseInt(v.age).Some?
    requires v.gender in ["Male", "Female"] && v.size in ["Small", "Medium", "Large"]
    requires shelter != ""
    ensures var r := PetController.NewPet(id, Submitted(v), images, shelter);
      && r.Some?
      && r.value.age >= 0 && r.value.name == v.name && r.value.breed == v.breed
      && r.value.category == FinalCategory(v) && r.value.location == FinalLocation(v)
      && GenderName(r.value.gender) == v.gender && SizeName(r.value.size) == v.size
  {
  }

  /**
   * submitHandler's body: the eight text fields, then one 'images' entry per
   * chosen file, in order.
   */
  method BuildFormData(v: PetFormValues) returns (body: seq<FormEntry>)
    ensures |body| == 8 + |v.images|
    ensures body[..8] == TextEntries(Submitted(v))
    ensures forall i :: 0 <= i < |v.images| ==> body[8 + i] == FormEntry("images", v.images[i])
    ensures ReadForm(body) == Submitted(v)
  {
    body := TextEntries(Submitted(v));
    if |v.images| > 0 {
      for i := 0 to |v.images|
        invariant |body| == 8 + i
        invariant body[..8] == TextEntries(Submitted(v))
        invariant forall j :: 0 <= j < i ==> body[8 + j] == FormEntry("images", v.images[j])
      {
        body := body + [FormEntry("images", v.images[i])];
      }
    }
    assert body == TextEntries(Submitted(v)) + body[8..];
    assert |body| == 8 + |v.images|;
    forall i | 0 <= i < |body| - 8
      ensures body[8..][i].field == "images"
    {
      assert body[8..][i] == body[8 + i] == FormEntry("images", v.images[i]);
    }
    BodyReadsBack(Submitted(v), body[8..]);
  }

  /**
   * Opening a pet for editing and saving it untouched, with no new files,
   * leaves the stored pet as it is (for any category but "Other").
   */
  lemma UntouchedEditKeepsPet(pet: Pet, v: PetFormValues)
    requires pet.category != "Other" && v.images == []
    ensures PetController.MergePet(pet, Submitted(EditLoad(pet, v)), Some([])) == Some(pet)
  {
    IntTextRoundTrip(pet.age);
    PetEnumsRoundTrip(pet.gender, pet.size, pet.status);
    LocationRoundTrip(pet, v);
  }

  /** What the submit leads to: an update or a create request. */
  datatype Request = UpdateRequest(id: Id, form: PetController.PetForm) | CreateRequest(form: PetController.PetForm)

  /** With a pet id in the address the form updates that pet, otherwise it creates one. */
  function SubmitRequest(id: Option<Id>, v: PetFormValues): (r: Request)
    ensures r.form == Submitted(v)
    ensures r.UpdateRequest? <==> id.Some?
    ensures r.UpdateRequest? ==> r.id == id.value
  {
    if id.Some? then UpdateRequest(id.value, Submitted(v)) else CreateRequest(Submitted(v))
  }

  /** Where the page goes once the request settles: the pet's page or the dashboard, only on success. */
  function AfterSubmit(id: Option<Id>, succeeded: bool): (r: Option<string>)
    ensures r.Some? <==> succeeded
    ensures succeeded && id.Some? ==> r == Some("/pets/" + id.value)
    ensures succeeded && id.None? ==> r == Some("/dashboard")
  {
    if !succeeded then None
    else if id.Some? then Some("/pets/" + id.value)
    else Some("/dashboard")
  }
}
