/** The category form: opening it for a new or an existing category,
    validation of the name, the draft it sends to the store, and per-field
    editing that clears the field's error. */
module CategoryModal {
  import opened Wrappers
  import opened Text
  import opened Domain

  datatype CategoryForm = CategoryForm(name: string, color: string)

  datatype CategoryField = Name | Color

  const DefaultColor: string := "#5B47E0"
  const EmptyForm: CategoryForm := CategoryForm("", DefaultColor)
  const NameRequired: string := "Category name is required"

  function Get(f: CategoryForm, field: CategoryField): string {
    match field
    case Name => f.name
    case Color => f.color
  }

  /** `{ ...prev, [field]: value }`. */
  function With(f: CategoryForm, field: CategoryField, value: string): (r: CategoryForm)
    ensures Get(r, field) == value
    ensures forall other :: other != field ==> Get(r, other) == Get(f, other)
  {
    match field
    case Name => f.(name := value)
    case Color => f.(color := value)
  }

  /** The form for editing `c`: its name, and its color or the default one. */
  function EditForm(c: Category): (r: CategoryForm)
    ensures r.name == c.name
    ensures c.color == "" ==> r.color == DefaultColor
    ensures c.color != "" ==> r.color == c.color
  {
    CategoryForm(c.name, if c.color == "" then DefaultColor else c.color)
  }

  /** The draft `handleSubmit` sends: the name trimmed, the color as chosen. */
  function Payload(f: CategoryForm): (d: CategoryDraft)
    ensures d.name == Trim(f.name) && d.color == f.color
    ensures |d.name| <= |f.name|
  {
    CategoryDraft(Trim(f.name), f.color)
  }

  /** Editing a category and saving it unchanged sends back its own name and
      color, when the name was already trimmed and a color was set. */
  lemma EditThenSaveKeepsFields(c: Category)
    requires Trim(c.name) == c.name && c.color != ""
    ensures Payload(EditForm(c)) == CategoryDraft(c.name, c.color)
  {
  }

  /** Trimming the name again changes nothing: a saved name resubmits as is. */
  lemma PayloadStable(f: CategoryForm)
    ensures Payload(f.(name := Payload(f).name)) == Payload(f)
  {
    TrimIdempotent(f.name);
  }

  /** The errors `validateForm` records for a form. */
  function Validation(f: CategoryForm): (errors: map<CategoryField, string>)
    ensures Name in errors <==> IsBlank(f.name)
    ensures Color !in errors
    ensures Name in errors ==> errors[Name] == NameRequired
  {
    if IsBlank(f.name) then map[Name := NameRequired] else map[]
  }

  /** A form passes validation exactly when the draft it sends has a name. */
  lemma ValidIffNamed(f: CategoryForm)
    ensures Validation(f) == map[] <==> Payload(f).name != ""
  {
    if IsBlank(f.name) {
      assert Name in Validation(f);
    }
  }

  /** What the store is asked to do. */
  datatype CategoryCall = CreateCategory(data: CategoryDraft) | UpdateCategory(id: int, data: CategoryDraft)

  class CategoryModal {
    /** The `category` prop: the category being edited, None when creating. */
    var editing: Option<Category>
    var formData: CategoryForm
    var loading: bool
    var errors: map<CategoryField, string>

    constructor ()
      ensures editing.None? && formData == EmptyForm && !loading && errors == map[]
    {
      editing := None;
      formData := EmptyForm;
      loading := false;
      errors := map[];
    }

    /** The effect that runs when the modal opens for `category`: the form is
        filled from it or reset, and errors are cleared. */
    method Open(category: Option<Category>)
      modifies this
      ensures editing == category && errors == map[] && loading == old(loading)
      ensures category.Some? ==> formData == EditForm(category.value)
      ensures category.None? ==> formData == EmptyForm
    {
      editing := category;
      if category.Some? {
        formData := EditForm(category.value);
      } else {
        formData := EmptyForm;
      }
      errors := map[];
    }

    /** `validateForm`: records the errors of the current form and reports
        whether there were none. */
    method ValidateForm() returns (ok: bool)
      modifies this`errors
      ensures errors == Validation(formData)
      ensures ok <==> !IsBlank(formData.name)
    {
      var blankName := IsBlank(formData.name);
      var newErrors: map<CategoryField, string> := map[];
      if blankName {
        newErrors := map[Name := NameRequired];
      }
      assert newErrors == Validation(formData);
      errors := newErrors;
      ok := newErrors == map[];
      assert blankName ==> Name in newErrors;
    }

    /** The `try` block of `handleSubmit`, once validation passed: the store
        call for the form's draft, answered by `save`. */
    method Save(save: Outcome) returns (call: CategoryCall, saved: bool)
      modifies this`loading
      ensures editing.Some? ==> call == UpdateCategory(editing.value.Id, Payload(formData))
      ensures editing.None? ==> call == CreateCategory(Payload(formData))
      ensures saved <==> save == Success
      ensures !loading
    {
      loading := true;
      var categoryData := Payload(formData);
      if editing.Some? {
        call := UpdateCategory(editing.value.Id, categoryData);
      } else {
        call := CreateCategory(categoryData);
      }
      saved := save == Success;
      loading := false;
    }

    /** `handleSubmit`, where `save` is what the store's `update` or `create`
        call answered. `call` is the call made (None: validation failed and
        nothing was sent); `saved` says whether `onCategorySaved` and
        `onClose` ran. */
    method HandleSubmit(save: Outcome) returns (call: Option<CategoryCall>, saved: bool)
      modifies this`errors, this`loading
      ensures errors == Validation(formData)
      ensures call.None? <==> errors != map[]
      ensures call.Some? ==> Payload(formData).name != ""
      ensures call.Some? && editing.Some? ==> call.value == UpdateCategory(editing.value.Id, Payload(formData))
      ensures call.Some? && editing.None? ==> call.value == CreateCategory(Payload(formData))
      ensures saved <==> call.Some? && save == Success
      ensures call.Some? ==> !loading
      ensures call.None? ==> loading == old(loading)
    {
      var ok := ValidateForm();
      if !ok {
        return None, false;
      }
      var made;
      made, saved := Save(save);
      call := Some(made);
    }

    /** `handleChange(field, value)`: sets that field and blanks its error if
        it had one. */
    method HandleChange(field: CategoryField, value: string)
      modifies this
      ensures formData == With(old(formData), field, value)
      ensures field in old(errors) && old(errors)[field] != "" ==> errors == old(errors)[field := ""]
      ensures !(field in old(errors) && old(errors)[field] != "") ==> errors == old(errors)
      ensures field in errors ==> errors[field] == ""
      ensures errors.Keys == old(errors).Keys
      ensures editing == old(editing) && loading == old(loading)
    {
      formData := With(formData, field, value);
      if field in errors && errors[field] != "" {
        errors := errors[field := ""];
      }
    }
  }
}
