/** The task form: opening it for a new or an existing task, validation,
    the draft it sends to the store, and per-field editing that clears the
    field's error. */
module TaskModal {
  import opened Wrappers
  import opened Text
  import opened Domain

  /** The form's fields, all held as text. */
  datatype TaskForm = TaskForm(title: string, description: string, categoryId: string, priority: string, dueDate: string)

  datatype TaskField = Title | Description | CategoryId | Priority | DueDate

  const DefaultPriority: string := "medium"
  const EmptyForm: TaskForm := TaskForm("", "", "", DefaultPriority, "")
  const TitleRequired: string := "Title is required"
  const CategoryRequired: string := "Category is required"

  function Get(f: TaskForm, field: TaskField): string {
    match field
    case Title => f.title
    case Description => f.description
    case CategoryId => f.categoryId
    case Priority => f.priority
    case DueDate => f.dueDate
  }

  /** `{ ...prev, [field]: value }`. */
  function With(f: TaskForm, field: TaskField, value: string): (r: TaskForm)
    ensures Get(r, field) == value
    ensures forall other :: other != field ==> Get(r, other) == Get(f, other)
  {
    match field
    case Title => f.(title := value)
    case Description => f.(description := value)
    case CategoryId => f.(categoryId := value)
    case Priority => f.(priority := value)
    case DueDate => f.(dueDate := value)
  }

  /** `iso.split('T')[0]`: the text before the first 'T', all of it if none. */
  function DateInputValue(iso: string): (r: string)
    ensures |r| <= |iso| && r == iso[..|r|]
    ensures 'T' !in r
    ensures |r| < |iso| ==> iso[|r|] == 'T'
  {
    if iso == [] || iso[0] == 'T' then []
    else
      var rest := DateInputValue(iso[1..]);
      assert forall c :: c in [iso[0]] + rest ==> c == iso[0] || c in rest;
      [iso[0]] + rest
  }

  /** The date part of an ISO timestamp is what the date input shows. */
  lemma {:induction false} DateInputValueOfTimestamp(date: string, time: string)
    requires 'T' !in date
    ensures DateInputValue(date + "T" + time) == date
    decreases |date|
  {
    if date == [] {
      assert date + "T" + time == "T" + time;
    } else {
      assert (date + "T" + time)[1..] == date[1..] + "T" + time;
      assert date[0] in date;
      assert forall c :: c in date[1..] ==> c in date;
      DateInputValueOfTimestamp(date[1..], time);
      assert date == [date[0]] + date[1..];
    }
  }

  /** The form for editing `t`: its fields, "medium" for an empty priority and
      the date part of its due date. */
  function EditForm(t: Task): (r: TaskForm)
    ensures r.title == t.title && r.description == t.description && r.categoryId == t.categoryId
    ensures t.priority == "" ==> r.priority == DefaultPriority
    ensures t.priority != "" ==> r.priority == t.priority
    ensures t.dueDate.None? ==> r.dueDate == ""
    ensures t.dueDate.Some? ==> r.dueDate == DateInputValue(t.dueDate.value.text)
    ensures 'T' !in r.dueDate
  {
    TaskForm(
      t.title,
      t.description,
      t.categoryId,
      if t.priority == "" then DefaultPriority else t.priority,
      if t.dueDate.Some? then DateInputValue(t.dueDate.value.text) else "")
  }

  /** The draft `handleSubmit` sends: title and description trimmed, the rest
      as entered, no due date when the date input is empty. */
  function Payload(f: TaskForm): (d: TaskDraft)
    ensures d.title == Trim(f.title) && d.description == Trim(f.description)
    ensures d.categoryId == f.categoryId && d.priority == f.priority
    ensures d.dueDate.None? <==> f.dueDate == ""
    ensures d.dueDate.Some? ==> d.dueDate.value == f.dueDate
    ensures d.completed.None?
  {
    TaskDraft(Trim(f.title), Trim(f.description), f.categoryId, f.priority,
      if f.dueDate == "" then None else Some(f.dueDate), None)
  }

  /** Editing a task and saving it unchanged sends back its own title,
      description, category and priority, when those were already trimmed and
      the priority was set. */
  lemma EditThenSaveKeepsFields(t: Task)
    requires Trim(t.title) == t.title && Trim(t.description) == t.description && t.priority != ""
    ensures var d := Payload(EditForm(t));
      d.title == t.title && d.description == t.description
      && d.categoryId == t.categoryId && d.priority == t.priority
  {
  }

  /** The errors `validateForm` records for a form. */
  function Validation(f: TaskForm): (errors: map<TaskField, string>)
    ensures Title in errors <==> IsBlank(f.title)
    ensures CategoryId in errors <==> f.categoryId == ""
    ensures forall k :: k in errors ==> k == Title || k == CategoryId
    ensures Title in errors ==> errors[Title] == TitleRequired
    ensures CategoryId in errors ==> errors[CategoryId] == CategoryRequired
  {
    var titleErrors := TitleErrors(f);
    if f.categoryId == "" then titleErrors[CategoryId := CategoryRequired] else titleErrors
  }

  /** The first check of `validateForm`: the title. */
  function TitleErrors(f: TaskForm): (errors: map<TaskField, string>)
    ensures Title in errors <==> IsBlank(f.title)
    ensures forall k :: k in errors ==> k == Title
    ensures Title in errors ==> errors[Title] == TitleRequired
  {
    if IsBlank(f.title) then map[Title := TitleRequired] else map[]
  }

  /** A form passes validation exactly when the draft it sends has a title
      and a category. */
  lemma ValidIffDraftComplete(f: TaskForm)
    ensures Validation(f) == map[] <==> Payload(f).title != "" && Payload(f).categoryId != ""
  {
    if Validation(f) != map[] {
      if IsBlank(f.title) { assert Title in Validation(f); }
      else { assert CategoryId in Validation(f); }
    }
  }

  /** The checks of `validateForm` on a form: the title, then the category. */
  method CheckForm(f: TaskForm) returns (newErrors: map<TaskField, string>, ok: bool)
    ensures newErrors == Validation(f)
    ensures ok <==> !IsBlank(f.title) && f.categoryId != ""
  {
    var blankTitle := IsBlank(f.title);
    newErrors := map[];
    if blankTitle {
      newErrors := map[Title := TitleRequired];
    }
    assert newErrors == TitleErrors(f);
    if f.categoryId == "" {
      newErrors := newErrors[CategoryId := CategoryRequired];
      assert newErrors == Validation(f);
    } else {
      assert newErrors == Validation(f);
    }
    ok := newErrors == map[];
    if blankTitle {
      assert Title in newErrors;
    } else if f.categoryId == "" {
      assert CategoryId in newErrors;
    }
  }

  /** What the store is asked to do. */
  datatype TaskCall = CreateTask(data: TaskDraft) | UpdateTask(id: int, data: TaskDraft)

  class TaskModal {
    /** The `task` prop: the task being edited, None when creating. */
    var editing: Option<Task>
    var formData: TaskForm
    var categories: seq<Category>
    var loading: bool
    var errors: map<TaskField, string>

    constructor ()
      ensures editing.None? && formData == EmptyForm && categories == [] && !loading && errors == map[]
    {
      editing := None;
      formData := EmptyForm;
      categories := [];
      loading := false;
      errors := map[];
    }

    /** The effect that runs when the modal opens for `task`, followed by
        `loadCategories` answering `categoriesResult`: the form is filled from
        the task or reset, errors are cleared, and a new task gets the first
        category. */
    method Open(task: Option<Task>, categoriesResult: Fetch<seq<Category>>)
      modifies this
      ensures editing == task && errors == map[] && loading == old(loading)
      ensures task.Some? ==> formData == EditForm(task.value)
      ensures task.None? && categoriesResult.Fetched? && |categoriesResult.value| > 0 ==>
        formData == EmptyForm.(categoryId := IdString(categoriesResult.value[0].Id))
      ensures task.None? && !(categoriesResult.Fetched? && |categoriesResult.value| > 0) ==>
        formData == EmptyForm
      ensures categoriesResult.Fetched? ==> categories == categoriesResult.value
      ensures categoriesResult.FetchFailed? ==> categories == old(categories)
    {
      editing := task;
      if task.Some? {
        formData := EditForm(task.value);
      } else {
        formData := EmptyForm;
      }
      errors := map[];
      if categoriesResult.Fetched? {
        categories := categoriesResult.value;
        if task.None? && |categoriesResult.value| > 0 {
          formData := formData.(categoryId := IdString(categoriesResult.value[0].Id));
        }
      }
    }

    /** `validateForm`: records the errors of the current form and reports
        whether there were none. */
    method ValidateForm() returns (ok: bool)
      modifies this`errors
      ensures errors == Validation(formData)
      ensures ok <==> !IsBlank(formData.title) && formData.categoryId != ""
    {
      var newErrors;
      newErrors, ok := CheckForm(formData);
      errors := newErrors;
    }

    /** The `try` block of `handleSubmit`, once validation passed: the store
        call for the form's draft, answered by `save`. */
    method Save(save: Outcome) returns (call: TaskCall, saved: bool)
      modifies this`loading
      ensures editing.Some? ==> call == UpdateTask(editing.value.Id, Payload(formData))
      ensures editing.None? ==> call == CreateTask(Payload(formData))
      ensures saved <==> save == Success
      ensures !loading
    {
      loading := true;
      var taskData := Payload(formData);
      if editing.Some? {
        call := UpdateTask(editing.value.Id, taskData);
      } else {
        call := CreateTask(taskData);
      }
      saved := save == Success;
      loading := false;
    }

    /** `handleSubmit`, where `save` is what the store's `update` or `create`
        call answered. `call` is the call made (None: validation failed and
        nothing was sent); `saved` says whether `onTaskSaved` and `onClose`
        ran. */
    method HandleSubmit(save: Outcome) returns (call: Option<TaskCall>, saved: bool)
      modifies this`errors, this`loading
      ensures errors == Validation(formData)
      ensures call.None? <==> errors != map[]
      ensures call.Some? && editing.Some? ==> call.value == UpdateTask(editing.value.Id, Payload(formData))
      ensures call.Some? && editing.None? ==> call.value == CreateTask(Payload(formData))
      ensures saved <==> call.Some? && save == Success
      ensures call.Some? ==> !loading
      ensures call.None? ==> loading == old(loading)
    {
      var ok := ValidateForm();
      if !ok {
        return None, false;
      }
      var made;
      made, saved := Save(save);
      call := Some(made);
    }

    /** `handleChange(field, value)`: sets that field and blanks its error if
        it had one. */
    method HandleChange(field: TaskField, value: string)
      modifies this
      ensures formData == With(old(formData), field, value)
      ensures field in old(errors) && old(errors)[field] != "" ==> errors == old(errors)[field := ""]
      ensures !(field in old(errors) && old(errors)[field] != "") ==> errors == old(errors)
      ensures field in errors ==> errors[field] == ""
      ensures errors.Keys == old(errors).Keys
      ensures editing == old(editing) && categories == old(categories) && loading == old(loading)
    {
      formData := With(formData, field, value);
      if field in errors && errors[field] != "" {
        errors := errors[field := ""];
      }
    }
  }
}
