/** The quick-add bar: a one-line title box that expands to a category and a
    priority selector, and emits a new task on submit or Enter. */
module QuickAddBar {
  import opened Wrappers
  import opened Text
  import opened Domain

  const DefaultPriority: string := "medium"

  /** `selectedCategory || (categories[0]?.Id.toString() || '')`: the chosen
      category, else the first listed one, else none. */
  function FallbackCategory(selected: string, categories: seq<Category>): (r: string)
    ensures selected != "" ==> r == selected
    ensures selected == "" && |categories| > 0 ==> r == IdString(categories[0].Id)
    ensures r == "" <==> selected == "" && categories == []
  {
    if selected != "" then selected
    else if |categories| > 0 then IdString(categories[0].Id)
    else ""
  }

  /** The task `handleSubmit` hands to `onAddTask`. */
  function NewTask(title: string, selectedCategory: string, selectedPriority: string, categories: seq<Category>): (d: TaskDraft)
    ensures d.title == Trim(title) && d.description == ""
    ensures d.categoryId == FallbackCategory(selectedCategory, categories)
    ensures d.priority == selectedPriority
    ensures d.dueDate.None? && d.completed == Some(false)
  {
    TaskDraft(Trim(title), "", FallbackCategory(selectedCategory, categories), selectedPriority, None, Some(false))
  }

  /** A task the bar emits for a non-blank title has a title, and it has a
      category whenever one was chosen or some category exists. */
  lemma NewTaskComplete(title: string, selectedCategory: string, selectedPriority: string, categories: seq<Category>)
    requires !IsBlank(title)
    ensures NewTask(title, selectedCategory, selectedPriority, categories).title != ""
    ensures NewTask(title, selectedCategory, selectedPriority, categories).categoryId != ""
        <==> selectedCategory != "" || |categories| > 0
  {
  }

  class QuickAddBar {
    var taskTitle: string
    var selectedCategory: string
    var selectedPriority: string
    var isExpanded: bool

    /** The initial state: empty title, no category, "medium", collapsed. */
    constructor ()
      ensures taskTitle == "" && selectedCategory == "" && selectedPriority == DefaultPriority && !isExpanded
    {
      taskTitle := "";
      selectedCategory := "";
      selectedPriority := DefaultPriority;
      isExpanded := false;
    }

    /** The Add button is enabled exactly when the title is not blank. */
    predicate CanSubmit(): (b: bool)
      reads this
      ensures b <==> exists i :: 0 <= i < |taskTitle| && !IsSpace(taskTitle[i])
    {
      !IsBlank(taskTitle)
    }

    /** Typing in the title box. */
    method SetTitle(value: string)
      modifies this`taskTitle
      ensures taskTitle == value
    {
      taskTitle := value;
    }

    /** Focusing the title box expands the bar. */
    method Focus()
      modifies this`isExpanded
      ensures isExpanded
    {
      isExpanded := true;
    }

    method SelectCategory(value: string)
      modifies this`selectedCategory
      ensures selectedCategory == value
    {
      selectedCategory := value;
    }

    method SelectPriority(value: string)
      modifies this`selectedPriority
      ensures selectedPriority == value
    {
      selectedPriority := value;
    }

    /** The Cancel button: collapse and clear the title, keep the selections. */
    method Cancel()
      modifies this`taskTitle, this`isExpanded
      ensures taskTitle == "" && !isExpanded
      ensures !CanSubmit()
    {
      isExpanded := false;
      taskTitle := "";
    }

    /** `handleSubmit` with the `categories` prop: nothing happens for a blank
        title; otherwise the new task is emitted, the title cleared and the
        bar collapsed, the selections kept. */
    method HandleSubmit(categories: seq<Category>) returns (emitted: Option<TaskDraft>)
      modifies this`taskTitle, this`isExpanded
      ensures emitted.None? <==> IsBlank(old(taskTitle))
      ensures emitted.None? ==> taskTitle == old(taskTitle) && isExpanded == old(isExpanded)
      ensures emitted.Some? ==>
        && emitted.value == NewTask(old(taskTitle), selectedCategory, selectedPriority, categories)
        && emitted.value.title != ""
        && taskTitle == "" && !isExpanded && !CanSubmit()
    {
      if IsBlank(taskTitle) {
        return None;
      }
      var newTask := NewTask(taskTitle, selectedCategory, selectedPriority, categories);
      emitted := Some(newTask);
      taskTitle := "";
      isExpanded := false;
    }

    /** `handleKeyDown`: Enter without Shift submits, Escape collapses the bar
        and clears the title, any other key does nothing. */
    method HandleKeyDown(key: string, shiftKey: bool, categories: seq<Category>) returns (emitted: Option<TaskDraft>)
      modifies this`taskTitle, this`isExpanded
      ensures key == "Enter" && !shiftKey ==>
        && (emitted.None? <==> IsBlank(old(taskTitle)))
        && (emitted.None? ==> taskTitle == old(taskTitle) && isExpanded == old(isExpanded))
        && (emitted.Some? ==>
              emitted.value == NewTask(old(taskTitle), selectedCategory, selectedPriority, categories)
              && taskTitle == "" && !isExpanded)
      ensures key == "Escape" ==> emitted.None? && taskTitle == "" && !isExpanded
      ensures !(key == "Enter" && !shiftKey) && key != "Escape" ==>
        emitted.None? && taskTitle == old(taskTitle) && isExpanded == old(isExpanded)
    {
      emitted := None;
      assert "Enter" != "Escape" by { assert "Enter"[1] != "Escape"[1]; }
      if key == "Enter" && !shiftKey {
        emitted := HandleSubmit(categories);
      }
      if key == "Escape" {
        isExpanded := false;
        taskTitle := "";
      }
    }
  }
}
