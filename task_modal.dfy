/**
 * The task form (src/components/organisms/TaskModal.jsx): its fields, prefilled from the
 * edited task or defaulted; validation; per-field edits that clear that field's error;
 * and the submit that updates the edited task or creates a new one.
 */
module TaskModal {
  import opened Js
  import opened TaskService
  import CategoryService
  import FileUtils

  /** The form's values. A category id prefilled from a task may be a number. */
  datatype FormData = FormData(
    title: string,
    description: string,
    priority: string,
    categoryId: Scalar,
    dueDate: string,
    files: Field<seq<FileUtils.FileProps>>)

  /** The initial and the new-task form. */
  const Blank := FormData("", "", "medium", Str(""), "", Null)

  /** The form's validation messages; only title and category are ever set. */
  datatype Errors = Errors(title: Field<string>, categoryId: Field<string>)

  const NoErrors := Errors(Absent, Absent)

  // ---------------------------------------------------------------------------
  // Prefill

  /** `a || b || d` over string properties. */
  function OrText(a: Field<string>, b: Field<string>, d: string): string
  {
    if TruthyStr(a) then a.v else if TruthyStr(b) then b.v else d
  }

  /** `task.category_id_c || task.categoryId || ""`. */
  function OrScalar(a: Field<Scalar>, b: Field<Scalar>): Scalar
  {
    if Truthy(a) then a.v else if Truthy(b) then b.v else Str("")
  }

  /** `task.files_c || task.files || null`: an array, even an empty one, is truthy. */
  function OrFiles(a: Field<seq<FileUtils.FileProps>>, b: Field<seq<FileUtils.FileProps>>): Field<seq<FileUtils.FileProps>>
  {
    if a.Val? then a else if b.Val? then b else Null
  }

  /** The prefill effect: the edited task's values, or the blank form. */
  function Prefill(task: Option<Task>): FormData
  {
    match task
    case None => Blank
    case Some(t) =>
      FormData(OrText(t.title_c, t.title, ""), OrText(t.description_c, t.description, ""),
               OrText(t.priority_c, t.priority, "medium"), OrScalar(t.category_id_c, t.categoryId),
               OrText(t.due_date_c, t.dueDate, ""), OrFiles(t.files_c, t.files))
  }

  /**
   * Each field comes from the `_c` property when that is truthy, else from the plain
   * property when that is truthy, else from the default; a new form is blank.
   */
  lemma PrefillSpec(t: Task)
    ensures Prefill(None) == FormData("", "", "medium", Str(""), "", Null)
    ensures var f := Prefill(Some(t));
      && f.title == (if TruthyStr(t.title_c) then t.title_c.v else if TruthyStr(t.title) then t.title.v else "")
      && f.description == (if TruthyStr(t.description_c) then t.description_c.v
                           else if TruthyStr(t.description) then t.description.v else "")
      && f.dueDate == (if TruthyStr(t.due_date_c) then t.due_date_c.v else if TruthyStr(t.dueDate) then t.dueDate.v else "")
      && f.categoryId == (if Truthy(t.category_id_c) then t.category_id_c.v
                          else if Truthy(t.categoryId) then t.categoryId.v else Str(""))
      && f.files == (if t.files_c.Val? then t.files_c else if t.files.Val? then t.files else Null)
    ensures Prefill(Some(t)).priority != ""
    ensures !TruthyStr(t.priority_c) && !TruthyStr(t.priority) ==> Prefill(Some(t)).priority == "medium"
  {
  }

  // ---------------------------------------------------------------------------
  // Validation

  /** `newErrors` as `validateForm` fills it. */
  function FormErrors(form: FormData): (r: Errors)
    ensures r.title.Val? <==> forall i :: 0 <= i < |form.title| ==> IsWhitespace(form.title[i])
    ensures r.categoryId.Val? <==> !Truthy(Val(form.categoryId))
    ensures r.title == Absent || r.title == Val("Title is required")
    ensures r.categoryId == Absent || r.categoryId == Val("Category is required")
    ensures r == NoErrors <==> Trim(form.title) != "" && Truthy(Val(form.categoryId))
  {
    TrimEmptyIffBlank(form.title);
    Errors(if Trim(form.title) == "" then Val("Title is required") else Absent,
           if !Truthy(Val(form.categoryId)) then Val("Category is required") else Absent)
  }

  // ---------------------------------------------------------------------------
  // Edits and submit

  /** The form fields `handleChange` is attached to. */
  datatype FormField = Title | Description | Priority | CategoryId | DueDate | Files

  /** The event target: its `value`, and its `files` for the file input. */
  datatype Target = Target(value: string, files: Field<seq<FileUtils.FileProps>>)

  /** What a submit did. */
  datatype Outcome = Invalid | Saved(task: Task) | Failed(message: string)

  const SaveError := "Failed to save task. Please try again."

  /** The task's fields a submit writes: exactly the form's six values. */
  function FormPatch(form: FormData): (r: Task)
    ensures r.title == Val(form.title) && r.description == Val(form.description)
    ensures r.priority == Val(form.priority) && r.categoryId == Val(form.categoryId)
    ensures r.dueDate == Val(form.dueDate) && r.files == form.files
    ensures r.(title := Absent, description := Absent, priority := Absent, categoryId := Absent,
               dueDate := Absent, files := Absent) == Empty
  {
    Empty.(title := Val(form.title), description := Val(form.description), priority := Val(form.priority),
           categoryId := Val(form.categoryId), dueDate := Val(form.dueDate), files := form.files)
  }

  /**
   * An edit saves the plain `title` while the form reads `title_c` first: when the task
   * has a `title_c`, reopening the saved task shows that one, whatever was typed.
   */
  lemma EditedTitleHiddenByTitleC(t: Task, form: FormData, id: int, now: int)
    requires TruthyStr(t.title_c)
    ensures Updated(t, FormPatch(form), id, now).title == Val(form.title)
    ensures Prefill(Some(Updated(t, FormPatch(form), id, now))).title == t.title_c.v
  {
  }

  /**
   * What a save of a valid form does to the stored tasks `before`, leaving `after`: a new
   * task is created from the form with the next `Id`; an edited one is updated in place,
   * at the first index with its `Id`, or, when no stored task has it, the save fails
   * and nothing is written. Every stored `Id` stays numeric and distinct.
   */
  ghost predicate SaveOutcome(task: Option<Task>, form: FormData, before: seq<Task>, after: seq<Task>, now: int,
                              outcome: Outcome)
  {
    && !outcome.Invalid? && ValidTasks(before) && ValidTasks(after)
    && (task.None? ==>
          outcome == Saved(Created(FormPatch(form), MaxId(before) + 1, now)) && after == before + [outcome.task])
    && (task.Some? ==>
          var id := ParseIntOf(AsScalar(task.value.Id));
          && (outcome.Failed? <==> forall i :: 0 <= i < |before| ==> !IdIs(id)(before[i]))
          && (outcome.Failed? ==> outcome.message == SaveError && after == before)
          && (outcome.Saved? ==> exists k :: (0 <= k < |before| && IdIs(id)(before[k]) && id.Some? &&
                outcome.task == Updated(before[k], FormPatch(form), id.value, now) &&
                after == before[k := outcome.task])))
  }

  class Modal {
    var formData: FormData
    var errors: Errors
    var loading: bool
    const task: Option<Task>

    constructor (task: Option<Task>)
      ensures this.task == task
      ensures formData == Blank && errors == NoErrors && !loading
    {
      this.task := task;
      formData := Blank;
      errors := NoErrors;
      loading := false;
    }

    /** The `[task, isOpen]` effect: prefill and clear the errors. */
    method Open()
      modifies this
      ensures formData == Prefill(task) && errors == NoErrors && loading == old(loading)
    {
      formData := Prefill(task);
      errors := NoErrors;
    }

    /**
     * `loadCategories` succeeded with data: a new task's category defaults to the first
     * category's `Id` as a string; `toString` of a missing `Id` throws and is caught.
     */
    method CategoriesLoaded(data: seq<CategoryService.Category>)
      modifies this
      ensures task.None? && |data| > 0 && data[0].Id.Val? ==>
        formData == old(formData).(categoryId := Str(IntToString(data[0].Id.v)))
      ensures !(task.None? && |data| > 0 && data[0].Id.Val?) ==> formData == old(formData)
      ensures errors == old(errors) && loading == old(loading)
    {
      if task.None? && |data| > 0 && data[0].Id.Val? {
        formData := formData.(categoryId := Str(IntToString(data[0].Id.v)));
      }
    }

    /**
     * `handleChange(field)(e)`: sets that one field (the file input from `e.target.files`)
     * and, when that field has a truthy error, sets that error to `null`.
     */
    method HandleChange(field: FormField, target: Target)
      modifies this
      ensures field == Title ==> formData == old(formData).(title := target.value)
      ensures field == Description ==> formData == old(formData).(description := target.value)
      ensures field == Priority ==> formData == old(formData).(priority := target.value)
      ensures field == CategoryId ==> formData == old(formData).(categoryId := Str(target.value))
      ensures field == DueDate ==> formData == old(formData).(dueDate := target.value)
      ensures field == Files ==> formData == old(formData).(files := target.files)
      ensures field == Title && TruthyStr(old(errors).title) ==> errors == old(errors).(title := Null)
      ensures field == CategoryId && TruthyStr(old(errors).categoryId) ==> errors == old(errors).(categoryId := Null)
      ensures (!(field == Title && TruthyStr(old(errors).title)) &&
               !(field == CategoryId && TruthyStr(old(errors).categoryId))) ==> errors == old(errors)
      ensures loading == old(loading)
    {
      match field {
        case Title => formData := formData.(title := target.value);
        case Description => formData := formData.(description := target.value);
        case Priority => formData := formData.(priority := target.value);
        case CategoryId => formData := formData.(categoryId := Str(target.value));
        case DueDate => formData := formData.(dueDate := target.value);
        case Files => formData := formData.(files := target.files);
      }
      if field == Title && TruthyStr(errors.title) {
        errors := errors.(title := Null);
      } else if field == CategoryId && TruthyStr(errors.categoryId) {
        errors := errors.(categoryId := Null);
      }
    }

    /** `validateForm()`: records the form's errors and reports whether there are none. */
    method ValidateForm() returns (valid: bool)
      modifies this
      ensures errors == FormErrors(formData) && formData == old(formData) && loading == old(loading)
      ensures valid <==> errors == NoErrors
    {
      var newErrors := NoErrors;
      if Trim(formData.title) == "" {
        newErrors := newErrors.(title := Val("Title is required"));
      }
      if !Truthy(Val(formData.categoryId)) {
        newErrors := newErrors.(categoryId := Val("Category is required"));
      }
      errors := newErrors;
      valid := newErrors == NoErrors;
    }

    /**
     * `handleSubmit`: an invalid form touches no store; otherwise the edited task is
     * updated with the form's values, or a new task is created from them. A failed
     * update is reported and writes nothing.
     */
    method HandleSubmit(store: TaskStore, now: int) returns (outcome: Outcome)
      requires store.Valid()
      modifies this, store
      ensures store.Valid()
      ensures errors == FormErrors(old(formData)) && formData == old(formData)
      ensures loading == (outcome.Invalid? && old(loading))
      ensures FormErrors(old(formData)) != NoErrors ==> outcome == Invalid && store.tasks == old(store.tasks)
      ensures FormErrors(old(formData)) == NoErrors ==>
        SaveOutcome(task, formData, old(store.tasks), store.tasks, now, outcome)
    {
      var valid := ValidateForm();
      if !valid {
        return Invalid;
      }
      loading := true;
      outcome := Save(store, now);
      loading := false;
    }

    /** The `try` block of `handleSubmit`: update the edited task, or create a new one. */
    method Save(store: TaskStore, now: int) returns (outcome: Outcome)
      requires store.Valid()
      modifies store
      ensures store.Valid()
      ensures SaveOutcome(task, formData, old(store.tasks), store.tasks, now, outcome)
    {
      if task.Some? {
        var saved := store.Update(AsScalar(task.value.Id), FormPatch(formData), now);
        if saved.Ok? {
          outcome := Saved(saved.value);
        } else {
          outcome := Failed(SaveError);
        }
      } else {
        var created := store.Create(FormPatch(formData), now);
        outcome := Saved(created);
      }
    }
  }
}
