/**
 * The application component's state and its event handlers: the settings
 * fields, the task list, and the analysis session (busy flag, results, error).
 * The awaited call to the generative service is split in two: `Run` is the
 * handler up to the call and returns the request it would send; `Complete`
 * is the rest of the handler, given how the call ended.
 */
module Session {
  import opened Wrappers
  import opened TaskList
  import opened Results
  import opened Messages
  import opened Prompt

  /** The model ids offered in the selector. */
  const ModelIds: seq<string> := ["gemini-2.5-pro", "gemini-2.5-flash", "gemini-2.5-flash-lite"]

  /** The model selected on start-up: the second entry of the selector. */
  const DefaultModel: string := ModelIds[1]

  /** What one call to the generative service is made with. */
  datatype Request = Request(apiKey: string, model: string, prompt: string)

  /**
   * How the awaited call ended: the value parsed from the response text
   * (`None` for a response that parses to JSON `null`), or the message of the
   * error it threw (a rejected call or a response that is not JSON).
   */
  datatype Outcome = Succeeded(parsed: Option<seq<AnalysisResult>>) | Failed(message: string)

  /** The keys a task row reacts to. */
  datatype Key = Enter | Backspace | OtherKey

  class App {
    var apiKey: string
    var selectedModel: string
    var context: string
    var tasks: seq<TaskItem>
    var isAnalyzing: bool
    var results: Option<seq<AnalysisResult>>
    var error: Option<Message>
    /** The request of the call being awaited: what the suspended handler holds in its frame. */
    var pending: Option<Request>

    /**
     * The session invariant: the task list is well formed, the busy flag is
     * set exactly while a call is awaited, nothing is shown while busy, and
     * results and an error are never shown together.
     */
    ghost predicate Valid()
      reads this
    {
      && WellFormed(tasks)
      && (isAnalyzing <==> pending.Some?)
      && (isAnalyzing ==> results.None? && error.None?)
      && (results.Some? ==> error.None?)
    }

    /** The run button is on screen while no results are shown, and enabled while nothing is running. */
    predicate CanRun()
      reads this
    {
      results.None? && !isAnalyzing
    }

    constructor ()
      ensures Valid()
      ensures apiKey == "" && selectedModel == DefaultModel && context == ""
      ensures tasks == InitialTasks
      ensures !isAnalyzing && results == None && error == None
    {
      apiKey, selectedModel, context := "", DefaultModel, "";
      tasks := InitialTasks;
      isAnalyzing, results, error, pending := false, None, None, None;
    }

    /** Typing in the API key field, or clearing it with its button. */
    method SetApiKey(key: string)
      requires Valid()
      modifies this`apiKey
      ensures Valid() && apiKey == key
    {
      apiKey := key;
    }

    /** Choosing a model in the selector. */
    method SetSelectedModel(model: string)
      requires Valid()
      modifies this`selectedModel
      ensures Valid() && selectedModel == model
    {
      selectedModel := model;
    }

    /** Typing in the context field. */
    method SetContext(text: string)
      requires Valid()
      modifies this`context
      ensures Valid() && context == text
    {
      context := text;
    }

    /** `handleAddTask`: a blank row with the generated id `freshId` after row `index`. */
    method AddTask(index: int, freshId: string)
      requires Valid() && freshId !in Ids(tasks)
      modifies this`tasks
      ensures Valid()
      ensures tasks == InsertAfter(old(tasks), index, freshId)
      ensures 0 <= index < |old(tasks)| ==> |tasks| == |old(tasks)| + 1 && tasks[index + 1] == TaskItem(freshId, "")
    {
      InsertPreservesWellFormed(tasks, index, freshId);
      if 0 <= index < |tasks| { InsertAfterSpec(tasks, index, freshId); }
      tasks := CopyAndSplice(tasks, index, freshId);
    }

    /** `handleUpdateTask`: the row with id `id` gets `content`. */
    method UpdateTask(id: string, content: string)
      requires Valid()
      modifies this`tasks
      ensures Valid()
      ensures tasks == UpdateContent(old(tasks), id, content)
      ensures |tasks| == |old(tasks)| && Ids(tasks) == Ids(old(tasks))
    {
      UpdatePreservesWellFormed(tasks, id, content);
      UpdateContentSpec(tasks, id, content);
      tasks := UpdateContent(tasks, id, content);
    }

    /** `handleDeleteTask`: clears the only row, or removes the row with id `id`. */
    method DeleteTask(id: string)
      requires Valid()
      modifies this`tasks
      ensures Valid()
      ensures tasks == Delete(old(tasks), id)
      ensures |tasks| >= |old(tasks)| - 1
    {
      DeletePreservesWellFormed(tasks, id);
      if |tasks| <= 1 {
        UpdateTask(id, "");
        return;
      }
      tasks := RemoveId(tasks, id);
    }

    /** `loadSampleData`: the sample context and the nine sample rows, with generated ids. */
    method LoadSampleData(freshIds: seq<string>)
      requires Valid() && |freshIds| == |SampleTasks| && Distinct(freshIds)
      modifies this`context, this`tasks
      ensures Valid()
      ensures context == SampleContext && tasks == SampleList(freshIds)
    {
      SampleListSpec(freshIds);
      context := SampleContext;
      tasks := SampleList(freshIds);
    }

    /** A drag: the list takes the order the drag library computed, a permutation of the rows. */
    method Reorder(order: seq<TaskItem>)
      requires Valid() && multiset(order) == multiset(tasks)
      modifies this`tasks
      ensures Valid() && tasks == order
    {
      PermutationPreservesWellFormed(tasks, order);
      tasks := order;
    }

    /**
     * A key press in row `index`: Enter inserts a blank row after it (with the
     * generated id `freshId`); Backspace deletes the row when it is empty.
     */
    method KeyDown(index: nat, key: Key, freshId: string)
      requires Valid() && index < |tasks|
      requires key == Enter ==> freshId !in Ids(tasks)
      modifies this`tasks
      ensures Valid()
      ensures key == Enter ==> tasks == InsertAfter(old(tasks), index, freshId)
      ensures key == Backspace && old(tasks)[index].content == "" ==> tasks == Delete(old(tasks), old(tasks)[index].id)
      ensures key == Backspace && old(tasks)[index].content != "" ==> tasks == old(tasks)
      ensures key == OtherKey ==> tasks == old(tasks)
    {
      var item := tasks[index];
      if key == Enter {
        AddTask(index, freshId);
      }
      BackspaceDeletesIffEmpty(item.content, index);
      if key == Backspace && BackspaceDeletes(item.content, index) {
        DeleteTask(item.id);
      }
    }

    /**
     * A click on the run button, up to the awaited call. A click on a button
     * that is disabled or not shown does nothing. Otherwise a missing API key,
     * then a list with no non-blank task, is reported without touching the busy
     * flag or the results; when both checks pass the session becomes busy, the
     * error and the results are cleared, and the request is returned.
     */
    method Run() returns (request: Option<Request>)
      requires Valid()
      modifies this`isAnalyzing, this`results, this`error, this`pending
      ensures Valid()
      ensures !old(CanRun()) ==>
        request == None && isAnalyzing == old(isAnalyzing) && results == old(results) && error == old(error)
        && pending == old(pending)
      ensures old(CanRun()) && apiKey == "" ==>
        request == None && error == Some(MissingApiKey) && isAnalyzing == old(isAnalyzing) && results == old(results)
      ensures old(CanRun()) && apiKey != "" && ValidTasks(tasks) == [] ==>
        request == None && error == Some(NoTasks) && isAnalyzing == old(isAnalyzing) && results == old(results)
      ensures old(CanRun()) && apiKey != "" && ValidTasks(tasks) != [] ==>
        && request == Some(Request(apiKey, selectedModel, PromptText(context, ValidTasks(tasks))))
        && isAnalyzing && error == None && results == None
      ensures request.Some? <==> isAnalyzing && !old(isAnalyzing)
      ensures pending == if request.Some? then request else old(pending)
    {
      if !CanRun() {
        return None;
      }
      match Preflight(apiKey, tasks) {
        case Failure(m) =>
          error := Some(m);
          request := None;
        case Success(valid) =>
          isAnalyzing := true;
          error := None;
          results := None;
          request := Some(Request(apiKey, selectedModel, PromptText(context, valid)));
          pending := request;
      }
    }

    /**
     * The rest of the handler once the awaited call has ended: the parsed
     * value becomes the results, or the thrown error's message is classified
     * (against the model the call was made with); either way the session stops
     * being busy.
     */
    method Complete(outcome: Outcome)
      requires Valid() && isAnalyzing
      modifies this`isAnalyzing, this`results, this`error, this`pending
      ensures Valid() && !isAnalyzing && pending == None
      ensures outcome.Succeeded? ==> results == outcome.parsed && error == None
      ensures outcome.Failed? ==> results == None && error == Some(Classify(old(pending).value.model, outcome.message))
    {
      var model := pending.value.model;
      match outcome {
        case Succeeded(parsed) =>
          results := parsed;
        case Failed(message) =>
          error := Some(Classify(model, message));
      }
      isAnalyzing := false;
      pending := None;
    }

    /** The "edit and rerun" button: back to the form, with the tasks and the context as they were. */
    method EditAndRerun()
      requires Valid()
      modifies this`results, this`error
      ensures Valid() && results == None && error == None
    {
      results := None;
      error := None;
    }
  }

  /**
   * What a caller can conclude from the contracts alone: a run without a key
   * is refused, a run with a key and a task starts a call, a second click while
   * busy does nothing, and a 404 failure names the model the call was made with.
   */
  method ClientScenario() {
    var app := new App();
    app.UpdateTask("1", "A");
    var r := app.Run();
    assert r.None? && app.error == Some(MissingApiKey) && !app.isAnalyzing;
    app.SetApiKey("key");
    assert app.tasks == [TaskItem("1", "A")];
    assert !Text.IsWhitespace("A"[0]);
    ValidTasksSingle(app.tasks[0]);
    r := app.Run();
    assert r.Some? && app.isAnalyzing && app.error == None;
    var again := app.Run();
    assert again.None? && app.isAnalyzing;
    app.Complete(Failed("404"));
    assert Text.OccursAt("404", "404", 0) && !Text.Occurs("404", "API key");
    assert app.error == Some(ModelNotFound(DefaultModel)) && app.results == None && !app.isAnalyzing;
  }
}
