/** Concrete inputs and what the model does with them. */
module StorageScenarios {
  import opened Wrappers
  import opened JsValue
  import opened JsDate
  import opened Todos
  import opened Normalizer
  import opened TodoStorage

  const CreatedText := "2024-01-01T00:00:00.000Z"

  /** A record carrying only the required fields gets an empty description and no dueDate. */
  lemma MinimalRecordGetsDefaults(api: DateApi, id: Json, title: Json, completed: bool, warned: bool, dev: bool)
    requires Truthy(id) && Truthy(title) && IsValidDateString(api, CreatedText)
    ensures var v := JObj(map["id" := id, "title" := title, "completed" := JBool(completed), "createdAt" := JStr(CreatedText)]);
      Normalize(api, v, warned, dev) ==
        Normalized(Some(Todo(id, title, JStr(""), completed, api.parse(CreatedText).value, None)), warned, false)
  {
  }

  /** A truthy number is accepted as an id and copied unchanged. */
  lemma NumericIdAccepted(api: DateApi)
    requires IsValidDateString(api, CreatedText)
    ensures var v := JObj(map["id" := JNum(7.0), "title" := JStr("A"), "completed" := JBool(false), "createdAt" := JStr(CreatedText)]);
      && Verdict(api, v).Some?
      && Verdict(api, v).value.id == JNum(7.0)
  {
  }

  /** `completed: "yes"` is not a boolean, so the only element is dropped. */
  lemma StringCompletedLoadsNothing(api: DateApi, jsonParse: string -> Option<Json>, text: string, warned: bool, dev: bool)
    requires text != ""
    requires jsonParse(text) == Some(JArr([JObj(map[
      "id" := JStr("1"), "title" := JStr("A"), "completed" := JStr("yes"), "createdAt" := JStr(CreatedText)])]))
    ensures LoadTodos(api, jsonParse, Some(text), warned, dev) == Loaded([], warned, false, false)
  {
    var items := jsonParse(text).value.items;
    LoadOfArray(api, jsonParse, text, items, warned, dev);
    assert NormalizeEach(api, items, warned, dev).results == [None];
  }

  /** "2024-13-40" has the right shape; when the Date constructor rejects it the
      record is kept without a dueDate, and a fresh flag in development mode logs once. */
  lemma ImpossibleDueDateDropped(api: DateApi)
    requires IsValidDateString(api, CreatedText) && !IsValidDateString(api, "2024-13-40")
    ensures var v := JObj(map["id" := JStr("1"), "title" := JStr("A"), "completed" := JBool(true),
                              "createdAt" := JStr(CreatedText), "dueDate" := JStr("2024-13-40")]);
      var r := Normalize(api, v, false, true);
      && r.todo.Some? && r.todo.value.dueDate == None
      && r.logged && r.warned
  {
    assert IsDueDateShape("2024-13-40");
  }

  /** A dueDate of the wrong shape is dropped whatever the Date constructor says. */
  lemma WrongShapeDueDateDropped(api: DateApi, warned: bool, dev: bool)
    requires IsValidDateString(api, CreatedText)
    ensures var v := JObj(map["id" := JStr("1"), "title" := JStr("A"), "completed" := JBool(true),
                              "createdAt" := JStr(CreatedText), "dueDate" := JStr("2024-1-1")]);
      var r := Normalize(api, v, warned, dev);
      && r.todo.Some? && r.todo.value.dueDate == None
  {
  }

  /** Text that is not JSON yields no records; the load error is logged in development mode. */
  lemma MalformedTextLoadsNothing(api: DateApi, jsonParse: string -> Option<Json>, warned: bool, dev: bool)
    requires jsonParse("not json") == None
    ensures LoadTodos(api, jsonParse, Some("not json"), warned, dev) == Loaded([], warned, false, dev)
  {
  }
}
