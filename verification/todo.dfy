/** The validated task record. */
module Todos {
  import opened Wrappers
  import opened JsValue
  import opened JsDate

  /** A task record. `id`, `title` and `description` are declared as strings, but
      the normaliser copies any truthy value into them, so the model keeps the value. */
  datatype Todo = Todo(
    id: Json,
    title: Json,
    description: Json,
    completed: bool,
    createdAt: Instant,
    dueDate: Option<string>)
}
