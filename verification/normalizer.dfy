/**
 * `normalizeTodo`: turns one untrusted parsed value into a task record or a
 * rejection, threading the one-shot "malformed data logged" flag explicitly.
 */
module Normalizer {
  import opened Wrappers
  import opened JsValue
  import opened JsDate
  import opened Todos

  predicate IsAsciiDigit(c: char) {
    '0' <= c <= '9'
  }

  /** The regular expression /^\d{4}-\d{2}-\d{2}$/ (no flags, so \d is an ASCII
      digit and $ anchors at the very end): ten characters, digits everywhere
      except the dashes at positions 4 and 7. */
  predicate IsDueDateShape(s: string) {
    && |s| == 10
    && s[4] == '-'
    && s[7] == '-'
    && forall i | 0 <= i < |s| && i != 4 && i != 7 :: IsAsciiDigit(s[i])
  }

  /** What the dueDate check decided about the input's `dueDate` property. */
  datatype DueDateVerdict =
    | NoDueDate                  // undefined or null: nothing to check, nothing logged
    | KeptDueDate(date: string)  // right shape and a valid Date
    | InvalidDate(value: Json)   // right shape, but `new Date` gives NaN
    | BadFormat(value: Json)     // not a string, or not of the right shape

  function CheckDueDate(api: DateApi, p: Option<Json>): DueDateVerdict {
    match p
    case None => NoDueDate
    case Some(JNull) => NoDueDate
    case Some(JStr(s)) =>
      if !IsDueDateShape(s) then BadFormat(JStr(s))
      else if IsValidDateString(api, s) then KeptDueDate(s)
      else InvalidDate(JStr(s))
    case Some(v) => BadFormat(v)
  }

  /** createdAt must be a string that parses to a valid Date. */
  function ParseCreatedAt(api: DateApi, p: Option<Json>): Option<Instant> {
    match p
    case Some(JStr(s)) => api.parse(s)
    case _ => None
  }

  /** The description: the input's value when truthy, otherwise the empty string. */
  function DescriptionOf(p: Option<Json>): Json {
    if TruthyProp(p) then p.value else JStr("")
  }

  /** One normalisation: the record (None for the source's `null`), the flag
      after the call, and whether this call emitted the diagnostic log. */
  datatype Normalized = Normalized(todo: Option<Todo>, warned: bool, logged: bool)

  // ---------------------------------------------------------------------------
  // Reference description of the outcome, independent of the control flow.

  /** The required fields: an object with truthy `id` and `title`, a boolean
      `completed`, and a `createdAt` string that the Date constructor accepts. */
  predicate Acceptable(api: DateApi, v: Json) {
    && v.JObj?
    && "id" in v.fields && Truthy(v.fields["id"])
    && "title" in v.fields && Truthy(v.fields["title"])
    && "completed" in v.fields && v.fields["completed"].JBool?
    && "createdAt" in v.fields && v.fields["createdAt"].JStr?
    && IsValidDateString(api, v.fields["createdAt"].s)
  }

  /** A `dueDate` property the record keeps. */
  predicate UsableDueDate(api: DateApi, p: Option<Json>) {
    p.Some? && p.value.JStr? && IsDueDateShape(p.value.s) && IsValidDateString(api, p.value.s)
  }

  /** A `dueDate` property that is present, not null, and not usable. */
  predicate MalformedDueDate(api: DateApi, p: Option<Json>) {
    p.Some? && !p.value.JNull? && !UsableDueDate(api, p)
  }

  /** An accepted input whose dueDate is dropped as malformed: the case that
      asks for the one-shot diagnostic. */
  predicate WarnsAbout(api: DateApi, v: Json) {
    Acceptable(api, v) && MalformedDueDate(api, Prop(v, "dueDate"))
  }

  function Normalize(api: DateApi, v: Json, warned: bool, dev: bool): (r: Normalized)
    // Rejection and acceptance.
    ensures r.todo.Some? <==> Acceptable(api, v)
    // Field copying and coercion on success.
    ensures r.todo.Some? ==>
      && r.todo.value.id == v.fields["id"]
      && r.todo.value.title == v.fields["title"]
      && r.todo.value.completed == v.fields["completed"].b
      && Some(r.todo.value.createdAt) == api.parse(v.fields["createdAt"].s)
      && r.todo.value.description ==
           (if "description" in v.fields && Truthy(v.fields["description"])
            then v.fields["description"] else JStr(""))
    // dueDate leniency: kept exactly when usable, otherwise dropped.
    ensures r.todo.Some? ==>
      if UsableDueDate(api, Prop(v, "dueDate"))
      then r.todo.value.dueDate == Some(v.fields["dueDate"].s)
      else r.todo.value.dueDate == None
    // The one-shot flag: a set flag stays set and silences the log.
    ensures r.warned == (warned || r.logged)
    ensures r.logged <==> !warned && dev && WarnsAbout(api, v)
  {
    if !Truthy(v) || !TypeofObject(v) then
      Normalized(None, warned, false)
    else if !TruthyProp(Prop(v, "id")) || !TruthyProp(Prop(v, "title"))
         || !(Prop(v, "completed").Some? && Prop(v, "completed").value.JBool?) then
      Normalized(None, warned, false)
    else
      match ParseCreatedAt(api, Prop(v, "createdAt"))
      case None => Normalized(None, warned, false)
      case Some(createdAt) =>
        var due := CheckDueDate(api, Prop(v, "dueDate"));
        var logged := (due.InvalidDate? || due.BadFormat?) && !warned && dev;
        var todo := Todo(
          Prop(v, "id").value,
          Prop(v, "title").value,
          DescriptionOf(Prop(v, "description")),
          Prop(v, "completed").value.b,
          createdAt,
          if due.KeptDueDate? then Some(due.date) else None);
        Normalized(Some(todo), warned || logged, logged)
  }

  /** The record Normalize yields, which does not depend on the flag or the mode. */
  function Verdict(api: DateApi, v: Json): Option<Todo> {
    Normalize(api, v, true, false).todo
  }

  lemma ResultIgnoresFlag(api: DateApi, v: Json, warned: bool, dev: bool)
    ensures Normalize(api, v, warned, dev).todo == Verdict(api, v)
  {
  }

  /** Replacing, adding or removing the dueDate property never changes whether
      a record is returned, nor any field but dueDate. */
  lemma DueDateNeverRejects(api: DateApi, v: Json, d: Option<Json>, warned: bool, dev: bool)
    requires v.JObj?
    ensures var v' := if d.Some? then JObj(v.fields["dueDate" := d.value]) else JObj(v.fields - {"dueDate"});
      var r, r' := Normalize(api, v, warned, dev), Normalize(api, v', warned, dev);
      && (r'.todo.Some? <==> r.todo.Some?)
      && (r.todo.Some? ==> r'.todo.value == r.todo.value.(dueDate := r'.todo.value.dueDate))
  {
  }

  /** Properties other than the six the normaliser reads make no difference. */
  lemma OtherPropertiesIgnored(api: DateApi, v: Json, key: string, x: Json, warned: bool, dev: bool)
    requires v.JObj?
    requires key !in {"id", "title", "description", "completed", "createdAt", "dueDate"}
    ensures Normalize(api, JObj(v.fields[key := x]), warned, dev) == Normalize(api, v, warned, dev)
  {
  }
}
